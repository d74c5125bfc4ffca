/** Whole runs of the gate: the debounce cache against the history of calls, the rate it enforces,
    and the budget alert. */
module GateHistory {
  import opened Common
  import opened Gate

  /** One operation on the shared gate. `Abandon` is a handler that raised: the gate is not told. */
  datatype Step =
    | Ask(call: Call)
    | Record(moduleName: string, cost: real)
    | Abandon(moduleName: string)
    | Reset
    | SetSafeMode(on: bool)

  function Apply(cfg: Config, g: GateState, s: Step): GateState {
    match s
    case Ask(c) => Asked(cfg, g, c)
    case Record(m, cost) => Recorded(cfg, g, m, cost)
    case Abandon(_) => g
    case Reset => ResetDaily(g)
    case SetSafeMode(on) => g.(safeMode := on)
  }

  /** The gate after the first `n` steps. */
  function StateAt(cfg: Config, g0: GateState, steps: seq<Step>, n: nat): GateState
    requires n <= |steps|
  {
    if n == 0 then g0 else Apply(cfg, StateAt(cfg, g0, steps, n - 1), steps[n - 1])
  }

  predicate IsCall(steps: seq<Step>, i: nat) {
    i < |steps| && steps[i].Ask? && steps[i].call.enabled
  }

  predicate Stamped(cfg: Config, g0: GateState, steps: seq<Step>, i: nat)
    requires i < |steps|
  {
    IsCall(steps, i)
    && DebouncePasses(cfg, StateAt(cfg, g0, steps, i), KeyOf(steps[i].call), steps[i].call.now)
  }

  predicate Accepted(cfg: Config, g0: GateState, steps: seq<Step>, i: nat)
    requires i < |steps|
  {
    steps[i].Ask? && Accepts(cfg, StateAt(cfg, g0, steps, i), steps[i].call)
  }

  /** No reset strictly between steps `i` and `j`. */
  predicate NoReset(steps: seq<Step>, i: nat, j: nat)
    requires j <= |steps|
  {
    forall k :: i < k < j ==> !steps[k].Reset?
  }

  /** `i` is an earlier call with the key of call `j`, in the same day. */
  predicate Rivals(steps: seq<Step>, i: nat, j: nat) {
    i < j && IsCall(steps, i) && IsCall(steps, j)
    && KeyOf(steps[i].call) == KeyOf(steps[j].call) && NoReset(steps, i, j)
  }

  ghost predicate FarFromRivals(cfg: Config, steps: seq<Step>, kept: set<nat>, i: nat)
    requires IsCall(steps, i)
  {
    forall j: nat | j in kept && Rivals(steps, j, i) ::
      steps[i].call.now - steps[j].call.now >= cfg.debounce
  }

  /** The reference: `kept` is the greedy filter of the calls, dropped ones included. A call is kept
      exactly when every kept rival before it is at least the debounce interval older. */
  ghost predicate GreedyFilter(cfg: Config, steps: seq<Step>, kept: set<nat>) {
    (forall i | i in kept :: IsCall(steps, i))
    && forall i: nat | IsCall(steps, i) :: i in kept <==> FarFromRivals(cfg, steps, kept, i)
  }

  function Stamps(cfg: Config, g0: GateState, steps: seq<Step>): set<nat> {
    set i: nat | i < |steps| && Stamped(cfg, g0, steps, i)
  }

  /** Stamp `j` of `key` is still in force before step `n`. */
  predicate LiveStamp(cfg: Config, g0: GateState, steps: seq<Step>, key: string, j: nat, n: nat)
    requires n <= |steps|
  {
    j < n && Stamped(cfg, g0, steps, j) && KeyOf(steps[j].call) == key && NoReset(steps, j, n)
  }

  /** The cache entry of a key is the reading of its latest live stamp. */
  ghost predicate CacheIsLatest(cfg: Config, g0: GateState, steps: seq<Step>, key: string, n: nat)
    requires n <= |steps|
  {
    var cache := StateAt(cfg, g0, steps, n).cache;
    (key in cache ==>
       exists j: nat :: LiveStamp(cfg, g0, steps, key, j, n) && steps[j].call.now == cache[key])
    && forall j: nat | LiveStamp(cfg, g0, steps, key, j, n) :: key in cache && steps[j].call.now <= cache[key]
  }

  /** The live stamps after one more step: the new one, and the old ones unless it was a reset. */
  lemma LiveNext(cfg: Config, g0: GateState, steps: seq<Step>, key: string, j: nat, n: nat)
    requires n < |steps|
    ensures LiveStamp(cfg, g0, steps, key, j, n + 1) <==>
      (j == n && Stamped(cfg, g0, steps, n) && KeyOf(steps[n].call) == key)
      || (LiveStamp(cfg, g0, steps, key, j, n) && !steps[n].Reset?)
  {
    if j < n {
      assert NoReset(steps, j, n + 1) <==> NoReset(steps, j, n) && !steps[n].Reset?;
    }
  }

  lemma CacheNext(cfg: Config, g0: GateState, steps: seq<Step>, key: string, n: nat)
    requires n < |steps| && CacheIsLatest(cfg, g0, steps, key, n)
    ensures CacheIsLatest(cfg, g0, steps, key, n + 1)
  {
    var before, after := StateAt(cfg, g0, steps, n).cache, StateAt(cfg, g0, steps, n + 1).cache;
    forall j: nat {
      LiveNext(cfg, g0, steps, key, j, n);
    }
    if Stamped(cfg, g0, steps, n) && KeyOf(steps[n].call) == key {
      assert LiveStamp(cfg, g0, steps, key, n, n + 1);
    } else if key in after {
      assert after[key] == before[key];
      var j: nat :| LiveStamp(cfg, g0, steps, key, j, n) && steps[j].call.now == before[key];
      assert LiveStamp(cfg, g0, steps, key, j, n + 1);
    }
  }

  lemma {:induction false} CacheHoldsLatestStamp(cfg: Config, g0: GateState, steps: seq<Step>, key: string, n: nat)
    requires n <= |steps| && g0.cache == map[]
    ensures CacheIsLatest(cfg, g0, steps, key, n)
  {
    if n > 0 {
      CacheHoldsLatestStamp(cfg, g0, steps, key, n - 1);
      CacheNext(cfg, g0, steps, key, n - 1);
    }
  }

  /** After any run from an empty cache, the stamps are the greedy debounce filter of all calls since
      reset, the cache is the latest stamp of each key, and every accepted call is a stamp. */
  lemma CacheRefinesHistory(cfg: Config, g0: GateState, steps: seq<Step>)
    requires g0.cache == map[]
    ensures GreedyFilter(cfg, steps, Stamps(cfg, g0, steps))
    ensures forall key :: CacheIsLatest(cfg, g0, steps, key, |steps|)
    ensures forall i: nat | i < |steps| && Accepted(cfg, g0, steps, i) :: i in Stamps(cfg, g0, steps)
  {
    var kept := Stamps(cfg, g0, steps);
    forall i: nat | IsCall(steps, i)
      ensures i in kept <==> FarFromRivals(cfg, steps, kept, i)
    {
      var key := KeyOf(steps[i].call);
      CacheHoldsLatestStamp(cfg, g0, steps, key, i);
      var cache := StateAt(cfg, g0, steps, i).cache;
      forall j: nat
        ensures j in kept && Rivals(steps, j, i) <==> LiveStamp(cfg, g0, steps, key, j, i)
      {
      }
      if key in cache {
        var j: nat :| LiveStamp(cfg, g0, steps, key, j, i) && steps[j].call.now == cache[key];
        assert j in kept && Rivals(steps, j, i);
      }
    }
    forall key
      ensures CacheIsLatest(cfg, g0, steps, key, |steps|)
    {
      CacheHoldsLatestStamp(cfg, g0, steps, key, |steps|);
    }
  }

  /** The history has only one greedy filter, so the reference determines the stamps. */
  lemma {:induction false} GreedyFilterUnique(cfg: Config, steps: seq<Step>, a: set<nat>, b: set<nat>, n: nat)
    requires GreedyFilter(cfg, steps, a) && GreedyFilter(cfg, steps, b)
    ensures forall i: nat | i < n :: i in a <==> i in b
  {
    if n > 0 {
      GreedyFilterUnique(cfg, steps, a, b, n - 1);
      if IsCall(steps, n - 1) {
        assert FarFromRivals(cfg, steps, a, n - 1) <==> FarFromRivals(cfg, steps, b, n - 1);
      }
    }
  }

  /** A set of calls is the greedy filter of the history if and only if it is the gate's stamps. */
  lemma GreedyFilterIsStamps(cfg: Config, g0: GateState, steps: seq<Step>, kept: set<nat>)
    requires g0.cache == map[]
    ensures GreedyFilter(cfg, steps, kept) <==> kept == Stamps(cfg, g0, steps)
  {
    CacheRefinesHistory(cfg, g0, steps);
    if GreedyFilter(cfg, steps, kept) {
      GreedyFilterUnique(cfg, steps, kept, Stamps(cfg, g0, steps), |steps|);
      assert forall i: nat :: i in kept ==> IsCall(steps, i);
      assert forall i: nat :: i in kept <==> i in Stamps(cfg, g0, steps);
    }
  }

  /** Two stamps of one key in the same day are a full debounce interval apart, in call order and
      with no assumption on the clock. */
  lemma StampsAreSpaced(cfg: Config, g0: GateState, steps: seq<Step>, i: nat, j: nat)
    requires g0.cache == map[]
    requires i in Stamps(cfg, g0, steps) && j in Stamps(cfg, g0, steps) && Rivals(steps, i, j)
    ensures steps[j].call.now - steps[i].call.now >= cfg.debounce
  {
    CacheRefinesHistory(cfg, g0, steps);
  }

  /** A stamp silences its key for the debounce interval, whatever became of the call that left it: a
      call dropped for safe mode, budget or rate blocks the next one like an accepted call does. */
  lemma StampSilencesKey(cfg: Config, g0: GateState, steps: seq<Step>, i: nat, j: nat)
    requires g0.cache == map[] && j < |steps|
    requires i in Stamps(cfg, g0, steps) && Rivals(steps, i, j)
    requires steps[j].call.now - steps[i].call.now < cfg.debounce
    ensures j !in Stamps(cfg, g0, steps) && !Accepted(cfg, g0, steps, j)
  {
    CacheRefinesHistory(cfg, g0, steps);
  }

  // ----- Counters -----

  /** Records of a module since the last reset. */
  function RecordsToday(steps: seq<Step>, m: string, n: nat): nat
    requires n <= |steps|
  {
    if n == 0 || steps[n - 1].Reset? then 0
    else RecordsToday(steps, m, n - 1) + if steps[n - 1].Record? && steps[n - 1].moduleName == m then 1 else 0
  }

  function CostToday(steps: seq<Step>, n: nat): real
    requires n <= |steps|
  {
    if n == 0 || steps[n - 1].Reset? then 0.0
    else CostToday(steps, n - 1) + if steps[n - 1].Record? then steps[n - 1].cost else 0.0
  }

  /** The last switch among the first `n` steps, or the initial setting; resets do not touch it. */
  function LastSwitch(steps: seq<Step>, initial: bool, n: nat): bool
    requires n <= |steps|
  {
    if n == 0 then initial
    else if steps[n - 1].SetSafeMode? then steps[n - 1].on
    else LastSwitch(steps, initial, n - 1)
  }

  /** After any run each count is the number of records of its module since reset, the cost is the sum
      of their costs, and safe mode is what the last switch made it. */
  lemma {:induction false} CountersAreTodaysRecords(cfg: Config, g0: GateState, steps: seq<Step>, m: string, n: nat)
    requires n <= |steps| && g0.counts == map[] && g0.cost == 0.0
    ensures StateAt(cfg, g0, steps, n).Count(m) == RecordsToday(steps, m, n)
    ensures StateAt(cfg, g0, steps, n).cost == CostToday(steps, n)
    ensures StateAt(cfg, g0, steps, n).safeMode == LastSwitch(steps, g0.safeMode, n)
  {
    if n > 0 {
      CountersAreTodaysRecords(cfg, g0, steps, m, n - 1);
    }
  }

  // ----- The budget alert -----

  /** Budget alerts that came due since the last reset. */
  function AlertsToday(cfg: Config, g0: GateState, steps: seq<Step>, n: nat): nat
    requires n <= |steps|
  {
    if n == 0 || steps[n - 1].Reset? then 0
    else
      AlertsToday(cfg, g0, steps, n - 1)
      + if steps[n - 1].Record? && AlertDue(cfg, StateAt(cfg, g0, steps, n - 1), steps[n - 1].cost) then 1 else 0
  }

  /** Step `i` is a record that left the daily cost at or above the alert threshold. */
  predicate Crosses(cfg: Config, g0: GateState, steps: seq<Step>, i: nat)
    requires i < |steps|
  {
    steps[i].Record? && StateAt(cfg, g0, steps, i + 1).cost >= cfg.budget * cfg.alertPct
  }

  /** Some record since the last reset did. */
  ghost predicate CrossedToday(cfg: Config, g0: GateState, steps: seq<Step>, n: nat)
    requires n <= |steps|
  {
    exists i: nat :: i < n && Crosses(cfg, g0, steps, i) && NoReset(steps, i, n)
  }

  lemma CrossedNext(cfg: Config, g0: GateState, steps: seq<Step>, n: nat)
    requires n < |steps|
    ensures CrossedToday(cfg, g0, steps, n + 1)
       <==> Crosses(cfg, g0, steps, n) || (CrossedToday(cfg, g0, steps, n) && !steps[n].Reset?)
  {
    if CrossedToday(cfg, g0, steps, n + 1) {
      var i: nat :| i < n + 1 && Crosses(cfg, g0, steps, i) && NoReset(steps, i, n + 1);
      assert i < n ==> !steps[n].Reset? && NoReset(steps, i, n);
    }
    if CrossedToday(cfg, g0, steps, n) && !steps[n].Reset? {
      var i: nat :| i < n && Crosses(cfg, g0, steps, i) && NoReset(steps, i, n);
      assert NoReset(steps, i, n + 1);
    }
    assert NoReset(steps, n, n + 1);
  }

  /** The alert comes due once a day if the threshold is ever reached, and otherwise not at all. */
  lemma {:induction false} AlertOncePerDay(cfg: Config, g0: GateState, steps: seq<Step>, n: nat)
    requires n <= |steps| && !g0.alertFired
    ensures AlertsToday(cfg, g0, steps, n) == if CrossedToday(cfg, g0, steps, n) then 1 else 0
    ensures StateAt(cfg, g0, steps, n).alertFired <==> CrossedToday(cfg, g0, steps, n)
  {
    if n > 0 {
      AlertOncePerDay(cfg, g0, steps, n - 1);
      CrossedNext(cfg, g0, steps, n - 1);
    }
  }

  // ----- Verdicts from history -----

  /** The gate starts a day with nothing counted. */
  predicate Clean(g: GateState) {
    g.cache == map[] && g.counts == map[] && g.cost == 0.0
  }

  /** The module a call is charged to: the one it names, else the one its type is mapped to, else unknown. */
  predicate ChargedTo(cfg: Config, c: Call, m: string) {
    var named := c.moduleName.Some? && c.moduleName != Some("");
    && (named ==> c.moduleName == Some(m))
    && (!named && c.eventType in cfg.modules ==> cfg.modules[c.eventType] == m)
    && (!named && c.eventType !in cfg.modules ==> m == "unknown")
  }

  /** `n` executions are below the module's own cap, or below the general one when it has none. */
  predicate BelowCap(cfg: Config, m: string, n: nat) {
    && (m in cfg.limits ==> n < cfg.limits[m])
    && (m !in cfg.limits ==> n < cfg.defaultLimit)
  }

  predicate CriticalEnough(cfg: Config, steps: seq<Step>, safe: bool, m: string, i: nat)
    requires i < |steps|
  {
    LastSwitch(steps, safe, i) ==> m in cfg.criticalModules
  }

  /** Every check but the debounce one, read off the steps before call `i`. */
  predicate OtherwiseClear(cfg: Config, steps: seq<Step>, safe: bool, m: string, i: nat)
    requires i < |steps| && steps[i].Ask?
  {
    && steps[i].call.enabled && steps[i].call.eventType in cfg.allowed
    && CriticalEnough(cfg, steps, safe, m, i)
    && CostToday(steps, i) < cfg.budget && BelowCap(cfg, m, RecordsToday(steps, m, i))
  }

  /** The reading of the latest stamp of call `i`'s key in its day, seen `elapsed` before. */
  ghost predicate LatestRival(steps: seq<Step>, kept: set<nat>, i: nat, elapsed: int)
    requires IsCall(steps, i)
  {
    && (exists j :: j in kept && Rivals(steps, j, i) && elapsed == steps[i].call.now - steps[j].call.now)
    && (forall j :: j in kept && Rivals(steps, j, i) ==> elapsed <= steps[i].call.now - steps[j].call.now)
  }

  lemma DebouncedBy(cfg: Config, g0: GateState, steps: seq<Step>, i: nat)
    requires g0.cache == map[] && IsCall(steps, i) && !Stamped(cfg, g0, steps, i)
    ensures
      var cache, key := StateAt(cfg, g0, steps, i).cache, KeyOf(steps[i].call);
      key in cache && LatestRival(steps, Stamps(cfg, g0, steps), i, steps[i].call.now - cache[key])
  {
    var key := KeyOf(steps[i].call);
    var cache := StateAt(cfg, g0, steps, i).cache;
    CacheHoldsLatestStamp(cfg, g0, steps, key, i);
    var j: nat :| LiveStamp(cfg, g0, steps, key, j, i) && steps[j].call.now == cache[key];
    assert Rivals(steps, j, i);
    forall k | k in Stamps(cfg, g0, steps) && Rivals(steps, k, i)
      ensures LiveStamp(cfg, g0, steps, key, k, i)
    {
    }
  }

  /** The checks before the debounce one, on what the gate holds. */
  predicate Passes(cfg: Config, g: GateState, c: Call, m: string) {
    && c.enabled && c.eventType in cfg.allowed && (g.safeMode ==> m in cfg.criticalModules)
    && g.cost < cfg.budget && BelowCap(cfg, m, g.Count(m))
  }

  lemma VerdictOfState(cfg: Config, g: GateState, c: Call, m: string)
    requires ChargedTo(cfg, c, m)
    ensures
      var verdict := Decide(cfg, g, c);
      var allowed, critical := c.eventType in cfg.allowed, g.safeMode ==> m in cfg.criticalModules;
      && (verdict == Dropped(FlowDisabled) <==> !c.enabled)
      && (verdict == Dropped(NotInAllowlist) <==> c.enabled && !allowed)
      && (verdict == Dropped(SafeModeNonCritical) <==> c.enabled && allowed && !critical)
      && (verdict == Dropped(BudgetExceeded) <==> c.enabled && allowed && critical && g.cost >= cfg.budget)
      && (verdict == Dropped(RateLimitHit(m)) <==>
            c.enabled && allowed && critical && g.cost < cfg.budget && !BelowCap(cfg, m, g.Count(m)))
      && (verdict.Dropped? && verdict.reason.Debounced? <==>
            Passes(cfg, g, c, m) && !DebouncePasses(cfg, g, KeyOf(c), c.now))
      && (verdict.Dropped? && verdict.reason.Debounced? ==>
            KeyOf(c) in g.cache && verdict.reason.elapsed == c.now - g.cache[KeyOf(c)])
      && (verdict == Allowed <==> Passes(cfg, g, c, m) && DebouncePasses(cfg, g, KeyOf(c), c.now))
  {
  }

  lemma StateOfHistory(cfg: Config, g0: GateState, steps: seq<Step>, m: string, i: nat)
    requires Clean(g0) && i < |steps| && steps[i].Ask?
    ensures
      var g := StateAt(cfg, g0, steps, i);
      && g.safeMode == LastSwitch(steps, g0.safeMode, i) && g.cost == CostToday(steps, i)
      && g.Count(m) == RecordsToday(steps, m, i)
      && (Passes(cfg, g, steps[i].call, m) <==> OtherwiseClear(cfg, steps, g0.safeMode, m, i))
  {
    CountersAreTodaysRecords(cfg, g0, steps, m, i);
  }

  lemma StampedIsKept(cfg: Config, g0: GateState, steps: seq<Step>, kept: set<nat>, i: nat)
    requires g0.cache == map[] && GreedyFilter(cfg, steps, kept) && IsCall(steps, i)
    ensures i in kept
       <==> DebouncePasses(cfg, StateAt(cfg, g0, steps, i), KeyOf(steps[i].call), steps[i].call.now)
  {
    GreedyFilterIsStamps(cfg, g0, steps, kept);
  }

  /** A call is let in if and only if the history says so: the flow is enabled and the type allowed, safe
      mode is off or the module critical, the day's cost is below the budget, the module's executions of the
      day are below its cap, and the call is in the greedy debounce filter of all calls. */
  lemma AcceptedExactly(cfg: Config, g0: GateState, steps: seq<Step>, kept: set<nat>, m: string, i: nat)
    requires Clean(g0) && GreedyFilter(cfg, steps, kept)
    requires i < |steps| && steps[i].Ask? && ChargedTo(cfg, steps[i].call, m)
    ensures Accepted(cfg, g0, steps, i) <==> OtherwiseClear(cfg, steps, g0.safeMode, m, i) && i in kept
  {
    var c := steps[i].call;
    VerdictOfState(cfg, StateAt(cfg, g0, steps, i), c, m);
    StateOfHistory(cfg, g0, steps, m, i);
    if c.enabled {
      StampedIsKept(cfg, g0, steps, kept, i);
    }
  }

  /** Which reason a dropped call is given: the first check that fails, read off the history. A debounced
      call is told how long ago the latest stamp of its key was. */
  lemma DropReasonExactly(cfg: Config, g0: GateState, steps: seq<Step>, kept: set<nat>, m: string, i: nat)
    requires Clean(g0) && GreedyFilter(cfg, steps, kept)
    requires i < |steps| && steps[i].Ask? && ChargedTo(cfg, steps[i].call, m)
    ensures
      var c := steps[i].call;
      var verdict := Decide(cfg, StateAt(cfg, g0, steps, i), c);
      var critical := CriticalEnough(cfg, steps, g0.safeMode, m, i);
      && (verdict == Dropped(FlowDisabled) <==> !c.enabled)
      && (verdict == Dropped(NotInAllowlist) <==> c.enabled && c.eventType !in cfg.allowed)
      && (verdict == Dropped(SafeModeNonCritical) <==> c.enabled && c.eventType in cfg.allowed && !critical)
      && (verdict == Dropped(BudgetExceeded) <==>
            c.enabled && c.eventType in cfg.allowed && critical && CostToday(steps, i) >= cfg.budget)
      && (verdict == Dropped(RateLimitHit(m)) <==>
            c.enabled && c.eventType in cfg.allowed && critical && CostToday(steps, i) < cfg.budget
            && !BelowCap(cfg, m, RecordsToday(steps, m, i)))
      && (verdict.Dropped? && verdict.reason.Debounced? <==>
            OtherwiseClear(cfg, steps, g0.safeMode, m, i) && i !in kept)
      && (verdict.Dropped? && verdict.reason.Debounced? ==> LatestRival(steps, kept, i, verdict.reason.elapsed))
  {
    hide Decide, GreedyFilter, StateAt, ChargedTo, BelowCap, LatestRival, Stamps;
    var c := steps[i].call;
    VerdictOfState(cfg, StateAt(cfg, g0, steps, i), c, m);
    StateOfHistory(cfg, g0, steps, m, i);
    if c.enabled {
      StampedIsKept(cfg, g0, steps, kept, i);
      if i !in kept {
        GreedyFilterIsStamps(cfg, g0, steps, kept);
        DebouncedBy(cfg, g0, steps, i);
      }
    }
  }
}
