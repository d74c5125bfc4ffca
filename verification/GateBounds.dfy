/** What the gate guarantees over any run: how often one key gets through, and how far the daily
    cost and the per-module counts can overshoot while executions are in flight. */
module GateBounds {
  import opened Gate
  import opened GateHistory
  import Common

  // ----- Debounce rate -----

  predicate AcceptedFor(cfg: Config, g0: GateState, steps: seq<Step>, key: string, i: nat)
    requires i < |steps|
  {
    Accepted(cfg, g0, steps, i) && KeyOf(steps[i].call) == key
  }

  function AcceptedCalls(cfg: Config, g0: GateState, steps: seq<Step>, key: string, n: nat): nat
    requires n <= |steps|
  {
    if n == 0 then 0
    else AcceptedCalls(cfg, g0, steps, key, n - 1) + if AcceptedFor(cfg, g0, steps, key, n - 1) then 1 else 0
  }

  function Resets(steps: seq<Step>, n: nat): nat
    requires n <= |steps|
  {
    if n == 0 then 0 else Resets(steps, n - 1) + if steps[n - 1].Reset? then 1 else 0
  }

  /** The clock read by the calls never goes back. */
  ghost predicate Monotone(steps: seq<Step>) {
    forall i: nat, j: nat | i < j && IsCall(steps, i) && IsCall(steps, j) :: steps[i].call.now <= steps[j].call.now
  }

  /** It stays in [lo, hi] as well. */
  ghost predicate ClockWithin(steps: seq<Step>, lo: int, hi: int) {
    Monotone(steps) && forall i: nat | IsCall(steps, i) :: lo <= steps[i].call.now <= hi
  }

  lemma DivideBound(x: int, d: int, w: int)
    requires d > 0 && x * d <= w
    ensures x <= w / d
  {
    var y := x - w / d;
    assert y * d == x * d - w / d * d <= w % d < d;
    assert y >= 1 ==> y * d >= d;
  }

  lemma DivideBoundPlus(a: int, r: int, d: int, w: int)
    requires d > 0 && a * d <= w + d * (1 + r)
    ensures a <= w / d + 1 + r
  {
    assert (a - 1 - r) * d == a * d - d * (1 + r);
    DivideBound(a - 1 - r, d, w);
  }

  /** `a` accepted calls of `key` so far, `r` resets, the latest reading `latest`: the time that must
      have passed since `lo`. */
  predicate RateHeld(d: nat, cache: map<string, int>, key: string, lo: int, latest: int, a: nat, r: nat) {
    a == 0 ||
    if key in cache then cache[key] <= latest && a * d <= cache[key] - lo + d * (1 + r)
    else a * d <= latest - lo + d * r
  }

  lemma RateStep(
    cfg: Config, g: GateState, s: Step, key: string, lo: int, latest: int, latest': int, a: nat, r: nat)
    requires RateHeld(cfg.debounce, g.cache, key, lo, latest, a, r)
    requires lo <= latest <= latest' && (s.Ask? && s.call.enabled ==> s.call.now == latest')
    ensures
      var a' := if s.Ask? && Accepts(cfg, g, s.call) && KeyOf(s.call) == key then a + 1 else a;
      RateHeld(cfg.debounce, Apply(cfg, g, s).cache, key, lo, latest', a', if s.Reset? then r + 1 else r)
  {
    var d := cfg.debounce;
    assert (a + 1) * d == a * d + d && d * (1 + (r + 1)) == d * (1 + r) + d && d * (1 + r) == d * r + d;
    assert d * r >= 0;
  }

  lemma {:induction false} RateInvariant(
    cfg: Config, g0: GateState, steps: seq<Step>, key: string, lo: int, hi: int, n: nat)
    returns (latest: int)
    requires n <= |steps| && lo <= hi && ClockWithin(steps, lo, hi)
    ensures lo <= latest <= hi && forall i: nat | n <= i && IsCall(steps, i) :: latest <= steps[i].call.now
    ensures RateHeld(cfg.debounce, StateAt(cfg, g0, steps, n).cache, key, lo, latest,
                     AcceptedCalls(cfg, g0, steps, key, n), Resets(steps, n))
  {
    latest := lo;
    if n > 0 {
      var before := RateInvariant(cfg, g0, steps, key, lo, hi, n - 1);
      latest := if IsCall(steps, n - 1) then steps[n - 1].call.now else before;
      RateStep(cfg, StateAt(cfg, g0, steps, n - 1), steps[n - 1], key, lo, before, latest,
               AcceptedCalls(cfg, g0, steps, key, n - 1), Resets(steps, n - 1));
    }
  }

  /** A run from any gate state, whose clock never goes back and stays in [lo, hi] and which holds `r`
      resets, accepts one key at most floor((hi - lo) / debounce) + 1 + r times. */
  lemma DebounceRateBound(cfg: Config, g0: GateState, steps: seq<Step>, key: string, lo: int, hi: int)
    requires cfg.debounce > 0 && lo <= hi && ClockWithin(steps, lo, hi)
    ensures AcceptedCalls(cfg, g0, steps, key, |steps|) <= (hi - lo) / cfg.debounce + 1 + Resets(steps, |steps|)
  {
    var latest := RateInvariant(cfg, g0, steps, key, lo, hi, |steps|);
    var a, r := AcceptedCalls(cfg, g0, steps, key, |steps|), Resets(steps, |steps|);
    if a > 0 {
      assert cfg.debounce * (1 + r) == cfg.debounce * r + cfg.debounce;
      DivideBoundPlus(a, r, cfg.debounce, hi - lo);
    } else {
      DivideBound(0, cfg.debounce, hi - lo);
    }
  }

  /** Accepted calls of `key` whose clock reading falls in [lo, hi]. */
  function AcceptedInWindow(cfg: Config, g0: GateState, steps: seq<Step>, key: string, lo: int, hi: int, n: nat): nat
    requires n <= |steps|
  {
    if n == 0 then 0
    else
      AcceptedInWindow(cfg, g0, steps, key, lo, hi, n - 1)
      + if AcceptedFor(cfg, g0, steps, key, n - 1) && lo <= steps[n - 1].call.now <= hi then 1 else 0
  }

  predicate WindowHeld(d: nat, cache: map<string, int>, key: string, lo: int, hi: int, a: int) {
    a == 0 || (a > 0 && key in cache && lo <= cache[key]
               && (a - 1) * d <= (if cache[key] <= hi then cache[key] else hi) - lo)
  }

  lemma WindowStep(cfg: Config, g: GateState, s: Step, key: string, lo: int, hi: int, a: int)
    requires WindowHeld(cfg.debounce, g.cache, key, lo, hi, a) && !s.Reset?
    ensures
      var counts := s.Ask? && Accepts(cfg, g, s.call) && KeyOf(s.call) == key && lo <= s.call.now <= hi;
      WindowHeld(cfg.debounce, Apply(cfg, g, s).cache, key, lo, hi, if counts then a + 1 else a)
  {
    assert a * cfg.debounce == (a - 1) * cfg.debounce + cfg.debounce;
  }

  lemma {:induction false} WindowInvariant(
    cfg: Config, g0: GateState, steps: seq<Step>, key: string, lo: int, hi: int, n: nat)
    requires n <= |steps| && Resets(steps, n) == 0
    ensures WindowHeld(cfg.debounce, StateAt(cfg, g0, steps, n).cache, key, lo, hi,
                       AcceptedInWindow(cfg, g0, steps, key, lo, hi, n))
  {
    if n > 0 {
      WindowInvariant(cfg, g0, steps, key, lo, hi, n - 1);
      WindowStep(cfg, StateAt(cfg, g0, steps, n - 1), steps[n - 1], key, lo, hi,
                 AcceptedInWindow(cfg, g0, steps, key, lo, hi, n - 1));
    }
  }

  /** Without a reset the bound needs no assumption on the clock at all: it counts the accepted calls
      whose reading falls in the window, in whatever order they came. */
  lemma DebounceRateBoundAnyClock(cfg: Config, g0: GateState, steps: seq<Step>, key: string, lo: int, hi: int)
    requires cfg.debounce > 0 && lo <= hi && Resets(steps, |steps|) == 0
    ensures AcceptedInWindow(cfg, g0, steps, key, lo, hi, |steps|) <= (hi - lo) / cfg.debounce + 1
  {
    WindowInvariant(cfg, g0, steps, key, lo, hi, |steps|);
    var a := AcceptedInWindow(cfg, g0, steps, key, lo, hi, |steps|);
    if a > 0 {
      DivideBound(a - 1, cfg.debounce, hi - lo);
    } else {
      DivideBound(0, cfg.debounce, hi - lo);
    }
  }

  // ----- The rate in a window of a longer run -----

  predicate CallFrom(steps: seq<Step>, i: nat, lo: int) {
    IsCall(steps, i) && lo <= steps[i].call.now
  }

  predicate CallUpTo(steps: seq<Step>, i: nat, hi: int) {
    IsCall(steps, i) && steps[i].call.now <= hi
  }

  /** The first call that reads at least `lo`, searching from `n`. */
  function WindowStart(steps: seq<Step>, lo: int, n: nat): (a: nat)
    requires n <= |steps|
    ensures n <= a <= |steps| && (a < |steps| ==> CallFrom(steps, a, lo))
    ensures forall i: nat :: n <= i < a ==> !CallFrom(steps, i, lo)
    decreases |steps| - n
  {
    if n == |steps| || CallFrom(steps, n, lo) then n else WindowStart(steps, lo, n + 1)
  }

  /** Just after the last call that reads at most `hi`, searching down from `n`. */
  function WindowEnd(steps: seq<Step>, hi: int, n: nat): (b: nat)
    requires n <= |steps|
    ensures b <= n && (b > 0 ==> CallUpTo(steps, b - 1, hi))
    ensures forall i: nat :: b <= i < n ==> !CallUpTo(steps, i, hi)
  {
    if n == 0 || CallUpTo(steps, n - 1, hi) then n else WindowEnd(steps, hi, n - 1)
  }

  function ResetsBetween(steps: seq<Step>, a: nat, b: nat): nat
    requires a <= b <= |steps|
  {
    Resets(steps[a..b], b - a)
  }

  /** Resets between the first and the last call that read the clock in [lo, hi]. */
  function WindowResets(steps: seq<Step>, lo: int, hi: int): nat {
    var a, b := WindowStart(steps, lo, 0), WindowEnd(steps, hi, |steps|);
    if a <= b then ResetsBetween(steps, a, b) else 0
  }

  /** A stretch of a run is a run from the state it starts in. */
  lemma {:induction false} StretchState(cfg: Config, g0: GateState, steps: seq<Step>, a: nat, b: nat, n: nat)
    requires a <= b <= |steps| && n <= b - a
    ensures StateAt(cfg, StateAt(cfg, g0, steps, a), steps[a..b], n) == StateAt(cfg, g0, steps, a + n)
  {
    if n > 0 {
      StretchState(cfg, g0, steps, a, b, n - 1);
      assert steps[a..b][n - 1] == steps[a + n - 1];
    }
  }

  function Clamp(n: nat, a: nat, b: nat): (r: nat)
    requires a <= b
    ensures a <= r <= b
  {
    if n < a then a else if n > b then b else n
  }

  lemma StretchAccepts(cfg: Config, g0: GateState, steps: seq<Step>, key: string, a: nat, b: nat, i: nat)
    requires a <= i < b <= |steps|
    ensures AcceptedFor(cfg, StateAt(cfg, g0, steps, a), steps[a..b], key, i - a)
       <==> AcceptedFor(cfg, g0, steps, key, i)
  {
    StretchState(cfg, g0, steps, a, b, i - a);
  }

  /** The calls that read the clock in [lo, hi] are those with an index in [a, b). */
  ghost predicate Stretch(steps: seq<Step>, lo: int, hi: int, a: nat, b: nat)
    requires a <= b <= |steps|
  {
    forall i: nat | IsCall(steps, i) :: lo <= steps[i].call.now <= hi <==> a <= i < b
  }

  lemma StretchHolds(
    cfg: Config, g0: GateState, steps: seq<Step>, key: string, lo: int, hi: int, a: nat, b: nat, i: nat)
    requires a <= b <= |steps| && Stretch(steps, lo, hi, a, b) && i < |steps|
    ensures AcceptedFor(cfg, g0, steps, key, i) ==> (lo <= steps[i].call.now <= hi <==> a <= i < b)
  {
    assert AcceptedFor(cfg, g0, steps, key, i) ==> IsCall(steps, i);
  }

  /** Outside the stretch no call counts, so the window count is the stretch's own count. */
  lemma {:induction false} StretchCounts(
    cfg: Config, g0: GateState, steps: seq<Step>, key: string, lo: int, hi: int, a: nat, b: nat, n: nat)
    requires a <= b <= |steps| && Stretch(steps, lo, hi, a, b) && n <= |steps|
    ensures AcceptedInWindow(cfg, g0, steps, key, lo, hi, n)
         == AcceptedCalls(cfg, StateAt(cfg, g0, steps, a), steps[a..b], key, Clamp(n, a, b) - a)
  {
    hide AcceptedFor, Stretch, StateAt;
    if n > 0 {
      StretchCounts(cfg, g0, steps, key, lo, hi, a, b, n - 1);
      StretchHolds(cfg, g0, steps, key, lo, hi, a, b, n - 1);
      if a < n <= b {
        StretchAccepts(cfg, g0, steps, key, a, b, n - 1);
      }
    }
  }

  lemma WindowIsStretch(steps: seq<Step>, lo: int, hi: int, i: nat)
    requires Monotone(steps) && IsCall(steps, i)
    ensures lo <= steps[i].call.now <= hi <==> WindowStart(steps, lo, 0) <= i < WindowEnd(steps, hi, |steps|)
  {
    var a, b := WindowStart(steps, lo, 0), WindowEnd(steps, hi, |steps|);
    assert i < a ==> !CallFrom(steps, i, lo);
    assert i >= b ==> !CallUpTo(steps, i, hi);
    assert a < i ==> steps[a].call.now <= steps[i].call.now;
    assert i + 1 < b ==> steps[i].call.now <= steps[b - 1].call.now;
  }

  lemma StretchClock(steps: seq<Step>, lo: int, hi: int, a: nat, b: nat)
    requires a <= b <= |steps| && Monotone(steps) && Stretch(steps, lo, hi, a, b)
    ensures ClockWithin(steps[a..b], lo, hi)
  {
    var stretch := steps[a..b];
    forall i: nat | IsCall(stretch, i)
      ensures IsCall(steps, a + i) && stretch[i] == steps[a + i]
    {
    }
  }

  lemma StretchRateBound(
    cfg: Config, g0: GateState, steps: seq<Step>, key: string, lo: int, hi: int, a: nat, b: nat)
    requires cfg.debounce > 0 && lo <= hi && a <= b <= |steps| && Monotone(steps) && Stretch(steps, lo, hi, a, b)
    ensures AcceptedInWindow(cfg, g0, steps, key, lo, hi, |steps|)
            <= (hi - lo) / cfg.debounce + 1 + ResetsBetween(steps, a, b)
  {
    StretchCounts(cfg, g0, steps, key, lo, hi, a, b, |steps|);
    StretchClock(steps, lo, hi, a, b);
    DebounceRateBound(cfg, StateAt(cfg, g0, steps, a), steps[a..b], key, lo, hi);
  }

  /** The debounce rate in any time window of any run with a clock that never goes back: calls of one key
      that read the clock in [lo, hi] are accepted at most floor((hi - lo) / debounce) + 1 + r times, with
      `r` the resets inside the window. */
  lemma DebounceRateBoundInWindow(cfg: Config, g0: GateState, steps: seq<Step>, key: string, lo: int, hi: int)
    requires cfg.debounce > 0 && lo <= hi && Monotone(steps)
    ensures AcceptedInWindow(cfg, g0, steps, key, lo, hi, |steps|)
            <= (hi - lo) / cfg.debounce + 1 + WindowResets(steps, lo, hi)
  {
    var a, b := WindowStart(steps, lo, 0), WindowEnd(steps, hi, |steps|);
    forall i: nat | IsCall(steps, i)
      ensures lo <= steps[i].call.now <= hi <==> a <= i < b
    {
      WindowIsStretch(steps, lo, hi, i);
    }
    if a <= b {
      StretchRateBound(cfg, g0, steps, key, lo, hi, a, b);
    } else {
      StretchRateBound(cfg, g0, steps, key, lo, hi, 0, 0);
    }
  }

  // ----- Overshoot -----

  function InFlightAfter(cfg: Config, g: GateState, flight: multiset<string>, s: Step): multiset<string> {
    match s
    case Ask(c) => if Accepts(cfg, g, c) then flight + multiset{ModuleOf(cfg, c)} else flight
    case Record(m, _) => flight - multiset{m}
    case Abandon(m) => flight - multiset{m}
    case Reset => flight
    case SetSafeMode(_) => flight
  }

  /** Modules of accepted executions that were neither recorded nor abandoned yet. */
  function InFlight(cfg: Config, g0: GateState, steps: seq<Step>, n: nat): multiset<string>
    requires n <= |steps|
  {
    if n == 0 then multiset{}
    else InFlightAfter(cfg, StateAt(cfg, g0, steps, n - 1), InFlight(cfg, g0, steps, n - 1), steps[n - 1])
  }

  predicate StepOk(cfg: Config, g: GateState, flight: multiset<string>, s: Step, k: nat, c: real) {
    |InFlightAfter(cfg, g, flight, s)| <= k
    && (s.Record? ==> s.moduleName in flight && 0.0 <= s.cost <= c)
    && (s.Abandon? ==> s.moduleName in flight)
  }

  predicate DisciplinedStep(cfg: Config, g0: GateState, steps: seq<Step>, k: nat, c: real, i: nat)
    requires i < |steps|
  {
    StepOk(cfg, StateAt(cfg, g0, steps, i), InFlight(cfg, g0, steps, i), steps[i], k, c)
  }

  /** At most `k` executions are in flight, each ends at most once and costs between 0 and `c`. */
  predicate Disciplined(cfg: Config, g0: GateState, steps: seq<Step>, k: nat, c: real) {
    forall i: nat | i < |steps| :: DisciplinedStep(cfg, g0, steps, k, c, i)
  }

  lemma MultiplicityAtMostSize(ms: multiset<string>, m: string)
    ensures ms[m] <= |ms|
  {
    assert |ms[m := 0]| == |ms| - ms[m];
  }

  /** The most that `n` executions can still add. */
  function Reserve(c: real, n: nat): (r: real)
    requires c >= 0.0
    ensures r >= 0.0
  {
    if n == 0 then 0.0 else c + Reserve(c, n - 1)
  }

  lemma {:induction false} ReserveMonotone(c: real, a: nat, b: nat)
    requires c >= 0.0 && a <= b
    ensures Reserve(c, a) <= Reserve(c, b)
  {
    if a < b {
      ReserveMonotone(c, a, b - 1);
    }
  }

  lemma {:induction false} ReserveIsProduct(c: real, n: nat)
    requires c >= 0.0
    ensures Reserve(c, n) == c * n as real
  {
    if n > 0 {
      ReserveIsProduct(c, n - 1);
    }
  }

  /** What every step keeps: the cost already spent plus the most the in-flight executions may add. */
  predicate CostHeld(cfg: Config, g: GateState, flight: multiset<string>, k: nat, c: real)
    requires c >= 0.0
  {
    g.cost >= 0.0 && g.cost + Reserve(c, |flight|) < cfg.budget + Reserve(c, k)
  }

  lemma CostStep(cfg: Config, g: GateState, flight: multiset<string>, s: Step, k: nat, c: real)
    requires c >= 0.0 && cfg.budget > 0.0 && StepOk(cfg, g, flight, s, k, c)
    requires CostHeld(cfg, g, flight, k, c)
    ensures CostHeld(cfg, Apply(cfg, g, s), InFlightAfter(cfg, g, flight, s), k, c)
  {
    var after := InFlightAfter(cfg, g, flight, s);
    ReserveMonotone(c, |after|, k);
    if s.Record? || s.Abandon? {
      assert |after| == |flight| - 1;
    }
  }

  lemma CostNext(cfg: Config, g0: GateState, steps: seq<Step>, k: nat, c: real, n: nat)
    requires n < |steps| && DisciplinedStep(cfg, g0, steps, k, c, n) && c >= 0.0 && cfg.budget > 0.0
    requires CostHeld(cfg, StateAt(cfg, g0, steps, n), InFlight(cfg, g0, steps, n), k, c)
    ensures CostHeld(cfg, StateAt(cfg, g0, steps, n + 1), InFlight(cfg, g0, steps, n + 1), k, c)
  {
    CostStep(cfg, StateAt(cfg, g0, steps, n), InFlight(cfg, g0, steps, n), steps[n], k, c);
  }

  lemma DisciplinedHas(cfg: Config, g0: GateState, steps: seq<Step>, k: nat, c: real, i: nat)
    requires Disciplined(cfg, g0, steps, k, c) && i < |steps|
    ensures DisciplinedStep(cfg, g0, steps, k, c, i)
  {
  }

  lemma CostStart(cfg: Config, g0: GateState, steps: seq<Step>, k: nat, c: real)
    requires c >= 0.0 && 0.0 <= g0.cost < cfg.budget
    ensures CostHeld(cfg, StateAt(cfg, g0, steps, 0), InFlight(cfg, g0, steps, 0), k, c)
  {
  }

  lemma {:induction false} CostInvariant(cfg: Config, g0: GateState, steps: seq<Step>, k: nat, c: real, n: nat)
    requires n <= |steps| && Disciplined(cfg, g0, steps, k, c) && c >= 0.0
    requires cfg.budget > 0.0 && 0.0 <= g0.cost < cfg.budget
    ensures CostHeld(cfg, StateAt(cfg, g0, steps, n), InFlight(cfg, g0, steps, n), k, c)
  {
    hide *;
    if n > 0 {
      CostInvariant(cfg, g0, steps, k, c, n - 1);
      DisciplinedHas(cfg, g0, steps, k, c, n - 1);
      CostNext(cfg, g0, steps, k, c, n - 1);
    } else {
      CostStart(cfg, g0, steps, k, c);
    }
  }

  /** The most a module's count can reach in a day with `k` executions in flight. */
  function CountCap(cfg: Config, m: string, k: nat): nat {
    if cfg.Limit(m) >= 1 then cfg.Limit(m) - 1 + k else 0
  }

  lemma CountStep(cfg: Config, g: GateState, flight: multiset<string>, s: Step, k: nat, m: string)
    requires g.Count(m) + flight[m] <= CountCap(cfg, m, k)
    requires |InFlightAfter(cfg, g, flight, s)| <= k
    requires s.Record? ==> s.moduleName in flight
    ensures Apply(cfg, g, s).Count(m) + InFlightAfter(cfg, g, flight, s)[m] <= CountCap(cfg, m, k)
  {
    MultiplicityAtMostSize(InFlightAfter(cfg, g, flight, s), m);
  }

  /** What every step keeps: a module's count plus its executions in flight. */
  predicate CountHeld(cfg: Config, g0: GateState, steps: seq<Step>, k: nat, m: string, n: nat)
    requires n <= |steps|
  {
    StateAt(cfg, g0, steps, n).Count(m) + InFlight(cfg, g0, steps, n)[m] <= CountCap(cfg, m, k)
  }

  lemma CountStart(cfg: Config, g0: GateState, steps: seq<Step>, k: nat, m: string)
    requires g0.counts == map[]
    ensures CountHeld(cfg, g0, steps, k, m, 0)
  {
  }

  lemma CountNext(cfg: Config, g0: GateState, steps: seq<Step>, k: nat, c: real, m: string, n: nat)
    requires n < |steps| && DisciplinedStep(cfg, g0, steps, k, c, n) && CountHeld(cfg, g0, steps, k, m, n)
    ensures CountHeld(cfg, g0, steps, k, m, n + 1)
  {
    CountStep(cfg, StateAt(cfg, g0, steps, n), InFlight(cfg, g0, steps, n), steps[n], k, m);
  }

  lemma {:induction false} CountInvariant(
    cfg: Config, g0: GateState, steps: seq<Step>, k: nat, c: real, m: string, n: nat)
    requires n <= |steps| && Disciplined(cfg, g0, steps, k, c)
    requires g0.counts == map[]
    ensures CountHeld(cfg, g0, steps, k, m, n)
  {
    hide *;
    if n > 0 {
      CountInvariant(cfg, g0, steps, k, c, m, n - 1);
      DisciplinedHas(cfg, g0, steps, k, c, n - 1);
      CountNext(cfg, g0, steps, k, c, m, n - 1);
    } else {
      CountStart(cfg, g0, steps, k, m);
    }
  }

  lemma NoBudgetStep(cfg: Config, g: GateState, s: Step, k: nat, c: real)
    requires cfg.budget <= 0.0 && g.cost == 0.0 && StepOk(cfg, g, multiset{}, s, k, c)
    ensures Apply(cfg, g, s).cost == 0.0 && InFlightAfter(cfg, g, multiset{}, s) == multiset{}
  {
  }

  /** A budget of zero or less admits nothing, so nothing is ever spent. */
  lemma {:induction false} NoBudgetNoCost(cfg: Config, steps: seq<Step>, k: nat, c: real, n: nat)
    requires n <= |steps| && Disciplined(cfg, EMPTY, steps, k, c) && cfg.budget <= 0.0
    ensures StateAt(cfg, EMPTY, steps, n).cost == 0.0 && InFlight(cfg, EMPTY, steps, n) == multiset{}
  {
    if n > 0 {
      NoBudgetNoCost(cfg, steps, k, c, n - 1);
      assert DisciplinedStep(cfg, EMPTY, steps, k, c, n - 1);
      NoBudgetStep(cfg, StateAt(cfg, EMPTY, steps, n - 1), steps[n - 1], k, c);
    }
  }

  /** The overshoot bound: with at most `k` executions in flight, each costing between 0 and `c`, the
      daily cost stays below budget + k*c and a module's count at most its limit - 1 + k. A budget or
      a limit below one admits nothing. */
  lemma OvershootBound(cfg: Config, steps: seq<Step>, k: nat, c: real, m: string, n: nat)
    requires n <= |steps| && Disciplined(cfg, EMPTY, steps, k, c) && c >= 0.0
    ensures
      var g := StateAt(cfg, EMPTY, steps, n);
      && (if cfg.budget > 0.0 then 0.0 <= g.cost < cfg.budget + c * k as real else g.cost == 0.0)
      && (if cfg.Limit(m) >= 1 then g.Count(m) <= cfg.Limit(m) - 1 + k else g.Count(m) == 0)
  {
    if cfg.budget > 0.0 {
      CostInvariant(cfg, EMPTY, steps, k, c, n);
    } else {
      NoBudgetNoCost(cfg, steps, k, c, n);
    }
    CountInvariant(cfg, EMPTY, steps, k, c, m, n);
    ReserveIsProduct(c, k);
  }

  // ----- The count bound is reached -----

  /** The `j`-th call of one key, a full debounce interval after the one before. */
  function Spaced(cfg: Config, eventType: string, m: string, j: nat): Step {
    Ask(Call(true, eventType, Common.None, Common.Some(m), j * cfg.debounce))
  }

  /** Accept and record until one slot is left, then accept `k` at once and record them all. */
  function Burst(cfg: Config, eventType: string, m: string, k: nat): seq<Step>
    requires cfg.Limit(m) >= 1
  {
    var warm := cfg.Limit(m) - 1;
    seq(2 * warm + 2 * k, i requires 0 <= i =>
      if i < 2 * warm then if i % 2 == 0 then Spaced(cfg, eventType, m, i / 2) else Record(m, 0.0)
      else if i < 2 * warm + k then Spaced(cfg, eventType, m, i - warm)
      else Record(m, 0.0))
  }

  /** Calls among the first `n` steps of a burst. */
  function Asks(warm: nat, k: nat, n: nat): nat
    requires n <= 2 * warm + 2 * k
  {
    if n < 2 * warm then (n + 1) / 2 else if n < 2 * warm + k then n - warm else warm + k
  }

  lemma BurstStep(cfg: Config, eventType: string, m: string, k: nat, n: nat)
    requires cfg.Limit(m) >= 1 && k >= 1 && n < |Burst(cfg, eventType, m, k)|
    ensures
      var warm := cfg.Limit(m) - 1;
      var asks := Asks(warm, k, n);
      && n <= 2 * asks && asks <= n && asks - (n - asks) <= k
      && if Asks(warm, k, n + 1) == asks + 1
         then Burst(cfg, eventType, m, k)[n] == Spaced(cfg, eventType, m, asks) && n - asks <= warm
              && asks + 1 - (n - asks) <= k
         else Asks(warm, k, n + 1) == asks && Burst(cfg, eventType, m, k)[n] == Record(m, 0.0) && n - asks < asks
  {
    var warm := cfg.Limit(m) - 1;
    if n < 2 * warm {
      assert n % 2 == 0 ==> (n + 1) / 2 == n / 2 && (n + 2) / 2 == n / 2 + 1;
      assert n % 2 == 1 ==> (n + 2) / 2 == (n + 1) / 2;
    }
  }

  /** The gate after `n` steps of a burst: `asks` calls accepted, the rest of the steps recorded. */
  predicate BurstView(cfg: Config, eventType: string, m: string, g: GateState, asks: nat, done: nat) {
    var key := Key(eventType, Common.None);
    g.cost == 0.0 && !g.safeMode && g.Count(m) == done
    && (if asks == 0 then g.cache == map[] else key in g.cache && g.cache[key] == (asks - 1) * cfg.debounce)
  }

  lemma BurstApply(cfg: Config, eventType: string, m: string, g: GateState, asks: nat, done: nat)
    requires cfg.Limit(m) >= 1 && cfg.budget > 0.0 && eventType in cfg.allowed && m != ""
    requires BurstView(cfg, eventType, m, g, asks, done)
    ensures BurstView(cfg, eventType, m, Apply(cfg, g, Record(m, 0.0)), asks, done + 1)
    ensures done < cfg.Limit(m) ==>
              var s := Spaced(cfg, eventType, m, asks);
              Accepts(cfg, g, s.call) && BurstView(cfg, eventType, m, Apply(cfg, g, s), asks + 1, done)
  {
    assert asks * cfg.debounce - (asks - 1) * cfg.debounce == cfg.debounce;
  }

  lemma BurstFlight(cfg: Config, eventType: string, m: string, k: nat, g: GateState, s: Step, waiting: nat, ok: bool)
    requires m != "" && waiting <= k
    requires if ok then s.Ask? && Accepts(cfg, g, s.call) && ModuleOf(cfg, s.call) == m && waiting < k
             else s == Record(m, 0.0) && waiting > 0
    ensures StepOk(cfg, g, multiset{}[m := waiting], s, k, 0.0)
    ensures InFlightAfter(cfg, g, multiset{}[m := waiting], s)
         == multiset{}[m := if ok then waiting + 1 else waiting - 1]
  {
    var flight := multiset{}[m := waiting];
    assert flight + multiset{m} == multiset{}[m := waiting + 1];
    assert waiting > 0 ==> flight - multiset{m} == multiset{}[m := waiting - 1];
  }

  ghost predicate IsBurst(cfg: Config, eventType: string, m: string, k: nat, steps: seq<Step>) {
    cfg.Limit(m) >= 1 && cfg.budget > 0.0 && eventType in cfg.allowed && m != "" && k >= 1
    && steps == Burst(cfg, eventType, m, k) && |steps| == 2 * (cfg.Limit(m) - 1) + 2 * k
  }

  predicate BurstHeld(cfg: Config, eventType: string, m: string, k: nat, g: GateState, flight: multiset<string>, n: nat)
    requires cfg.Limit(m) >= 1 && n <= 2 * (cfg.Limit(m) - 1) + 2 * k
  {
    var asks := Asks(cfg.Limit(m) - 1, k, n);
    asks <= n && n - asks <= asks
    && BurstView(cfg, eventType, m, g, asks, n - asks)
    && flight == multiset{}[m := asks - (n - asks)]
  }

  /** The next step of a burst is a call that is let in, or the record of one that was. */
  lemma BurstNextStep(
    cfg: Config, eventType: string, m: string, k: nat, steps: seq<Step>, n: nat, g: GateState, flight: multiset<string>)
    requires IsBurst(cfg, eventType, m, k, steps) && n < |steps|
    requires BurstHeld(cfg, eventType, m, k, g, flight, n)
    ensures
      var asks, asks' := Asks(cfg.Limit(m) - 1, k, n), Asks(cfg.Limit(m) - 1, k, n + 1);
      var waiting := asks - (n - asks);
      && waiting <= k
      && if asks' == asks + 1
         then steps[n].Ask? && Accepts(cfg, g, steps[n].call) && ModuleOf(cfg, steps[n].call) == m && waiting < k
         else asks' == asks && steps[n] == Record(m, 0.0) && waiting > 0
  {
    var asks := Asks(cfg.Limit(m) - 1, k, n);
    BurstStep(cfg, eventType, m, k, n);
    BurstApply(cfg, eventType, m, g, asks, n - asks);
  }

  lemma BurstNextFlight(
    cfg: Config, eventType: string, m: string, k: nat, steps: seq<Step>, n: nat, g: GateState, flight: multiset<string>)
    requires IsBurst(cfg, eventType, m, k, steps) && n < |steps|
    requires BurstHeld(cfg, eventType, m, k, g, flight, n)
    ensures StepOk(cfg, g, flight, steps[n], k, 0.0)
    ensures var asks := Asks(cfg.Limit(m) - 1, k, n + 1);
            InFlightAfter(cfg, g, flight, steps[n]) == multiset{}[m := Common.Max(0, asks - (n + 1 - asks))]
  {
    hide BurstView, Burst, Accepts, ModuleOf, StepOk, InFlightAfter;
    var asks := Asks(cfg.Limit(m) - 1, k, n);
    BurstNextStep(cfg, eventType, m, k, steps, n, g, flight);
    BurstFlight(cfg, eventType, m, k, g, steps[n], asks - (n - asks), steps[n].Ask?);
  }

  lemma BurstNext(
    cfg: Config, eventType: string, m: string, k: nat, steps: seq<Step>, n: nat, g: GateState, flight: multiset<string>)
    requires IsBurst(cfg, eventType, m, k, steps) && n < |steps|
    requires BurstHeld(cfg, eventType, m, k, g, flight, n)
    ensures BurstHeld(cfg, eventType, m, k, Apply(cfg, g, steps[n]), InFlightAfter(cfg, g, flight, steps[n]), n + 1)
  {
    var asks := Asks(cfg.Limit(m) - 1, k, n);
    BurstNextFlight(cfg, eventType, m, k, steps, n, g, flight);
    BurstStep(cfg, eventType, m, k, n);
    BurstApply(cfg, eventType, m, g, asks, n - asks);
  }

  /** The gate and the flight after `n` steps of a burst. */
  ghost predicate BurstAt(cfg: Config, eventType: string, m: string, k: nat, steps: seq<Step>, n: nat)
    requires IsBurst(cfg, eventType, m, k, steps) && n <= |steps|
  {
    BurstHeld(cfg, eventType, m, k, StateAt(cfg, EMPTY, steps, n), InFlight(cfg, EMPTY, steps, n), n)
  }

  lemma BurstStart(cfg: Config, eventType: string, m: string, k: nat, steps: seq<Step>)
    requires IsBurst(cfg, eventType, m, k, steps)
    ensures BurstAt(cfg, eventType, m, k, steps, 0)
  {
    assert InFlight(cfg, EMPTY, steps, 0) == multiset{}[m := 0];
  }

  lemma BurstOneMore(cfg: Config, eventType: string, m: string, k: nat, steps: seq<Step>, n: nat)
    requires IsBurst(cfg, eventType, m, k, steps) && n < |steps|
    requires BurstAt(cfg, eventType, m, k, steps, n)
    ensures BurstAt(cfg, eventType, m, k, steps, n + 1)
  {
    var g, flight := StateAt(cfg, EMPTY, steps, n), InFlight(cfg, EMPTY, steps, n);
    BurstNext(cfg, eventType, m, k, steps, n, g, flight);
    assert StateAt(cfg, EMPTY, steps, n + 1) == Apply(cfg, g, steps[n]);
    assert InFlight(cfg, EMPTY, steps, n + 1) == InFlightAfter(cfg, g, flight, steps[n]);
  }

  lemma {:induction false} BurstState(cfg: Config, eventType: string, m: string, k: nat, steps: seq<Step>, n: nat)
    requires IsBurst(cfg, eventType, m, k, steps) && n <= |steps|
    ensures BurstAt(cfg, eventType, m, k, steps, n)
  {
    hide *;
    if n > 0 {
      BurstState(cfg, eventType, m, k, steps, n - 1);
      BurstOneMore(cfg, eventType, m, k, steps, n - 1);
    } else {
      BurstStart(cfg, eventType, m, k, steps);
    }
  }

  lemma BurstDisciplined(cfg: Config, eventType: string, m: string, k: nat, steps: seq<Step>, n: nat)
    requires IsBurst(cfg, eventType, m, k, steps) && n < |steps|
    ensures DisciplinedStep(cfg, EMPTY, steps, k, 0.0, n)
  {
    BurstState(cfg, eventType, m, k, steps, n);
    BurstNextFlight(cfg, eventType, m, k, steps, n, StateAt(cfg, EMPTY, steps, n), InFlight(cfg, EMPTY, steps, n));
  }

  /** The bound on counts is exact: for every configuration that admits the event, every limit of at
      least one and every `k`, some disciplined run ends with the count at limit - 1 + k. */
  lemma OvershootAttained(cfg: Config, eventType: string, m: string, k: nat)
    requires cfg.Limit(m) >= 1 && cfg.budget > 0.0 && eventType in cfg.allowed && m != "" && k >= 1
    ensures
      var steps := Burst(cfg, eventType, m, k);
      Disciplined(cfg, EMPTY, steps, k, 0.0)
      && StateAt(cfg, EMPTY, steps, |steps|).Count(m) == cfg.Limit(m) - 1 + k
  {
    var steps := Burst(cfg, eventType, m, k);
    forall n: nat | n < |steps|
      ensures DisciplinedStep(cfg, EMPTY, steps, k, 0.0, n)
    {
      BurstDisciplined(cfg, eventType, m, k, steps, n);
    }
    BurstState(cfg, eventType, m, k, steps, |steps|);
  }
}
