/** The event gate: five checks over an in-memory debounce cache, daily counters and a daily cost.

    Time is a number of clock ticks (microseconds, the resolution of the clock the gate reads) and
    money is a real. The functions on `GateState` say what one operation does; the class `EventGate`
    does it field by field and is proved against them. */
module Gate {
  import opened Common
  import Events

  /** Limits and tables the gate is configured with. */
  datatype Config = Config(
    allowed: set<string>,
    modules: map<string, string>,
    debounce: nat,
    budget: real,
    alertPct: real,
    limits: map<string, int>,
    defaultLimit: int,
    criticalModules: set<string>)
  {
    function Limit(moduleName: string): int {
      if moduleName in limits then limits[moduleName] else defaultLimit
    }
  }

  datatype GateState = GateState(
    cache: map<string, int>,
    counts: map<string, nat>,
    cost: real,
    safeMode: bool,
    alertFired: bool)
  {
    function Count(moduleName: string): nat {
      if moduleName in counts then counts[moduleName] else 0
    }
  }

  const EMPTY := GateState(map[], map[], 0.0, false, false)

  /** One call of `should_process`, with the flow switch and the clock reading it sees. */
  datatype Call = Call(
    enabled: bool,
    eventType: string,
    entityId: Option<string>,
    moduleName: Option<string>,
    now: int)

  datatype Reason =
    | FlowDisabled
    | NotInAllowlist
    | SafeModeNonCritical
    | BudgetExceeded
    | RateLimitHit(moduleName: string)
    | Debounced(elapsed: int)

  datatype Verdict = Allowed | Dropped(reason: Reason)

  /** `entity_id or '_'`: a missing and an empty entity share one placeholder. */
  function EntityPart(entityId: Option<string>): string {
    if entityId.None? || entityId.value == "" then "_" else entityId.value
  }

  function Key(eventType: string, entityId: Option<string>): string {
    eventType + ":" + EntityPart(entityId)
  }

  function KeyOf(c: Call): string {
    Key(c.eventType, c.entityId)
  }

  function ModuleOf(cfg: Config, c: Call): string {
    if c.moduleName.Some? && c.moduleName.value != "" then c.moduleName.value
    else if c.eventType in cfg.modules then cfg.modules[c.eventType]
    else "unknown"
  }

  predicate DebouncePasses(cfg: Config, g: GateState, key: string, now: int) {
    key !in g.cache || now - g.cache[key] >= cfg.debounce
  }

  /** The verdict: the first failing check in the order the gate lists them. */
  function Decide(cfg: Config, g: GateState, c: Call): Verdict {
    var m := ModuleOf(cfg, c);
    if !c.enabled then Dropped(FlowDisabled)
    else if c.eventType !in cfg.allowed then Dropped(NotInAllowlist)
    else if g.safeMode && m !in cfg.criticalModules then Dropped(SafeModeNonCritical)
    else if g.cost >= cfg.budget then Dropped(BudgetExceeded)
    else if g.Count(m) >= cfg.Limit(m) then Dropped(RateLimitHit(m))
    else if !DebouncePasses(cfg, g, KeyOf(c), c.now) then Dropped(Debounced(c.now - g.cache[KeyOf(c)]))
    else Allowed
  }

  /** The state after a call. The debounce check runs before any result is read, so the key is
      stamped by every enabled call that is not itself debounced, whatever the verdict. */
  function Asked(cfg: Config, g: GateState, c: Call): GateState {
    if c.enabled && DebouncePasses(cfg, g, KeyOf(c), c.now)
    then g.(cache := g.cache[KeyOf(c) := c.now])
    else g
  }

  predicate Accepts(cfg: Config, g: GateState, c: Call) {
    Decide(cfg, g, c) == Allowed
  }

  predicate AlertDue(cfg: Config, g: GateState, cost: real) {
    g.cost + cost >= cfg.budget * cfg.alertPct && !g.alertFired
  }

  function Recorded(cfg: Config, g: GateState, moduleName: string, cost: real): GateState {
    g.(counts := g.counts[moduleName := g.Count(moduleName) + 1],
       cost := g.cost + cost,
       alertFired := g.alertFired || AlertDue(cfg, g, cost))
  }

  function ResetDaily(g: GateState): GateState {
    EMPTY.(safeMode := g.safeMode)
  }

  class EventGate {
    const cfg: Config
    var debounceCache: map<string, int>
    var dailyCounts: map<string, nat>
    var dailyCost: real
    var safeModeActive: bool
    var budgetAlertFired: bool

    function View(): GateState
      reads this
    {
      GateState(debounceCache, dailyCounts, dailyCost, safeModeActive, budgetAlertFired)
    }

    constructor (cfg: Config)
      ensures this.cfg == cfg && View() == EMPTY
    {
      this.cfg := cfg;
      debounceCache, dailyCounts, dailyCost := map[], map[], 0.0;
      safeModeActive, budgetAlertFired := false, false;
    }

    method CheckAllowlist(eventType: string) returns (v: Verdict)
      ensures v == if eventType in cfg.allowed then Allowed else Dropped(NotInAllowlist)
    {
      v := Allowed;
      if eventType !in cfg.allowed {
        v := Dropped(NotInAllowlist);
      }
    }

    method CheckSafeMode(moduleName: string) returns (v: Verdict)
      ensures v.Dropped? <==> safeModeActive && moduleName !in cfg.criticalModules
      ensures v.Dropped? ==> v.reason == SafeModeNonCritical
    {
      if safeModeActive && moduleName !in cfg.criticalModules {
        return Dropped(SafeModeNonCritical);
      }
      return Allowed;
    }

    method CheckDailyBudget() returns (v: Verdict)
      ensures v.Dropped? <==> dailyCost >= cfg.budget
      ensures v.Dropped? ==> v.reason == BudgetExceeded
    {
      if dailyCost >= cfg.budget {
        return Dropped(BudgetExceeded);
      }
      return Allowed;
    }

    method CheckModuleRateLimit(moduleName: string) returns (v: Verdict)
      ensures v.Dropped? <==> View().Count(moduleName) >= cfg.Limit(moduleName)
      ensures v.Dropped? ==> v.reason == RateLimitHit(moduleName)
    {
      var limit := cfg.Limit(moduleName);
      var count := if moduleName in dailyCounts then dailyCounts[moduleName] else 0;
      if count >= limit {
        return Dropped(RateLimitHit(moduleName));
      }
      return Allowed;
    }

    method CheckDebounce(eventType: string, entityId: Option<string>, now: int) returns (v: Verdict)
      modifies this`debounceCache
      ensures var key := Key(eventType, entityId);
        if old(DebouncePasses(cfg, View(), key, now))
        then v == Allowed && debounceCache == old(debounceCache)[key := now]
        else v == Dropped(Debounced(now - old(debounceCache[key]))) && debounceCache == old(debounceCache)
    {
      var key := Key(eventType, entityId);
      if key in debounceCache {
        var elapsed := now - debounceCache[key];
        if elapsed < cfg.debounce {
          return Dropped(Debounced(elapsed));
        }
      }
      debounceCache := debounceCache[key := now];
      return Allowed;
    }

    /** `should_process`: all five checks run, then the first failure is reported. */
    method ShouldProcess(c: Call) returns (v: Verdict)
      modifies this`debounceCache
      ensures v == Decide(cfg, old(View()), c)
      ensures View() == Asked(cfg, old(View()), c)
    {
      if !c.enabled {
        return Dropped(FlowDisabled);
      }
      var m := ModuleOf(cfg, c);
      var allowlist := CheckAllowlist(c.eventType);
      var safeMode := CheckSafeMode(m);
      var budget := CheckDailyBudget();
      var rate := CheckModuleRateLimit(m);
      var debounce := CheckDebounce(c.eventType, c.entityId, c.now);
      var checks := [allowlist, safeMode, budget, rate, debounce];
      assert checks[0] == allowlist && checks[1] == safeMode && checks[2] == budget
          && checks[3] == rate && checks[4] == debounce;
      for i := 0 to |checks|
        invariant forall j :: 0 <= j < i ==> checks[j] == Allowed
      {
        if checks[i].Dropped? {
          assert i == 0 || i == 1 || i == 2 || i == 3 || i == 4;
          return checks[i];
        }
      }
      return Allowed;
    }

    /** `record_execution`. The once-a-day budget alert reports the fraction of the budget that is used;
        with a zero budget composing it raises, after the counters moved. */
    method RecordExecution(moduleName: string, cost: real) returns (alert: Option<real>, raised: bool)
      modifies this`dailyCounts, this`dailyCost, this`budgetAlertFired
      ensures View() == Recorded(cfg, old(View()), moduleName, cost)
      ensures raised == (old(AlertDue(cfg, View(), cost)) && cfg.budget == 0.0)
      ensures alert.Some? <==> old(AlertDue(cfg, View(), cost)) && !raised
      ensures alert.Some? ==> alert.value == (old(dailyCost) + cost) / cfg.budget
    {
      alert, raised := None, false;
      var before := if moduleName in dailyCounts then dailyCounts[moduleName] else 0;
      dailyCounts := dailyCounts[moduleName := before + 1];
      dailyCost := dailyCost + cost;
      if dailyCost >= cfg.budget * cfg.alertPct {
        if !budgetAlertFired {
          budgetAlertFired := true;
          if cfg.budget == 0.0 {
            raised := true;
          } else {
            alert := Some(dailyCost / cfg.budget);
          }
        }
      }
    }

    method ActivateSafeMode()
      modifies this`safeModeActive
      ensures View() == old(View()).(safeMode := true)
    {
      safeModeActive := true;
    }

    method DeactivateSafeMode()
      modifies this`safeModeActive
      ensures View() == old(View()).(safeMode := false)
    {
      safeModeActive := false;
    }

    method ResetDailyCounters()
      modifies this`dailyCounts, this`dailyCost, this`debounceCache, this`budgetAlertFired
      ensures View() == ResetDaily(old(View()))
    {
      dailyCounts := map[];
      dailyCost := 0.0;
      debounceCache := map[];
      budgetAlertFired := false;
    }
  }

  // ----- Debounce keys -----

  /** Keys of colon-free event types coincide only for the same type and the same entity part. */
  lemma {:induction false} KeyInjective(t1: string, e1: Option<string>, t2: string, e2: Option<string>)
    requires ':' !in t1 && ':' !in t2
    requires Key(t1, e1) == Key(t2, e2)
    ensures t1 == t2 && EntityPart(e1) == EntityPart(e2)
  {
    var k := Key(t1, e1);
    assert k[|t1|] == ':' && k[|t2|] == ':';
    assert forall i :: 0 <= i < |t1| ==> k[i] == t1[i];
    assert forall i :: 0 <= i < |t2| ==> k[i] == t2[i];
    assert |t1| == |t2|;
    assert t1 == k[..|t1|] == t2;
    assert EntityPart(e1) == k[|t1| + 1..] == EntityPart(e2);
  }

  /** A missing entity, an empty one and one that is named like the placeholder. */
  predicate Blank(entityId: Option<string>) {
    entityId == None || entityId == Some("") || entityId == Some("_")
  }

  predicate SameEntity(e1: Option<string>, e2: Option<string>) {
    e1 == e2 || (Blank(e1) && Blank(e2))
  }

  /** Two typed events share a debounce key exactly when type and entity agree. */
  lemma EventKeysAgree(a: Events.EventKind, e1: Option<string>, b: Events.EventKind, e2: Option<string>)
    ensures Key(a.Value(), e1) == Key(b.Value(), e2) <==> a == b && SameEntity(e1, e2)
  {
    if Key(a.Value(), e1) == Key(b.Value(), e2) {
      Events.ValueHasNoColon(a);
      Events.ValueHasNoColon(b);
      KeyInjective(a.Value(), e1, b.Value(), e2);
      Events.ValueInjective(a, b);
    }
  }
}
