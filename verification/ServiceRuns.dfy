/** Every interleaving of endpoint requests, queued tasks, direct kickoffs, resets and safe-mode
    switches: what the log of accepts and executions can look like. */
module ServiceRuns {
  import opened Common
  import opened Events
  import opened Gate
  import opened Service

  function SystemAt(cfg: Config, stub: bool, ops: seq<Op>, n: nat): System
    requires n <= |ops|
  {
    if n == 0 then START else Step(cfg, stub, SystemAt(cfg, stub, ops, n - 1), ops[n - 1])
  }

  /** No reset strictly between log entries `a` and `b`. */
  predicate SameDay(log: seq<Entry>, a: nat, b: nat)
    requires b <= |log|
  {
    forall k :: a < k < b ==> !log[k].DayReset?
  }

  predicate IsMark(log: seq<Entry>, a: nat) {
    a < |log| && !log[a].DayReset?
  }

  /** Two events of one type and one entity. */
  predicate SameSubject(a: OpsEvent, b: OpsEvent) {
    a.kind == b.kind && SameEntity(a.entityId, b.entityId)
  }

  lemma SameSubjectSameKey(a: Task, b: Task)
    ensures SameSubject(a.event, b.event) <==> TaskKey(a) == TaskKey(b)
  {
    EventKeysAgree(a.event.kind, a.event.entityId, b.event.kind, b.event.entityId);
  }

  /** Accepts and executions of one type and entity in one day are a full debounce interval apart. */
  ghost predicate Spaced(d: nat, log: seq<Entry>) {
    forall a: nat, b: nat | a < b && IsMark(log, a) && IsMark(log, b) && SameDay(log, a, b)
                            && SameSubject(log[a].task.event, log[b].task.event) ::
      log[b].at - log[a].at >= d
  }

  /** Every mark of the current day is covered by the debounce cache. */
  ghost predicate Covered(log: seq<Entry>, cache: map<string, int>) {
    forall a: nat | IsMark(log, a) && SameDay(log, a, |log|) ::
      TaskKey(log[a].task) in cache && log[a].at <= cache[TaskKey(log[a].task)]
  }

  /** The module a type is mapped to. */
  predicate RoutedTo(cfg: Config, kind: EventKind, m: string) {
    && (kind.Value() in cfg.modules ==> cfg.modules[kind.Value()] == m)
    && (kind.Value() !in cfg.modules ==> m == "unknown")
  }

  /** Executions of a module since the last reset. */
  function ExecutedToday(cfg: Config, log: seq<Entry>, m: string): nat {
    if log == [] then 0
    else
      var last := log[|log| - 1];
      if last.DayReset? then 0
      else
        ExecutedToday(cfg, log[..|log| - 1], m)
        + if last.Executed? && RoutedTo(cfg, last.task.event.kind, m) then 1 else 0
  }

  /** `n` executions are within the module's own cap, or within the general one when it has none. */
  predicate WithinCap(cfg: Config, m: string, n: nat) {
    && (m in cfg.limits ==> n <= Max(0, cfg.limits[m]))
    && (m !in cfg.limits ==> n <= Max(0, cfg.defaultLimit))
  }

  ghost predicate Counted(cfg: Config, s: System) {
    s.gate.cost == 0.0
    && forall m :: s.gate.Count(m) == ExecutedToday(cfg, s.log, m) && WithinCap(cfg, m, s.gate.Count(m))
  }

  /** Tickets are handed out once: no task is queued twice, executed twice or executed while queued. */
  ghost predicate Ticketed(s: System) {
    (forall i, j :: 0 <= i < j < |s.queue| ==> s.queue[i].id != s.queue[j].id)
    && (forall i :: 0 <= i < |s.queue| ==> s.queue[i].id < s.nextId)
    && (forall a: nat | a < |s.log| && s.log[a].Executed? ::
          s.log[a].task.id < s.nextId && forall i :: 0 <= i < |s.queue| ==> s.queue[i].id != s.log[a].task.id)
    && (forall a: nat, b: nat | a < b < |s.log| && s.log[a].Executed? && s.log[b].Executed? ::
          s.log[a].task.id != s.log[b].task.id)
  }

  predicate AcceptLogged(log: seq<Entry>, task: Task, n: nat)
    requires n <= |log|
  {
    task.origin.FromEndpoint? ==> exists a: nat :: a < n && log[a] == Accepted(task, task.origin.acceptedAt)
  }

  /** A task of the endpoint was accepted before it was queued or executed. */
  ghost predicate Accounted(s: System) {
    (forall i :: 0 <= i < |s.queue| ==> AcceptLogged(s.log, s.queue[i], |s.log|))
    && forall b: nat | b < |s.log| && s.log[b].Executed? :: AcceptLogged(s.log, s.log[b].task, b)
  }

  ghost predicate Invariant(cfg: Config, s: System) {
    Spaced(cfg.debounce, s.log) && Covered(s.log, s.gate.cache) && Counted(cfg, s) && Ticketed(s) && Accounted(s)
  }

  // ----- One step at a time -----

  lemma AskKeepsCovered(cfg: Config, g: GateState, c: Call, log: seq<Entry>)
    requires Covered(log, g.cache)
    ensures Covered(log, Asked(cfg, g, c).cache)
  {
  }

  /** Appending a mark that the debounce check let through. */
  lemma AppendMark(cfg: Config, g: GateState, c: Call, log: seq<Entry>, e: Entry)
    requires Spaced(cfg.debounce, log) && Covered(log, g.cache)
    requires !e.DayReset? && TaskKey(e.task) == KeyOf(c) && e.at == c.now && Accepts(cfg, g, c)
    ensures Spaced(cfg.debounce, log + [e]) && Covered(log + [e], Asked(cfg, g, c).cache)
  {
    var log' := log + [e];
    forall a: nat, b: nat | a < b && IsMark(log', a) && IsMark(log', b) && SameDay(log', a, b)
                            && SameSubject(log'[a].task.event, log'[b].task.event)
      ensures log'[b].at - log'[a].at >= cfg.debounce
    {
      SameSubjectSameKey(log'[a].task, log'[b].task);
      assert forall k :: 0 <= k < |log| ==> log'[k] == log[k];
      assert IsMark(log, a) && SameDay(log, a, b);
      if b < |log| {
        assert IsMark(log, b);
      }
    }
    forall a: nat | IsMark(log', a) && SameDay(log', a, |log'|)
      ensures TaskKey(log'[a].task) in Asked(cfg, g, c).cache
              && log'[a].at <= Asked(cfg, g, c).cache[TaskKey(log'[a].task)]
    {
      if a < |log| {
        assert forall k :: 0 <= k < |log| ==> log'[k] == log[k];
        assert IsMark(log, a) && SameDay(log, a, |log|);
      }
    }
  }

  lemma AppendReset(d: nat, log: seq<Entry>)
    requires Spaced(d, log)
    ensures Spaced(d, log + [DayReset]) && Covered(log + [DayReset], map[])
  {
    var log' := log + [DayReset];
    forall a: nat, b: nat | a < b && IsMark(log', a) && IsMark(log', b) && SameDay(log', a, b)
                            && SameSubject(log'[a].task.event, log'[b].task.event)
      ensures log'[b].at - log'[a].at >= d
    {
      assert forall k :: 0 <= k < |log| ==> log'[k] == log[k];
      assert IsMark(log, a) && IsMark(log, b) && SameDay(log, a, b);
    }
    assert log'[|log|].DayReset?;
  }

  lemma AppendExecutedToday(cfg: Config, log: seq<Entry>, e: Entry, m: string)
    ensures ExecutedToday(cfg, log + [e], m)
         == if e.DayReset? then 0
            else ExecutedToday(cfg, log, m) + if e.Executed? && RoutedTo(cfg, e.task.event.kind, m) then 1 else 0
  {
    assert (log + [e])[..|log|] == log;
  }

  lemma GrowAcceptLogged(log: seq<Entry>, e: Entry, task: Task, n: nat)
    requires n <= |log| && AcceptLogged(log, task, n)
    ensures AcceptLogged(log + [e], task, n)
  {
    if task.origin.FromEndpoint? {
      var a: nat :| a < n && log[a] == Accepted(task, task.origin.acceptedAt);
      assert (log + [e])[a] == log[a];
    }
  }

  lemma WidenAcceptLogged(log: seq<Entry>, task: Task, n: nat, n': nat)
    requires n <= n' <= |log| && AcceptLogged(log, task, n)
    ensures AcceptLogged(log, task, n')
  {
  }

  /** A gate step of one event: the gate side of the invariant. */
  lemma ProcessKeepsGate(cfg: Config, s: System, task: Task, enabled: bool, now: int, ok: bool)
    requires Spaced(cfg.debounce, s.log) && Covered(s.log, s.gate.cache) && Counted(cfg, s)
    ensures var s' := ProcessStep(cfg, s, task, enabled, now, ok);
            Spaced(cfg.debounce, s'.log) && Covered(s'.log, s'.gate.cache) && Counted(cfg, s')
  {
    var c := CallFor(cfg, task.event, enabled, now);
    AskKeepsCovered(cfg, s.gate, c, s.log);
    if Accepts(cfg, s.gate, c) && ok {
      AppendMark(cfg, s.gate, c, s.log, Executed(task, now));
      forall m {
        AppendExecutedToday(cfg, s.log, Executed(task, now), m);
      }
    }
  }

  lemma AppendKeepsAccounted(s: System, e: Entry)
    requires Accounted(s)
    requires e.Executed? ==> AcceptLogged(s.log, e.task, |s.log|)
    ensures Accounted(s.(log := s.log + [e]))
  {
    var log' := s.log + [e];
    forall i | 0 <= i < |s.queue|
      ensures AcceptLogged(log', s.queue[i], |log'|)
    {
      GrowAcceptLogged(s.log, e, s.queue[i], |s.log|);
      WidenAcceptLogged(log', s.queue[i], |s.log|, |log'|);
    }
    forall b: nat | b < |log'| && log'[b].Executed?
      ensures AcceptLogged(log', log'[b].task, b)
    {
      if b < |s.log| {
        assert log'[b] == s.log[b];
        GrowAcceptLogged(s.log, e, s.log[b].task, b);
      } else {
        GrowAcceptLogged(s.log, e, e.task, |s.log|);
      }
    }
  }

  /** A gate step of one event: the ticket side of the invariant. */
  lemma ProcessKeepsTickets(cfg: Config, s: System, task: Task, enabled: bool, now: int, ok: bool)
    requires Ticketed(s) && Accounted(s)
    requires task.id < s.nextId && (forall i :: 0 <= i < |s.queue| ==> s.queue[i].id != task.id)
    requires forall a: nat | a < |s.log| && s.log[a].Executed? :: s.log[a].task.id != task.id
    requires AcceptLogged(s.log, task, |s.log|)
    ensures var s' := ProcessStep(cfg, s, task, enabled, now, ok);
            Ticketed(s') && Accounted(s')
  {
    var s' := ProcessStep(cfg, s, task, enabled, now, ok);
    if s'.log != s.log {
      AppendKeepsAccounted(s, Executed(task, now));
    }
  }

  lemma ReceiveKeepsGate(cfg: Config, s: System, e: OpsEvent, enabled: bool, now: int)
    requires Spaced(cfg.debounce, s.log) && Covered(s.log, s.gate.cache) && Counted(cfg, s)
    ensures var s' := ReceiveStep(cfg, s, e, enabled, now);
            Spaced(cfg.debounce, s'.log) && Covered(s'.log, s'.gate.cache) && Counted(cfg, s')
  {
    var c := CallFor(cfg, e, enabled, now);
    AskKeepsCovered(cfg, s.gate, c, s.log);
    if Accepts(cfg, s.gate, c) {
      var entry := Accepted(Task(s.nextId, e, FromEndpoint(now)), now);
      AppendMark(cfg, s.gate, c, s.log, entry);
      forall m {
        AppendExecutedToday(cfg, s.log, entry, m);
      }
    }
  }

  lemma EnqueueKeeps(s: System, e: OpsEvent, now: int)
    requires Ticketed(s) && Accounted(s)
    ensures
      var task := Task(s.nextId, e, FromEndpoint(now));
      var s' := System(s.gate, s.queue + [task], s.nextId + 1, s.log + [Accepted(task, now)]);
      Ticketed(s') && Accounted(s')
  {
    var task := Task(s.nextId, e, FromEndpoint(now));
    var entry := Accepted(task, now);
    AppendKeepsAccounted(s, entry);
    assert (s.log + [entry])[|s.log|] == entry;
  }

  lemma ReceiveKeeps(cfg: Config, s: System, e: OpsEvent, enabled: bool, now: int)
    requires Invariant(cfg, s)
    ensures Invariant(cfg, ReceiveStep(cfg, s, e, enabled, now))
  {
    ReceiveKeepsGate(cfg, s, e, enabled, now);
    EnqueueKeeps(s, e, now);
  }

  lemma ResetKeeps(cfg: Config, s: System)
    requires Invariant(cfg, s)
    ensures Invariant(cfg, s.(gate := ResetDaily(s.gate), log := s.log + [DayReset]))
  {
    AppendReset(cfg.debounce, s.log);
    AppendKeepsAccounted(s, DayReset);
    forall m {
      AppendExecutedToday(cfg, s.log, DayReset, m);
    }
  }

  lemma TriggerKeeps(cfg: Config, stub: bool, s: System)
    requires Invariant(cfg, s)
    ensures Invariant(cfg, Step(cfg, stub, s, TriggerDigest))
  {
  }

  lemma SwitchKeeps(cfg: Config, s: System, on: bool)
    requires Invariant(cfg, s)
    ensures Invariant(cfg, s.(gate := s.gate.(safeMode := on)))
  {
    assert forall m :: s.gate.(safeMode := on).Count(m) == s.gate.Count(m);
  }

  lemma QueuedKeeps(cfg: Config, s: System, i: nat, enabled: bool, now: int, ok: bool)
    requires Invariant(cfg, s) && i < |s.queue|
    ensures Invariant(cfg, ProcessStep(cfg, Popped(s, i), s.queue[i], enabled, now, ok))
  {
    var s1 := Popped(s, i);
    forall j | 0 <= j < |s1.queue|
      ensures exists k :: 0 <= k < |s.queue| && k != i && s1.queue[j] == s.queue[k]
    {
      assert s1.queue[j] == s.queue[if j < i then j else j + 1];
    }
    assert Ticketed(s1) && Accounted(s1);
    ProcessKeepsGate(cfg, s1, s.queue[i], enabled, now, ok);
    ProcessKeepsTickets(cfg, s1, s.queue[i], enabled, now, ok);
  }

  lemma DirectKeeps(cfg: Config, s: System, e: OpsEvent, enabled: bool, now: int, ok: bool)
    requires Invariant(cfg, s)
    ensures Invariant(cfg, DirectStep(cfg, s, e, enabled, now, ok))
  {
    var s1 := s.(nextId := s.nextId + 1);
    ProcessKeepsGate(cfg, s1, Task(s.nextId, e, FromAmp), enabled, now, ok);
    ProcessKeepsTickets(cfg, s1, Task(s.nextId, e, FromAmp), enabled, now, ok);
  }

  lemma RunTaskKeeps(cfg: Config, stub: bool, s: System, op: Op)
    requires Invariant(cfg, s) && op.RunTask?
    ensures Invariant(cfg, Step(cfg, stub, s, op))
  {
    if op.index < |s.queue| {
      QueuedKeeps(cfg, s, op.index, op.enabled, op.now,
                  Succeeds(ProcessDispatch(s.queue[op.index].event.kind, stub), op.raising));
    }
  }

  lemma StepKeeps(cfg: Config, stub: bool, s: System, op: Op)
    requires Invariant(cfg, s)
    ensures Invariant(cfg, Step(cfg, stub, s, op))
  {
    match op {
      case Receive(e, enabled, now) => ReceiveKeeps(cfg, s, e, enabled, now);
      case TriggerDigest => TriggerKeeps(cfg, stub, s);
      case RunTask(_, _, _, _) => RunTaskKeeps(cfg, stub, s, op);
      case Kickoff(e, enabled, now, raising) =>
        DirectKeeps(cfg, s, e, enabled, now, Succeeds(ProcessDispatch(e.kind, stub), raising));
      case Route(e, enabled, now, raising) =>
        DirectKeeps(cfg, s, e, enabled, now, Succeeds(RouteDispatch(e.kind, stub), raising));
      case DailyReset => ResetKeeps(cfg, s);
      case SetSafeMode(on) => SwitchKeeps(cfg, s, on);
    }
  }

  // ----- Whole runs -----

  ghost predicate InvariantAt(cfg: Config, stub: bool, ops: seq<Op>, n: nat)
    requires n <= |ops|
  {
    Invariant(cfg, SystemAt(cfg, stub, ops, n))
  }

  lemma StartHolds(cfg: Config, stub: bool, ops: seq<Op>)
    ensures InvariantAt(cfg, stub, ops, 0)
  {
  }

  lemma NextKeeps(cfg: Config, stub: bool, ops: seq<Op>, n: nat)
    requires n < |ops| && InvariantAt(cfg, stub, ops, n)
    ensures InvariantAt(cfg, stub, ops, n + 1)
  {
    StepKeeps(cfg, stub, SystemAt(cfg, stub, ops, n), ops[n]);
  }

  /** Every reachable state: marks of one key are spaced, the cache covers the day's marks, the
      counters are exactly the day's executions and within their limits, tickets are used once. */
  lemma {:induction false} ReachableInvariant(cfg: Config, stub: bool, ops: seq<Op>, n: nat)
    requires n <= |ops|
    ensures InvariantAt(cfg, stub, ops, n)
  {
    hide *;
    if n > 0 {
      ReachableInvariant(cfg, stub, ops, n - 1);
      NextKeeps(cfg, stub, ops, n - 1);
    } else {
      StartHolds(cfg, stub, ops);
    }
  }

  /** In any run, an executed task of the endpoint ran at least the debounce interval after its own
      accept, or a daily reset fell in between. */
  lemma EndpointTaskNeedsDelay(cfg: Config, stub: bool, ops: seq<Op>, b: nat)
    requires
      var log := SystemAt(cfg, stub, ops, |ops|).log;
      b < |log| && log[b].Executed? && log[b].task.origin.FromEndpoint?
    ensures
      var log := SystemAt(cfg, stub, ops, |ops|).log;
      var t := log[b].task.origin.acceptedAt;
      exists a: nat :: a < b && log[a] == Accepted(log[b].task, t)
        && (log[b].at - t >= cfg.debounce || !SameDay(log, a, b))
  {
    ReachableInvariant(cfg, stub, ops, |ops|);
    var log := SystemAt(cfg, stub, ops, |ops|).log;
    assert AcceptLogged(log, log[b].task, b);
    var a: nat :| a < b && log[a] == Accepted(log[b].task, log[b].task.origin.acceptedAt);
    assert IsMark(log, a) && IsMark(log, b);
  }

  /** Accept, then run that very task with nothing in between: it executes if and only if the
      debounce interval has passed since its own accept (and its handler returns). */
  lemma AcceptThenRun(cfg: Config, stub: bool, s: System, e: OpsEvent, t: int, t': int, raising: set<Handler>)
    requires Accepts(cfg, s.gate, CallFor(cfg, e, true, t))
    ensures
      var s1 := Step(cfg, stub, s, Receive(e, true, t));
      var s2 := Step(cfg, stub, s1, RunTask(|s.queue|, true, t', raising));
      var task := Task(s.nextId, e, FromEndpoint(t));
      s2.log == s1.log + (if t' - t >= cfg.debounce && Succeeds(ProcessDispatch(e.kind, stub), raising)
                          then [Executed(task, t')] else [])
  {
    var s1 := Step(cfg, stub, s, Receive(e, true, t));
    assert s1.queue[|s.queue|] == Task(s.nextId, e, FromEndpoint(t));
    assert Accepts(cfg, s1.gate, CallFor(cfg, e, true, t')) <==> t' - t >= cfg.debounce;
  }

  predicate PromptOp(cfg: Config, s: System, op: Op) {
    op.RunTask? && op.index < |s.queue| && s.queue[op.index].origin.FromEndpoint?
    ==> op.now - s.queue[op.index].origin.acceptedAt < cfg.debounce
  }

  predicate PromptAt(cfg: Config, stub: bool, ops: seq<Op>, n: nat)
    requires n < |ops|
  {
    PromptOp(cfg, SystemAt(cfg, stub, ops, n), ops[n]) && !ops[n].DailyReset?
  }

  /** No daily reset, and every queued endpoint task is run within the debounce interval of its accept. */
  ghost predicate Prompt(cfg: Config, stub: bool, ops: seq<Op>) {
    forall n: nat | n < |ops| :: PromptAt(cfg, stub, ops, n)
  }

  ghost predicate OnlyPromptEntries(cfg: Config, log: seq<Entry>) {
    forall b: nat | b < |log| ::
      !log[b].DayReset?
      && (log[b].Executed? && log[b].task.origin.FromEndpoint? ==>
            log[b].at - log[b].task.origin.acceptedAt < cfg.debounce)
  }

  lemma PromptStep(cfg: Config, stub: bool, s: System, op: Op)
    requires OnlyPromptEntries(cfg, s.log) && PromptOp(cfg, s, op) && !op.DailyReset?
    ensures OnlyPromptEntries(cfg, Step(cfg, stub, s, op).log)
  {
  }

  lemma {:induction false} PromptLog(cfg: Config, stub: bool, ops: seq<Op>, n: nat)
    requires n <= |ops| && Prompt(cfg, stub, ops)
    ensures OnlyPromptEntries(cfg, SystemAt(cfg, stub, ops, n).log)
  {
    if n > 0 {
      PromptLog(cfg, stub, ops, n - 1);
      assert PromptAt(cfg, stub, ops, n - 1);
      PromptStep(cfg, stub, SystemAt(cfg, stub, ops, n - 1), ops[n - 1]);
    }
  }

  /** When tasks run right after their response, as background tasks do, no event accepted by the
      endpoint is ever executed within the day: the accept itself debounces its task. */
  lemma PromptEndpointExecutesNothing(cfg: Config, stub: bool, ops: seq<Op>, b: nat)
    requires Prompt(cfg, stub, ops)
    requires b < |SystemAt(cfg, stub, ops, |ops|).log|
    ensures var e := SystemAt(cfg, stub, ops, |ops|).log[b];
            !(e.Executed? && e.task.origin.FromEndpoint?)
  {
    PromptLog(cfg, stub, ops, |ops|);
    var log := SystemAt(cfg, stub, ops, |ops|).log;
    if log[b].Executed? && log[b].task.origin.FromEndpoint? {
      EndpointTaskNeedsDelay(cfg, stub, ops, b);
    }
  }

  // ----- What each operation does, in terms of the tables -----

  /** The call an event amounts to; the module is left to the gate's own table. */
  function BareCall(e: OpsEvent, enabled: bool, now: int): Call {
    Call(enabled, e.kind.Value(), e.entityId, None, now)
  }

  /** Naming the module an event is mapped to is the same as naming none. */
  lemma CallIsBareCall(cfg: Config, g: GateState, e: OpsEvent, enabled: bool, now: int)
    ensures
      var c, bare := CallFor(cfg, e, enabled, now), BareCall(e, enabled, now);
      && ModuleOf(cfg, c) == ModuleOf(cfg, bare) && RoutedTo(cfg, e.kind, ModuleOf(cfg, c))
      && Decide(cfg, g, c) == Decide(cfg, g, bare) && Asked(cfg, g, c) == Asked(cfg, g, bare)
  {
  }

  /** The types each handler is for; in stub mode the bare crews are for none. */
  predicate IsFor(h: Handler, kind: EventKind, stub: bool) {
    match h
    case SalesFlow => kind == QualifiedLead
    case RecoveryFlow => kind == PaymentFailure || kind == ProvisioningFailure || kind == OnboardingStalled
    case DigestFlow => kind == DailyDigest || kind == BatchedInsights
    case AbuseCrew => !stub && kind == AbuseRiskSpike
    case SignupGuardCrew => !stub && kind == SignupFailure
    case DeployGuard => kind == DeployCompleted
  }

  /** The background handler hands each event to the handler that is for it; the AMP router does the same,
      except that it has none for a completed deploy. */
  lemma DispatchExactly(kind: EventKind, stub: bool, h: Handler)
    ensures ProcessDispatch(kind, stub) == Some(h) <==> IsFor(h, kind, stub)
    ensures RouteDispatch(kind, stub) == Some(h) <==> IsFor(h, kind, stub) && h != DeployGuard
  {
  }

  /** No handler that is for the event raises. */
  ghost predicate Handled(kind: EventKind, stub: bool, raising: set<Handler>) {
    forall h :: h in raising ==> !IsFor(h, kind, stub)
  }

  lemma HandledExactly(kind: EventKind, stub: bool, raising: set<Handler>)
    ensures Succeeds(ProcessDispatch(kind, stub), raising) <==> Handled(kind, stub, raising)
    ensures Succeeds(RouteDispatch(kind, stub), raising) <==> kind == DeployCompleted || Handled(kind, stub, raising)
  {
    forall h {
      DispatchExactly(kind, stub, h);
    }
  }

  /** An event is handled and recorded: the gate lets its bare call in and no handler for it raises. */
  ghost predicate Runs(cfg: Config, g: GateState, stub: bool, e: OpsEvent, enabled: bool, now: int,
                       raising: set<Handler>)
  {
    Accepts(cfg, g, BareCall(e, enabled, now)) && Handled(e.kind, stub, raising)
  }

  /** The gate once an event was asked for, and recorded under the module it is mapped to if it ran. */
  ghost predicate GateAfter(cfg: Config, g: GateState, g': GateState, e: OpsEvent, enabled: bool, now: int, ran: bool) {
    exists m :: RoutedTo(cfg, e.kind, m)
      && g' == if ran then Recorded(cfg, Asked(cfg, g, BareCall(e, enabled, now)), m, 0.0)
               else Asked(cfg, g, BareCall(e, enabled, now))
  }

  lemma AttemptExactly(cfg: Config, g: GateState, e: OpsEvent, enabled: bool, now: int, ok: bool)
    ensures GateAfter(cfg, g, Attempt(cfg, g, e, enabled, now, ok), e, enabled, now,
                      Accepts(cfg, g, BareCall(e, enabled, now)) && ok)
  {
    CallIsBareCall(cfg, g, e, enabled, now);
    assert RoutedTo(cfg, e.kind, ModuleFor(cfg, e.kind));
  }

  /** The endpoint queues the event and logs the accept if and only if the gate lets it in, and records
      nothing. */
  lemma ReceiveExactly(cfg: Config, stub: bool, s: System, e: OpsEvent, enabled: bool, now: int)
    ensures
      var s' := Step(cfg, stub, s, Receive(e, enabled, now));
      var task := Task(s.nextId, e, FromEndpoint(now));
      && s'.gate == Asked(cfg, s.gate, BareCall(e, enabled, now))
      && (Accepts(cfg, s.gate, BareCall(e, enabled, now)) ==>
            s'.queue == s.queue + [task] && s'.log == s.log + [Accepted(task, now)] && s'.nextId == s.nextId + 1)
      && (!Accepts(cfg, s.gate, BareCall(e, enabled, now)) ==>
            s'.queue == s.queue && s'.log == s.log && s'.nextId == s.nextId)
  {
    CallIsBareCall(cfg, s.gate, e, enabled, now);
  }

  /** A queued task is taken off, and runs if and only if the gate, asked again, lets it in and its handler
      returns. */
  lemma RunTaskExactly(cfg: Config, stub: bool, s: System, i: nat, enabled: bool, now: int, raising: set<Handler>)
    requires i < |s.queue|
    ensures
      var s' := Step(cfg, stub, s, RunTask(i, enabled, now, raising));
      var task := s.queue[i];
      var ran := Runs(cfg, s.gate, stub, task.event, enabled, now, raising);
      && s'.queue == s.queue[..i] + s.queue[i + 1..] && s'.nextId == s.nextId
      && s'.log == s.log + (if ran then [Executed(task, now)] else [])
      && GateAfter(cfg, s.gate, s'.gate, task.event, enabled, now, ran)
  {
    hide Decide, Asked;
    var e := s.queue[i].event;
    CallIsBareCall(cfg, s.gate, e, enabled, now);
    HandledExactly(e.kind, stub, raising);
    AttemptExactly(cfg, s.gate, e, enabled, now, Succeeds(ProcessDispatch(e.kind, stub), raising));
  }

  /** An event handed over directly: by the kickoff to the background handler, by the AMP flow to its
      router, which counts a completed deploy whatever its guard would do. */
  lemma DirectExactly(cfg: Config, stub: bool, s: System, e: OpsEvent, enabled: bool, now: int, raising: set<Handler>)
    ensures
      var s' := Step(cfg, stub, s, Kickoff(e, enabled, now, raising));
      var ran := Runs(cfg, s.gate, stub, e, enabled, now, raising);
      && s'.queue == s.queue && s'.nextId == s.nextId + 1
      && s'.log == s.log + (if ran then [Executed(Task(s.nextId, e, FromAmp), now)] else [])
      && GateAfter(cfg, s.gate, s'.gate, e, enabled, now, ran)
    ensures
      var s' := Step(cfg, stub, s, Route(e, enabled, now, raising));
      var ran := Accepts(cfg, s.gate, BareCall(e, enabled, now))
                 && (e.kind == DeployCompleted || Handled(e.kind, stub, raising));
      && s'.queue == s.queue && s'.nextId == s.nextId + 1
      && s'.log == s.log + (if ran then [Executed(Task(s.nextId, e, FromAmp), now)] else [])
      && GateAfter(cfg, s.gate, s'.gate, e, enabled, now, ran)
  {
    hide Decide, Asked;
    CallIsBareCall(cfg, s.gate, e, enabled, now);
    HandledExactly(e.kind, stub, raising);
    AttemptExactly(cfg, s.gate, e, enabled, now, Succeeds(ProcessDispatch(e.kind, stub), raising));
    AttemptExactly(cfg, s.gate, e, enabled, now, Succeeds(RouteDispatch(e.kind, stub), raising));
  }

  /** The cron endpoint queues a daily digest whatever the gate says, and leaves the gate alone. */
  lemma TriggerExactly(cfg: Config, stub: bool, s: System)
    ensures
      var s' := Step(cfg, stub, s, TriggerDigest);
      && s'.gate == s.gate && s'.log == s.log && |s'.queue| == |s.queue| + 1 && s'.queue[..|s.queue|] == s.queue
      && s'.queue[|s.queue|].event == OpsEvent(DailyDigest, None)
  {
  }

  // ----- The two routers -----

  /** One event given to a router: the flow switch, the clock and the handlers that would raise. */
  datatype Arrival = Arrival(event: OpsEvent, enabled: bool, now: int, raising: set<Handler>)

  function ProcessOne(cfg: Config, stub: bool, g: GateState, a: Arrival): GateState {
    Attempt(cfg, g, a.event, a.enabled, a.now, Succeeds(ProcessDispatch(a.event.kind, stub), a.raising))
  }

  function RouteOne(cfg: Config, stub: bool, g: GateState, a: Arrival): GateState {
    Attempt(cfg, g, a.event, a.enabled, a.now, Succeeds(RouteDispatch(a.event.kind, stub), a.raising))
  }

  /** The gate after the background handler took the first `n` arrivals. */
  function ProcessAt(cfg: Config, stub: bool, g: GateState, arrivals: seq<Arrival>, n: nat): GateState
    requires n <= |arrivals|
  {
    if n == 0 then g else ProcessOne(cfg, stub, ProcessAt(cfg, stub, g, arrivals, n - 1), arrivals[n - 1])
  }

  /** The gate after the AMP router took them. */
  function RouteAt(cfg: Config, stub: bool, g: GateState, arrivals: seq<Arrival>, n: nat): GateState
    requires n <= |arrivals|
  {
    if n == 0 then g else RouteOne(cfg, stub, RouteAt(cfg, stub, g, arrivals, n - 1), arrivals[n - 1])
  }

  /** A completed deploy that the gate lets in and whose guard raises: the AMP router never runs the
      guard, and counts the event anyway. */
  predicate Parts(cfg: Config, g: GateState, a: Arrival) {
    && a.event.kind.DeployCompleted? && DeployGuard in a.raising
    && Accepts(cfg, g, CallFor(cfg, a.event, a.enabled, a.now))
  }

  /** On one event the routers leave the same gate unless it is such a deploy. */
  lemma RoutersAgreeOnce(cfg: Config, stub: bool, g: GateState, a: Arrival)
    ensures ProcessOne(cfg, stub, g, a) == RouteOne(cfg, stub, g, a) <==> !Parts(cfg, g, a)
  {
    var m := ModuleFor(cfg, a.event.kind);
    var g' := Asked(cfg, g, CallFor(cfg, a.event, a.enabled, a.now));
    assert Recorded(cfg, g', m, 0.0).Count(m) == g'.Count(m) + 1;
  }

  predicate GatesAgree(cfg: Config, stub: bool, g: GateState, arrivals: seq<Arrival>, i: nat)
    requires i <= |arrivals|
  {
    ProcessAt(cfg, stub, g, arrivals, i) == RouteAt(cfg, stub, g, arrivals, i)
  }

  predicate PartsAt(cfg: Config, stub: bool, g: GateState, arrivals: seq<Arrival>, i: nat)
    requires i < |arrivals|
  {
    Parts(cfg, ProcessAt(cfg, stub, g, arrivals, i), arrivals[i])
  }

  lemma RoutersStart(cfg: Config, stub: bool, g: GateState, arrivals: seq<Arrival>)
    ensures GatesAgree(cfg, stub, g, arrivals, 0)
  {
  }

  lemma RoutersAgreeNext(cfg: Config, stub: bool, g: GateState, arrivals: seq<Arrival>, n: nat)
    requires n < |arrivals| && GatesAgree(cfg, stub, g, arrivals, n)
    ensures GatesAgree(cfg, stub, g, arrivals, n + 1) <==> !PartsAt(cfg, stub, g, arrivals, n)
  {
    RoutersAgreeOnce(cfg, stub, ProcessAt(cfg, stub, g, arrivals, n), arrivals[n]);
  }

  /** Over any sequence the routers leave identical gates after every event if and only if no completed
      deploy is let in, at its own point of the run, whose guard raises. */
  lemma {:induction false} RoutersAgree(cfg: Config, stub: bool, g: GateState, arrivals: seq<Arrival>, n: nat)
    requires n <= |arrivals|
    ensures (forall i: nat | i <= n :: GatesAgree(cfg, stub, g, arrivals, i))
       <==> (forall i: nat | i < n :: !PartsAt(cfg, stub, g, arrivals, i))
  {
    hide *;
    RoutersStart(cfg, stub, g, arrivals);
    if n > 0 {
      RoutersAgree(cfg, stub, g, arrivals, n - 1);
      if GatesAgree(cfg, stub, g, arrivals, n - 1) {
        RoutersAgreeNext(cfg, stub, g, arrivals, n - 1);
      }
    }
  }
}
