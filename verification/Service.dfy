/** The two routers, the HTTP endpoint and the background queue, all driving one shared gate.

    `_process_event` contains no await, so one task is one atomic step. Tasks carry a ticket number
    and the log records accepts, executions and resets; both are bookkeeping for the statements. */
module Service {
  import opened Common
  import opened Events
  import opened Gate

  datatype OpsEvent = OpsEvent(kind: EventKind, entityId: Option<string>)

  datatype Origin = FromEndpoint(acceptedAt: int) | FromCron | FromAmp

  datatype Task = Task(id: nat, event: OpsEvent, origin: Origin)

  datatype Entry =
    | Accepted(task: Task, at: int)
    | Executed(task: Task, at: int)
    | DayReset

  datatype System = System(gate: GateState, queue: seq<Task>, nextId: nat, log: seq<Entry>)

  const START := System(EMPTY, [], 0, [])

  /** What an event is handed to. */
  datatype Handler = SalesFlow | RecoveryFlow | DigestFlow | AbuseCrew | SignupGuardCrew | DeployGuard

  /** Dispatch of the background handler; in stub mode the two bare crews are not run. */
  function ProcessDispatch(kind: EventKind, stub: bool): Option<Handler> {
    match kind
    case QualifiedLead => Some(SalesFlow)
    case PaymentFailure => Some(RecoveryFlow)
    case ProvisioningFailure => Some(RecoveryFlow)
    case OnboardingStalled => Some(RecoveryFlow)
    case DailyDigest => Some(DigestFlow)
    case BatchedInsights => Some(DigestFlow)
    case AbuseRiskSpike => if stub then None else Some(AbuseCrew)
    case SignupFailure => if stub then None else Some(SignupGuardCrew)
    case DeployCompleted => Some(DeployGuard)
  }

  /** Dispatch of the AMP router, which has no branch for a completed deploy. */
  function RouteDispatch(kind: EventKind, stub: bool): Option<Handler> {
    match kind
    case QualifiedLead => Some(SalesFlow)
    case PaymentFailure => Some(RecoveryFlow)
    case ProvisioningFailure => Some(RecoveryFlow)
    case OnboardingStalled => Some(RecoveryFlow)
    case DailyDigest => Some(DigestFlow)
    case BatchedInsights => Some(DigestFlow)
    case AbuseRiskSpike => if stub then None else Some(AbuseCrew)
    case SignupFailure => if stub then None else Some(SignupGuardCrew)
    case DeployCompleted => None
  }

  /** The handler, if any, returns normally. */
  predicate Succeeds(dispatch: Option<Handler>, raising: set<Handler>) {
    dispatch.None? || dispatch.value !in raising
  }

  function ModuleFor(cfg: Config, kind: EventKind): string {
    if kind.Value() in cfg.modules then cfg.modules[kind.Value()] else "unknown"
  }

  function CallFor(cfg: Config, e: OpsEvent, enabled: bool, now: int): Call {
    Call(enabled, e.kind.Value(), e.entityId, Some(ModuleFor(cfg, e.kind)), now)
  }

  function TaskKey(task: Task): string {
    Key(task.event.kind.Value(), task.event.entityId)
  }

  /** One event against the gate: ask, and record at no cost when it was let in and handled. */
  function Attempt(cfg: Config, g: GateState, e: OpsEvent, enabled: bool, now: int, ok: bool): GateState {
    var c := CallFor(cfg, e, enabled, now);
    if Accepts(cfg, g, c) && ok then Recorded(cfg, Asked(cfg, g, c), ModuleFor(cfg, e.kind), 0.0)
    else Asked(cfg, g, c)
  }

  function ProcessStep(cfg: Config, s: System, task: Task, enabled: bool, now: int, ok: bool): System {
    var executed := Accepts(cfg, s.gate, CallFor(cfg, task.event, enabled, now)) && ok;
    s.(gate := Attempt(cfg, s.gate, task.event, enabled, now, ok),
       log := if executed then s.log + [Executed(task, now)] else s.log)
  }

  datatype Op =
    | Receive(event: OpsEvent, enabled: bool, now: int)
    | TriggerDigest
    | RunTask(index: nat, enabled: bool, now: int, raising: set<Handler>)
    | Kickoff(event: OpsEvent, enabled: bool, now: int, raising: set<Handler>)
    | Route(event: OpsEvent, enabled: bool, now: int, raising: set<Handler>)
    | DailyReset
    | SetSafeMode(on: bool)

  function ReceiveStep(cfg: Config, s: System, e: OpsEvent, enabled: bool, now: int): System {
    var c := CallFor(cfg, e, enabled, now);
    var s' := s.(gate := Asked(cfg, s.gate, c));
    if Accepts(cfg, s.gate, c) then
      var task := Task(s.nextId, e, FromEndpoint(now));
      s'.(queue := s.queue + [task], nextId := s.nextId + 1, log := s.log + [Accepted(task, now)])
    else s'
  }

  /** The system once the `i`-th queued task was taken off. */
  function Popped(s: System, i: nat): System
    requires i < |s.queue|
  {
    s.(queue := s.queue[..i] + s.queue[i + 1..])
  }

  /** An event handed to a router without the queue. */
  function DirectStep(cfg: Config, s: System, e: OpsEvent, enabled: bool, now: int, ok: bool): System {
    ProcessStep(cfg, s.(nextId := s.nextId + 1), Task(s.nextId, e, FromAmp), enabled, now, ok)
  }

  function Step(cfg: Config, stub: bool, s: System, op: Op): System {
    match op
    case Receive(e, enabled, now) => ReceiveStep(cfg, s, e, enabled, now)
    case TriggerDigest =>
      s.(queue := s.queue + [Task(s.nextId, OpsEvent(DailyDigest, None), FromCron)], nextId := s.nextId + 1)
    case RunTask(i, enabled, now, raising) =>
      if i < |s.queue| then
        var task := s.queue[i];
        ProcessStep(cfg, Popped(s, i), task, enabled, now, Succeeds(ProcessDispatch(task.event.kind, stub), raising))
      else s
    case Kickoff(e, enabled, now, raising) =>
      DirectStep(cfg, s, e, enabled, now, Succeeds(ProcessDispatch(e.kind, stub), raising))
    case Route(e, enabled, now, raising) =>
      DirectStep(cfg, s, e, enabled, now, Succeeds(RouteDispatch(e.kind, stub), raising))
    case DailyReset => s.(gate := ResetDaily(s.gate), log := s.log + [DayReset])
    case SetSafeMode(on) => s.(gate := s.gate.(safeMode := on))
  }

  class OpsService {
    const gate: EventGate
    const stub: bool
    var queue: seq<Task>
    var nextId: nat
    ghost var log: seq<Entry>

    ghost function View(): System
      reads this, gate
    {
      System(gate.View(), queue, nextId, log)
    }

    constructor (cfg: Config, stub: bool)
      ensures View() == START && this.stub == stub && gate.cfg == cfg && fresh(gate)
    {
      this.gate := new EventGate(cfg);
      this.stub := stub;
      queue, nextId, log := [], 0, [];
    }

    /** Gate check, dispatch, and a record when the handler returned. A raising handler is caught by
        the background handler and re-raised by the AMP router; neither records. */
    method Handle(task: Task, dispatch: Option<Handler>, enabled: bool, now: int, raising: set<Handler>)
      returns (allowed: bool, handled: bool)
      modifies this`log, gate
      ensures View() == ProcessStep(gate.cfg, old(View()), task, enabled, now, Succeeds(dispatch, raising))
      ensures allowed == old(Accepts(gate.cfg, gate.View(), CallFor(gate.cfg, task.event, enabled, now)))
      ensures handled == (allowed && Succeeds(dispatch, raising))
    {
      var moduleName := ModuleFor(gate.cfg, task.event.kind);
      var call := Call(enabled, task.event.kind.Value(), task.event.entityId, Some(moduleName), now);
      var verdict := gate.ShouldProcess(call);
      allowed := verdict == Allowed;
      if !allowed {
        return false, false;
      }
      if dispatch.Some? && dispatch.value in raising {
        return true, false;
      }
      var alert, raised := gate.RecordExecution(moduleName, 0.0);
      // Dividing by a zero budget cannot happen here: a zero budget admits nothing.
      handled := !raised;
      log := log + [Executed(task, now)];
    }

    method ProcessEvent(task: Task, enabled: bool, now: int, raising: set<Handler>) returns (handled: bool)
      modifies this`log, gate
      ensures View() == ProcessStep(gate.cfg, old(View()), task, enabled, now,
                                    Succeeds(ProcessDispatch(task.event.kind, stub), raising))
    {
      var allowed;
      allowed, handled := Handle(task, ProcessDispatch(task.event.kind, stub), enabled, now, raising);
    }

    method ReceiveEvent(e: OpsEvent, enabled: bool, now: int) returns (verdict: Verdict)
      modifies this, gate
      ensures View() == Step(gate.cfg, stub, old(View()), Receive(e, enabled, now))
      ensures verdict == Decide(gate.cfg, old(gate.View()), CallFor(gate.cfg, e, enabled, now))
    {
      var moduleName := ModuleFor(gate.cfg, e.kind);
      verdict := gate.ShouldProcess(Call(enabled, e.kind.Value(), e.entityId, Some(moduleName), now));
      if verdict == Allowed {
        var task := Task(nextId, e, FromEndpoint(now));
        queue, nextId := queue + [task], nextId + 1;
        log := log + [Accepted(task, now)];
      }
    }

    method TriggerDigestNow()
      modifies this
      ensures View() == Step(gate.cfg, stub, old(View()), TriggerDigest)
    {
      queue, nextId := queue + [Task(nextId, OpsEvent(DailyDigest, None), FromCron)], nextId + 1;
    }

    method RunQueued(i: nat, enabled: bool, now: int, raising: set<Handler>) returns (handled: bool)
      requires i < |queue|
      modifies this, gate
      ensures View() == Step(gate.cfg, stub, old(View()), RunTask(i, enabled, now, raising))
    {
      var task := queue[i];
      queue := queue[..i] + queue[i + 1..];
      handled := ProcessEvent(task, enabled, now, raising);
    }

    method KickoffEvent(e: OpsEvent, enabled: bool, now: int, raising: set<Handler>) returns (handled: bool)
      modifies this, gate
      ensures View() == Step(gate.cfg, stub, old(View()), Kickoff(e, enabled, now, raising))
    {
      var task := Task(nextId, e, FromAmp);
      nextId := nextId + 1;
      handled := ProcessEvent(task, enabled, now, raising);
    }

    /** The AMP router's `route_event`; `abort` is the flag it sets when the gate drops the event. */
    method RouteEvent(event: Option<OpsEvent>, enabled: bool, now: int, raising: set<Handler>)
      returns (abort: bool, handled: bool)
      modifies this, gate
      ensures event.None? ==> abort && !handled && View() == old(View())
      ensures event.Some? ==>
        View() == Step(gate.cfg, stub, old(View()), Route(event.value, enabled, now, raising))
        && abort == !old(Accepts(gate.cfg, gate.View(), CallFor(gate.cfg, event.value, enabled, now)))
    {
      if event.None? {
        return true, false;
      }
      var e := event.value;
      var task := Task(nextId, e, FromAmp);
      nextId := nextId + 1;
      var allowed;
      allowed, handled := Handle(task, RouteDispatch(e.kind, stub), enabled, now, raising);
      abort := !allowed;
    }
  }
}
