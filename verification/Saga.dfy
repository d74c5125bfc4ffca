/** The sales flow (signup, link, checkout saga) and the recovery flow: flow objects with their own
    state over one shared provisioner and one signup table. */
module Saga {
  import opened Common
  import opened State
  import opened Provisioning
  import opened Table
  import opened Signup
  import Retry

  /** What one checkout meets. `stage1(i)` and `stage2(i)` script the i-th attempt of a stage. */
  datatype CheckoutEnv = CheckoutEnv(
    facts: Facts,
    stage1: nat -> nat,
    stage2: nat -> Stage2Script,
    maxRetries: int)

  /** Both stages are through: onboarding starts and the signup is activated. */
  function Activation(f: FlowState): FlowState {
    f.(stage2Done := true, step := AccountSetup, signup := f.signup.(status := Activated))
  }

  /** The rest of a checkout once Stage 1 is done. */
  function AfterStage1(w: World, f: FlowState, account: string, env: CheckoutEnv): (World, FlowState) {
    if LookupsRaise(w.paused, env.facts) then (w, f)
    else
      var valid := MayRunStage2(w.paused, env.facts);
      var log := w.log + [Validated(account, valid)];
      if valid then
        (w.(log := log + Stage2Log(account, env.stage2(0))),
         if Stage2Succeeds(env.stage2(0)) then Activation(f) else f)
      else if !w.paused && !env.facts.hasPaymentMethod then (World(true, log + [Pause]), f)
      else (w.(log := log), f)
  }

  /** What one completed checkout leaves behind; `early` when a handler raised before Stage 1. */
  function Checkout(w: World, f: FlowState, account: string, early: bool, env: CheckoutEnv): (World, FlowState) {
    if early then (w, f)
    else
      var log1 := w.log + Stage1Log(account, env.stage1(0));
      if !Stage1Succeeds(env.stage1(0)) then (w.(log := log1), f)
      else AfterStage1(w.(log := log1), f.(stage1Done := true), account, env)
  }

  predicate CheckoutRaises(paused: bool, early: bool, env: CheckoutEnv) {
    early || (Stage1Succeeds(env.stage1(0)) && LookupsRaise(paused, env.facts))
  }

  /** The recovery crew's answer: absent, not JSON, JSON but not an object, or a plan. */
  datatype CrewResult =
    | NoResult
    | Unparsable
    | NotAnObject
    | Plan(action: string, safeToAuto: bool, pauseRecommended: bool)

  const RETRY_STAGE1 := "retry_stage1"

  function Recover(w: World, f: FlowState, account: string, abort: bool, crew: CrewResult, stage1: nat -> nat)
    : (World, FlowState)
  {
    if abort || !crew.Plan? then (w, f)
    else
      var retries := crew.safeToAuto && crew.action == RETRY_STAGE1 && account != "";
      var log1 := if retries then w.log + Stage1Log(account, stage1(0)) else w.log;
      if crew.pauseRecommended then
        (World(true, log1 + [Pause]), f.(pauseNoted := true, alerts := f.alerts + [Warning]))
      else (w.(log := log1), f)
  }

  predicate HasSignup(f: FlowState) {
    f.signup.id.Some? && f.signup.id.value != ""
  }

  /** The flow's note that the link went out. */
  function LinkNoted(f: FlowState, sent: bool): FlowState {
    if HasSignup(f) && sent then f.(signup := f.signup.(status := LinkSent)) else f
  }

  /** A stub handler creates like one that finds nothing and whose writes all work. */
  function StubEnv(env: LeadEnv, uuid: string): LeadEnv {
    env.(readOk := false, insertOk := true, newId := uuid, linkOk := true)
  }

  /** `attempt_retry` around `run_stage1`: the calls it makes are the runs that happen. */
  method RetryStage1(prov: Provisioner, account: string, stage1: nat -> nat, maxAttempts: Option<int>, configured: int)
    returns (r: Retry.RetryOutcome<bool>)
    modifies prov
    ensures r == Retry.Succeeded(Stage1Succeeds(stage1(0)), 1)
    ensures prov.View() == old(prov.View()).(log := old(prov.log) + Stage1Log(account, stage1(0)))
  {
    var fn := (i: nat) => Ok(Stage1Succeeds(stage1(i)));
    var calls;
    r, calls := Retry.AttemptRetry<bool>(fn, maxAttempts, configured);
    Retry.NonRaisingRunsOnce(fn, Retry.Cap(Retry.Limit(maxAttempts, configured)), r, calls);
    ghost var w, ran := prov.View(), Stage1Log(account, stage1(0));
    for i := 0 to calls
      invariant prov.View() == w.(log := w.log + if i == 0 then [] else ran)
    {
      var ok := prov.RunStage1(account, stage1(i));
    }
  }

  /** `attempt_retry` around `run_stage2`. */
  method RetryStage2(
    prov: Provisioner, account: string, stage2: nat -> Stage2Script, maxAttempts: Option<int>, configured: int)
    returns (r: Retry.RetryOutcome<bool>)
    modifies prov
    ensures r == Retry.Succeeded(Stage2Succeeds(stage2(0)), 1)
    ensures prov.View() == old(prov.View()).(log := old(prov.log) + Stage2Log(account, stage2(0)))
  {
    var fn := (i: nat) => Ok(Stage2Succeeds(stage2(i)));
    var calls;
    r, calls := Retry.AttemptRetry<bool>(fn, maxAttempts, configured);
    Retry.NonRaisingRunsOnce(fn, Retry.Cap(Retry.Limit(maxAttempts, configured)), r, calls);
    ghost var w, ran := prov.View(), Stage2Log(account, stage2(0));
    for i := 0 to calls
      invariant prov.View() == w.(log := w.log + if i == 0 then [] else ran)
    {
      var ok := prov.RunStage2(account, stage2(i));
    }
  }

  class SalesFlow {
    const prov: Provisioner
    const handler: SignupHandler
    var state: FlowState

    constructor (prov: Provisioner, handler: SignupHandler)
      ensures this.prov == prov && this.handler == handler && state == FRESH
    {
      this.prov, this.handler, state := prov, handler, FRESH;
    }

    /** The create step: a duplicate is caught and its id reused. */
    method CreateOrReuse(env: LeadEnv, uuid: string) returns (raised: bool)
      requires PlainDetails(env)
      modifies this`state, handler.db
      ensures handler.db.stub ==>
        && handler.db.rows == old(handler.db.rows) && !raised
        && state == old(state).(signup := FlowSignup(Some(uuid), None, Qualified))
      ensures !handler.db.stub ==>
        && handler.db.rows == AfterCreate(old(handler.db.rows), env).0
        && raised == AfterCreate(old(handler.db.rows), env).1.None?
        && state == old(state).(signup := SignupCreated(old(state).signup, old(handler.db.rows), env))
    {
      var r := handler.CreatePendingSignup(env, uuid);
      match r
      case Ok(id) =>
        state := state.(signup := FlowSignup(Some(id), None, Qualified));
        raised := false;
      case Err(Duplicate(existingId)) =>
        state := state.(signup := state.signup.(id := Some(existingId)));
        raised := false;
      case Err(InsertFailed) =>
        raised := true;
    }

    /** The checkout session is there: persist its link and keep it. */
    method StoreLink(env: LeadEnv) returns (raised: bool)
      requires state.signup.id.Some?
      modifies this`state, handler.db
      ensures raised == (!handler.db.stub && !env.linkOk)
      ensures handler.db.rows ==
        if handler.db.stub || raised then old(handler.db.rows)
        else Upserted(old(handler.db.rows), Link(old(state).signup.id.value, env.url, env.now), "")
      ensures state ==
        if raised then old(state) else old(state).(signup := old(state).signup.(link := Some(env.url)))
    {
      raised := handler.UpdateStatus(Link(state.signup.id.value, env.url, env.now), env.linkOk);
      if !raised {
        state := state.(signup := state.signup.(link := Some(env.url)));
      }
    }

    /** Create or reuse the signup, then store its checkout link; `raised` when an adapter call raised. */
    method CreateThenLink(abort: bool, env: LeadEnv, uuid: string) returns (raised: bool)
      requires Keyed(handler.db.rows) && PlainDetails(env)
      requires FreshId(handler.db.rows, env.newId) && uuid != ""
      modifies this`state, handler.db
      ensures abort ==> handler.db.rows == old(handler.db.rows) && state == old(state) && !raised
      ensures !abort && handler.db.stub ==>
        && handler.db.rows == old(handler.db.rows) && raised == !env.checkoutOk
        && state == old(state).(signup := SignupAfter(old(state).signup, [], StubEnv(env, uuid)))
        && state.signup == FlowSignup(Some(uuid), if raised then None else Some(env.url), Qualified)
      ensures !abort && !handler.db.stub ==>
        && handler.db.rows == AfterLead(old(handler.db.rows), env)
        && raised == !(AfterCreate(old(handler.db.rows), env).1.Some? && env.checkoutOk && env.linkOk)
        && state == old(state).(signup := SignupAfter(old(state).signup, old(handler.db.rows), env))
    {
      if abort {
        return false;
      }
      ghost var rows := handler.db.rows;
      raised := CreateOrReuse(env, uuid);
      if raised || !env.checkoutOk {
        return true;
      }
      if !handler.db.stub {
        LinkReachesOwnRow(rows, env);
      }
      raised := StoreLink(env);
    }

    method RaiseAlert(severity: SeverityArg) returns (raised: bool)
      modifies this`state
      ensures raised == AddAlert(old(state).alerts, severity).Err?
      ensures state == if raised then old(state)
                       else old(state).(alerts := AddAlert(old(state).alerts, severity).value)
    {
      match AddAlert(state.alerts, severity)
      case Ok(alerts) =>
        state := state.(alerts := alerts);
        raised := false;
      case Err(_) =>
        raised := true;
    }

    /** Note whether the link went out. A link that did not makes the flow raise: its alert names the
        severity by a plain text. */
    method SendCheckoutLink(abort: bool, sent: bool) returns (raised: bool)
      modifies this`state
      ensures state == if abort then old(state) else LinkNoted(old(state), sent)
      ensures state == if !abort && sent && HasSignup(old(state))
                       then old(state).(signup := old(state).signup.(status := LinkSent)) else old(state)
      ensures raised == (!abort && !sent && old(state).signup.id != None && old(state).signup.id != Some(""))
    {
      raised := false;
      if abort || state.signup.id.None? || state.signup.id.value == "" {
        return;
      }
      if sent {
        state := state.(signup := state.signup.(status := LinkSent));
      } else {
        raised := RaiseAlert(PlainText("warning"));
      }
    }

    /** The value a retried stage reports; at the cap the account is marked for review instead. */
    method StageValue(account: string, r: Retry.RetryOutcome<bool>) returns (ok: bool)
      modifies prov`log
      ensures ok == (r.Succeeded? && r.value)
      ensures prov.log == if r.Capped? then old(prov.log) + [MarkedForReview(account)] else old(prov.log)
    {
      match r
      case Succeeded(value, _) => ok := value;
      case Capped(_) =>
        ok := false;
        prov.MarkForManualReview(account);
    }

    /** The rest of a checkout once Stage 1 is done. */
    method RunStage2IfValid(account: string, env: CheckoutEnv) returns (raised: bool)
      modifies this`state, prov
      ensures (prov.View(), state) == AfterStage1(old(prov.View()), old(state), account, env)
      ensures raised == LookupsRaise(old(prov.paused), env.facts)
    {
      var checked := prov.ValidateBeforeStage2(account, env.facts);
      if checked.Err? {
        return true;
      }
      raised := false;
      var v := checked.value;
      if !v.isValid {
        ghost var w := prov.View();
        for i := 0 to |v.errors|
          invariant prov.View() == if i > 0 && v.errors[0] == NoPaymentMethod then World(true, w.log + [Pause]) else w
          invariant state == old(state)
        {
          if v.errors[i] == NoPaymentMethod {
            prov.PauseStage2();
          }
        }
        return;
      }
      var r2 := RetryStage2(prov, account, env.stage2, None, env.maxRetries);
      var ok2 := StageValue(account, r2);
      if ok2 {
        state := state.(stage2Done := true);
        state := state.(step := AccountSetup);
        state := state.(signup := state.signup.(status := Activated));
      }
    }

    /** `handle_checkout_completed`. */
    method HandleCheckoutCompleted(account: string, d: Delivery, uuid: string, paymentRaises: bool, env: CheckoutEnv)
      returns (raised: bool)
      requires Keyed(handler.db.rows)
      modifies this`state, prov, handler.db
      ensures handler.db.rows == if handler.db.stub then old(handler.db.rows) else Delivered(old(handler.db.rows), d)
      ensures
        var early := paymentRaises || (!handler.db.stub && DeliveryRaises(old(handler.db.rows), d));
        && (prov.View(), state) == Checkout(old(prov.View()), old(state), account, early, env)
        && raised == CheckoutRaises(old(prov.paused), early, env)
    {
      var signup := handler.HandleCheckoutCompleted(d, uuid);
      if signup.Err? || paymentRaises {
        return true;
      }
      var r1 := RetryStage1(prov, account, env.stage1, None, env.maxRetries);
      var ok1 := StageValue(account, r1);
      if !ok1 {
        return false;
      }
      state := state.(stage1Done := true);
      raised := RunStage2IfValid(account, env);
    }
  }

  class RecoveryFlow {
    const prov: Provisioner
    var state: FlowState

    constructor (prov: Provisioner)
      ensures this.prov == prov && state == FRESH
    {
      this.prov, state := prov, FRESH;
    }

    /** What the flow does with the outcome of the retry: nothing with a value, a critical alert at the cap. */
    method NoteRetry(account: string, r: Retry.RetryOutcome<bool>)
      modifies this`state, prov`log
      ensures state == if r.Capped? then old(state).(alerts := old(state).alerts + [Critical]) else old(state)
      ensures prov.log == if r.Capped? then old(prov.log) + [MarkedForReview(account)] else old(prov.log)
    {
      if r.Capped? {
        prov.MarkForManualReview(account);
        state := state.(alerts := AddAlert(state.alerts, Severity(Critical)).value);
      }
    }

    /** `apply_safe_auto_fixes`. */
    method ApplySafeAutoFixes(account: string, abort: bool, crew: CrewResult, stage1: nat -> nat, configured: int)
      returns (raised: bool)
      modifies this`state, prov
      ensures (prov.View(), state) == Recover(old(prov.View()), old(state), account, abort, crew, stage1)
      ensures raised == (!abort && crew.NotAnObject?)
    {
      raised := false;
      if abort {
        return;
      }
      match crew
      case NoResult =>
      case Unparsable =>
      case NotAnObject => raised := true;
      case Plan(action, safeToAuto, pauseRecommended) =>
        if safeToAuto && action == RETRY_STAGE1 && account != "" {
          var r := RetryStage1(prov, account, stage1, Some(2), configured);
          NoteRetry(account, r);
        }
        if pauseRecommended {
          prov.PauseStage2();
          state := state.(pauseNoted := true);
          state := state.(alerts := AddAlert(state.alerts, Severity(Warning)).value);
        }
    }
  }
}
