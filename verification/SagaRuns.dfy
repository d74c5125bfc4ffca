/** Any sequence of checkouts, recoveries, signups and flag changes over any number of flows and
    accounts, with arbitrary step failures. */
module SagaRuns {
  import opened Common
  import opened State
  import opened Provisioning
  import opened Saga
  import Signup
  import Table

  datatype Op =
    | CheckoutOp(flow: nat, account: string, early: bool, env: CheckoutEnv)
    | RecoverOp(flow: nat, account: string, abort: bool, crew: CrewResult, stage1: nat -> nat)
    | SignupOp(flow: nat, rows: seq<Table.Row>, lead: Signup.LeadEnv)
    | LinkOp(flow: nat, sent: bool)
    | PauseOp
    | ResumeOp

  datatype Sys = Sys(world: World, flows: map<nat, FlowState>)

  const START := Sys(World(false, []), map[])

  function FlowOf(s: Sys, id: nat): FlowState {
    if id in s.flows then s.flows[id] else FRESH
  }

  function Put(s: Sys, id: nat, r: (World, FlowState)): Sys {
    Sys(r.0, s.flows[id := r.1])
  }

  function Step(s: Sys, op: Op): Sys {
    match op
    case CheckoutOp(id, account, early, env) => Put(s, id, Checkout(s.world, FlowOf(s, id), account, early, env))
    case RecoverOp(id, account, abort, crew, stage1) =>
      Put(s, id, Recover(s.world, FlowOf(s, id), account, abort, crew, stage1))
    case SignupOp(id, rows, lead) =>
      var f := FlowOf(s, id);
      Put(s, id, (s.world, f.(signup := Signup.SignupAfter(f.signup, rows, lead))))
    case LinkOp(id, sent) => Put(s, id, (s.world, LinkNoted(FlowOf(s, id), sent)))
    case PauseOp => s.(world := World(true, s.world.log + [Pause]))
    case ResumeOp => s.(world := World(false, s.world.log + [Resume]))
  }

  function At(ops: seq<Op>, n: nat): Sys
    requires n <= |ops|
  {
    if n == 0 then START else Step(At(ops, n - 1), ops[n - 1])
  }

  /** What a flow's own fields may say together. */
  predicate Coherent(f: FlowState) {
    (f.stage2Done ==> f.stage1Done)
    && (f.signup.status == Activated ==> f.stage1Done && f.stage2Done && f.step == AccountSetup)
  }

  /** The flag as the first `n` log entries leave it. */
  predicate PausedAfter(log: seq<Act>, n: nat)
    requires n <= |log|
  {
    if n == 0 then false
    else if log[n - 1].Pause? then true
    else if log[n - 1].Resume? then false
    else PausedAfter(log, n - 1)
  }

  /** From entry `from` on come the four Stage 1 helpers of account `a`, all successful, a valid check, and
      the first `k` Stage 2 helpers, all successful, in this order and with nothing in between. */
  predicate Prepared(log: seq<Act>, from: nat, a: string, k: nat)
    requires from + STAGE1_STEPS + 1 + k <= |log|
  {
    && (forall j :: 0 <= j < STAGE1_STEPS ==> log[from + j] == Stage1Step(a, j, true))
    && log[from + STAGE1_STEPS] == Validated(a, true)
    && (forall j :: 0 <= j < k ==> log[from + STAGE1_STEPS + 1 + j] == Stage2Step(a, j, true))
  }

  /** Entry `i` is Stage 2 helper k of an account, everything it needs comes just before it, and the flag
      is clear. */
  predicate Guarded(log: seq<Act>, i: nat)
    requires i < |log| && log[i].Stage2Step?
  {
    var from := i - log[i].k - 1 - STAGE1_STEPS;
    && log[i].k < STAGE2_STEPS && from >= 0 && Prepared(log, from, log[i].account, log[i].k)
    && !PausedAfter(log, i)
  }

  ghost predicate AllGuarded(log: seq<Act>) {
    forall i: nat :: i < |log| && log[i].Stage2Step? ==> Guarded(log, i)
  }

  /** The log is guarded and the flag is what it says. */
  ghost predicate Sound(w: World) {
    AllGuarded(w.log) && w.paused == PausedAfter(w.log, |w.log|)
  }

  ghost predicate Invariant(s: Sys) {
    (forall id :: id in s.flows ==> Coherent(s.flows[id]))
    && Sound(s.world)
  }

  // ----- Appending to the log -----

  lemma {:induction false} PausedPrefix(log: seq<Act>, more: seq<Act>, n: nat)
    requires n <= |log|
    ensures PausedAfter(log + more, n) == PausedAfter(log, n)
  {
    if n > 0 {
      PausedPrefix(log, more, n - 1);
    }
  }

  predicate LeavesFlag(more: seq<Act>) {
    forall i :: 0 <= i < |more| ==> !more[i].Pause? && !more[i].Resume?
  }

  lemma {:induction false} PausedUnmoved(log: seq<Act>, more: seq<Act>, n: nat)
    requires LeavesFlag(more) && n <= |more|
    ensures PausedAfter(log + more, |log| + n) == PausedAfter(log, |log|)
  {
    PausedPrefix(log, more, |log|);
    if n > 0 {
      PausedUnmoved(log, more, n - 1);
      assert (log + more)[|log| + n - 1] == more[n - 1];
    }
  }

  lemma GuardedPrefix(log: seq<Act>, more: seq<Act>, i: nat)
    requires i < |log| && log[i].Stage2Step? && Guarded(log, i)
    ensures Guarded(log + more, i)
  {
    PausedPrefix(log, more, i);
    assert forall j :: 0 <= j < |log| ==> (log + more)[j] == log[j];
  }

  /** Entry `i` of an appended stretch is guarded if it is a Stage 2 helper. */
  predicate GuardedTail(log: seq<Act>, more: seq<Act>, i: nat)
    requires i < |more|
  {
    more[i].Stage2Step? ==> (log + more)[|log| + i].Stage2Step? && Guarded(log + more, |log| + i)
  }

  lemma GuardedGrows(log: seq<Act>, more: seq<Act>)
    requires AllGuarded(log)
    requires forall i: nat | i < |more| :: GuardedTail(log, more, i)
    ensures AllGuarded(log + more)
  {
    forall i: nat | i < |log + more| && (log + more)[i].Stage2Step?
      ensures Guarded(log + more, i)
    {
      if i < |log| {
        GuardedPrefix(log, more, i);
      } else {
        assert (log + more)[i] == more[i - |log|];
        assert GuardedTail(log, more, i - |log|);
      }
    }
  }

  /** The log of a checkout that reached Stage 2. */
  function Segment(a: string, failAt: nat, s: Stage2Script): seq<Act> {
    Stage1Log(a, failAt) + [Validated(a, true)] + Stage2Log(a, s)
  }

  /** Four successful Stage 1 helpers, a valid check, then Stage 2 helpers of which only the last may
      have failed. */
  predicate Shaped(seg: seq<Act>, a: string) {
    |seg| > STAGE1_STEPS && |seg| <= STAGE1_STEPS + 1 + STAGE2_STEPS
    && (forall j :: 0 <= j < STAGE1_STEPS ==> seg[j] == Stage1Step(a, j, true))
    && seg[STAGE1_STEPS] == Validated(a, true)
    && (forall i :: STAGE1_STEPS < i < |seg| ==>
          seg[i].Stage2Step? && seg[i].account == a && seg[i].k == i - STAGE1_STEPS - 1)
    && (forall i :: STAGE1_STEPS < i < |seg| - 1 ==> seg[i].ok)
  }

  lemma SegmentShape(a: string, failAt: nat, s: Stage2Script)
    requires Stage1Succeeds(failAt)
    ensures Shaped(Segment(a, failAt, s), a)
  {
    var seg := Segment(a, failAt, s);
    assert forall i :: STAGE1_STEPS < i < |seg| ==> seg[i] == Stage2Log(a, s)[i - STAGE1_STEPS - 1];
  }

  /** A Stage 2 helper of a shaped segment has all it needs before it. */
  lemma ShapedPrepared(seg: seq<Act>, a: string, i: nat)
    requires Shaped(seg, a) && i < |seg| && seg[i].Stage2Step?
    ensures seg[i].account == a && seg[i].k == i - STAGE1_STEPS - 1 && seg[i].k < STAGE2_STEPS
    ensures Prepared(seg, 0, a, seg[i].k)
  {
    assert i > STAGE1_STEPS;
    forall j | 0 <= j < seg[i].k
      ensures seg[STAGE1_STEPS + 1 + j] == Stage2Step(a, j, true)
    {
      var e := seg[STAGE1_STEPS + 1 + j];
      assert e.Stage2Step? && e.account == a && e.k == j && e.ok;
    }
  }

  lemma ShapedLeavesFlag(seg: seq<Act>, a: string)
    requires Shaped(seg, a)
    ensures LeavesFlag(seg)
  {
  }

  lemma PreparedShift(log: seq<Act>, seg: seq<Act>, a: string, k: nat)
    requires STAGE1_STEPS + 1 + k <= |seg| && Prepared(seg, 0, a, k)
    ensures Prepared(log + seg, |log|, a, k)
  {
    assert forall j :: 0 <= j < |seg| ==> (log + seg)[|log| + j] == seg[j];
  }

  lemma GuardedFrom(log: seq<Act>, i: nat, from: nat)
    requires i < |log| && log[i].Stage2Step? && log[i].k < STAGE2_STEPS && i == from + STAGE1_STEPS + 1 + log[i].k
    requires Prepared(log, from, log[i].account, log[i].k) && !PausedAfter(log, i)
    ensures Guarded(log, i)
  {
    hide Prepared, PausedAfter;
  }

  lemma GuardedStep(log: seq<Act>, seg: seq<Act>, a: string, i: nat)
    requires !PausedAfter(log, |log|) && Shaped(seg, a) && i < |seg| && seg[i].Stage2Step?
    ensures (log + seg)[|log| + i] == seg[i] && Guarded(log + seg, |log| + i)
  {
    hide *;
    ShapedLeavesFlag(seg, a);
    ShapedPrepared(seg, a, i);
    PreparedShift(log, seg, a, seg[i].k);
    PausedUnmoved(log, seg, i);
    assert (log + seg)[|log| + i] == seg[i];
    GuardedFrom(log + seg, |log| + i, |log|);
  }

  lemma GuardedSegment(log: seq<Act>, seg: seq<Act>, a: string, i: nat)
    requires !PausedAfter(log, |log|) && Shaped(seg, a) && i < |seg|
    ensures GuardedTail(log, seg, i)
  {
    hide Shaped, PausedAfter, Guarded;
    if seg[i].Stage2Step? {
      GuardedStep(log, seg, a, i);
    }
  }

  lemma GuardedStage2(log: seq<Act>, a: string, failAt: nat, s: Stage2Script)
    requires AllGuarded(log) && !PausedAfter(log, |log|) && Stage1Succeeds(failAt)
    ensures
      var log' := log + Segment(a, failAt, s);
      AllGuarded(log') && !PausedAfter(log', |log'|)
  {
    var seg := Segment(a, failAt, s);
    SegmentShape(a, failAt, s);
    forall i: nat | i < |seg|
      ensures GuardedTail(log, seg, i)
    {
      GuardedSegment(log, seg, a, i);
    }
    GuardedGrows(log, seg);
    PausedUnmoved(log, seg, |seg|);
  }

  // ----- One operation at a time -----

  lemma QuietGrows(w: World, more: seq<Act>)
    requires Sound(w) && forall i :: 0 <= i < |more| ==> more[i].Stage1Step? || more[i].Validated?
    ensures Sound(w.(log := w.log + more))
  {
    GuardedGrows(w.log, more);
    PausedUnmoved(w.log, more, |more|);
  }

  lemma SwitchGrows(w: World, on: bool)
    requires Sound(w)
    ensures Sound(World(on, w.log + [if on then Pause else Resume]))
  {
    GuardedGrows(w.log, [if on then Pause else Resume]);
  }

  /** A checkout up to the point where Stage 2 would run. */
  lemma QuietCheckoutKeeps(w: World, account: string, failAt: nat, valid: bool)
    requires Sound(w)
    ensures
      var log1 := w.log + Stage1Log(account, failAt);
      && Sound(w.(log := log1))
      && Sound(w.(log := log1 + [Validated(account, valid)]))
      && Sound(World(true, log1 + [Validated(account, valid)] + [Pause]))
  {
    var s1, check := Stage1Log(account, failAt), [Validated(account, valid)];
    QuietGrows(w, s1);
    QuietGrows(w.(log := w.log + s1), check);
    SwitchGrows(w.(log := w.log + s1 + check), true);
  }

  /** A checkout that reaches Stage 2. */
  lemma FullCheckoutKeeps(w: World, account: string, failAt: nat, s: Stage2Script)
    requires Sound(w) && !w.paused && Stage1Succeeds(failAt)
    ensures Sound(w.(log := w.log + Stage1Log(account, failAt) + [Validated(account, true)] + Stage2Log(account, s)))
  {
    GuardedStage2(w.log, account, failAt, s);
    assert w.log + Segment(account, failAt, s)
        == w.log + Stage1Log(account, failAt) + [Validated(account, true)] + Stage2Log(account, s);
  }

  lemma CheckoutKeeps(w: World, f: FlowState, account: string, early: bool, env: CheckoutEnv)
    requires Sound(w)
    ensures Sound(Checkout(w, f, account, early, env).0)
  {
    var valid := MayRunStage2(w.paused, env.facts);
    if Stage1Succeeds(env.stage1(0)) && valid {
      FullCheckoutKeeps(w, account, env.stage1(0), env.stage2(0));
    } else {
      QuietCheckoutKeeps(w, account, env.stage1(0), valid);
    }
  }

  lemma CheckoutCoherent(w: World, f: FlowState, account: string, early: bool, env: CheckoutEnv)
    requires Coherent(f)
    ensures Coherent(Checkout(w, f, account, early, env).1)
  {
  }

  lemma RecoverKeeps(w: World, f: FlowState, account: string, abort: bool, crew: CrewResult, stage1: nat -> nat)
    requires Sound(w) && Coherent(f)
    ensures Sound(Recover(w, f, account, abort, crew, stage1).0)
    ensures Coherent(Recover(w, f, account, abort, crew, stage1).1)
  {
    var s1 := Stage1Log(account, stage1(0));
    QuietGrows(w, s1);
    SwitchGrows(w, true);
    SwitchGrows(w.(log := w.log + s1), true);
  }

  lemma StepKeeps(s: Sys, op: Op)
    requires Invariant(s)
    ensures Invariant(Step(s, op))
  {
    match op {
      case CheckoutOp(id, account, early, env) =>
        CheckoutKeeps(s.world, FlowOf(s, id), account, early, env);
        CheckoutCoherent(s.world, FlowOf(s, id), account, early, env);
      case RecoverOp(id, account, abort, crew, stage1) =>
        RecoverKeeps(s.world, FlowOf(s, id), account, abort, crew, stage1);
      case SignupOp(_, _, _) =>
      case LinkOp(_, _) =>
      case PauseOp => SwitchGrows(s.world, true);
      case ResumeOp => SwitchGrows(s.world, false);
    }
  }

  lemma StartHolds(ops: seq<Op>)
    ensures Invariant(At(ops, 0))
  {
  }

  lemma NextKeeps(ops: seq<Op>, n: nat)
    requires n < |ops| && Invariant(At(ops, n))
    ensures Invariant(At(ops, n + 1))
  {
    StepKeeps(At(ops, n), ops[n]);
  }

  /** Every reachable state: stage2_done implies stage1_done, ACTIVATED implies both and onboarding at
      ACCOUNT_SETUP, every Stage 2 helper in the log is guarded, and the flag is what the log says. */
  lemma {:induction false} ReachableInvariant(ops: seq<Op>, n: nat)
    requires n <= |ops|
    ensures Invariant(At(ops, n))
  {
    hide *;
    if n > 0 {
      ReachableInvariant(ops, n - 1);
      NextKeeps(ops, n - 1);
    } else {
      StartHolds(ops);
    }
  }

  lemma {:induction false} PausedHolds(log: seq<Act>, i: nat, n: nat)
    requires i < n <= |log| && log[i].Pause? && forall k :: i < k < n ==> !log[k].Resume?
    ensures PausedAfter(log, n)
  {
    if n - 1 > i {
      PausedHolds(log, i, n - 1);
    }
  }

  /** The latch: in any run, after the flag is set no Stage 2 helper runs for any account until a
      resume. */
  lemma Stage2Latch(ops: seq<Op>, i: nat, j: nat)
    requires i < j < |At(ops, |ops|).world.log| && At(ops, |ops|).world.log[i].Pause?
    requires forall k :: i < k < j ==> !At(ops, |ops|).world.log[k].Resume?
    ensures !At(ops, |ops|).world.log[j].Stage2Step?
  {
    ReachableInvariant(ops, |ops|);
    var log := At(ops, |ops|).world.log;
    assert log[j].Stage2Step? ==> Guarded(log, j);
    PausedHolds(log, i, j);
  }

  /** All four Stage 1 helpers went through. */
  predicate Stage1Through(account: string, failAt: nat) {
    Stage1Log(account, failAt)
      == seq(STAGE1_STEPS, k requires k >= 0 => Stage1Step(account, k, true))
  }

  predicate Stage2Through(account: string, s: Stage2Script) {
    !s.emptyNumber && Stage2Log(account, s) == seq(STAGE2_STEPS, k requires k >= 0 => Stage2Step(account, k, true))
  }

  lemma ThroughExactly(account: string, failAt: nat, s: Stage2Script)
    ensures Stage1Succeeds(failAt) <==> Stage1Through(account, failAt)
    ensures Stage2Succeeds(s) <==> Stage2Through(account, s)
  {
    Stage1Exactly(account, failAt);
    Stage2Exactly(account, s);
    if Stage1Through(account, failAt) {
      assert forall k :: 0 <= k < STAGE1_STEPS ==> Stage1Log(account, failAt)[k] == Stage1Step(account, k, true);
    }
    if Stage2Through(account, s) {
      assert forall k :: 0 <= k < STAGE2_STEPS ==> Stage2Log(account, s)[k] == Stage2Step(account, k, true);
    }
  }

  /** A lookup that the check makes raises. */
  predicate LookupMissing(paused: bool, facts: Facts) {
    !paused && !(facts.stage1Complete.Some? && facts.alreadyProvisioned.Some? && facts.numbersInPool.Some?)
  }

  /** Nothing stands in the way of Stage 2. */
  predicate Cleared(paused: bool, facts: Facts) {
    && !paused && facts.hasPaymentMethod && facts.stage1Complete == Some(true)
    && facts.alreadyProvisioned != None && facts.numbersInPool == Some(true)
  }

  /** One checkout leaves the flag set exactly when it was set, or all Stage 1 helpers and every lookup went
      through and no payment method is on file; it never clears it. */
  lemma CheckoutSetsFlag(w: World, f: FlowState, account: string, early: bool, env: CheckoutEnv)
    ensures Checkout(w, f, account, early, env).0.paused
       <==> w.paused || (!early && Stage1Through(account, env.stage1(0)) && !LookupMissing(w.paused, env.facts)
                         && !env.facts.hasPaymentMethod)
  {
    ThroughExactly(account, env.stage1(0), env.stage2(0));
  }

  /** A checkout raises exactly when a handler did before Stage 1, or a lookup does after it. */
  lemma CheckoutRaisesExactly(paused: bool, account: string, early: bool, env: CheckoutEnv)
    ensures CheckoutRaises(paused, early, env)
       <==> early || (Stage1Through(account, env.stage1(0)) && LookupMissing(paused, env.facts))
  {
    ThroughExactly(account, env.stage1(0), env.stage2(0));
  }

  /** One checkout activates the flow exactly when all helpers of both stages and the check go through; one
      that does not leaves the signup alone. A lookup that raises leaves Stage 1 marked as done. */
  lemma CheckoutActivates(w: World, f: FlowState, account: string, early: bool, env: CheckoutEnv)
    ensures
      var f' := Checkout(w, f, account, early, env).1;
      var first := !early && Stage1Through(account, env.stage1(0));
      var through := first && Cleared(w.paused, env.facts) && Stage2Through(account, env.stage2(0));
      && (f'.signup.status == Activated <==> through || f.signup.status == Activated)
      && (f'.signup != f.signup ==> through) && f'.signup.(status := f.signup.status) == f.signup
      && (f'.stage2Done <==> through || f.stage2Done) && (f'.stage1Done <==> first || f.stage1Done)
      && f'.step == (if through then AccountSetup else f.step)
      && f'.alerts == f.alerts && f'.pauseNoted == f.pauseNoted
  {
    ThroughExactly(account, env.stage1(0), env.stage2(0));
  }

  /** What one checkout appends to the trace: nothing when it raises early; else its Stage 1 helpers; then,
      if all of them and the lookups went through, the check; then, if nothing stands in the way, its Stage 2
      helpers, and if just the payment method does, the pause. */
  lemma CheckoutTrace(w: World, f: FlowState, account: string, early: bool, env: CheckoutEnv)
    ensures
      var w' := Checkout(w, f, account, early, env).0;
      var checked := !early && Stage1Through(account, env.stage1(0)) && !LookupMissing(w.paused, env.facts);
      var valid := Cleared(w.paused, env.facts);
      w'.log == w.log
        + (if early then [] else Stage1Log(account, env.stage1(0)))
        + (if checked then [Validated(account, valid)] else [])
        + (if checked && valid then Stage2Log(account, env.stage2(0))
           else if checked && !w.paused && !env.facts.hasPaymentMethod then [Pause] else [])
  {
    assert forall log: seq<Act> :: log + [] == log;
    ThroughExactly(account, env.stage1(0), env.stage2(0));
  }

  /** The recovery flow never raises a critical alert and never marks a stage done, even when every
      attempt of Stage 1 fails or succeeds: the stage reports its result as a value, the retry takes any
      value for success, and the flow does not look at it. It sets the flag exactly when the crew asks. */
  lemma RecoveryNeverEscalates(
    w: World, f: FlowState, account: string, abort: bool, crew: CrewResult, stage1: nat -> nat)
    ensures
      var (w', f') := Recover(w, f, account, abort, crew, stage1);
      var pauses := !abort && crew.Plan? && crew.pauseRecommended;
      && f'.alerts == f.alerts + (if pauses then [Warning] else [])
      && f'.stage1Done == f.stage1Done && f'.stage2Done == f.stage2Done && f'.signup == f.signup
      && (w'.paused <==> w.paused || pauses) && (f'.pauseNoted <==> f.pauseNoted || pauses)
  {
  }

  /** A recovery runs Stage 1 if and only if the flow goes on, and the crew's plan marks the action
      retry_stage1 as safe for an account that is named; it then runs exactly one Stage 1 of that account. */
  lemma RecoveryTrace(w: World, f: FlowState, account: string, abort: bool, crew: CrewResult, stage1: nat -> nat)
    ensures
      var w' := Recover(w, f, account, abort, crew, stage1).0;
      var plan := !abort && crew.Plan?;
      w'.log == w.log
        + (if plan && crew.safeToAuto && crew.action == "retry_stage1" && account != ""
           then Stage1Log(account, stage1(0)) else [])
        + (if plan && crew.pauseRecommended then [Pause] else [])
  {
    assert forall log: seq<Act> :: log + [] == log;
  }

  // ----- Done means run -----

  predicate Stage1At(log: seq<Act>, from: nat, a: string)
    requires from + STAGE1_STEPS <= |log|
  {
    forall j :: 0 <= j < STAGE1_STEPS ==> log[from + j] == Stage1Step(a, j, true)
  }

  /** The log holds all four Stage 1 helpers of some account, successful and in a row. */
  ghost predicate Stage1Ran(log: seq<Act>) {
    exists from: nat, a: string :: from + STAGE1_STEPS <= |log| && Stage1At(log, from, a)
  }

  /** The log holds all Stage 1 helpers, a valid check and all three Stage 2 helpers of some account,
      successful and in a row. */
  ghost predicate BothRan(log: seq<Act>) {
    exists from: nat, a: string ::
      from + STAGE1_STEPS + 1 + STAGE2_STEPS <= |log| && Prepared(log, from, a, STAGE2_STEPS)
  }

  ghost predicate DoneMeansRan(s: Sys) {
    forall id :: id in s.flows ==>
      && (s.flows[id].stage1Done ==> Stage1Ran(s.world.log))
      && (s.flows[id].stage2Done || s.flows[id].signup.status == Activated ==> BothRan(s.world.log))
  }

  lemma RanGrows(log: seq<Act>, more: seq<Act>)
    ensures Stage1Ran(log) ==> Stage1Ran(log + more)
    ensures BothRan(log) ==> BothRan(log + more)
  {
    if from: nat, a: string :| from + STAGE1_STEPS <= |log| && Stage1At(log, from, a) {
      assert Stage1At(log + more, from, a);
    }
    if from: nat, a: string :| from + STAGE1_STEPS + 1 + STAGE2_STEPS <= |log| && Prepared(log, from, a, STAGE2_STEPS) {
      assert Prepared(log + more, from, a, STAGE2_STEPS);
    }
  }

  lemma FirstRan(log: seq<Act>, a: string, failAt: nat)
    requires Stage1Through(a, failAt)
    ensures Stage1Ran(log + Stage1Log(a, failAt))
  {
    assert Stage1At(log + Stage1Log(a, failAt), |log|, a);
  }

  lemma AllRan(log: seq<Act>, a: string, failAt: nat, s: Stage2Script)
    requires Stage1Through(a, failAt) && Stage2Through(a, s)
    ensures BothRan(log + Stage1Log(a, failAt) + [Validated(a, true)] + Stage2Log(a, s))
  {
    var log' := log + Stage1Log(a, failAt) + [Validated(a, true)] + Stage2Log(a, s);
    forall j | 0 <= j < STAGE2_STEPS
      ensures log'[|log| + STAGE1_STEPS + 1 + j] == Stage2Step(a, j, true)
    {
      assert log'[|log| + STAGE1_STEPS + 1 + j] == Stage2Log(a, s)[j];
    }
    assert forall j :: 0 <= j < STAGE1_STEPS ==> log'[|log| + j] == Stage1Log(a, failAt)[j];
    assert Prepared(log', |log|, a, STAGE2_STEPS);
  }

  lemma CheckoutRan(w: World, f: FlowState, account: string, early: bool, env: CheckoutEnv)
    ensures
      var (w', f') := Checkout(w, f, account, early, env);
      && w.log <= w'.log
      && (f'.stage1Done ==> f.stage1Done || Stage1Ran(w'.log))
      && (f'.stage2Done || f'.signup.status == Activated ==>
            f.stage2Done || f.signup.status == Activated || BothRan(w'.log))
  {
    hide Stage1Through, Stage2Through, Stage1Ran, BothRan, Stage1Log, Stage2Log, Checkout;
    CheckoutActivates(w, f, account, early, env);
    CheckoutTrace(w, f, account, early, env);
    assert forall log: seq<Act> :: log + [] == log;
    var first, second := env.stage1(0), env.stage2(0);
    if Stage1Through(account, first) {
      FirstRan(w.log, account, first);
      var log1 := w.log + Stage1Log(account, first);
      RanGrows(log1, [Validated(account, true)]);
      RanGrows(log1 + [Validated(account, true)], Stage2Log(account, second));
      RanGrows(log1, [Validated(account, false)]);
      RanGrows(log1 + [Validated(account, false)], [Pause]);
      if Stage2Through(account, second) {
        AllRan(w.log, account, first, second);
      }
    }
  }

  lemma RanStep(s: Sys, op: Op)
    requires DoneMeansRan(s)
    ensures DoneMeansRan(Step(s, op))
  {
    var s' := Step(s, op);
    if op.CheckoutOp? {
      CheckoutRan(s.world, FlowOf(s, op.flow), op.account, op.early, op.env);
    }
    assert s.world.log <= s'.world.log;
    var more := s'.world.log[|s.world.log|..];
    assert s'.world.log == s.world.log + more;
    RanGrows(s.world.log, more);
  }

  /** In every reachable state a flow that has Stage 1 done, has Stage 2 done or is activated has the
      helpers to show for it, all of them and all successful. */
  lemma {:induction false} DoneOnlyIfRan(ops: seq<Op>, n: nat)
    requires n <= |ops|
    ensures DoneMeansRan(At(ops, n))
  {
    if n > 0 {
      DoneOnlyIfRan(ops, n - 1);
      RanStep(At(ops, n - 1), ops[n - 1]);
    }
  }

  // ----- Escalation -----

  /** Nothing was escalated: no account marked for review, no critical alert in any flow. */
  ghost predicate Quiet(s: Sys) {
    && (forall i :: 0 <= i < |s.world.log| ==> !s.world.log[i].MarkedForReview?)
    && (forall id :: id in s.flows ==> Critical !in s.flows[id].alerts)
  }

  lemma StepLogQuiet(w: World, f: FlowState, account: string, early: bool, env: CheckoutEnv)
    requires forall i :: 0 <= i < |w.log| ==> !w.log[i].MarkedForReview?
    ensures
      var w' := Checkout(w, f, account, early, env).0;
      forall i :: 0 <= i < |w'.log| ==> !w'.log[i].MarkedForReview?
  {
  }

  lemma EscalatesNothing(s: Sys, op: Op)
    requires Quiet(s)
    ensures Quiet(Step(s, op))
  {
    if op.CheckoutOp? {
      StepLogQuiet(s.world, FlowOf(s, op.flow), op.account, op.early, op.env);
    }
  }

  /** In no run, whatever fails and however often, is an account marked for manual review or a critical
      alert raised: both wait for a retry cap that stages reporting failure as a value never reach. */
  lemma {:induction false} NothingEscalates(ops: seq<Op>, n: nat)
    requires n <= |ops|
    ensures Quiet(At(ops, n))
  {
    if n > 0 {
      NothingEscalates(ops, n - 1);
      EscalatesNothing(At(ops, n - 1), ops[n - 1]);
    }
  }
}
