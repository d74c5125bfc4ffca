/** Two-stage provisioning behind one global Stage 2 pause flag.

    The stage helpers and lookups are external: each either succeeds or raises. A ghost log records
    every helper that ran, every validation, every change of the flag and every mark for review. */
module Provisioning {
  import opened Common

  datatype Act =
    | Stage1Step(account: string, k: nat, ok: bool)
    | Stage2Step(account: string, k: nat, ok: bool)
    | Validated(account: string, valid: bool)
    | Pause
    | Resume
    | MarkedForReview(account: string)

  datatype World = World(paused: bool, log: seq<Act>)

  const STAGE1_STEPS: nat := 4
  const STAGE2_STEPS: nat := 3

  /** What one run of Stage 2 meets: the first helper that raises, and whether the pool hands out an
      empty number. */
  datatype Stage2Script = Stage2Script(failAt: nat, emptyNumber: bool)

  /** The helpers run when helper `failAt` raises; none does when it is past the last. */
  function Stage1Log(account: string, failAt: nat): seq<Act> {
    var ran := if failAt < STAGE1_STEPS then failAt + 1 else STAGE1_STEPS;
    seq(ran, k requires k >= 0 => Stage1Step(account, k, k != failAt))
  }

  predicate Stage1Succeeds(failAt: nat) {
    failAt >= STAGE1_STEPS
  }

  function Stage2Log(account: string, s: Stage2Script): seq<Act> {
    var ran := if s.emptyNumber then 1 else if s.failAt < STAGE2_STEPS then s.failAt + 1 else STAGE2_STEPS;
    seq(ran, k requires k >= 0 => Stage2Step(account, k, k != s.failAt))
  }

  predicate Stage2Succeeds(s: Stage2Script) {
    s.failAt >= STAGE2_STEPS && !s.emptyNumber
  }

  datatype StageError = GloballyPaused | NoPaymentMethod | Stage1NotComplete | NoPhoneNumbers

  datatype Validation = Validation(isValid: bool, errors: seq<StageError>, warnings: nat)

  /** What the pre-flight checks find out about an account; a lookup that raises finds nothing. */
  datatype Facts = Facts(
    hasPaymentMethod: bool,
    stage1Complete: Option<bool>,
    alreadyProvisioned: Option<bool>,
    numbersInPool: Option<bool>)

  /** Some lookup raises. With the flag set none is made. */
  predicate LookupsRaise(paused: bool, facts: Facts) {
    !paused && (facts.stage1Complete.None? || facts.alreadyProvisioned.None? || facts.numbersInPool.None?)
  }

  /** Stage 2 may run: the flag is clear, a payment method is on file, Stage 1 is complete and the
      pool has numbers. Having been provisioned already is no obstacle, as long as it could be looked up. */
  predicate MayRunStage2(paused: bool, facts: Facts) {
    && !paused && facts.hasPaymentMethod && facts.stage1Complete == Some(true)
    && facts.alreadyProvisioned.Some? && facts.numbersInPool == Some(true)
  }

  /** The errors of a validation, in the order they are found; a set flag hides the others. */
  function Errors(paused: bool, facts: Facts): (errors: seq<StageError>)
    requires !LookupsRaise(paused, facts)
    ensures errors == [] <==> MayRunStage2(paused, facts)
    ensures forall j :: 0 < j < |errors| ==> errors[j] != NoPaymentMethod
    ensures errors != [] ==> (errors[0] == NoPaymentMethod <==> !paused && !facts.hasPaymentMethod)
  {
    if paused then [GloballyPaused]
    else
      (if facts.hasPaymentMethod then [] else [NoPaymentMethod])
      + (if facts.stage1Complete.value then [] else [Stage1NotComplete])
      + (if facts.numbersInPool.value then [] else [NoPhoneNumbers])
  }

  class Provisioner {
    var paused: bool
    ghost var log: seq<Act>

    ghost function View(): World
      reads this
    {
      World(paused, log)
    }

    constructor ()
      ensures View() == World(false, [])
    {
      paused, log := false, [];
    }

    method PauseStage2()
      modifies this
      ensures View() == World(true, old(log) + [Pause])
    {
      paused, log := true, log + [Pause];
    }

    method ResumeStage2()
      modifies this
      ensures View() == World(false, old(log) + [Resume])
    {
      paused, log := false, log + [Resume];
    }

    method MarkForManualReview(account: string)
      modifies this`log
      ensures log == old(log) + [MarkedForReview(account)]
    {
      log := log + [MarkedForReview(account)];
    }

    /** One Stage 1 helper. */
    method Stage1Helper(account: string, k: nat, failAt: nat) returns (ok: bool)
      modifies this`log
      ensures ok == (k != failAt) && log == old(log) + [Stage1Step(account, k, ok)]
    {
      ok := k != failAt;
      log := log + [Stage1Step(account, k, ok)];
    }

    /** `run_stage1`: account shell, CRM record, onboarding state, internal mappings. A raising helper
        is caught and reported as False. */
    method RunStage1(account: string, failAt: nat) returns (ok: bool)
      modifies this`log
      ensures ok == Stage1Succeeds(failAt) && log == old(log) + Stage1Log(account, failAt)
    {
      ghost var before := log;
      ok := Stage1Helper(account, 0, failAt);
      if !ok {
        assert log == before + Stage1Log(account, 0);
        return;
      }
      ok := Stage1Helper(account, 1, failAt);
      if !ok {
        assert log == before + Stage1Log(account, 1);
        return;
      }
      ok := Stage1Helper(account, 2, failAt);
      if !ok {
        assert log == before + Stage1Log(account, 2);
        return;
      }
      ok := Stage1Helper(account, 3, failAt);
      assert log == before + Stage1Log(account, failAt);
    }

    /** `validate_before_stage2`. A set flag ends the checks at once; a lookup that raises is not caught. */
    method ValidateBeforeStage2(account: string, facts: Facts) returns (r: Result<Validation, ()>)
      modifies this`log
      ensures r.Err? <==> LookupsRaise(paused, facts)
      ensures r.Err? ==> log == old(log)
      ensures r.Ok? ==>
        && r.value.errors == Errors(paused, facts) && r.value.isValid == MayRunStage2(paused, facts)
        && r.value.warnings == (if !paused && facts.alreadyProvisioned.value then 1 else 0)
        && log == old(log) + [Validated(account, r.value.isValid)]
    {
      var v := Validation(true, [], 0);
      if paused {
        v := v.(isValid := false, errors := v.errors + [GloballyPaused]);
      } else {
        if !facts.hasPaymentMethod {
          v := v.(isValid := false, errors := v.errors + [NoPaymentMethod]);
        }
        if facts.stage1Complete.None? {
          return Err(());
        }
        if !facts.stage1Complete.value {
          v := v.(isValid := false, errors := v.errors + [Stage1NotComplete]);
        }
        if facts.alreadyProvisioned.None? {
          return Err(());
        }
        if facts.alreadyProvisioned.value {
          v := v.(warnings := v.warnings + 1);
        }
        if facts.numbersInPool.None? {
          return Err(());
        }
        if !facts.numbersInPool.value {
          v := v.(isValid := false, errors := v.errors + [NoPhoneNumbers]);
        }
      }
      log := log + [Validated(account, v.isValid)];
      return Ok(v);
    }

    method Stage2Helper(account: string, k: nat, failAt: nat) returns (ok: bool)
      modifies this`log
      ensures ok == (k != failAt) && log == old(log) + [Stage2Step(account, k, ok)]
    {
      ok := k != failAt;
      log := log + [Stage2Step(account, k, ok)];
    }

    /** `run_stage2`: assign a number, provision the assistant, link them. */
    method RunStage2(account: string, s: Stage2Script) returns (ok: bool)
      modifies this`log
      ensures ok == Stage2Succeeds(s) && log == old(log) + Stage2Log(account, s)
    {
      ghost var before := log;
      ok := Stage2Helper(account, 0, s.failAt);
      if !ok || s.emptyNumber {
        assert log == before + Stage2Log(account, s);
        return false;
      }
      ok := Stage2Helper(account, 1, s.failAt);
      if !ok {
        assert log == before + Stage2Log(account, s);
        return;
      }
      ok := Stage2Helper(account, 2, s.failAt);
      assert log == before + Stage2Log(account, s);
    }
  }

  // ----- What the stages and the check amount to -----

  /** Stage 1 runs its helpers in order up to the first that raises, and succeeds if and only if all four
      ran and none raised. */
  lemma Stage1Exactly(account: string, failAt: nat)
    ensures
      var ran := Stage1Log(account, failAt);
      && 1 <= |ran| <= STAGE1_STEPS
      && (forall k :: 0 <= k < |ran| ==> ran[k] == Stage1Step(account, k, k != failAt))
      && (forall k :: 0 <= k < |ran| - 1 ==> ran[k].ok)
      && (|ran| < STAGE1_STEPS ==> !ran[|ran| - 1].ok)
      && (Stage1Succeeds(failAt) <==>
            |ran| == STAGE1_STEPS && forall k :: 0 <= k < STAGE1_STEPS ==> ran[k] == Stage1Step(account, k, true))
  {
    assert failAt < STAGE1_STEPS ==> Stage1Log(account, failAt)[failAt] == Stage1Step(account, failAt, false);
  }

  /** Stage 2 likewise, except that an empty number ends it after the first helper. */
  lemma Stage2Exactly(account: string, s: Stage2Script)
    ensures
      var ran := Stage2Log(account, s);
      && 1 <= |ran| <= STAGE2_STEPS
      && (forall k :: 0 <= k < |ran| ==> ran[k] == Stage2Step(account, k, k != s.failAt))
      && (forall k :: 0 <= k < |ran| - 1 ==> ran[k].ok)
      && (|ran| < STAGE2_STEPS ==> s.emptyNumber || !ran[|ran| - 1].ok)
      && (s.emptyNumber ==> |ran| == 1)
      && (Stage2Succeeds(s) <==>
            !s.emptyNumber && |ran| == STAGE2_STEPS
            && forall k :: 0 <= k < STAGE2_STEPS ==> ran[k] == Stage2Step(account, k, true))
  {
    var ran := Stage2Log(account, s);
    assert s.failAt < |ran| ==> ran[s.failAt] == Stage2Step(account, s.failAt, false);
  }

  /** Which errors the check reports: the global pause alone when it is set, otherwise every failing check,
      a missing payment method first. */
  lemma ErrorsExactly(paused: bool, facts: Facts)
    requires !LookupsRaise(paused, facts)
    ensures
      var errors := Errors(paused, facts);
      && (paused <==> errors == [GloballyPaused]) && (paused <==> GloballyPaused in errors)
      && (NoPaymentMethod in errors <==> !paused && !facts.hasPaymentMethod)
      && (Stage1NotComplete in errors <==> !paused && facts.stage1Complete == Some(false))
      && (NoPhoneNumbers in errors <==> !paused && facts.numbersInPool == Some(false))
      && (errors == [] <==> MayRunStage2(paused, facts))
  {
  }
}
