/** run_formal_acceptance of infra/f1/formal_acceptance.py, over the stack context of
    tests/f111_clean_rebuild.py: prepare, evaluate, tear down, then and only then publish. */
module RunOrder {
  import opened Wrappers
  import opened Batches
  import Rejection
  import opened EvaluatedRejection

  /** An ordinary exception: the reason code it carries, if any. */
  datatype Failure = Failure(code: Option<string>)

  /** A clean-up: it raises, or counts what it could not remove. */
  datatype Cleanup = Cleanup(raises: Option<Failure>, residuals: nat)

  const STATE_REJECTED := Failure(Some("PREPARED_STACK_STATE_REJECTED"))
  const CLEANUP_RED := Failure(Some("PREPARED_STACK_CLEANUP_RED"))
  const PUBLICATION_BLOCKED := Failure(Some("PREPARED_STACK_PUBLICATION_BLOCKED"))

  /** PreparedPrimaryStackContext. */
  class Stack {
    var entered: bool
    var closed: bool
    var verified: bool

    constructor ()
      ensures !entered && !closed && !verified
    {
      entered, closed, verified := false, false, false;
    }

    /** A failed entry cleans up and closes the stack, unless the clean-up itself raises: nothing
        guards it here. */
    method Enter(work: Option<Failure>, cleanup: Cleanup) returns (error: Option<Failure>)
      modifies this
      ensures error.None? <==> !old(entered) && !old(closed) && work.None?
      ensures entered == (old(entered) || error.None?) && verified == old(verified)
      ensures !old(entered) && !old(closed) && work.Some? && cleanup.raises.Some? ==> error == cleanup.raises
      ensures !old(entered) && !old(closed) ==> closed == (work.Some? && cleanup.raises.None?)
      ensures old(entered) || old(closed) ==> closed == old(closed)
    {
      if entered || closed {
        return Some(STATE_REJECTED);
      }
      error := work;
      if error.Some? {
        if cleanup.raises.Some? {
          return cleanup.raises;
        }
        closed := true;
        if cleanup.residuals != 0 {
          error := Some(CLEANUP_RED);
        }
      } else {
        entered := true;
      }
    }

    /** The context's exit looks for changes, cleans up whatever it saw, and closes the stack. It
        passes, and verifies the stack, exactly when nothing had changed and nothing was left; a
        clean-up that raises counts as one that left something. */
    method Exit(changed: Option<Failure>, cleanup: Cleanup) returns (error: Option<Failure>)
      modifies this
      ensures entered == old(entered)
      ensures old(entered) ==> closed
      ensures error.None? <==>
        old(entered) && !old(closed) && changed.None? && cleanup.raises.None? && cleanup.residuals == 0
      ensures verified == (old(verified) || error.None?)
    {
      if !entered || closed {
        return Some(STATE_REJECTED);
      }
      closed := true;
      if cleanup.raises.Some? || cleanup.residuals != 0 {
        return Some(CLEANUP_RED);
      }
      error := changed;
      if error.None? {
        verified := true;
      }
    }

    method AssertClosedClean() returns (error: Option<Failure>)
      ensures error.None? <==> closed && verified
    {
      error := if !closed || !verified then Some(PUBLICATION_BLOCKED) else None;
    }
  }

  /** What the surroundings answer: making the temporary directory, preparing the context, entering
      it, evaluating (or the failure of it), leaving the context, and leaving the directory. */
  datatype Answers = Answers(
    begin: Option<Failure>, prepare: Option<Failure>, enter: Option<Failure>, enterCleanup: Cleanup,
    evaluate: Option<Failure>, candidate: Candidate, changed: Option<Failure>, exitCleanup: Cleanup, remove: Option<Failure>)

  /** Nothing raises anywhere, nothing changed, and nothing is left. */
  predicate AllGoesWell(a: Answers) {
    && a.begin.None? && a.prepare.None? && a.enter.None? && a.evaluate.None?
    && a.changed.None? && a.exitCleanup == Cleanup(None, 0) && a.remove.None?
  }

  datatype Step =
    | Begun | Prepared | Entered | Evaluated(candidate: Candidate) | Exited | Asserted | Cleared
    | Published(verdict: Candidate)

  /** The inner with statement: evaluation inside the prepared stack. */
  method EvaluateInStack(stack: Stack, a: Answers) returns (error: Option<Failure>, log: seq<Step>)
    requires !stack.entered && !stack.closed && !stack.verified
    modifies stack
    ensures error.None? <==> a.enter.None? && a.evaluate.None? && a.changed.None? && a.exitCleanup == Cleanup(None, 0)
    ensures error.None? ==> log == [Entered, Evaluated(a.candidate), Exited] && stack.closed && stack.verified
    ensures stack.entered ==> stack.closed
    ensures forall s :: s in log ==> !s.Published?
  {
    log := [];
    error := stack.Enter(a.enter, a.enterCleanup);
    if error.Some? {
      return;
    }
    log := [Entered];
    error := a.evaluate;
    if error.None? {
      log := log + [Evaluated(a.candidate)];
    }
    var exit := stack.Exit(a.changed, a.exitCleanup);
    if exit.Some? {
      error := exit;
    } else {
      log := log + [Exited];
    }
  }

  /** The body of the run: everything between loading the configuration and publishing. */
  method PrepareAndEvaluate(a: Answers) returns (error: Option<Failure>, log: seq<Step>, stack: Stack)
    ensures fresh(stack)
    ensures error.None? <==> AllGoesWell(a)
    ensures error.None? ==>
      log == [Begun, Prepared, Entered, Evaluated(a.candidate), Exited, Asserted, Cleared] && stack.closed && stack.verified
    ensures stack.entered ==> stack.closed
    ensures forall s :: s in log ==> !s.Published?
  {
    log := [];
    stack := new Stack();
    error := a.begin;
    if error.Some? {
      return;
    }
    log := [Begun];
    error := a.prepare;
    if error.None? {
      log := log + [Prepared];
      var inner;
      error, inner := EvaluateInStack(stack, a);
      log := log + inner;
      if error.None? {
        error := stack.AssertClosedClean();
        log := log + [Asserted];
      }
    }
    // Leaving the temporary directory, with or without an exception on the way.
    if a.remove.Some? {
      error := a.remove;
    } else {
      log := log + [Cleared];
    }
  }

  function LastVerdict(log: seq<Step>): Option<Candidate> {
    if log != [] && log[|log| - 1].Published? then Some(log[|log| - 1].verdict) else None
  }

  /** The rejection that a failure is published as. */
  function RejectionFor(fixed: Rejection.Fixed, configSha256: string, failure: Failure): Candidate {
    Rejection.FailClosedCandidate(fixed, configSha256, Rejection.FailureBlocker(failure.code, Rejection.FALLBACK))
  }

  lemma {:induction false} RejectionScreened(fixed: Rejection.Fixed, configSha256: string, failure: Failure)
    ensures !RejectionFor(fixed, configSha256, failure).accepted && Screened(RejectionFor(fixed, configSha256, failure))
  {
    Rejection.FailClosedIsScreened(fixed, configSha256, Rejection.FailureBlocker(failure.code, Rejection.FALLBACK));
  }

  /** What is published: the evaluated candidate, or the rejection for a failure. */
  method Decide(fixed: Rejection.Fixed, configSha256: string, evaluated: Candidate, failed: Option<Failure>) returns (verdict: Candidate)
    ensures failed.None? ==> verdict == evaluated
    ensures failed.Some? ==>
      verdict == RejectionFor(fixed, configSha256, failed.value) && !verdict.accepted && Screened(verdict)
    ensures Screened(evaluated) ==> Screened(verdict)
  {
    if failed.Some? {
      verdict := RejectionFor(fixed, configSha256, failed.value);
      RejectionScreened(fixed, configSha256, failed.value);
    } else {
      verdict := evaluated;
    }
  }

  /** Exactly one verdict is published, last. It is the evaluated candidate if and only if all went
      well, and then it comes after the stack was left and found closed and clean. Otherwise it is a
      rejection that passes the publisher's guard. A stack that was entered is closed by then. */
  method RunFormalAcceptance(fixed: Rejection.Fixed, configSha256: string, a: Answers)
    returns (log: seq<Step>, failed: Option<Failure>, stack: Stack)
    ensures LastVerdict(log).Some? && forall i :: 0 <= i < |log| - 1 ==> !log[i].Published?
    ensures stack.entered ==> stack.closed
    ensures failed.None? <==> AllGoesWell(a)
    ensures failed.None? ==>
      && log == [Begun, Prepared, Entered, Evaluated(a.candidate), Exited, Asserted, Cleared,
                 Published(a.candidate)]
      && stack.closed && stack.verified
    ensures failed.Some? ==> LastVerdict(log).value == RejectionFor(fixed, configSha256, failed.value)
    ensures failed.Some? ==> !LastVerdict(log).value.accepted && Screened(LastVerdict(log).value)
    ensures Screened(a.candidate) ==> Screened(LastVerdict(log).value)
    ensures LastVerdict(log).value.accepted ==> AllGoesWell(a) && a.candidate.accepted
  {
    failed, log, stack := PrepareAndEvaluate(a);
    var verdict := Decide(fixed, configSha256, a.candidate, failed);
    log := log + [Published(verdict)];
  }

  /** A run whose evaluation ends with that rendered candidate: whatever happens, its verdict passes the
      guard, so that it can take the place of an older pointer; it accepts if and only if the
      evaluation did and all went well. */
  method RunEvaluation(fixed: Rejection.Fixed, configSha256: string, e: Evaluation, a: Answers)
    returns (log: seq<Step>, failed: Option<Failure>, stack: Stack)
    requires WellRendered(e)
    ensures LastVerdict(log).Some? && forall i :: 0 <= i < |log| - 1 ==> !log[i].Published?
    ensures Screened(LastVerdict(log).value)
    ensures LastVerdict(log).value.accepted <==> AllGoesWell(a) && e.Accepted?
    ensures AllGoesWell(a) ==> LastVerdict(log).value == CandidateOf(e)
  {
    var candidate := Screen(e);
    log, failed, stack := RunFormalAcceptance(fixed, configSha256, a.(candidate := candidate));
  }

  method Screen(e: Evaluation) returns (candidate: Candidate)
    requires WellRendered(e)
    ensures candidate == CandidateOf(e) && Screened(candidate) && candidate.accepted == e.Accepted?
  {
    EvaluationIsScreened(e);
    candidate := CandidateOf(e);
  }

  /** A stack whose entry failed and whose clean-up raised stays open. */
  method OpenStack(work: Failure, raised: Failure) returns (stack: Stack, error: Option<Failure>)
    ensures error == Some(raised) && !stack.closed && !stack.entered
  {
    stack := new Stack();
    error := stack.Enter(Some(work), Cleanup(Some(raised), 0));
  }
}
