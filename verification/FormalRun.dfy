/** A whole formal run: what the gates, looks and documents answer decides the candidate
    (_evaluate_formal), the candidate is rendered, and the run publishes it or a rejection
    (run_formal_acceptance). */
module FormalRun {
  import opened Wrappers
  import opened Bytes
  import Batches
  import V = Verdict
  import F = Formal
  import R = RunOrder
  import Rejection
  import opened EvaluatedRejection

  /** What a candidate shows besides the verdict: the codes that the evidence loaders raised, the class
      of an exception that kept the inventory from being built, the digests of evidence, registry,
      configuration and runtime inventory, build inputs and projection, and an accepted one's files. */
  datatype Facts = Facts(
    faults: seq<EvidenceFault>, errorClass: string, evidence: Digest, registry: Digest, config: string, runtime: string,
    buildInputs: BuildInputs, projection: Projection, files: Batches.Files)

  /** The loaders check that what should be a digest is one; files are rendered under their three names. */
  ghost predicate FactsOk(setup: F.Setup, facts: Facts) {
    && V.HexOrInvalid(setup.before.sha256) && V.HexOrInvalid(facts.config) && V.HexOrInvalid(facts.runtime)
    && InputsShow(facts.buildInputs) && ProjectionShows(facts.projection) && !Rejection.TokenIn(facts.errorClass)
    && facts.files.Keys == Batches.CANDIDATE_FILES
  }

  function LineOf(summary: map<V.Gate, V.Line>, g: V.Gate): Shown {
    if g in summary then Shown(true, summary[g]) else Shown(false, V.Line(-1, V.INVALID, 0, 0, "", ""))
  }

  /** The blockers in some order; the payload sorts their codes. */
  method Listed(blockers: set<V.Blocker>) returns (list: seq<V.Blocker>)
    ensures forall b :: b in list <==> b in blockers
    ensures |list| == |blockers|
  {
    list := [];
    var rest := blockers;
    while rest != {}
      invariant rest <= blockers && |list| + |rest| == |blockers|
      invariant forall b :: b in list <==> b in blockers && b !in rest
    {
      var b :| b in rest;
      rest := rest - {b};
      list := list + [b];
    }
  }

  /** What a rejected candidate is rendered from. */
  function FindingsOf(setup: F.Setup, a: F.Answers, facts: Facts, blockers: seq<V.Blocker>, summary: map<V.Gate, V.Line>): Findings {
    Findings(
      blockers, facts.faults, facts.errorClass, facts.evidence, g => LineOf(summary, g),
      if a.rebuilt.Some? then Hex(a.rebuilt.value) else V.INVALID,
      facts.registry, setup.before.sha256, if setup.before.fileCount < 0 then 0 else setup.before.fileCount, facts.config,
      if a.inventoried then facts.runtime else V.INVALID,
      if a.inventoried then Some(facts.buildInputs) else None,
      if a.loadedOne && a.loadedTwo && a.projected then Some(facts.projection) else None)
  }

  lemma {:induction false} FindingsOk(setup: F.Setup, a: F.Answers, facts: Facts, blockers: seq<V.Blocker>, summary: map<V.Gate, V.Line>)
    requires FactsOk(setup, facts) && forall g :: g in summary && V.ShowsDigests(g, summary[g])
    ensures FindingsShow(FindingsOf(setup, a, facts, blockers, summary))
  {
    var f := FindingsOf(setup, a, facts, blockers, summary);
    forall g ensures LineShows(g, f.gates(g)) {
      assert g in summary && V.ShowsDigests(g, summary[g]);
    }
  }

  /** A rejection is rendered from exactly the blockers and the summary that evaluation computed. */
  ghost predicate RejectedFor(setup: F.Setup, a: F.Answers, facts: Facts, outcome: F.Outcome, findings: Findings) {
    && outcome.Candidate? && (forall b :: b in findings.blockers <==> b in outcome.blockers)
    && findings == FindingsOf(setup, a, facts, findings.blockers, outcome.summary)
  }

  /** _evaluate_formal with its rendered candidate. */
  method Evaluate(setup: F.Setup, a: F.Answers, facts: Facts) returns (e: Option<Evaluation>, t: F.Trace, ghost outcome: F.Outcome)
    requires F.Tokenised(a) && FactsOk(setup, facts)
    ensures e.None? <==> a.refused || a.leaked
    ensures e.Some? <==> outcome.Candidate?
    ensures e.Some? ==> (e.value.Accepted? <==> outcome.blockers == {}) && F.TraceBlockers(setup.before, t) <= outcome.blockers
    ensures e.Some? && e.value.Accepted? ==> e.value.files == facts.files
    ensures e.Some? && e.value.Rejected? ==> RejectedFor(setup, a, facts, outcome, e.value.findings)
    ensures e.Some? ==> WellRendered(e.value)
    ensures e.Some? ==> (e.value.Accepted? <==> F.AllCalm(setup.before, t) && F.Deserved(setup, a))
    ensures F.NoRunAfterHalt(setup.before, t) && F.Honest(setup.registry, a, 0, t)
    ensures e.Some? && F.AllQuiet(setup, a) && F.Deserved(setup, a) ==> e.value.Accepted?
  {
    var computed;
    computed, t := F.EvaluateFormal(setup, a);
    outcome := computed;
    e := None;
    if computed.Candidate? {
      if computed.accepted {
        e := Some(Accepted(facts.files));
      } else {
        var blockers := Listed(computed.blockers);
        FindingsOk(setup, a, facts, blockers, computed.summary);
        e := Some(Rejected(FindingsOf(setup, a, facts, blockers, computed.summary)));
      }
    }
  }

  /** Nothing outside the evaluation raises, changes or is left. */
  predicate WellAround(a: R.Answers) {
    && a.begin.None? && a.prepare.None? && a.enter.None? && a.changed.None? && a.exitCleanup == R.Cleanup(None, 0) && a.remove.None?
  }

  /** run_formal_acceptance. Whatever is answered, one verdict is published, last, and it passes the
      publisher's guard. It accepts if and only if nothing around the evaluation went wrong, the
      evaluation did not raise, every look was calm, and the commands and documents deserve it. */
  method Run(fixed: Rejection.Fixed, setup: F.Setup, a: F.Answers, facts: Facts, around: R.Answers, failure: R.Failure)
    returns (log: seq<R.Step>, t: F.Trace)
    requires F.Tokenised(a) && FactsOk(setup, facts)
    ensures R.LastVerdict(log).Some? && forall i :: 0 <= i < |log| - 1 ==> !log[i].Published?
    ensures Batches.Screened(R.LastVerdict(log).value)
    ensures F.NoRunAfterHalt(setup.before, t) && F.Honest(setup.registry, a, 0, t)
    ensures R.LastVerdict(log).value.accepted <==>
      && WellAround(around) && !a.refused && !a.leaked
      && F.AllCalm(setup.before, t) && F.Deserved(setup, a)
    ensures WellAround(around) && !a.refused && !a.leaked && F.AllQuiet(setup, a) && F.Deserved(setup, a) ==>
      R.LastVerdict(log).value.accepted
  {
    var e;
    ghost var outcome;
    e, t, outcome := Evaluate(setup, a, facts);
    var failed, stack;
    if e.Some? {
      log, failed, stack := R.RunEvaluation(fixed, facts.config, e.value, around.(evaluate := None));
    } else {
      log, failed, stack := R.RunFormalAcceptance(fixed, facts.config, around.(evaluate := Some(failure)));
    }
  }
}
