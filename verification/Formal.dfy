/** The formal evaluation of infra/f1/formal_acceptance.py: the registered commands run gate by
    gate while the implementation's source and checkout are watched, drift halts the run, and the
    candidate's verdict has one exact meaning.

    What a process, a file check or a source snapshot answers is given, as `Answers`. */
module Formal {
  import opened Wrappers
  import opened Bytes
  import opened Verdict

  datatype Command = Command(name: Name, gate: Gate)

  /** COMMAND_REGISTRY. */
  const REGISTRY: seq<Command> := [
    Command(MigrationApply1, MigrationReplay),
    Command(MigrationApply2, MigrationReplay),
    Command(PgLiveVerifier, MigrationReplay),
    Command(OfGate(TargetedTests), TargetedTests),
    Command(OfGate(FullRepositoryTests), FullRepositoryTests),
    Command(OfGate(NpmCi), NpmCi),
    Command(OfGate(NpmLint), NpmLint),
    Command(OfGate(NpmBuild), NpmBuild),
    Command(OfGate(Reverse), Reverse),
    Command(OfGate(CleanRebuild1), CleanRebuild1),
    Command(OfGate(CleanRebuild2), CleanRebuild2),
    Command(OfGate(LogCanary), LogCanary),
    Command(OfGate(SbomReconcile), SbomReconcile)]

  function SpecsFor(registry: seq<Command>, g: Gate): seq<Command> {
    if registry == [] then []
    else (if registry[0].gate == g then [registry[0]] else []) + SpecsFor(registry[1..], g)
  }

  /** The registered commands of the gates, in gate order. */
  function InGateOrder(registry: seq<Command>, gates: seq<Gate>): seq<Command> {
    if gates == [] then []
    else InGateOrder(registry, gates[..|gates| - 1]) + SpecsFor(registry, gates[|gates| - 1])
  }

  datatype Source = Source(sha256: string, fileCount: int)

  datatype Event =
    | Snapshot(source: Source)
    | Checkout(valid: bool)
    | IsolationBefore(intact: bool)
    | IsolationAfter(intact: bool)
    | Empty(gate: Gate)
    | Missing(name: Name)
    | Ran(name: Name, exit: int)

  type Trace = seq<Event>

  /** What the surroundings answer: to the look at each position of the trace, to each command, to
      the checks before the first gate and on the rendered candidate, about the rebuilds' documents
      and the runtime inventory, and when the inventory is built anew. */
  datatype Answers = Answers(
    snapshot: nat -> Source, checkout: nat -> bool, isolation: nat -> bool,
    available: Name -> bool, process: Name -> ProcessResult,
    refused: bool, leaked: bool,
    loadedOne: bool, loadedTwo: bool, projected: bool, inventoried: bool, rebuilt: Option<Digest>)

  /** The patterns only match 64 hexadecimal digits. */
  ghost predicate Tokenised(a: Answers) {
    forall n :: HexMarkers(a.process(n).output)
  }

  /** The event at a position is what the surroundings answered there. */
  predicate Truthful(registry: seq<Command>, a: Answers, at: nat, e: Event) {
    match e
    case Snapshot(source) => source == a.snapshot(at)
    case Checkout(valid) => valid == a.checkout(at)
    case IsolationBefore(intact) => intact == a.isolation(at)
    case IsolationAfter(intact) => intact == a.isolation(at)
    case Empty(gate) => SpecsFor(registry, gate) == []
    case Missing(name) => !a.available(name)
    case Ran(name, exit) => a.available(name) && exit == a.process(name).exit
  }

  predicate Honest(registry: seq<Command>, a: Answers, at: nat, t: Trace) {
    forall i :: 0 <= i < |t| ==> Truthful(registry, a, at + i, t[i])
  }

  lemma {:induction false} HonestConcat(registry: seq<Command>, a: Answers, at: nat, t: Trace, u: Trace)
    requires Honest(registry, a, at, t) && Honest(registry, a, at + |t|, u)
    ensures Honest(registry, a, at, t + u)
  {
    var all := t + u;
    forall i | 0 <= i < |all| ensures Truthful(registry, a, at + i, all[i]) {
      if i >= |t| {
        assert Truthful(registry, a, at + |t| + (i - |t|), u[i - |t|]);
      }
    }
  }

  /** What the commands answer, one after the other. */
  function ResultsFor(a: Answers, commands: seq<Command>): (results: Results)
    ensures |results| == |commands|
  {
    seq(|commands|, i requires 0 <= i < |commands| => (commands[i].name, a.process(commands[i].name)))
  }

  /** What stops the run: drift of the source or the checkout, or a boundary broken by the tests. */
  predicate Halts(before: Source, e: Event) {
    match e
    case Snapshot(source) => source != before
    case Checkout(valid) => !valid
    case IsolationAfter(intact) => !intact
    case _ => false
  }

  predicate Calm(before: Source, e: Event) {
    !Halts(before, e) && !e.Missing? && !e.Empty? && (e.IsolationBefore? ==> e.intact)
  }

  predicate HasHalt(before: Source, t: Trace) {
    exists i :: 0 <= i < |t| && Halts(before, t[i])
  }

  predicate AllCalm(before: Source, t: Trace) {
    forall i :: 0 <= i < |t| ==> Calm(before, t[i])
  }

  /** The blocker that an event gives cause for. */
  function EventBlockers(before: Source, e: Event): set<Blocker> {
    if Calm(before, e) then {}
    else
      match e
      case Snapshot(_) => {SourceChanged}
      case Checkout(_) => {CheckoutChanged}
      case Empty(gate) => {CommandMissing(OfGate(gate))}
      case Missing(name) => {CommandMissing(name)}
      case _ => {Isolation}
  }

  function TraceBlockers(before: Source, t: Trace): set<Blocker> {
    if t == [] then {} else EventBlockers(before, t[0]) + TraceBlockers(before, t[1..])
  }

  predicate NoRuns(t: Trace) {
    forall i :: 0 <= i < |t| ==> !t[i].Ran?
  }

  predicate NoRunAfterHalt(before: Source, t: Trace) {
    forall i, j :: 0 <= i < j < |t| && Halts(before, t[i]) ==> !t[j].Ran?
  }

  /** The source and the checkout are looked at after the command at i and before anything else
      runs, except that the isolation check may come first. */
  predicate WatchedAt(t: Trace, i: nat) {
    || (i + 2 < |t| && t[i + 1].Snapshot? && t[i + 2].Checkout?)
    || (i + 3 < |t| && t[i + 1].IsolationAfter? && t[i + 2].Snapshot? && t[i + 3].Checkout?)
  }

  predicate Watched(t: Trace) {
    forall i :: 0 <= i < |t| && t[i].Ran? ==> WatchedAt(t, i)
  }

  /** The commands run, with their exit codes. */
  function Runs(t: Trace): seq<(Name, int)> {
    if t == [] then [] else RunOf(t[0]) + Runs(t[1..])
  }

  function RunOf(e: Event): seq<(Name, int)> {
    if e.Ran? then [(e.name, e.exit)] else []
  }

  function Exits(results: Results): seq<(Name, int)> {
    seq(|results|, i requires 0 <= i < |results| => (results[i].0, results[i].1.exit))
  }

  /** Every command run with exit zero. */
  function Succeeded(commands: seq<Command>): seq<(Name, int)> {
    seq(|commands|, i requires 0 <= i < |commands| => (commands[i].name, 0))
  }

  // ---------- traces ----------

  lemma {:induction false} RunsFirst(e: Event, rest: Trace)
    ensures Runs([e] + rest) == RunOf(e) + Runs(rest)
  {
    assert ([e] + rest)[0] == e && ([e] + rest)[1..] == rest;
  }

  lemma {:induction false} Reassociate<T>(a: seq<T>, b: seq<T>, c: seq<T>)
    ensures a + (b + c) == a + b + c
  {
  }

  lemma {:induction false} RunsConcat(a: Trace, b: Trace)
    ensures Runs(a + b) == Runs(a) + Runs(b)
  {
    if a == [] {
      assert a + b == b;
    } else {
      var first, rest := a[0], a[1..];
      RunsConcat(rest, b);
      RunsFirst(first, rest + b);
      Reassociate([first], rest, b);
      assert a == [first] + rest;
      Reassociate(RunOf(first), Runs(rest), Runs(b));
    }
  }

  lemma {:induction false} NoRunsRuns(t: Trace)
    requires NoRuns(t)
    ensures Runs(t) == []
  {
    if t != [] {
      NoRunsRuns(t[1..]);
    }
  }

  lemma {:induction false} TraceConcat(before: Source, a: Trace, b: Trace)
    ensures HasHalt(before, a + b) <==> HasHalt(before, a) || HasHalt(before, b)
    ensures AllCalm(before, a + b) <==> AllCalm(before, a) && AllCalm(before, b)
    ensures NoRunAfterHalt(before, a) && NoRunAfterHalt(before, b) && (HasHalt(before, a) ==> NoRuns(b))
      ==> NoRunAfterHalt(before, a + b)
    ensures NoRuns(a) && NoRuns(b) ==> NoRuns(a + b)
  {
    var t := a + b;
    if HasHalt(before, a) {
      var i :| 0 <= i < |a| && Halts(before, a[i]);
      assert Halts(before, t[i]);
    }
    if HasHalt(before, b) {
      var i :| 0 <= i < |b| && Halts(before, b[i]);
      assert Halts(before, t[|a| + i]);
    }
    if AllCalm(before, t) {
      forall i | 0 <= i < |a| ensures Calm(before, a[i]) { assert Calm(before, t[i]); }
      forall i | 0 <= i < |b| ensures Calm(before, b[i]) { assert Calm(before, t[|a| + i]); }
    }
  }

  lemma {:induction false} BlockersConcat(before: Source, a: Trace, b: Trace)
    ensures TraceBlockers(before, a + b) == TraceBlockers(before, a) + TraceBlockers(before, b)
  {
    if a == [] {
      assert a + b == b;
    } else {
      BlockersConcat(before, a[1..], b);
      assert (a + b)[1..] == a[1..] + b;
    }
  }

  lemma {:induction false} OneEvent(before: Source, e: Event)
    ensures TraceBlockers(before, [e]) == EventBlockers(before, e)
  {
    assert [e][1..] == [];
  }

  lemma {:induction false} TwoEvents(before: Source, e: Event, f: Event)
    ensures TraceBlockers(before, [e, f]) == EventBlockers(before, e) + EventBlockers(before, f)
  {
    assert [e, f] == [e] + [f];
    BlockersConcat(before, [e], [f]);
    OneEvent(before, e);
    OneEvent(before, f);
  }

  /** No blocker exactly where all is calm. */
  lemma {:induction false} CalmHasNone(before: Source, t: Trace)
    ensures TraceBlockers(before, t) == {} <==> AllCalm(before, t)
  {
    if t != [] {
      CalmHasNone(before, t[1..]);
      assert t == [t[0]] + t[1..];
      TraceConcat(before, [t[0]], t[1..]);
      assert AllCalm(before, [t[0]]) <==> Calm(before, t[0]);
      assert Calm(before, t[0]) <==> EventBlockers(before, t[0]) == {};
    }
  }

  /** Whether this is the blocker of that event. */
  predicate Causes(before: Source, e: Event, b: Blocker) {
    match e
    case Snapshot(source) => source != before && b == SourceChanged
    case Checkout(valid) => !valid && b == CheckoutChanged
    case IsolationBefore(intact) => !intact && b == Isolation
    case IsolationAfter(intact) => !intact && b == Isolation
    case Empty(gate) => b == CommandMissing(OfGate(gate))
    case Missing(name) => b == CommandMissing(name)
    case Ran(_, _) => false
  }

  /** The blockers of a trace are those its events give cause for. */
  lemma {:induction false} TraceRaises(before: Source, t: Trace, b: Blocker)
    ensures b in TraceBlockers(before, t) <==> exists i :: 0 <= i < |t| && Causes(before, t[i], b)
  {
    if t != [] {
      TraceRaises(before, t[1..], b);
      assert b in EventBlockers(before, t[0]) <==> Causes(before, t[0], b);
      assert forall i :: 0 < i < |t| ==> t[i] == t[1..][i - 1];
      if i :| 0 <= i < |t[1..]| && Causes(before, t[1..][i], b) {
        assert Causes(before, t[i + 1], b);
      }
    }
  }

  lemma {:induction false} WatchedConcat(a: Trace, b: Trace)
    requires Watched(a) && Watched(b)
    ensures Watched(a + b)
  {
    var t := a + b;
    forall i | 0 <= i < |t| && t[i].Ran? ensures WatchedAt(t, i) {
      if i < |a| {
        assert WatchedAt(a, i);
      } else {
        assert WatchedAt(b, i - |a|);
      }
    }
  }

  lemma {:induction false} CalmDoesNotHalt(before: Source, t: Trace)
    requires AllCalm(before, t)
    ensures !HasHalt(before, t)
  {
  }

  // ---------- the registry ----------

  lemma {:induction false} RegistryNamesDistinct(i: nat, j: nat)
    requires i < j < |REGISTRY|
    ensures REGISTRY[i].name != REGISTRY[j].name
  {
  }

  function Rank(g: Gate): (i: nat)
    ensures i < |GATES| && GATES[i] == g
  {
    match g
    case MigrationReplay => 0
    case TargetedTests => 1
    case FullRepositoryTests => 2
    case NpmCi => 3
    case NpmLint => 4
    case NpmBuild => 5
    case Reverse => 6
    case CleanRebuild1 => 7
    case CleanRebuild2 => 8
    case LogCanary => 9
    case SbomReconcile => 10
  }

  predicate Grouped(registry: seq<Command>) {
    forall i, j :: 0 <= i < j < |registry| ==> Rank(registry[i].gate) <= Rank(registry[j].gate)
  }

  /** The commands of the first k gates. */
  function Below(registry: seq<Command>, k: nat): seq<Command> {
    if registry == [] then []
    else (if Rank(registry[0].gate) < k then [registry[0]] else []) + Below(registry[1..], k)
  }

  lemma {:induction false} NoneBelow(registry: seq<Command>, k: nat)
    requires forall i :: 0 <= i < |registry| ==> Rank(registry[i].gate) >= k
    ensures Below(registry, k) == []
  {
    if registry != [] {
      NoneBelow(registry[1..], k);
    }
  }

  lemma {:induction false} RankInjective(a: Gate, b: Gate)
    requires Rank(a) == Rank(b)
    ensures a == b
  {
    assert GATES[Rank(a)] == a && GATES[Rank(b)] == b;
  }

  lemma {:induction false} BelowHead(registry: seq<Command>, k: nat)
    requires registry != []
    ensures Below(registry, k) == (if Rank(registry[0].gate) < k then [registry[0]] else []) + Below(registry[1..], k)
  {
  }

  lemma {:induction false} SpecsHead(registry: seq<Command>, g: Gate)
    requires registry != []
    ensures SpecsFor(registry, g) == (if registry[0].gate == g then [registry[0]] else []) + SpecsFor(registry[1..], g)
  {
  }

  lemma {:induction false} GroupedTail(registry: seq<Command>)
    requires Grouped(registry) && registry != []
    ensures Grouped(registry[1..])
    ensures forall i :: 0 <= i < |registry| ==> Rank(registry[i].gate) >= Rank(registry[0].gate)
  {
  }

  /** One more command in front, given what holds of the rest. */
  lemma {:induction false} BelowNextHead(registry: seq<Command>, g: Gate, k: nat)
    requires registry != [] && k == Rank(g)
    requires Below(registry[1..], k + 1) == Below(registry[1..], k) + SpecsFor(registry[1..], g)
    requires Rank(registry[0].gate) >= k ==> Below(registry[1..], k) == []
    ensures Below(registry, k + 1) == Below(registry, k) + SpecsFor(registry, g)
  {
    BelowHead(registry, k + 1);
    BelowHead(registry, k);
    SpecsHead(registry, g);
    if Rank(registry[0].gate) == k {
      RankInjective(registry[0].gate, g);
    }
  }

  lemma {:induction false} BelowNext(registry: seq<Command>, g: Gate)
    requires Grouped(registry)
    ensures Below(registry, Rank(g) + 1) == Below(registry, Rank(g)) + SpecsFor(registry, g)
  {
    if registry != [] {
      GroupedTail(registry);
      BelowNext(registry[1..], g);
      if Rank(registry[0].gate) >= Rank(g) {
        NoneBelow(registry[1..], Rank(g));
      }
      BelowNextHead(registry, g, Rank(g));
    }
  }

  lemma {:induction false} BelowAll(registry: seq<Command>)
    ensures Below(registry, |GATES|) == registry
  {
    if registry != [] {
      BelowAll(registry[1..]);
    }
  }

  lemma {:induction false} GroupedInGateOrder(registry: seq<Command>, k: nat)
    requires Grouped(registry) && k <= |GATES|
    ensures InGateOrder(registry, GATES[..k]) == Below(registry, k)
  {
    if k == 0 {
      NoneBelow(registry, 0);
    } else {
      GroupedInGateOrder(registry, k - 1);
      assert GATES[..k][..k - 1] == GATES[..k - 1];
      RankAt(k - 1);
      BelowNext(registry, GATES[k - 1]);
    }
  }

  lemma {:induction false} RankAt(k: nat)
    requires k < |GATES|
    ensures Rank(GATES[k]) == k
  {
  }

  lemma {:induction false} RegistryGrouped()
    ensures Grouped(REGISTRY)
  {
    forall i, j | 0 <= i < j < |REGISTRY| ensures Rank(REGISTRY[i].gate) <= Rank(REGISTRY[j].gate) {
      RegistryRank(i);
      RegistryRank(j);
    }
  }

  lemma {:induction false} RegistryRank(i: nat)
    requires i < |REGISTRY|
    ensures Rank(REGISTRY[i].gate) == (if i < 2 then 0 else i - 2)
  {
  }

  /** Gate by gate is registry order: the registry lists each gate's commands together, and the
      gates in sequence. */
  lemma {:induction false} RegistryInGateOrder()
    ensures InGateOrder(REGISTRY, GATES) == REGISTRY
  {
    RegistryGrouped();
    GroupedInGateOrder(REGISTRY, |GATES|);
    assert GATES[..|GATES|] == GATES;
    BelowAll(REGISTRY);
  }

  // ---------- one command ----------

  /** The trace, its blockers and the halt flag tell the same story. */
  ghost predicate Consistent(before: Source, t: Trace, blockers: set<Blocker>, halted: bool) {
    && (halted <==> HasHalt(before, t))
    && NoRunAfterHalt(before, t)
    && blockers == TraceBlockers(before, t)
  }

  /** A calm trace ran exactly the given commands, with their answers for results. */
  ghost predicate RanAll(a: Answers, before: Source, t: Trace, results: Results, commands: seq<Command>) {
    AllCalm(before, t) ==> results == ResultsFor(a, commands) && Runs(t) == Exits(results) && Watched(t)
  }

  /** The look at source and checkout after a command: the second is skipped when the first fails. */
  method WatchCommand(registry: seq<Command>, a: Answers, at: nat, before: Source)
    returns (t: Trace, blockers: set<Blocker>, halted: bool)
    ensures Consistent(before, t, blockers, halted) && Honest(registry, a, at, t)
    ensures NoRuns(t)
    ensures !halted ==> |t| == 2 && t[0].Snapshot? && t[1].Checkout?
  {
    var observed := a.snapshot(at);
    t := [Snapshot(observed)];
    if observed != before {
      assert Halts(before, t[0]);
      OneEvent(before, t[0]);
      return t, {SourceChanged}, true;
    }
    var valid := a.checkout(at + 1);
    t := [Snapshot(observed), Checkout(valid)];
    blockers := if valid then {} else {CheckoutChanged};
    halted := !valid;
    TwoEvents(before, t[0], t[1]);
    assert Calm(before, t[0]) && (Calm(before, t[1]) <==> valid) && (Halts(before, t[1]) <==> halted);
  }

  /** The look at both that ends every gate. */
  method WatchGate(registry: seq<Command>, a: Answers, at: nat, before: Source)
    returns (t: Trace, blockers: set<Blocker>, drifted: bool)
    ensures Consistent(before, t, blockers, drifted) && Honest(registry, a, at, t)
    ensures t == [Snapshot(a.snapshot(at)), Checkout(a.checkout(at + 1))]
    ensures NoRuns(t)
  {
    var observed := a.snapshot(at);
    var valid := a.checkout(at + 1);
    t := [Snapshot(observed), Checkout(valid)];
    blockers := {};
    if observed != before {
      blockers := blockers + {SourceChanged};
    }
    if !valid {
      blockers := blockers + {CheckoutChanged};
    }
    drifted := blockers != {};
    TwoEvents(before, t[0], t[1]);
    assert Halts(before, t[0]) <==> observed != before;
    assert Halts(before, t[1]) <==> !valid;
    assert Calm(before, t[0]) <==> observed == before;
    assert Calm(before, t[1]) <==> valid;
  }

  lemma {:induction false} RanWatched(c: Command, exit: int, middle: Trace, watch: Trace)
    requires middle == [] || (|middle| == 1 && middle[0].IsolationAfter?)
    requires |watch| == 2 && watch[0].Snapshot? && watch[1].Checkout?
    ensures var t := [Ran(c.name, exit)] + middle + watch;
      Watched(t) && Runs(t) == [(c.name, exit)]
  {
    var t := [Ran(c.name, exit)] + middle + watch;
    assert NoRuns(middle + watch);
    NoRunsRuns(middle + watch);
    RunsConcat([Ran(c.name, exit)], middle + watch);
    assert t == [Ran(c.name, exit)] + (middle + watch);
    assert WatchedAt(t, 0);
  }

  method RunCommand(registry: seq<Command>, a: Answers, at: nat, before: Source, g: Gate, c: Command)
    returns (t: Trace, results: Results, blockers: set<Blocker>, halted: bool)
    requires Tokenised(a)
    ensures Consistent(before, t, blockers, halted) && Honest(registry, a, at, t)
    ensures RanAll(a, before, t, results, [c])
    ensures results != [] && MarkersHex(results)
  {
    if !a.available(c.name) {
      t := [Missing(c.name)];
      OneEvent(before, t[0]);
      assert !Calm(before, t[0]);
      return t, NotRun(c.name, 127), {CommandMissing(c.name)}, false;
    }
    var result := a.process(c.name);
    results := [(c.name, result)];
    assert results == ResultsFor(a, [c]);
    var start: Trace := [Ran(c.name, result.exit)];
    var middle: Trace := [];
    if g == FullRepositoryTests {
      var intact := a.isolation(at + 1);
      middle := [IsolationAfter(intact)];
      if !intact {
        t := start + middle;
        results := results + NotRun(FrozenBoundary, 126);
        assert Halts(before, t[1]);
        TwoEvents(before, t[0], t[1]);
        return t, results, {Isolation}, true;
      }
    }
    var watch;
    watch, blockers, halted := WatchCommand(registry, a, at + |start + middle|, before);
    HonestConcat(registry, a, at, start + middle, watch);
    t := start + middle + watch;
    assert AllCalm(before, start + middle);
    CalmDoesNotHalt(before, start + middle);
    CalmHasNone(before, start + middle);
    TraceConcat(before, start + middle, watch);
    BlockersConcat(before, start + middle, watch);
    if !halted {
      RanWatched(c, result.exit, middle, watch);
    }
  }

  // ---------- one gate ----------

  lemma {:induction false} RanAllConcat(a: Answers, before: Source, t: Trace, rt: Results, ct: seq<Command>,
                                        u: Trace, ru: Results, cu: seq<Command>)
    requires RanAll(a, before, t, rt, ct) && RanAll(a, before, u, ru, cu)
    ensures RanAll(a, before, t + u, rt + ru, ct + cu)
  {
    TraceConcat(before, t, u);
    if AllCalm(before, t + u) {
      RunsConcat(t, u);
      WatchedConcat(t, u);
      assert Exits(rt + ru) == Exits(rt) + Exits(ru);
      assert ResultsFor(a, ct + cu) == ResultsFor(a, ct) + ResultsFor(a, cu);
    }
  }

  lemma {:induction false} MarkersHexConcat(a: Results, b: Results)
    requires MarkersHex(a) && MarkersHex(b)
    ensures MarkersHex(a + b)
  {
  }

  lemma {:induction false} ConsistentConcat(before: Source, a: Trace, ba: set<Blocker>, b: Trace, bb: set<Blocker>, halted: bool)
    requires Consistent(before, a, ba, false) && Consistent(before, b, bb, halted)
    ensures Consistent(before, a + b, ba + bb, halted)
  {
    TraceConcat(before, a, b);
    BlockersConcat(before, a, b);
  }

  method RunCommands(registry: seq<Command>, a: Answers, at: nat, before: Source, g: Gate, specs: seq<Command>)
    returns (t: Trace, results: Results, blockers: set<Blocker>, halted: bool)
    requires Tokenised(a)
    ensures Consistent(before, t, blockers, halted) && Honest(registry, a, at, t)
    ensures RanAll(a, before, t, results, specs)
    ensures MarkersHex(results)
  {
    t, results, blockers, halted := [], [], {}, false;
    var j := 0;
    while j < |specs| && !halted
      invariant 0 <= j <= |specs|
      invariant Consistent(before, t, blockers, halted) && Honest(registry, a, at, t)
      invariant RanAll(a, before, t, results, specs[..j])
      invariant MarkersHex(results)
    {
      var t1, r1, b1, h1 := RunCommand(registry, a, at + |t|, before, g, specs[j]);
      ConsistentConcat(before, t, blockers, t1, b1, h1);
      HonestConcat(registry, a, at, t, t1);
      RanAllConcat(a, before, t, results, specs[..j], t1, r1, [specs[j]]);
      MarkersHexConcat(results, r1);
      assert specs[..j + 1] == specs[..j] + [specs[j]];
      t, results, blockers, halted := t + t1, results + r1, blockers + b1, h1;
      j := j + 1;
    }
    if halted {
      assert !AllCalm(before, t) by {
        if AllCalm(before, t) {
          CalmDoesNotHalt(before, t);
        }
      }
    } else {
      assert specs[..j] == specs;
    }
  }

  /** The results of a gate that never ran its command. */
  function NotRun(name: Name, exit: int): Results {
    [(name, ProcessResult(exit, NO_MATCHES))]
  }

  method StartGate(registry: seq<Command>, a: Answers, at: nat, before: Source, g: Gate)
    returns (t: Trace, results: Results, blockers: set<Blocker>, halted: bool)
    requires Tokenised(a)
    ensures Consistent(before, t, blockers, halted) && Honest(registry, a, at, t)
    ensures RanAll(a, before, t, results, SpecsFor(registry, g))
    ensures MarkersHex(results)
  {
    var specs := SpecsFor(registry, g);
    if specs == [] {
      t := [Empty(g)];
      OneEvent(before, t[0]);
      assert !Calm(before, t[0]);
      return t, NotRun(OfGate(g), 127), {CommandMissing(OfGate(g))}, false;
    }
    var isolation: Trace := [];
    if g == FullRepositoryTests {
      var intact := a.isolation(at);
      isolation := [IsolationBefore(intact)];
      OneEvent(before, isolation[0]);
      if !intact {
        assert !Calm(before, isolation[0]);
        return isolation, NotRun(OfGate(g), 126), {Isolation}, false;
      }
    }
    assert Consistent(before, isolation, {}, false) && Honest(registry, a, at, isolation);
    t, results, blockers, halted := RunCommands(registry, a, at + |isolation|, before, g, specs);
    ConsistentConcat(before, isolation, {}, t, blockers, halted);
    HonestConcat(registry, a, at, isolation, t);
    RanAllConcat(a, before, isolation, [], [], t, results, specs);
    assert [] + results == results && [] + specs == specs && {} + blockers == blockers;
    t := isolation + t;
  }

  /** A gate, from whether the run was halted before it to whether it is halted after. */
  method RunGate(registry: seq<Command>, a: Answers, at: nat, before: Source, g: Gate, was: bool)
    returns (t: Trace, results: Results, blockers: set<Blocker>, halted: bool)
    requires Tokenised(a)
    ensures halted <==> was || HasHalt(before, t)
    ensures was ==> NoRuns(t) && !AllZero(results)
    ensures NoRunAfterHalt(before, t) && Honest(registry, a, at, t)
    ensures blockers == TraceBlockers(before, t)
    ensures !was ==> RanAll(a, before, t, results, SpecsFor(registry, g))
    ensures MarkersHex(results)
  {
    if was {
      t, results, blockers, halted := [], NotRun(OfGate(g), 127), {}, false;
      assert results[0].1.exit != 0;
    } else {
      t, results, blockers, halted := StartGate(registry, a, at, before, g);
    }
    var watch, drift, drifted := WatchGate(registry, a, at + |t|, before);
    TraceConcat(before, t, watch);
    BlockersConcat(before, t, watch);
    HonestConcat(registry, a, at, t, watch);
    if !was {
      NoRunsRuns(watch);
      RanAllConcat(a, before, t, results, SpecsFor(registry, g), watch, [], []);
      assert results + [] == results && SpecsFor(registry, g) + [] == SpecsFor(registry, g);
    }
    t, blockers, halted := t + watch, blockers + drift, was || halted || drifted;
  }

  // ---------- the run ----------

  /** What is fixed for a run: the expected metrics, the digest of a gate's normalised outputs, the
      inventory digest, the registry, and the source the run started from. */
  datatype Setup = Setup(
    names: MetricNames, outputs: Results -> Digest, inventory: Digest, registry: seq<Command>, before: Source)

  function Sha(d: Digest): (s: string)
    ensures IsHex64(s)
  {
    Hex(d)
  }

  ghost predicate GatesMade(setup: Setup, gates: seq<Gate>, made: map<Gate, Made>, records: map<Gate, Record>) {
    && (forall g :: g in made <==> g in gates)
    && (forall g :: g in records <==> g in gates)
    && (forall g :: g in made ==> MadeFor(setup.names, g, Sha(setup.inventory), made[g]) && records[g] == made[g].record)
  }

  ghost predicate NoGateBlockers(made: map<Gate, Made>) {
    forall g :: g in made ==> made[g].blockers == {}
  }

  /** A calm run has its commands' answers for results; with all gates clean, it ran exactly the
      gates' commands, each with exit zero. */
  ghost predicate RunComplete(setup: Setup, a: Answers, gates: seq<Gate>, t: Trace, made: map<Gate, Made>) {
    && (AllCalm(setup.before, t) ==>
          forall g :: g in made ==> made[g].results == ResultsFor(a, SpecsFor(setup.registry, g)))
    && (AllCalm(setup.before, t) && NoGateBlockers(made) ==>
          Runs(t) == Succeeded(InGateOrder(setup.registry, gates)) && Watched(t))
  }

  lemma {:induction false} SucceededExits(a: Answers, commands: seq<Command>)
    requires AllZero(ResultsFor(a, commands))
    ensures Exits(ResultsFor(a, commands)) == Succeeded(commands)
  {
    var results := ResultsFor(a, commands);
    forall i | 0 <= i < |results| ensures Exits(results)[i] == Succeeded(commands)[i] {
      assert results[i].1.exit == 0;
    }
  }

  lemma {:induction false} RunCompleteNext(setup: Setup, a: Answers, gates: seq<Gate>, t: Trace, made: map<Gate, Made>, g: Gate,
                                           t1: Trace, m: Made)
    requires RunComplete(setup, a, gates, t, made)
    requires g !in made
    requires RanAll(a, setup.before, t1, m.results, SpecsFor(setup.registry, g))
    requires m.blockers == {} ==> AllZero(m.results)
    ensures RunComplete(setup, a, gates + [g], t + t1, made[g := m])
  {
    TraceConcat(setup.before, t, t1);
    NoGateBlockersNext(made, g, m);
    if AllCalm(setup.before, t + t1) && NoGateBlockers(made[g := m]) {
      CommandsNext(setup, a, gates, t, g, t1);
    }
  }

  lemma {:induction false} CommandsNext(setup: Setup, a: Answers, gates: seq<Gate>, t: Trace, g: Gate, t1: Trace)
    requires Runs(t) == Succeeded(InGateOrder(setup.registry, gates)) && Watched(t) && Watched(t1)
    requires Runs(t1) == Exits(ResultsFor(a, SpecsFor(setup.registry, g))) && AllZero(ResultsFor(a, SpecsFor(setup.registry, g)))
    ensures Runs(t + t1) == Succeeded(InGateOrder(setup.registry, gates + [g])) && Watched(t + t1)
  {
    RunsConcat(t, t1);
    WatchedConcat(t, t1);
    var specs := SpecsFor(setup.registry, g);
    SucceededExits(a, specs);
    assert (gates + [g])[..|gates|] == gates;
    var earlier := InGateOrder(setup.registry, gates);
    assert Succeeded(earlier + specs) == Succeeded(earlier) + Succeeded(specs);
  }

  predicate DistinctGates(gates: seq<Gate>) {
    forall i, j :: 0 <= i < j < |gates| ==> gates[i] != gates[j]
  }

  lemma {:induction false} BlockersGrow(before: Source, t: Trace, t1: Trace, blockers: set<Blocker>, own: set<Blocker>)
    requires TraceBlockers(before, t) <= blockers
    ensures TraceBlockers(before, t + t1) <= blockers + TraceBlockers(before, t1) + own
  {
    BlockersConcat(before, t, t1);
  }

  /** The gate loop. */
  method RunGates(setup: Setup, a: Answers, gates: seq<Gate>)
    returns (t: Trace, records: map<Gate, Record>, blockers: set<Blocker>, halted: bool, ghost made: map<Gate, Made>)
    requires DistinctGates(gates) && Tokenised(a)
    ensures halted <==> HasHalt(setup.before, t)
    ensures NoRunAfterHalt(setup.before, t) && Honest(setup.registry, a, 0, t)
    ensures GatesMade(setup, gates, made, records)
    ensures blockers == {} <==> AllCalm(setup.before, t) && NoGateBlockers(made)
    ensures TraceBlockers(setup.before, t) <= blockers
    ensures RunComplete(setup, a, gates, t, made)
  {
    t, records, blockers, halted := [], map[], {}, false;
    made := map[];
    var i := 0;
    while i < |gates|
      invariant 0 <= i <= |gates|
      invariant halted <==> HasHalt(setup.before, t)
      invariant NoRunAfterHalt(setup.before, t) && Honest(setup.registry, a, 0, t)
      invariant GatesMade(setup, gates[..i], made, records)
      invariant blockers == {} <==> AllCalm(setup.before, t) && NoGateBlockers(made)
      invariant TraceBlockers(setup.before, t) <= blockers
      invariant RunComplete(setup, a, gates[..i], t, made)
    {
      var g := gates[i];
      var t1, results, b1, h1 := RunGate(setup.registry, a, |t|, setup.before, g, halted);
      var record, own := GateRecord(setup.names, g, results, Sha(setup.outputs(results)), Sha(setup.inventory));
      ghost var m := Made(results, record, own);
      assert gates[..i + 1] == gates[..i] + [g];
      if !halted {
        RunCompleteNext(setup, a, gates[..i], t, made, g, t1, m);
      } else {
        StaysRed(setup.before, t, t1);
      }
      TraceConcat(setup.before, t, t1);
      CalmHasNone(setup.before, t1);
      BlockersGrow(setup.before, t, t1, blockers, own);
      HonestConcat(setup.registry, a, 0, t, t1);
      NoGateBlockersNext(made, g, m);
      t, records, blockers, halted := t + t1, records[g := record], blockers + b1 + own, h1;
      made := made[g := m];
      i := i + 1;
    }
    assert gates[..i] == gates;
  }

  lemma {:induction false} NoGateBlockersNext(made: map<Gate, Made>, g: Gate, m: Made)
    requires g !in made
    ensures NoGateBlockers(made[g := m]) <==> NoGateBlockers(made) && m.blockers == {}
  {
    var made' := made[g := m];
    if NoGateBlockers(made') {
      assert made'[g].blockers == {};
      forall x | x in made ensures made[x].blockers == {} {
        assert made'[x] == made[x];
      }
    }
  }

  lemma {:induction false} StaysRed(before: Source, t: Trace, t1: Trace)
    requires HasHalt(before, t)
    ensures !AllCalm(before, t + t1)
  {
    TraceConcat(before, t, t1);
    if AllCalm(before, t) {
      CalmDoesNotHalt(before, t);
    }
  }

  lemma {:induction false} GatesDistinct()
    ensures DistinctGates(GATES)
  {
    forall i, j | 0 <= i < j < |GATES| ensures GATES[i] != GATES[j] {
      RankAt(i);
      RankAt(j);
    }
  }

  // ---------- the verdict ----------

  method LoadCleanEvidence(marker: string, round: nat, loaded: bool) returns (blockers: set<Blocker>)
    ensures blockers == When(!IsHex64(marker) || !loaded, CleanEvidenceRed(round))
  {
    blockers := if IsHex64(marker) && loaded then {} else {CleanEvidenceRed(round)};
  }

  /** Both rounds' documents load, project to one structure, and the runtime inventory binds. */
  predicate Documents(a: Answers) {
    a.loadedOne && a.loadedTwo && a.projected && a.inventoried
  }

  /** The documents of both rounds are there. */
  predicate BothLoaded(first: string, second: string, a: Answers) {
    IsHex64(first) && a.loadedOne && IsHex64(second) && a.loadedTwo
  }

  function DocumentBlockers(first: string, second: string, a: Answers): set<Blocker> {
    When(!IsHex64(first) || first != second, CleanRebuildNondeterministic)
    + When(!IsHex64(first) || !a.loadedOne, CleanEvidenceRed(1)) + When(!IsHex64(second) || !a.loadedTwo, CleanEvidenceRed(2))
    + When(BothLoaded(first, second, a) && !a.projected, CleanProjectionRed)
    + When(!BothLoaded(first, second, a), CleanEvidenceIncomplete)
    + When(!a.inventoried, RuntimeInventoryRed)
  }

  lemma {:induction false} DocumentsNone(first: string, second: string, a: Answers)
    ensures DocumentBlockers(first, second, a) == {} <==> IsHex64(first) && first == second && Documents(a)
  {
    var own := DocumentBlockers(first, second, a);
    assert !IsHex64(first) || first != second ==> CleanRebuildNondeterministic in own;
    assert !BothLoaded(first, second, a) ==> CleanEvidenceIncomplete in own;
    assert BothLoaded(first, second, a) && !a.projected ==> CleanProjectionRed in own;
    assert !a.inventoried ==> RuntimeInventoryRed in own;
  }

  /** The rebuild rounds' documents and the runtime inventory. */
  method CheckDocuments(first: string, second: string, a: Answers) returns (blockers: set<Blocker>)
    ensures blockers == DocumentBlockers(first, second, a)
    ensures blockers == {} <==> IsHex64(first) && first == second && Documents(a)
  {
    DocumentsNone(first, second, a);
    blockers := if !IsHex64(first) || first != second then {CleanRebuildNondeterministic} else {};
    var one := LoadCleanEvidence(first, 1, a.loadedOne);
    var two := LoadCleanEvidence(second, 2, a.loadedTwo);
    blockers := blockers + one + two;
    if one == {} && two == {} {
      if !a.projected {
        blockers := blockers + {CleanProjectionRed};
      }
    } else {
      blockers := blockers + {CleanEvidenceIncomplete};
    }
    if !a.inventoried {
      blockers := blockers + {RuntimeInventoryRed};
    }
  }

  datatype Outcome = Raised | Candidate(accepted: bool, blockers: set<Blocker>, summary: map<Gate, Line>)

  function AnswersOf(setup: Setup, a: Answers, g: Gate): Results {
    ResultsFor(a, SpecsFor(setup.registry, g))
  }

  function MarkerOf(setup: Setup, a: Answers, g: Gate): string {
    RebuildMarker(ResultNamed(AnswersOf(setup, a, g), OfGate(g)))
  }

  /** What the commands and the documents answer deserves acceptance: every gate's outputs are what
      it asks for, the two rebuilds agree, the documents bind to the run, and the inventory is
      unchanged. */
  ghost predicate Deserved(setup: Setup, a: Answers) {
    && (forall g :: GateClean(setup.names, g, AnswersOf(setup, a, g)))
    && MarkerOf(setup, a, CleanRebuild1) == MarkerOf(setup, a, CleanRebuild2)
    && Documents(a) && a.rebuilt == Some(setup.inventory)
  }

  lemma {:induction false} RebuildRecords(setup: Setup, made: map<Gate, Made>, records: map<Gate, Record>)
    requires GatesMade(setup, GATES, made, records)
    ensures forall g :: g in made && g in records
    ensures RecordsOf(setup.names, Sha(setup.inventory), made, records)
    ensures records[CleanRebuild1].resultSha256 == RebuildMarkerOf(made, CleanRebuild1)
    ensures records[CleanRebuild2].resultSha256 == RebuildMarkerOf(made, CleanRebuild2)
    ensures AllClean(setup.names, made) ==> IsHex64(RebuildMarkerOf(made, CleanRebuild1))
    ensures AllClean(setup.names, made) <==> NoGateBlockers(made)
  {
    GatesCompleteAll();
    assert MadeFor(setup.names, CleanRebuild1, Sha(setup.inventory), made[CleanRebuild1]);
    assert MadeFor(setup.names, CleanRebuild2, Sha(setup.inventory), made[CleanRebuild2]);
    MarkerOfResult(made[CleanRebuild1].results, OfGate(CleanRebuild1));
    if AllClean(setup.names, made) {
      assert GateClean(setup.names, CleanRebuild1, made[CleanRebuild1].results);
    }
    forall g ensures made[g].blockers == {} <==> GateClean(setup.names, g, made[g].results) {
      assert MadeFor(setup.names, g, Sha(setup.inventory), made[g]);
    }
  }

  /** A calm run is judged by what its commands answered. */
  lemma {:induction false} MadeOfAnswers(setup: Setup, a: Answers, t: Trace, made: map<Gate, Made>)
    requires RunComplete(setup, a, GATES, t, made) && AllCalm(setup.before, t) && forall g :: g in made
    ensures AllClean(setup.names, made) <==> forall g :: GateClean(setup.names, g, AnswersOf(setup, a, g))
    ensures RebuildMarkerOf(made, CleanRebuild1) == MarkerOf(setup, a, CleanRebuild1)
    ensures RebuildMarkerOf(made, CleanRebuild2) == MarkerOf(setup, a, CleanRebuild2)
  {
    forall g ensures made[g].results == AnswersOf(setup, a, g) {
      assert g in made;
    }
  }

  function Rebuilt(a: Answers): Option<string> {
    if a.rebuilt.Some? then Some(Sha(a.rebuilt.value)) else None
  }

  lemma {:induction false} RebuiltSame(setup: Setup, a: Answers)
    ensures Rebuilt(a) == Some(Sha(setup.inventory)) <==> a.rebuilt == Some(setup.inventory)
  {
    if a.rebuilt.Some? && Sha(a.rebuilt.value) == Sha(setup.inventory) {
      HexInjective(a.rebuilt.value, setup.inventory);
    }
  }

  /** The last look of a run leaves its commands and their watching as they were. */
  lemma {:induction false} LastLook(setup: Setup, a: Answers, gated: Trace, watch: Trace, made: map<Gate, Made>)
    requires RunComplete(setup, a, GATES, gated, made) && NoRuns(watch) && NoRunAfterHalt(setup.before, gated)
    requires Honest(setup.registry, a, 0, gated) && Honest(setup.registry, a, |gated|, watch)
    ensures AllCalm(setup.before, gated + watch) <==> AllCalm(setup.before, gated) && AllCalm(setup.before, watch)
    ensures NoRunAfterHalt(setup.before, gated + watch) && Honest(setup.registry, a, 0, gated + watch)
    ensures AllCalm(setup.before, gated) && NoGateBlockers(made) ==>
      Runs(gated + watch) == Succeeded(InGateOrder(setup.registry, GATES)) && Watched(gated + watch)
  {
    TraceConcat(setup.before, gated, watch);
    HonestConcat(setup.registry, a, 0, gated, watch);
    NoRunsRuns(watch);
    RunsConcat(gated, watch);
    NoRunsHalt(setup.before, watch);
    if Watched(gated) {
      WatchedConcat(gated, watch);
    }
  }

  lemma {:induction false} NoRunsHalt(before: Source, t: Trace)
    requires NoRuns(t)
    ensures NoRunAfterHalt(before, t) && Watched(t)
  {
  }

  /** The candidate of a run whose gates are done. */
  method Conclude(setup: Setup, a: Answers, gated: Trace, records: map<Gate, Record>, blockers: set<Blocker>,
                  ghost made: map<Gate, Made>)
    returns (accepted: bool, combined: set<Blocker>, summary: map<Gate, Line>, t: Trace)
    requires GatesMade(setup, GATES, made, records)
    requires blockers == {} <==> AllCalm(setup.before, gated) && NoGateBlockers(made)
    requires TraceBlockers(setup.before, gated) <= blockers
    requires NoRunAfterHalt(setup.before, gated) && Honest(setup.registry, a, 0, gated)
    requires RunComplete(setup, a, GATES, gated, made)
    ensures accepted <==> combined == {}
    ensures TraceBlockers(setup.before, t) <= combined
    ensures accepted <==> AllCalm(setup.before, t) && Deserved(setup, a)
    ensures NoRunAfterHalt(setup.before, t) && Honest(setup.registry, a, 0, t)
    ensures accepted ==> Runs(t) == Succeeded(InGateOrder(setup.registry, GATES)) && Watched(t)
    ensures forall g :: g in summary && ShowsDigests(g, summary[g])
  {
    RebuildRecords(setup, made, records);
    var watch, drift, drifted := WatchGate(setup.registry, a, |gated|, setup.before);
    LastLook(setup, a, gated, watch, made);
    CalmHasNone(setup.before, watch);
    BlockersConcat(setup.before, gated, watch);
    t := gated + watch;
    var own := CheckDocuments(records[CleanRebuild1].resultSha256, records[CleanRebuild2].resultSha256, a);
    accepted, combined, summary :=
      FormalVerdict(setup.names, records, made, Sha(setup.inventory), Rebuilt(a), blockers + drift + own);
    RebuiltSame(setup, a);
    if AllCalm(setup.before, gated) {
      MadeOfAnswers(setup, a, gated, made);
    }
  }

  /** Every look is calm and every command is there, wherever and whenever it is asked for. */
  ghost predicate AllQuiet(setup: Setup, a: Answers) {
    && (forall k: nat :: a.snapshot(k) == setup.before && a.checkout(k) && a.isolation(k))
    && (forall n :: a.available(n)) && (forall g :: SpecsFor(setup.registry, g) != [])
  }

  lemma {:induction false} QuietIsCalm(setup: Setup, a: Answers, t: Trace)
    requires AllQuiet(setup, a) && Honest(setup.registry, a, 0, t)
    ensures AllCalm(setup.before, t)
  {
    forall i | 0 <= i < |t| ensures Calm(setup.before, t[i]) {
      assert Truthful(setup.registry, a, 0 + i, t[i]);
    }
  }

  /** _evaluate_formal, over what the surroundings answer. A candidate is accepted if and only if no
      look drifted, no command was missing, and the answers deserve it. An accepted one ran every
      registered command exactly once, in registry order and with exit zero, and looked at source
      and checkout after each of them. After a halting look nothing runs. The trace tells what was
      answered, so where all is quiet and deserving the candidate is accepted. */
  method EvaluateFormal(setup: Setup, a: Answers) returns (outcome: Outcome, t: Trace)
    requires Tokenised(a)
    ensures outcome.Raised? <==> a.refused || a.leaked
    ensures NoRunAfterHalt(setup.before, t) && Honest(setup.registry, a, 0, t)
    ensures outcome.Candidate? ==> (outcome.accepted <==> outcome.blockers == {}) && TraceBlockers(setup.before, t) <= outcome.blockers
    ensures outcome.Candidate? ==> forall g :: g in outcome.summary && ShowsDigests(g, outcome.summary[g])
    ensures outcome.Candidate? ==> (outcome.accepted <==> AllCalm(setup.before, t) && Deserved(setup, a))
    ensures outcome.Candidate? && AllQuiet(setup, a) && Deserved(setup, a) ==> outcome.accepted
    ensures outcome.Candidate? && outcome.accepted ==>
      Runs(t) == Succeeded(InGateOrder(setup.registry, GATES)) && Watched(t) && !HasHalt(setup.before, t)
    ensures outcome.Candidate? && outcome.accepted && setup.registry == REGISTRY ==> Runs(t) == Succeeded(REGISTRY)
  {
    // The baseline, the secret bundle and the environment may be refused before the first gate.
    if a.refused {
      return Raised, [];
    }
    GatesDistinct();
    ghost var made;
    var records, blockers, halted, accepted, combined, summary;
    t, records, blockers, halted, made := RunGates(setup, a, GATES);
    accepted, combined, summary, t := Conclude(setup, a, t, records, blockers, made);
    if accepted {
      CalmDoesNotHalt(setup.before, t);
    }
    if AllQuiet(setup, a) {
      QuietIsCalm(setup, a, t);
    }
    RegistryInGateOrder();
    // The canary scan of the rendered candidate may raise.
    outcome := if a.leaked then Raised else Candidate(accepted, combined, summary);
  }
}
