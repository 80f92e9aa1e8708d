/** What Verdict asks of each gate, in numbers and positions, and that a run can meet it: with quiet
    surroundings that answer so, the candidate is accepted. */
module GateMeaning {
  import opened Wrappers
  import opened Bytes
  import opened Verdict
  import F = Formal

  /** The result at i is the last one of that name. */
  ghost predicate LastNamed(results: Results, name: Name, i: nat) {
    && i < |results| && results[i].0 == name
    && forall j :: i < j < |results| ==> results[j].0 != name
  }

  lemma {:induction false} LastOfShorter(results: Results, name: Name, i: nat)
    requires LastNamed(results, name, i) && results[|results| - 1].0 != name
    ensures LastNamed(results[..|results| - 1], name, i) && results[..|results| - 1][i] == results[i]
  {
  }

  /** Looking a name up finds its last result. */
  lemma {:induction false} ResultIsLast(results: Results, name: Name)
    ensures ResultNamed(results, name).None? <==> forall i :: 0 <= i < |results| ==> results[i].0 != name
    ensures forall i: nat :: LastNamed(results, name, i) ==> ResultNamed(results, name) == Some(results[i].1)
    ensures ResultNamed(results, name).Some? ==> exists i: nat :: LastNamed(results, name, i)
  {
    if results != [] {
      var n := |results| - 1;
      ResultIsLast(results[..n], name);
      if results[n].0 == name {
        assert LastNamed(results, name, n);
      } else {
        if ResultNamed(results[..n], name).Some? {
          var i: nat :| LastNamed(results[..n], name, i);
          assert LastNamed(results, name, i);
        }
        forall i: nat | LastNamed(results, name, i) ensures ResultNamed(results, name) == Some(results[i].1) {
          LastOfShorter(results, name, i);
        }
      }
    }
  }

  /** One test run of at least so many tests. */
  predicate OneRun(counts: seq<nat>, least: nat) {
    |counts| == 1 && counts[0] >= least
  }

  /** What the output of a gate's own command must hold. */
  ghost predicate Asked(names: MetricNames, g: Gate, o: Output) {
    match g
    case TargetedTests => OneRun(o.testCounts, 300) && (o.skipCounts == [] || o.skipCounts == [0])
    case FullRepositoryTests => OneRun(o.testCounts, 875) && o.skipCounts == [3]
    case Reverse => MetricsAllZero(o, names.reverse)
    case CleanRebuild1 => |o.rebuildMarkers| == 1
    case CleanRebuild2 => |o.rebuildMarkers| == 1
    case LogCanary => o.canaryHits == [0]
    case SbomReconcile => |o.inventoryMarkers| == 1 && IsHex64(o.inventoryMarkers[0])
    case _ => true
  }

  /** The last result of that name is there and holds what is asked. */
  ghost predicate LastHolds(results: Results, name: Name, asked: Output -> bool) {
    exists i: nat :: LastNamed(results, name, i) && asked(results[i].1.output)
  }

  ghost function AskedOf(names: MetricNames, g: Gate): Output -> bool {
    (o: Output) => Asked(names, g, o)
  }

  ghost function PgAsked(names: MetricNames): Output -> bool {
    (o: Output) => MetricsAllZero(o, names.pg)
  }

  function MarkerAsked(): Output -> bool {
    (o: Output) => o.migrateMarkers == 1
  }

  /** All commands of the gate exited zero, and their outputs hold what is asked. */
  ghost predicate GateAsks(names: MetricNames, g: Gate, results: Results) {
    && results != [] && (forall i :: 0 <= i < |results| ==> results[i].1.exit == 0)
    && match g
       case MigrationReplay =>
         && LastHolds(results, MigrationApply1, MarkerAsked()) && LastHolds(results, MigrationApply2, MarkerAsked())
         && LastHolds(results, PgLiveVerifier, PgAsked(names))
       case NpmCi => true
       case NpmLint => true
       case NpmBuild => true
       case _ => LastHolds(results, OfGate(g), AskedOf(names, g))
  }

  lemma {:induction false} NamedHolds(results: Results, name: Name, asked: Output -> bool)
    ensures LastHolds(results, name, asked) <==> ResultNamed(results, name).Some? && asked(ResultNamed(results, name).value.output)
  {
    ResultIsLast(results, name);
  }

  lemma {:induction false} OwnMeans(names: MetricNames, g: Gate, o: Output)
    ensures OwnOutputClean(names, g, o) <==> Asked(names, g, o)
  {
  }

  /** A gate is clean exactly when its results are what is asked. */
  lemma {:induction false} GateCleanMeans(names: MetricNames, g: Gate, results: Results)
    ensures GateClean(names, g, results) <==> GateAsks(names, g, results)
  {
    if g == MigrationReplay {
      NamedHolds(results, MigrationApply1, MarkerAsked());
      NamedHolds(results, MigrationApply2, MarkerAsked());
      NamedHolds(results, PgLiveVerifier, PgAsked(names));
    } else {
      NamedHolds(results, OfGate(g), AskedOf(names, g));
      var own := ResultNamed(results, OfGate(g));
      if own.Some? {
        OwnMeans(names, g, own.value.output);
      }
    }
  }

  /** The marker of a rebuild: the only one that its last result printed, and otherwise INVALID. */
  lemma {:induction false} MarkerMeans(results: Results, name: Name)
    ensures forall i: nat :: LastNamed(results, name, i) && |results[i].1.output.rebuildMarkers| == 1 ==>
      RebuildMarker(ResultNamed(results, name)) == results[i].1.output.rebuildMarkers[0]
    ensures (forall i: nat :: LastNamed(results, name, i) ==> |results[i].1.output.rebuildMarkers| != 1) ==>
      RebuildMarker(ResultNamed(results, name)) == "INVALID"
    ensures forall i: nat :: LastNamed(results, name, i) && |results[i].1.output.inventoryMarkers| == 1 ==>
      InventoryMarker(ResultNamed(results, name)) == results[i].1.output.inventoryMarkers[0]
    ensures (forall i: nat :: LastNamed(results, name, i) ==> |results[i].1.output.inventoryMarkers| != 1) ==>
      InventoryMarker(ResultNamed(results, name)) == "INVALID"
  {
    ResultIsLast(results, name);
  }

  /** When the rebuilds' documents raise a blocker. */
  predicate DocumentsRaise(first: string, second: string, a: F.Answers, b: Blocker) {
    var one, two := IsHex64(first) && a.loadedOne, IsHex64(second) && a.loadedTwo;
    match b
    case CleanRebuildNondeterministic => !IsHex64(first) || first != second
    case CleanEvidenceRed(round) => (round == 1 && !one) || (round == 2 && !two)
    case CleanProjectionRed => one && two && !a.projected
    case CleanEvidenceIncomplete => !one || !two
    case RuntimeInventoryRed => !a.inventoried
    case _ => false
  }

  lemma {:induction false} DocumentsMean(first: string, second: string, a: F.Answers, b: Blocker)
    ensures b in F.DocumentBlockers(first, second, a) <==> DocumentsRaise(first, second, a, b)
  {
  }

  // ---------- a run that is accepted ----------

  /** A line that lists the expected names, each with zero. */
  lemma {:induction false} ZeroLine(expected: set<string>) returns (line: seq<Pair>)
    ensures ListsOnce(line, expected) && forall k :: 0 <= k < |line| ==> line[k].value == 0
    ensures expected != {} ==> line != []
  {
    line := [];
    var rest := expected;
    while rest != {}
      invariant rest <= expected
      invariant forall k, l :: 0 <= k < l < |line| ==> line[k].name != line[l].name
      invariant forall k :: 0 <= k < |line| ==> line[k].name in expected && line[k].name !in rest && line[k].value == 0
      invariant forall name :: name in expected && name !in rest ==> exists k :: 0 <= k < |line| && line[k].name == name
    {
      var name :| name in rest;
      var longer := line + [Pair(name, 0)];
      forall n | n in expected && n !in rest - {name} ensures exists k :: 0 <= k < |longer| && longer[k].name == n {
        if n == name {
          assert longer[|line|].name == n;
        } else {
          var k :| 0 <= k < |line| && line[k].name == n;
          assert longer[k].name == n;
        }
      }
      line := longer;
      rest := rest - {name};
    }
  }

  lemma {:induction false} SoleLine(line: seq<Pair>, expected: set<string>, o: Output)
    requires ListsOnce(line, expected) && line != [] && o.lines == [line] && forall k :: 0 <= k < |line| ==> line[k].value == 0
    ensures MetricsAllZero(o, expected)
  {
    assert SoleMetricsLine(o.lines, expected, 0);
  }

  /** The commands of a gate are the registered ones of that gate. */
  lemma {:induction false} SpecsIn(registry: seq<F.Command>, g: Gate, c: F.Command)
    ensures c in F.SpecsFor(registry, g) <==> c in registry && c.gate == g
  {
    if registry != [] {
      SpecsIn(registry[1..], g, c);
      assert registry == [registry[0]] + registry[1..];
    }
  }

  /** Every gate has the commands that it is judged by. */
  predicate Registered(registry: seq<F.Command>) {
    && (forall g: Gate :: g != MigrationReplay ==> F.Command(OfGate(g), g) in registry)
    && F.Command(MigrationApply1, MigrationReplay) in registry
    && F.Command(MigrationApply2, MigrationReplay) in registry
    && F.Command(PgLiveVerifier, MigrationReplay) in registry
  }

  function PlaceOf(g: Gate): (i: nat)
    ensures i < 13
  {
    match g
    case MigrationReplay => 0
    case TargetedTests => 3
    case FullRepositoryTests => 4
    case NpmCi => 5
    case NpmLint => 6
    case NpmBuild => 7
    case Reverse => 8
    case CleanRebuild1 => 9
    case CleanRebuild2 => 10
    case LogCanary => 11
    case SbomReconcile => 12
  }

  lemma {:induction false} RegistryRegistered()
    ensures Registered(F.REGISTRY)
  {
    assert F.REGISTRY[0] == F.Command(MigrationApply1, MigrationReplay);
    assert F.REGISTRY[1] == F.Command(MigrationApply2, MigrationReplay);
    assert F.REGISTRY[2] == F.Command(PgLiveVerifier, MigrationReplay);
    forall g: Gate | g != MigrationReplay ensures F.Command(OfGate(g), g) in F.REGISTRY {
      assert F.REGISTRY[PlaceOf(g)] == F.Command(OfGate(g), g);
    }
  }

  /** Every command exits zero and prints what its gate asks for. */
  ghost predicate Answering(names: MetricNames, process: Name -> ProcessResult) {
    && (forall n :: process(n).exit == 0 && process(n).output.migrateMarkers == 1)
    && (forall g :: Asked(names, g, process(OfGate(g)).output))
    && MetricsAllZero(process(PgLiveVerifier).output, names.pg)
  }

  /** A command that ran has its answer for result. */
  lemma {:induction false} AnswerNamed(a: F.Answers, commands: seq<F.Command>, name: Name, g: Gate)
    requires F.Command(name, g) in commands
    ensures ResultNamed(F.ResultsFor(a, commands), name) == Some(a.process(name))
  {
    var results := F.ResultsFor(a, commands);
    ResultIsLast(results, name);
    var k :| 0 <= k < |commands| && commands[k] == F.Command(name, g);
    assert results[k].0 == name;
    var i: nat :| LastNamed(results, name, i);
    assert results[i] == (commands[i].name, a.process(commands[i].name));
  }

  lemma {:induction false} GateAnswered(setup: F.Setup, a: F.Answers, g: Gate, name: Name)
    requires F.Command(name, g) in setup.registry
    ensures ResultNamed(F.AnswersOf(setup, a, g), name) == Some(a.process(name))
    ensures F.AnswersOf(setup, a, g) != [] && F.SpecsFor(setup.registry, g) != []
  {
    SpecsIn(setup.registry, g, F.Command(name, g));
    AnswerNamed(a, F.SpecsFor(setup.registry, g), name, g);
  }

  lemma {:induction false} AnsweringExits(setup: F.Setup, a: F.Answers, g: Gate)
    requires Answering(setup.names, a.process)
    ensures AllZero(F.AnswersOf(setup, a, g))
  {
  }

  lemma {:induction false} MigrationAnswered(setup: F.Setup, a: F.Answers)
    requires Registered(setup.registry) && Answering(setup.names, a.process)
    ensures MigrationClean(setup.names, F.AnswersOf(setup, a, MigrationReplay)) && F.AnswersOf(setup, a, MigrationReplay) != []
    ensures F.SpecsFor(setup.registry, MigrationReplay) != []
  {
    GateAnswered(setup, a, MigrationReplay, MigrationApply1);
    GateAnswered(setup, a, MigrationReplay, MigrationApply2);
    GateAnswered(setup, a, MigrationReplay, PgLiveVerifier);
  }

  lemma {:induction false} GateIsClean(setup: F.Setup, a: F.Answers, g: Gate)
    requires Registered(setup.registry) && Answering(setup.names, a.process)
    ensures GateClean(setup.names, g, F.AnswersOf(setup, a, g)) && F.SpecsFor(setup.registry, g) != []
  {
    AnsweringExits(setup, a, g);
    if g == MigrationReplay {
      MigrationAnswered(setup, a);
    } else {
      GateAnswered(setup, a, g, OfGate(g));
      OwnMeans(setup.names, g, a.process(OfGate(g)).output);
    }
  }

  /** The answers deserve acceptance: all commands print what is asked, the two rebuilds agree, the
      documents bind and the inventory is as before. */
  lemma {:induction false} AnsweringDeserves(setup: F.Setup, a: F.Answers)
    requires Registered(setup.registry) && Answering(setup.names, a.process)
    requires F.Documents(a) && a.rebuilt == Some(setup.inventory)
    requires a.process(OfGate(CleanRebuild1)).output.rebuildMarkers == a.process(OfGate(CleanRebuild2)).output.rebuildMarkers
    ensures F.Deserved(setup, a)
  {
    forall g ensures GateClean(setup.names, g, F.AnswersOf(setup, a, g)) {
      GateIsClean(setup, a, g);
    }
    GateAnswered(setup, a, CleanRebuild1, OfGate(CleanRebuild1));
    GateAnswered(setup, a, CleanRebuild2, OfGate(CleanRebuild2));
  }

  /** Output that holds everything any gate could ask for. */
  function FullOutput(line: seq<Pair>, tests: nat, skips: seq<nat>, marker: string): Output {
    Output(1, [line], [tests], skips, [marker], [0], [marker])
  }

  function AnswerTo(pg: seq<Pair>, reverse: seq<Pair>, marker: string, name: Name): ProcessResult {
    ProcessResult(0,
      if name == PgLiveVerifier then FullOutput(pg, 300, [], marker)
      else if name == OfGate(FullRepositoryTests) then FullOutput(reverse, 875, [3], marker)
      else FullOutput(reverse, 300, [], marker))
  }

  lemma {:induction false} SomeAnswer(names: MetricNames, marker: string) returns (process: Name -> ProcessResult)
    requires IsHex64(marker) && names.pg != {} && names.reverse != {}
    ensures Answering(names, process)
    ensures forall n :: HexMarkers(process(n).output) && process(n).output.rebuildMarkers == [marker]
  {
    var pg := ZeroLine(names.pg);
    var reverse := ZeroLine(names.reverse);
    process := n => AnswerTo(pg, reverse, marker, n);
    SoleLine(pg, names.pg, process(PgLiveVerifier).output);
    SoleLine(reverse, names.reverse, process(OfGate(Reverse)).output);
  }

  /** A formal run can be accepted: surroundings exist that keep every look as it was and answer every
      registered command so that the candidate deserves acceptance. */
  lemma {:induction false} AcceptanceIsPossible(setup: F.Setup, marker: string) returns (a: F.Answers)
    requires Registered(setup.registry) && IsHex64(marker) && setup.names.pg != {} && setup.names.reverse != {}
    ensures F.Tokenised(a) && F.AllQuiet(setup, a) && F.Deserved(setup, a) && !a.refused && !a.leaked
  {
    var process := SomeAnswer(setup.names, marker);
    a := F.Answers(
      k => setup.before, k => true, k => true, n => true, process,
      false, false, true, true, true, true, Some(setup.inventory));
    AnsweringDeserves(setup, a);
    forall g ensures F.SpecsFor(setup.registry, g) != [] {
      GateIsClean(setup, a, g);
    }
  }
}
