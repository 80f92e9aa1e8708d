/** The layered verdict: gate records and the metrics parser of infra/f1/formal_acceptance.py,
    the evidence summary and the acceptance payload of infra/f1/artifacts_v03.py, and the formal
    payload that joins them.

    What the fixed regular expressions find in a command's output is given (`Output`), and so is
    whether a digest string is 64 hexadecimal digits. Reason codes are constructors here. */
module Verdict {
  import opened Wrappers
  import opened Bytes

  datatype Gate =
    | MigrationReplay | TargetedTests | FullRepositoryTests | NpmCi | NpmLint | NpmBuild
    | Reverse | CleanRebuild1 | CleanRebuild2 | LogCanary | SbomReconcile

  /** REQUIRED_GATES, which is also the gate sequence. */
  const GATES: seq<Gate> := [
    MigrationReplay, TargetedTests, FullRepositoryTests, NpmCi, NpmLint, NpmBuild,
    Reverse, CleanRebuild1, CleanRebuild2, LogCanary, SbomReconcile]

  lemma {:induction false} GatesComplete(g: Gate)
    ensures g in GATES
  {
    var i := match g
      case MigrationReplay => 0
      case TargetedTests => 1
      case FullRepositoryTests => 2
      case NpmCi => 3
      case NpmLint => 4
      case NpmBuild => 5
      case Reverse => 6
      case CleanRebuild1 => 7
      case CleanRebuild2 => 8
      case LogCanary => 9
      case SbomReconcile => 10;
    assert GATES[i] == g;
  }

  /** Result names: most commands are named after their gate. */
  datatype Name = MigrationApply1 | MigrationApply2 | PgLiveVerifier | OfGate(gate: Gate) | FrozenBoundary

  datatype Pair = Pair(name: string, value: int)

  /** The matches of the fixed patterns: the F1_MIGRATE_OK count, the name=value pairs of each
      line, test and skip counts, rebuild, canary and inventory markers. */
  datatype Output = Output(
    migrateMarkers: nat, lines: seq<seq<Pair>>, testCounts: seq<nat>, skipCounts: seq<nat>,
    rebuildMarkers: seq<string>, canaryHits: seq<nat>, inventoryMarkers: seq<string>)

  const NO_MATCHES := Output(0, [], [], [], [], [], [])

  datatype ProcessResult = ProcessResult(exit: int, output: Output)

  type Results = seq<(Name, ProcessResult)>

  datatype Blocker =
    | GateRed(gate: Gate)
    | MigrationMarkerInvalid | PgLiveVerifierRed | TargetedTestContractRed | FullTestContractRed
    | ReverseMetricsRed | CleanRebuildMarkerRed | LogCanaryRed | RuntimeImageRed
    | CommandMissing(name: Name) | Isolation | SourceChanged | CheckoutChanged
    | CleanRebuildNondeterministic | GateSetIncomplete | CleanEvidenceRed(round: nat) | CleanEvidenceIncomplete
    | CleanProjectionRed | RuntimeInventoryRed
    | EvidenceSchemaInvalid | EvidenceForbiddenMaterial | EvidenceGatesInvalid | EvidenceGateUndeclared
    | GateMissing(gate: Gate) | GateExit(gate: Gate) | GateDigest(gate: Gate)
    | ReverseMetricsIncomplete | ReverseMetricNonzero | CleanRebuildDigest(gate: Gate) | SbomEvidenceDigestInvalid
    | OrchestratorRequired | InventoryUnavailable | SbomInventoryMismatch

  // ---------- metrics ----------

  predicate Mentions(line: seq<Pair>, expected: set<string>) {
    exists p | p in line :: p.name in expected
  }

  predicate DistinctNames(line: seq<Pair>) {
    forall i, j | 0 <= i < j < |line| :: line[i].name != line[j].name
  }

  function Names(line: seq<Pair>): set<string> {
    set p | p in line :: p.name
  }

  /** The line names each expected metric once, and nothing else. */
  predicate Exact(line: seq<Pair>, expected: set<string>) {
    DistinctNames(line) && Names(line) == expected
  }

  function MetricsOf(line: seq<Pair>): map<string, int> {
    if line == [] then map[] else map[line[0].name := line[0].value] + MetricsOf(line[1..])
  }

  /** The line has no name twice, and lists the expected names and no others. */
  ghost predicate ListsOnce(line: seq<Pair>, expected: set<string>) {
    && (forall k, l :: 0 <= k < l < |line| ==> line[k].name != line[l].name)
    && (forall k :: 0 <= k < |line| ==> line[k].name in expected)
    && (forall name :: name in expected ==> exists k :: 0 <= k < |line| && line[k].name == name)
  }

  ghost predicate Silent(line: seq<Pair>, expected: set<string>) {
    forall k :: 0 <= k < |line| ==> line[k].name !in expected
  }

  /** Line i lists each expected metric once, and no other line mentions any. */
  ghost predicate SoleMetricsLine(lines: seq<seq<Pair>>, expected: set<string>, i: nat) {
    && i < |lines| && lines[i] != [] && ListsOnce(lines[i], expected)
    && forall j :: 0 <= j < |lines| && j != i ==> Silent(lines[j], expected)
  }

  /** The metrics are the line's pairs, name by name. */
  ghost predicate Holds(metrics: map<string, int>, line: seq<Pair>) {
    && (forall k :: 0 <= k < |line| ==> line[k].name in metrics && metrics[line[k].name] == line[k].value)
    && (forall name :: name in metrics ==> exists k :: 0 <= k < |line| && line[k].name == name)
  }

  lemma {:induction false} ExactLists(line: seq<Pair>, expected: set<string>)
    ensures Mentions(line, expected) <==> !Silent(line, expected)
    ensures Mentions(line, expected) && Exact(line, expected) <==> line != [] && ListsOnce(line, expected)
  {
    if Mentions(line, expected) {
      var p :| p in line && p.name in expected;
      var k :| 0 <= k < |line| && line[k] == p;
    }
    if !Silent(line, expected) {
      var k :| 0 <= k < |line| && line[k].name in expected;
      assert line[k] in line;
    }
    if Exact(line, expected) {
      forall k | 0 <= k < |line| ensures line[k].name in expected {
        assert line[k] in line;
      }
      forall name | name in expected ensures exists k :: 0 <= k < |line| && line[k].name == name {
        var p :| p in line && p.name == name;
        var k :| 0 <= k < |line| && line[k] == p;
      }
    }
    if line != [] && ListsOnce(line, expected) {
      assert line[0] in line;
      forall name | name in expected ensures name in Names(line) {
        var k :| 0 <= k < |line| && line[k].name == name;
        assert line[k] in line;
      }
    }
  }

  lemma {:induction false} HoldsWith(metrics: map<string, int>, rest: seq<Pair>, p: Pair)
    requires Holds(metrics, rest) && forall k :: 0 <= k < |rest| ==> rest[k].name != p.name
    ensures Holds(map[p.name := p.value] + metrics, [p] + rest)
  {
    var line, all := [p] + rest, map[p.name := p.value] + metrics;
    assert line[0] == p && forall k :: 0 <= k < |rest| ==> line[k + 1] == rest[k];
    assert p.name !in metrics;
    forall k | 0 <= k < |line| ensures line[k].name in all && all[line[k].name] == line[k].value {
      if k > 0 {
        assert line[k] == rest[k - 1];
      }
    }
    forall name | name in all ensures exists k :: 0 <= k < |line| && line[k].name == name {
      if name in metrics {
        var k :| 0 <= k < |rest| && rest[k].name == name;
        assert line[k + 1].name == name;
      } else {
        assert line[0].name == name;
      }
    }
  }

  lemma {:induction false} MetricsHold(line: seq<Pair>)
    requires forall k, l :: 0 <= k < l < |line| ==> line[k].name != line[l].name
    ensures Holds(MetricsOf(line), line)
  {
    if line != [] {
      var rest := line[1..];
      assert line == [line[0]] + rest;
      MetricsHold(rest);
      HoldsWith(MetricsOf(rest), rest, line[0]);
    }
  }

  lemma {:induction false} HoldsExpected(metrics: map<string, int>, line: seq<Pair>, expected: set<string>)
    requires Holds(metrics, line) && ListsOnce(line, expected)
    ensures metrics.Keys == expected
    ensures AnyNonzero(metrics) <==> exists k :: 0 <= k < |line| && line[k].value != 0
  {
    if AnyNonzero(metrics) {
      var name :| name in metrics && metrics[name] != 0;
      var k :| 0 <= k < |line| && line[k].name == name;
    }
  }

  /** The loop over the lines: those that mention an expected name, none of which may be inexact. */
  method MentioningLines(lines: seq<seq<Pair>>, expected: set<string>) returns (r: Option<seq<nat>>)
    ensures r.None? <==> exists j :: 0 <= j < |lines| && Mentions(lines[j], expected) && !Exact(lines[j], expected)
    ensures r.Some? ==> forall k :: 0 <= k < |r.value| ==> r.value[k] < |lines| && Mentions(lines[r.value[k]], expected)
    ensures r.Some? ==> forall k, l :: 0 <= k < l < |r.value| ==> r.value[k] < r.value[l]
    ensures r.Some? ==> forall j :: 0 <= j < |lines| && Mentions(lines[j], expected) ==> j in r.value
  {
    var candidates: seq<nat> := [];
    var i := 0;
    while i < |lines|
      invariant 0 <= i <= |lines|
      invariant forall k :: 0 <= k < |candidates| ==> candidates[k] < i && Mentions(lines[candidates[k]], expected)
      invariant forall k, l :: 0 <= k < l < |candidates| ==> candidates[k] < candidates[l]
      invariant forall j :: 0 <= j < i && Mentions(lines[j], expected) ==> j in candidates && Exact(lines[j], expected)
    {
      var line := lines[i];
      if Mentions(line, expected) {
        if !DistinctNames(line) || Names(line) != expected {
          return None;
        }
        candidates := candidates + [i];
      }
      i := i + 1;
    }
    r := Some(candidates);
  }

  lemma {:induction false} SoleIsMentioning(lines: seq<seq<Pair>>, expected: set<string>, i: nat)
    ensures SoleMetricsLine(lines, expected, i) <==>
      && i < |lines| && Mentions(lines[i], expected) && Exact(lines[i], expected)
      && forall j :: 0 <= j < |lines| && j != i ==> !Mentions(lines[j], expected)
  {
    if i < |lines| {
      ExactLists(lines[i], expected);
    }
    forall j | 0 <= j < |lines| ensures Mentions(lines[j], expected) <==> !Silent(lines[j], expected) {
      ExactLists(lines[j], expected);
    }
  }

  /** _parse_exact_metrics (and parse_reverse_metrics, which differs in how it reports failure). */
  method ParseExactMetrics(lines: seq<seq<Pair>>, expected: set<string>) returns (r: Option<map<string, int>>)
    ensures r.Some? <==> exists i: nat :: SoleMetricsLine(lines, expected, i)
    ensures forall i: nat :: SoleMetricsLine(lines, expected, i) ==> r.Some? && Holds(r.value, lines[i])
  {
    forall i: nat
      ensures SoleMetricsLine(lines, expected, i) <==>
        && i < |lines| && Mentions(lines[i], expected) && Exact(lines[i], expected)
        && forall j :: 0 <= j < |lines| && j != i ==> !Mentions(lines[j], expected)
    {
      SoleIsMentioning(lines, expected, i);
    }
    var candidates := MentioningLines(lines, expected);
    if candidates.None? {
      return None;
    }
    if |candidates.value| == 1 {
      var only := candidates.value[0];
      assert SoleMetricsLine(lines, expected, only);
      MetricsHold(lines[only]);
      r := Some(MetricsOf(lines[only]));
    } else {
      forall k: nat ensures !SoleMetricsLine(lines, expected, k) {
        if |candidates.value| > 1 {
          assert Mentions(lines[candidates.value[0]], expected) && Mentions(lines[candidates.value[1]], expected);
        }
      }
      r := None;
    }
  }

  // ---------- gate records ----------

  const MIN_TARGETED_TESTS := 300
  const MIN_FULL_TESTS := 875
  const INVALID := "INVALID"

  /** PG_METRICS and REVERSE_METRICS. */
  datatype MetricNames = MetricNames(pg: set<string>, reverse: set<string>)

  /** outputSha256 is the digest of all the gate's normalised outputs. */
  datatype Record = Record(
    exit: int, outputSha256: string, metrics: Option<map<string, int>>, resultSha256: string, inventorySha256: string,
    runtimeInventorySha256: string)

  function ResultNamed(results: Results, name: Name): Option<ProcessResult> {
    if results == [] then None
    else if results[|results| - 1].0 == name then Some(results[|results| - 1].1)
    else ResultNamed(results[..|results| - 1], name)
  }

  function FirstFailure(results: Results): int {
    if results == [] then 127
    else if results[0].1.exit != 0 then results[0].1.exit
    else FirstFailure(results[1..])
  }

  predicate AllZero(results: Results) {
    forall i | 0 <= i < |results| :: results[i].1.exit == 0
  }

  lemma {:induction false} FirstFailureNonzero(results: Results)
    ensures FirstFailure(results) != 0
  {
    if results != [] {
      FirstFailureNonzero(results[1..]);
    }
  }

  /** _test_output_valid. */
  predicate TestOutputValid(o: Output, minimum: nat, expectedSkips: nat) {
    && |o.testCounts| == 1 && o.testCounts[0] >= minimum
    && ((|o.skipCounts| == 1 && o.skipCounts[0] == expectedSkips) || (o.skipCounts == [] && expectedSkips == 0))
  }

  /** The output has one exact metrics line, and every value on it is zero. */
  ghost predicate MetricsAllZero(o: Output, expected: set<string>) {
    exists i: nat :: SoleMetricsLine(o.lines, expected, i) && forall k :: 0 <= k < |o.lines[i]| ==> o.lines[i][k].value == 0
  }

  /** What the named output of a gate with a single command must show. */
  ghost predicate OwnOutputClean(names: MetricNames, g: Gate, o: Output) {
    match g
    case TargetedTests => TestOutputValid(o, MIN_TARGETED_TESTS, 0)
    case FullRepositoryTests => TestOutputValid(o, MIN_FULL_TESTS, 3)
    case Reverse => MetricsAllZero(o, names.reverse)
    case CleanRebuild1 => |o.rebuildMarkers| == 1
    case CleanRebuild2 => |o.rebuildMarkers| == 1
    case LogCanary => o.canaryHits == [0]
    case SbomReconcile => |o.inventoryMarkers| == 1 && IsHex64(o.inventoryMarkers[0])
    case _ => true
  }

  /** Both migrations announced themselves once and the database verifier reports all zeroes. */
  ghost predicate MigrationClean(names: MetricNames, results: Results) {
    && MarkedOnce(ResultNamed(results, MigrationApply1))
    && MarkedOnce(ResultNamed(results, MigrationApply2))
    && var pg := ResultNamed(results, PgLiveVerifier);
       pg.Some? && MetricsAllZero(pg.value.output, names.pg)
  }

  predicate MarkedOnce(r: Option<ProcessResult>) {
    r.Some? && r.value.output.migrateMarkers == 1
  }

  /** Lint, install and build are judged by their exit codes alone. */
  predicate ExitOnly(g: Gate) {
    g == NpmCi || g == NpmLint || g == NpmBuild
  }

  /** What each gate asks of its results. */
  ghost predicate GateClean(names: MetricNames, g: Gate, results: Results) {
    && results != [] && AllZero(results)
    && (g == MigrationReplay ==> MigrationClean(names, results))
    && (g != MigrationReplay && !ExitOnly(g) ==>
          var own := ResultNamed(results, OfGate(g));
          own.Some? && OwnOutputClean(names, g, own.value.output))
  }

  /** any(metrics.get(name) != 0 for name in expected), for metrics that name exactly those. */
  predicate AnyNonzero(metrics: map<string, int>) {
    exists name | name in metrics :: metrics[name] != 0
  }

  method CheckMetrics(o: Output, expected: set<string>) returns (metrics: Option<map<string, int>>, clean: bool)
    ensures clean <==> MetricsAllZero(o, expected)
    ensures metrics.Some? <==> exists i: nat :: SoleMetricsLine(o.lines, expected, i)
    ensures forall i: nat :: SoleMetricsLine(o.lines, expected, i) ==> metrics.Some? && Holds(metrics.value, o.lines[i])
    ensures metrics.Some? ==> metrics.value.Keys == expected && (clean <==> !AnyNonzero(metrics.value))
  {
    metrics := ParseExactMetrics(o.lines, expected);
    clean := metrics.Some? && !AnyNonzero(metrics.value);
    if metrics.Some? {
      ghost var i: nat :| SoleMetricsLine(o.lines, expected, i);
      HoldsExpected(metrics.value, o.lines[i], expected);
      forall j: nat | SoleMetricsLine(o.lines, expected, j) ensures j == i {
        OneSole(o.lines, expected, i, j);
      }
    }
  }

  lemma {:induction false} OneSole(lines: seq<seq<Pair>>, expected: set<string>, i: nat, j: nat)
    requires SoleMetricsLine(lines, expected, i) && SoleMetricsLine(lines, expected, j)
    ensures i == j
  {
    assert lines[i][0].name in expected;
  }

  /** The only rebuild marker printed, if there is exactly one. */
  function RebuildMarker(own: Option<ProcessResult>): (marker: string) {
    if own.Some? && |own.value.output.rebuildMarkers| == 1 then own.value.output.rebuildMarkers[0] else INVALID
  }

  /** The only inventory marker printed, if there is exactly one. */
  function InventoryMarker(own: Option<ProcessResult>): (marker: string) {
    if own.Some? && |own.value.output.inventoryMarkers| == 1 then own.value.output.inventoryMarkers[0] else INVALID
  }

  predicate HexOrInvalid(s: string) {
    IsHex64(s) || s == INVALID
  }

  /** A record holds no field of another gate, and no metric but those expected. */
  ghost predicate NothingElse(names: MetricNames, g: Gate, record: Record) {
    && (g != Reverse ==> record.metrics.None?)
    && (record.metrics.Some? ==> record.metrics.value.Keys <= names.reverse)
    && (!IsRebuild(g) ==> record.resultSha256 == INVALID)
    && (g != SbomReconcile ==> record.inventorySha256 == INVALID && record.runtimeInventorySha256 == INVALID)
  }

  /** What a gate record and its blockers say about the gate's results. */
  ghost predicate IsRecord(names: MetricNames, g: Gate, results: Results, outputSha256: string,
                           inventorySha256: string, record: Record, blockers: set<Blocker>) {
    && record.outputSha256 == outputSha256
    && (record.exit == 0 <==> blockers == {})
    && (blockers == {} <==> GateClean(names, g, results))
    && (results == [] || !AllZero(results) ==> GateRed(g) in blockers)
    && (g == Reverse ==> record.metrics.Some?)
    && (g == Reverse && blockers == {} ==> record.metrics.value.Keys == names.reverse && !AnyNonzero(record.metrics.value))
    && (g == CleanRebuild1 || g == CleanRebuild2 ==> record.resultSha256 == RebuildMarker(ResultNamed(results, OfGate(g))))
    && (g == SbomReconcile ==> record.inventorySha256 == inventorySha256)
    && (g == SbomReconcile ==> record.runtimeInventorySha256 == InventoryMarker(ResultNamed(results, OfGate(g))))
    && NothingElse(names, g, record)
    && (g == SbomReconcile && blockers == {} ==> IsHex64(record.runtimeInventorySha256))
  }

  /** The exit code of a record: the first one that is not zero, 127 where nothing ran, and otherwise
      2 if there is a blocker. */
  ghost predicate RecordedExit(results: Results, exit: int, blockers: set<Blocker>) {
    && (results == [] ==> exit == 127)
    && (results != [] && (forall i :: 0 <= i < |results| ==> results[i].1.exit == 0) ==> exit == if blockers == {} then 0 else 2)
    && (forall i :: 0 <= i < |results| && results[i].1.exit != 0 && (forall j :: 0 <= j < i ==> results[j].1.exit == 0) ==>
          exit == results[i].1.exit)
  }

  lemma {:induction false} FirstFailureIsFirst(results: Results)
    ensures AllZero(results) ==> FirstFailure(results) == 127
    ensures forall i :: 0 <= i < |results| && results[i].1.exit != 0 && (forall j :: 0 <= j < i ==> results[j].1.exit == 0) ==>
      FirstFailure(results) == results[i].1.exit
  {
    if results != [] && results[0].1.exit == 0 {
      FirstFailureIsFirst(results[1..]);
      assert forall i :: 0 < i < |results| ==> results[1..][i - 1] == results[i];
    }
  }

  /** What the metrics of a reverse record hold: the pairs of the one exact line, or nothing. */
  ghost predicate RecordedMetrics(names: MetricNames, own: Option<ProcessResult>, metrics: map<string, int>) {
    && (own.None? || (forall i: nat :: !SoleMetricsLine(own.value.output.lines, names.reverse, i)) ==> metrics == map[])
    && (own.Some? ==>
          forall i: nat :: SoleMetricsLine(own.value.output.lines, names.reverse, i) ==> Holds(metrics, own.value.output.lines[i]))
  }

  /** The gate has no result of its own, or one that does not hold what the gate asks for. */
  ghost predicate OwnRed(names: MetricNames, g: Gate, results: Results) {
    var own := ResultNamed(results, OfGate(g));
    own.None? || !OwnOutputClean(names, g, own.value.output)
  }

  ghost predicate VerifierRed(names: MetricNames, results: Results) {
    var pg := ResultNamed(results, PgLiveVerifier);
    pg.None? || !MetricsAllZero(pg.value.output, names.pg)
  }

  predicate BothMarked(results: Results) {
    MarkedOnce(ResultNamed(results, MigrationApply1)) && MarkedOnce(ResultNamed(results, MigrationApply2))
  }

  /** When a gate raises a blocker. */
  ghost predicate Raises(names: MetricNames, g: Gate, results: Results, b: Blocker) {
    match b
    case GateRed(gate) => gate == g && (results == [] || exists i :: 0 <= i < |results| && results[i].1.exit != 0)
    case MigrationMarkerInvalid => g == MigrationReplay && !BothMarked(results)
    case PgLiveVerifierRed => g == MigrationReplay && VerifierRed(names, results)
    case TargetedTestContractRed => g == TargetedTests && OwnRed(names, g, results)
    case FullTestContractRed => g == FullRepositoryTests && OwnRed(names, g, results)
    case ReverseMetricsRed => g == Reverse && OwnRed(names, g, results)
    case CleanRebuildMarkerRed => IsRebuild(g) && OwnRed(names, g, results)
    case LogCanaryRed => g == LogCanary && OwnRed(names, g, results)
    case RuntimeImageRed => g == SbomReconcile && OwnRed(names, g, results)
    case _ => false
  }

  /** The blocker of a gate whose own output is not what it asks for. */
  function OwnCode(g: Gate): set<Blocker> {
    match g
    case TargetedTests => {TargetedTestContractRed}
    case FullRepositoryTests => {FullTestContractRed}
    case Reverse => {ReverseMetricsRed}
    case CleanRebuild1 => {CleanRebuildMarkerRed}
    case CleanRebuild2 => {CleanRebuildMarkerRed}
    case LogCanary => {LogCanaryRed}
    case SbomReconcile => {RuntimeImageRed}
    case _ => {}
  }

  ghost function OutputBlockers(names: MetricNames, g: Gate, results: Results): set<Blocker> {
    if g == MigrationReplay then
      (if BothMarked(results) then {} else {MigrationMarkerInvalid})
      + (if VerifierRed(names, results) then {PgLiveVerifierRed} else {})
    else if OwnRed(names, g, results) then OwnCode(g)
    else {}
  }

  ghost function RecordBlockers(names: MetricNames, g: Gate, results: Results): set<Blocker> {
    (if results != [] && AllZero(results) then {} else {GateRed(g)}) + OutputBlockers(names, g, results)
  }

  lemma {:induction false} OutputRaises(names: MetricNames, g: Gate, results: Results, b: Blocker)
    ensures b in OutputBlockers(names, g, results) <==> !b.GateRed? && Raises(names, g, results, b)
  {
  }

  /** The blockers of a record, one by one. */
  lemma {:induction false} RecordRaises(names: MetricNames, g: Gate, results: Results, b: Blocker)
    ensures b in RecordBlockers(names, g, results) <==> Raises(names, g, results, b)
  {
    OutputRaises(names, g, results, b);
  }

  /** _gate_record: the record's exit is zero exactly when the gate has no blocker of its own,
      and that is exactly when its results are what the gate asks for. */
  method GateRecord(names: MetricNames, g: Gate, results: Results, outputSha256: string, inventorySha256: string)
    returns (record: Record, blockers: set<Blocker>)
    ensures IsRecord(names, g, results, outputSha256, inventorySha256, record, blockers)
    ensures blockers == RecordBlockers(names, g, results)
    ensures RecordedExit(results, record.exit, blockers)
    ensures g == Reverse ==> RecordedMetrics(names, ResultNamed(results, OfGate(g)), record.metrics.value)
  {
    FirstFailureIsFirst(results);
    blockers := {};
    var exit := 0;
    if results == [] || !AllZero(results) {
      FirstFailureNonzero(results);
      exit := FirstFailure(results);
      blockers := blockers + {GateRed(g)};
    }
    record := Record(exit, outputSha256, None, INVALID, INVALID, INVALID);
    var own := ResultNamed(results, OfGate(g));
    match g {
      case MigrationReplay =>
        blockers := MigrationBlockers(names, results, blockers);
      case TargetedTests =>
        if own.None? || !TestOutputValid(own.value.output, MIN_TARGETED_TESTS, 0) {
          blockers := blockers + {TargetedTestContractRed};
        }
      case FullRepositoryTests =>
        if own.None? || !TestOutputValid(own.value.output, MIN_FULL_TESTS, 3) {
          blockers := blockers + {FullTestContractRed};
        }
      case Reverse =>
        var metrics, clean := None, false;
        if own.Some? {
          metrics, clean := CheckMetrics(own.value.output, names.reverse);
        }
        record := record.(metrics := Some(if metrics.Some? then metrics.value else map[]));
        if !clean {
          blockers := blockers + {ReverseMetricsRed};
        }
      case CleanRebuild1 =>
        record, blockers := RebuildRecord(own, record, blockers);
      case CleanRebuild2 =>
        record, blockers := RebuildRecord(own, record, blockers);
      case LogCanary =>
        if own.None? || own.value.output.canaryHits != [0] {
          blockers := blockers + {LogCanaryRed};
        }
      case SbomReconcile =>
        var value := InventoryMarker(own);
        record := record.(inventorySha256 := inventorySha256, runtimeInventorySha256 := value);
        if !IsHex64(value) {
          blockers := blockers + {RuntimeImageRed};
        }
      case _ =>
    }
    if blockers != {} {
      record := record.(exit := if record.exit == 0 then 2 else record.exit);
    }
  }

  method MigrationBlockers(names: MetricNames, results: Results, before: set<Blocker>) returns (blockers: set<Blocker>)
    ensures blockers == before + (if BothMarked(results) then {} else {MigrationMarkerInvalid})
                               + (if VerifierRed(names, results) then {PgLiveVerifierRed} else {})
  {
    blockers := before;
    if !MarkedOnce(ResultNamed(results, MigrationApply1)) {
      blockers := blockers + {MigrationMarkerInvalid};
    }
    if !MarkedOnce(ResultNamed(results, MigrationApply2)) {
      blockers := blockers + {MigrationMarkerInvalid};
    }
    var pg := ResultNamed(results, PgLiveVerifier);
    var clean := false;
    if pg.Some? {
      var metrics;
      metrics, clean := CheckMetrics(pg.value.output, names.pg);
    }
    if !clean {
      blockers := blockers + {PgLiveVerifierRed};
    }
  }

  method RebuildRecord(own: Option<ProcessResult>, record: Record, blockers: set<Blocker>)
    returns (record': Record, blockers': set<Blocker>)
    ensures record' == record.(resultSha256 := RebuildMarker(own))
    ensures blockers' == blockers + (if own.Some? && |own.value.output.rebuildMarkers| == 1 then {} else {CleanRebuildMarkerRed})
  {
    if own.Some? && |own.value.output.rebuildMarkers| == 1 {
      record', blockers' := record.(resultSha256 := own.value.output.rebuildMarkers[0]), blockers;
    } else {
      record', blockers' := record.(resultSha256 := INVALID), blockers + {CleanRebuildMarkerRed};
    }
  }

  // ---------- the evidence summary ----------

  datatype Key = Declared(gate: Gate) | Undeclared(name: string)

  /** A gate's entry in the evidence: None where the field is missing or of the wrong type. */
  datatype Entry =
    | NotAnObject
    | Entry(exit: Option<int>, digest: Option<string>, metrics: Option<map<string, Option<int>>>,
            resultSha256: Option<string>, inventorySha256: Option<string>)

  /** NoEvidence: not an object, or another schema. forbidden is _forbidden_material's answer;
      gates is None when the field holds something that is not an object. */
  datatype Evidence = NoEvidence | Evidence(forbidden: bool, gates: Option<map<Key, Entry>>)

  datatype Line = Line(exit: int, digest: string, metricCount: int, metricNonzero: int,
                       resultSha256: string, inventorySha256: string)

  predicate Hex64(s: Option<string>) {
    s.Some? && IsHex64(s.value)
  }

  function Normal(s: Option<string>): string {
    if Hex64(s) then s.value else INVALID
  }

  lemma {:induction false} NormalHex(s: Option<string>)
    ensures Hex64(s) <==> Normal(s) != INVALID
    ensures !Hex64(s) || |Normal(s)| == 64
  {
    assert |INVALID| == 7;
  }

  predicate IsRebuild(g: Gate) {
    g == CleanRebuild1 || g == CleanRebuild2
  }

  predicate AllMetricsZero(metrics: Option<map<string, Option<int>>>, expected: set<string>) {
    metrics.Some? && metrics.value.Keys == expected && forall name | name in expected :: metrics.value[name] == Some(0)
  }

  /** What the evidence must say about a gate. */
  predicate EntryClean(names: MetricNames, g: Gate, e: Option<Entry>) {
    && e.Some? && e.value.Entry? && e.value.exit == Some(0) && Hex64(e.value.digest)
    && (g == Reverse ==> AllMetricsZero(e.value.metrics, names.reverse))
    && (IsRebuild(g) ==> Hex64(e.value.resultSha256))
    && (g == SbomReconcile ==> Hex64(e.value.inventorySha256))
  }

  predicate Present(e: Option<Entry>) {
    e.Some? && e.value.Entry?
  }

  predicate NamesExactly(metrics: Option<map<string, Option<int>>>, expected: set<string>) {
    metrics.Some? && metrics.value.Keys == expected
  }

  /** How many of the expected metrics are not zero; -1 where the names are not the expected ones. */
  function NonzeroCount(metrics: Option<map<string, Option<int>>>, expected: set<string>): int {
    if NamesExactly(metrics, expected) then |set name | name in expected && metrics.value[name] != Some(0)| else -1
  }

  method SummarizeMetrics(expected: set<string>, metrics: Option<map<string, Option<int>>>)
    returns (count: int, nonzero: int, blockers: set<Blocker>)
    ensures blockers == {} <==> AllMetricsZero(metrics, expected)
    ensures count == if metrics.Some? then |metrics.value| else 0
    ensures nonzero == NonzeroCount(metrics, expected)
    ensures blockers == MetricBlockers(metrics, expected)
  {
    NothingNonzero(metrics, expected);
    count := if metrics.Some? then |metrics.value| else 0;
    if metrics.None? || metrics.value.Keys != expected {
      return count, -1, {ReverseMetricsIncomplete};
    }
    var bad := set name | name in expected && metrics.value[name] != Some(0);
    nonzero := |bad|;
    blockers := if nonzero == 0 then {} else {ReverseMetricNonzero};
  }

  /** What the summary publishes in place of a digest: nothing for an absent gate. */
  function Shown(e: Option<Entry>, s: Option<string>): string {
    if Present(e) then Normal(s) else ""
  }

  function RebuildOf(e: Option<Entry>): Option<string> {
    if Present(e) then e.value.resultSha256 else None
  }

  function InventoryOf(e: Option<Entry>): Option<string> {
    if Present(e) then e.value.inventorySha256 else None
  }

  /** What a line of the summary shows of the entry. */
  predicate LineFor(g: Gate, e: Option<Entry>, line: Line) {
    && line.digest == (if Present(e) then Normal(e.value.digest) else INVALID)
    && (IsRebuild(g) ==> line.resultSha256 == Shown(e, RebuildOf(e)))
    && (g == SbomReconcile ==> line.inventorySha256 == Shown(e, InventoryOf(e)))
  }

  /** The numbers of a line. */
  predicate MeasuresFor(names: MetricNames, g: Gate, e: Entry, line: Line)
    requires e.Entry?
  {
    && line.exit == (if e.exit.Some? then e.exit.value else -1)
    && (g == Reverse ==>
          line.metricCount == (if e.metrics.Some? then |e.metrics.value| else 0)
          && line.metricNonzero == NonzeroCount(e.metrics, names.reverse))
  }

  predicate LineIs(names: MetricNames, g: Gate, e: Option<Entry>, line: Line) {
    LineFor(g, e, line) && (Present(e) ==> MeasuresFor(names, g, e.value, line))
  }

  /** A gate that is there shows a digest, or the word INVALID, wherever it names one. */
  predicate ShowsDigests(g: Gate, line: Line) {
    && HexOrInvalid(line.digest)
    && (IsRebuild(g) ==> HexOrInvalid(line.resultSha256)) && (g == SbomReconcile ==> HexOrInvalid(line.inventorySha256))
  }

  lemma {:induction false} PresentShows(g: Gate, e: Option<Entry>, line: Line)
    requires LineFor(g, e, line) && Present(e)
    ensures ShowsDigests(g, line)
  {
  }

  lemma {:induction false} NothingNonzero(metrics: Option<map<string, Option<int>>>, expected: set<string>)
    ensures NonzeroCount(metrics, expected) == 0 <==> AllMetricsZero(metrics, expected)
    ensures NonzeroCount(metrics, expected) < 0 <==> !NamesExactly(metrics, expected)
  {
    if NamesExactly(metrics, expected) {
      var bad := set name | name in expected && metrics.value[name] != Some(0);
      if bad == {} {
        forall name | name in expected ensures metrics.value[name] == Some(0) {
          assert name !in bad;
        }
      } else {
        var name :| name in bad;
        assert metrics.value[name] != Some(0);
      }
    }
  }

  /** That blocker, where there is cause. */
  function When(cause: bool, b: Blocker): set<Blocker> {
    if cause then {b} else {}
  }

  function MetricBlockers(metrics: Option<map<string, Option<int>>>, expected: set<string>): set<Blocker> {
    When(!NamesExactly(metrics, expected), ReverseMetricsIncomplete)
    + When(NamesExactly(metrics, expected) && !AllMetricsZero(metrics, expected), ReverseMetricNonzero)
  }

  /** The blockers of an entry that is there: for its exit, its digest, and what its gate asks for. */
  function OwnBlockers(names: MetricNames, g: Gate, e: Entry): set<Blocker>
    requires e.Entry?
  {
    When(e.exit != Some(0), GateExit(g)) + When(!Hex64(e.digest), GateDigest(g))
    + (if g == Reverse then MetricBlockers(e.metrics, names.reverse) else {})
    + When(IsRebuild(g) && !Hex64(e.resultSha256), CleanRebuildDigest(g))
    + When(g == SbomReconcile && !Hex64(e.inventorySha256), SbomEvidenceDigestInvalid)
  }

  function EntryBlockers(names: MetricNames, g: Gate, e: Option<Entry>): set<Blocker> {
    if Present(e) then OwnBlockers(names, g, e.value) else {GateMissing(g)}
  }

  lemma {:induction false} EntryBlockersNone(names: MetricNames, g: Gate, e: Option<Entry>)
    ensures EntryBlockers(names, g, e) == {} <==> EntryClean(names, g, e)
  {
    if Present(e) {
      var own := OwnBlockers(names, g, e.value);
      assert e.value.exit != Some(0) ==> GateExit(g) in own;
      assert !Hex64(e.value.digest) ==> GateDigest(g) in own;
      assert g == Reverse ==> MetricBlockers(e.value.metrics, names.reverse) <= own;
      assert IsRebuild(g) && !Hex64(e.value.resultSha256) ==> CleanRebuildDigest(g) in own;
      assert g == SbomReconcile && !Hex64(e.value.inventorySha256) ==> SbomEvidenceDigestInvalid in own;
    } else {
      assert GateMissing(g) in EntryBlockers(names, g, e);
    }
  }

  method SummarizeGate(names: MetricNames, g: Gate, e: Option<Entry>) returns (line: Line, blockers: set<Blocker>)
    ensures blockers == {} <==> EntryClean(names, g, e)
    ensures blockers == EntryBlockers(names, g, e)
    ensures LineIs(names, g, e, line)
  {
    EntryBlockersNone(names, g, e);
    if e.None? || e.value.NotAnObject? {
      return Line(-1, INVALID, 0, 0, "", ""), {GateMissing(g)};
    }
    line, blockers := SummarizeEntry(names, g, e.value);
  }

  method SummarizeEntry(names: MetricNames, g: Gate, entry: Entry) returns (line: Line, blockers: set<Blocker>)
    requires entry.Entry?
    ensures blockers == OwnBlockers(names, g, entry)
    ensures LineIs(names, g, Some(entry), line)
  {
    line := Line(if entry.exit.Some? then entry.exit.value else -1, Normal(entry.digest), 0, 0, "", "");
    blockers := SummarizeExit(g, entry);
    line, blockers := SummarizeReverse(names, g, entry, line, blockers);
    line, blockers := SummarizeDigests(g, entry, line, blockers);
  }

  method SummarizeExit(g: Gate, entry: Entry) returns (blockers: set<Blocker>)
    requires entry.Entry?
    ensures blockers == When(entry.exit != Some(0), GateExit(g)) + When(!Hex64(entry.digest), GateDigest(g))
  {
    blockers := {};
    if entry.exit != Some(0) {
      blockers := blockers + {GateExit(g)};
    }
    if !Hex64(entry.digest) {
      blockers := blockers + {GateDigest(g)};
    }
  }

  /** The metrics of the reverse gate. */
  method SummarizeReverse(names: MetricNames, g: Gate, entry: Entry, line: Line, before: set<Blocker>)
    returns (line': Line, blockers: set<Blocker>)
    requires entry.Entry?
    ensures g != Reverse ==> line' == line
    ensures g == Reverse ==>
      line' == line.(metricCount := if entry.metrics.Some? then |entry.metrics.value| else 0,
                     metricNonzero := NonzeroCount(entry.metrics, names.reverse))
    ensures blockers == before + (if g == Reverse then MetricBlockers(entry.metrics, names.reverse) else {})
  {
    line', blockers := line, before;
    if g == Reverse {
      var count, nonzero, own := SummarizeMetrics(names.reverse, entry.metrics);
      line' := line'.(metricCount := count, metricNonzero := nonzero);
      blockers := blockers + own;
    }
  }

  /** The digests that a rebuild and the bill of materials name. */
  method SummarizeDigests(g: Gate, entry: Entry, line: Line, before: set<Blocker>) returns (line': Line, blockers: set<Blocker>)
    requires entry.Entry?
    ensures line' == line.(resultSha256 := if IsRebuild(g) then Normal(entry.resultSha256) else line.resultSha256,
                           inventorySha256 := if g == SbomReconcile then Normal(entry.inventorySha256) else line.inventorySha256)
    ensures blockers == before + When(IsRebuild(g) && !Hex64(entry.resultSha256), CleanRebuildDigest(g))
                               + When(g == SbomReconcile && !Hex64(entry.inventorySha256), SbomEvidenceDigestInvalid)
  {
    line', blockers := line, before;
    if IsRebuild(g) {
      line' := line'.(resultSha256 := Normal(entry.resultSha256));
      if !Hex64(entry.resultSha256) {
        blockers := blockers + {CleanRebuildDigest(g)};
      }
    }
    if g == SbomReconcile {
      line' := line'.(inventorySha256 := Normal(entry.inventorySha256));
      if !Hex64(entry.inventorySha256) {
        blockers := blockers + {SbomEvidenceDigestInvalid};
      }
    }
  }

  function GatesOf(e: Evidence): map<Key, Entry> {
    if e.NoEvidence? || e.gates.None? then map[] else e.gates.value
  }

  function EntryOf(e: Evidence, g: Gate): Option<Entry> {
    if Declared(g) in GatesOf(e) then Some(GatesOf(e)[Declared(g)]) else None
  }

  predicate OnlyDeclared(gates: map<Key, Entry>) {
    forall k | k in gates :: k.Declared?
  }

  /** Everything _evidence_summary asks for. */
  predicate EvidenceClean(names: MetricNames, e: Evidence) {
    && EvidenceShaped(e)
    && (forall g: Gate :: EntryClean(names, g, EntryOf(e, g)))
    && RebuildsAgree(EntryOf(e, CleanRebuild1), EntryOf(e, CleanRebuild2))
  }

  /** The blockers of these gates' entries. */
  function GatesBlockers(names: MetricNames, e: Evidence, sequence: seq<Gate>): set<Blocker> {
    if sequence == [] then {}
    else
      var n := |sequence| - 1;
      GatesBlockers(names, e, sequence[..n]) + EntryBlockers(names, sequence[n], EntryOf(e, sequence[n]))
  }

  lemma {:induction false} MissingIn(names: MetricNames, g: Gate, e: Option<Entry>, k: Gate)
    ensures GateMissing(k) in EntryBlockers(names, g, e) <==> k == g && !Present(e)
  {
  }

  lemma {:induction false} ExitIn(names: MetricNames, g: Gate, e: Option<Entry>, k: Gate)
    ensures GateExit(k) in EntryBlockers(names, g, e) <==> k == g && Present(e) && e.value.exit != Some(0)
  {
  }

  lemma {:induction false} RebuildsNotIn(names: MetricNames, g: Gate, e: Option<Entry>)
    ensures CleanRebuildNondeterministic !in EntryBlockers(names, g, e)
  {
  }

  lemma {:induction false} GatesShow(names: MetricNames, e: Evidence, sequence: seq<Gate>)
    ensures var blockers := GatesBlockers(names, e, sequence);
      && (blockers == {} <==> forall g :: g in sequence ==> EntryClean(names, g, EntryOf(e, g)))
      && CleanRebuildNondeterministic !in blockers
      && (forall g :: GateMissing(g) in blockers <==> g in sequence && !Present(EntryOf(e, g)))
      && (forall g :: GateExit(g) in blockers <==> g in sequence && Present(EntryOf(e, g)) && EntryOf(e, g).value.exit != Some(0))
  {
    if sequence != [] {
      var n := |sequence| - 1;
      GatesShow(names, e, sequence[..n]);
      EntryBlockersNone(names, sequence[n], EntryOf(e, sequence[n]));
      RebuildsNotIn(names, sequence[n], EntryOf(e, sequence[n]));
      var own := EntryBlockers(names, sequence[n], EntryOf(e, sequence[n]));
      forall g ensures GateMissing(g) in own <==> g == sequence[n] && !Present(EntryOf(e, g)) {
        MissingIn(names, sequence[n], EntryOf(e, sequence[n]), g);
      }
      forall g ensures GateExit(g) in own <==> g == sequence[n] && Present(EntryOf(e, g)) && EntryOf(e, g).value.exit != Some(0) {
        ExitIn(names, sequence[n], EntryOf(e, sequence[n]), g);
      }
      assert sequence == sequence[..n] + [sequence[n]];
    }
  }

  lemma {:induction false} GatesStep(names: MetricNames, e: Evidence, sequence: seq<Gate>, i: nat)
    requires i < |sequence|
    ensures GatesBlockers(names, e, sequence[..i + 1])
         == GatesBlockers(names, e, sequence[..i]) + EntryBlockers(names, sequence[i], EntryOf(e, sequence[i]))
    ensures forall g :: g in sequence[..i + 1] <==> g in sequence[..i] || g == sequence[i]
  {
    assert sequence[..i + 1] == sequence[..i] + [sequence[i]];
    assert sequence[..i + 1][..i] == sequence[..i];
  }

  method SummarizeGates(names: MetricNames, e: Evidence, sequence: seq<Gate>)
    returns (summary: map<Gate, Line>, blockers: set<Blocker>)
    ensures blockers == GatesBlockers(names, e, sequence)
    ensures forall g :: g in summary <==> g in sequence
    ensures forall g :: g in summary ==> LineIs(names, g, EntryOf(e, g), summary[g])
  {
    blockers := {};
    summary := map[];
    var i := 0;
    while i < |sequence|
      invariant 0 <= i <= |sequence|
      invariant blockers == GatesBlockers(names, e, sequence[..i])
      invariant forall g :: g in summary <==> g in sequence[..i]
      invariant forall g :: g in summary ==> LineIs(names, g, EntryOf(e, g), summary[g])
    {
      var line, own := SummarizeGate(names, sequence[i], EntryOf(e, sequence[i]));
      GatesStep(names, e, sequence, i);
      blockers := blockers + own;
      summary := summary[sequence[i] := line];
      i := i + 1;
    }
    assert sequence[..i] == sequence;
  }

  /** An object of the right schema, without forbidden material, naming declared gates only. */
  predicate EvidenceShaped(e: Evidence) {
    e.Evidence? && !e.forbidden && e.gates.Some? && OnlyDeclared(e.gates.value)
  }

  function ShapeOf(e: Evidence): set<Blocker> {
    (if e.NoEvidence? then {EvidenceSchemaInvalid} else {})
    + (if e.Evidence? && e.forbidden then {EvidenceForbiddenMaterial} else {})
    + (if e.Evidence? && e.gates.None? then {EvidenceGatesInvalid} else {})
    + (if OnlyDeclared(GatesOf(e)) then {} else {EvidenceGateUndeclared})
  }

  function RebuildsOf(e: Evidence): set<Blocker> {
    if RebuildsAgree(EntryOf(e, CleanRebuild1), EntryOf(e, CleanRebuild2)) then {} else {CleanRebuildNondeterministic}
  }

  /** All blockers of the evidence: of its shape, of each gate, and of the two rebuilds. */
  function SummaryBlockers(names: MetricNames, e: Evidence): set<Blocker> {
    ShapeOf(e) + GatesBlockers(names, e, GATES) + RebuildsOf(e)
  }

  lemma {:induction false} ShapeNone(e: Evidence)
    ensures ShapeOf(e) == {} <==> EvidenceShaped(e)
  {
    assert e.NoEvidence? ==> EvidenceSchemaInvalid in ShapeOf(e);
    assert e.Evidence? && e.forbidden ==> EvidenceForbiddenMaterial in ShapeOf(e);
    assert e.Evidence? && e.gates.None? ==> EvidenceGatesInvalid in ShapeOf(e);
    assert !OnlyDeclared(GatesOf(e)) ==> EvidenceGateUndeclared in ShapeOf(e);
  }

  method ShapeBlockers(e: Evidence) returns (blockers: set<Blocker>)
    ensures blockers == ShapeOf(e)
  {
    blockers := {};
    if e.NoEvidence? {
      blockers := blockers + {EvidenceSchemaInvalid};
    } else {
      if e.forbidden {
        blockers := blockers + {EvidenceForbiddenMaterial};
      }
      if e.gates.None? {
        blockers := blockers + {EvidenceGatesInvalid};
      }
    }
    if !OnlyDeclared(GatesOf(e)) {
      blockers := blockers + {EvidenceGateUndeclared};
    }
  }

  method RebuildBlockers(e: Evidence, first: Line, second: Line) returns (blockers: set<Blocker>)
    requires LineFor(CleanRebuild1, EntryOf(e, CleanRebuild1), first) && LineFor(CleanRebuild2, EntryOf(e, CleanRebuild2), second)
    ensures blockers == RebuildsOf(e)
  {
    LinesAgree(EntryOf(e, CleanRebuild1), EntryOf(e, CleanRebuild2), first, second);
    blockers := if SameResult(first.resultSha256, second.resultSha256) then {} else {CleanRebuildNondeterministic};
  }

  lemma {:induction false} SummaryShows(names: MetricNames, e: Evidence)
    ensures var blockers := SummaryBlockers(names, e);
      && (blockers == {} <==> EvidenceClean(names, e))
      && (forall g :: GateMissing(g) in blockers <==> !Present(EntryOf(e, g)))
      && (forall g :: GateExit(g) in blockers <==> Present(EntryOf(e, g)) && EntryOf(e, g).value.exit != Some(0))
      && (CleanRebuildNondeterministic in blockers <==> !RebuildsAgree(EntryOf(e, CleanRebuild1), EntryOf(e, CleanRebuild2)))
  {
    ShapeNone(e);
    GatesShow(names, e, GATES);
    GatesCompleteAll();
    assert SummaryBlockers(names, e) == {} <==> ShapeOf(e) == {} && GatesBlockers(names, e, GATES) == {} && RebuildsOf(e) == {};
  }

  /** _evidence_summary. */
  method EvidenceSummary(names: MetricNames, e: Evidence) returns (summary: map<Gate, Line>, blockers: set<Blocker>)
    ensures blockers == SummaryBlockers(names, e)
    ensures blockers == {} <==> EvidenceClean(names, e)
    ensures forall g :: g in summary
    ensures forall g :: GateMissing(g) in blockers <==> !Present(EntryOf(e, g))
    ensures forall g :: GateExit(g) in blockers <==> Present(EntryOf(e, g)) && EntryOf(e, g).value.exit != Some(0)
    ensures CleanRebuildNondeterministic in blockers <==> !RebuildsAgree(EntryOf(e, CleanRebuild1), EntryOf(e, CleanRebuild2))
    ensures forall g :: LineIs(names, g, EntryOf(e, g), summary[g])
  {
    SummaryShows(names, e);
    GatesCompleteAll();
    var shape := ShapeBlockers(e);
    summary, blockers := SummarizeGates(names, e, GATES);
    var rebuilds := RebuildBlockers(e, summary[CleanRebuild1], summary[CleanRebuild2]);
    blockers := shape + blockers + rebuilds;
  }

  lemma {:induction false} GatesCompleteAll()
    ensures forall g: Gate :: g in GATES
  {
    forall g: Gate ensures g in GATES {
      GatesComplete(g);
    }
  }

  predicate SameResult(first: string, second: string) {
    first != INVALID && second != INVALID && first == second
  }

  /** The nondeterminism test on the summary: two absent rebuilds count as equal there, and the
      missing gates are blockers of their own. */
  predicate RebuildsAgree(a: Option<Entry>, b: Option<Entry>) {
    if Present(a) && Present(b) then Hex64(RebuildOf(a)) && RebuildOf(a) == RebuildOf(b)
    else !Present(a) && !Present(b)
  }

  lemma {:induction false} ShownAgree(a: Option<Entry>, b: Option<Entry>)
    ensures RebuildsAgree(a, b) <==> SameResult(Shown(a, RebuildOf(a)), Shown(b, RebuildOf(b)))
  {
    NormalHex(RebuildOf(a));
    NormalHex(RebuildOf(b));
    assert |INVALID| == 7;
  }

  lemma {:induction false} LinesAgree(a: Option<Entry>, b: Option<Entry>, first: Line, second: Line)
    requires LineFor(CleanRebuild1, a, first) && LineFor(CleanRebuild2, b, second)
    ensures SameResult(first.resultSha256, second.resultSha256) <==> RebuildsAgree(a, b)
  {
    ShownAgree(a, b);
  }

  // ---------- one verdict from the layers ----------

  /** A record as the evidence reads it. */
  function AsEntry(g: Gate, r: Record): Entry {
    Entry(Some(r.exit), Some(r.outputSha256),
          if r.metrics.Some? then Some(map name | name in r.metrics.value :: Some(r.metrics.value[name])) else None,
          if IsRebuild(g) then Some(r.resultSha256) else None,
          if g == SbomReconcile then Some(r.inventorySha256) else None)
  }

  function EvidenceOf(records: map<Gate, Record>): Evidence {
    Evidence(false, Some(map g | g in records :: Declared(g) := AsEntry(g, records[g])))
  }

  /** The patterns for digests only match 64 hexadecimal digits. */
  predicate HexMarkers(o: Output) {
    && (forall j :: 0 <= j < |o.rebuildMarkers| ==> IsHex64(o.rebuildMarkers[j]))
    && (forall j :: 0 <= j < |o.inventoryMarkers| ==> IsHex64(o.inventoryMarkers[j]))
  }

  predicate MarkersHex(results: Results) {
    forall i :: 0 <= i < |results| ==> HexMarkers(results[i].1.output)
  }

  lemma {:induction false} MarkerOfResult(results: Results, name: Name)
    requires MarkersHex(results)
    ensures var own := ResultNamed(results, name);
      && (own.Some? && |own.value.output.rebuildMarkers| == 1 ==> IsHex64(RebuildMarker(own)))
      && (RebuildMarker(own) != INVALID ==> own.Some? && |own.value.output.rebuildMarkers| == 1)
      && HexOrInvalid(RebuildMarker(own)) && HexOrInvalid(InventoryMarker(own))
  {
    if results != [] {
      assert HexMarkers(results[|results| - 1].1.output);
      if results[|results| - 1].0 != name {
        MarkerOfResult(results[..|results| - 1], name);
      }
    }
  }

  /** What _gate_record was given and produced for one gate. */
  datatype Made = Made(results: Results, record: Record, blockers: set<Blocker>)

  ghost predicate MadeFor(names: MetricNames, g: Gate, inventorySha256: string, m: Made) {
    && IsHex64(m.record.outputSha256) && MarkersHex(m.results)
    && IsRecord(names, g, m.results, m.record.outputSha256, inventorySha256, m.record, m.blockers)
  }

  /** A gate's evidence is clean exactly when the gate itself raised no blocker, which is exactly
      when its commands' outputs are what the gate asks for; and the evidence layer reports a
      nonzero exit for exactly the gates that raised one. */
  lemma {:induction false} GateLayersAgree(names: MetricNames, g: Gate, inventorySha256: string, m: Made)
    requires IsHex64(inventorySha256) && MadeFor(names, g, inventorySha256, m)
    ensures EntryClean(names, g, Some(AsEntry(g, m.record))) <==> m.blockers == {}
    ensures AsEntry(g, m.record).exit != Some(0) <==> m.blockers != {}
    ensures m.blockers == {} <==> GateClean(names, g, m.results)
  {
    MarkerOfResult(m.results, OfGate(g));
  }

  ghost predicate AllClean(names: MetricNames, made: map<Gate, Made>) {
    forall g :: g in made && GateClean(names, g, made[g].results)
  }

  function RebuildMarkerOf(made: map<Gate, Made>, g: Gate): string
    requires g in made
  {
    RebuildMarker(ResultNamed(made[g].results, OfGate(g)))
  }

  lemma {:induction false} EvidenceEntries(records: map<Gate, Record>)
    requires forall g :: g in records
    ensures forall g :: EntryOf(EvidenceOf(records), g) == Some(AsEntry(g, records[g]))
    ensures EvidenceShaped(EvidenceOf(records))
  {
    forall g ensures EntryOf(EvidenceOf(records), g) == Some(AsEntry(g, records[g])) {
      assert Declared(g) in GatesOf(EvidenceOf(records));
    }
  }

  ghost predicate RecordsOf(names: MetricNames, inventorySha256: string, made: map<Gate, Made>, records: map<Gate, Record>) {
    && IsHex64(inventorySha256)
    && (forall g :: g in made && MadeFor(names, g, inventorySha256, made[g]))
    && (forall g :: g in records && records[g] == made[g].record)
  }

  lemma {:induction false} RebuildEntriesAgree(names: MetricNames, inventorySha256: string, made: map<Gate, Made>, records: map<Gate, Record>)
    requires RecordsOf(names, inventorySha256, made, records)
    requires made[CleanRebuild1].blockers == {} && made[CleanRebuild2].blockers == {}
    ensures var e := EvidenceOf(records);
      RebuildsAgree(EntryOf(e, CleanRebuild1), EntryOf(e, CleanRebuild2))
      <==> RebuildMarkerOf(made, CleanRebuild1) == RebuildMarkerOf(made, CleanRebuild2)
  {
    EvidenceEntries(records);
    GateLayersAgree(names, CleanRebuild1, inventorySha256, made[CleanRebuild1]);
    GateLayersAgree(names, CleanRebuild2, inventorySha256, made[CleanRebuild2]);
  }

  /** The evidence layer is satisfied exactly when every gate is and the rebuilds agree, and it
      reports a nonzero exit for exactly the gates that raised a blocker. */
  lemma {:induction false} EvidenceLayerAgrees(names: MetricNames, inventorySha256: string, made: map<Gate, Made>, records: map<Gate, Record>)
    requires RecordsOf(names, inventorySha256, made, records)
    ensures var e := EvidenceOf(records);
      && (EvidenceClean(names, e)
          <==> AllClean(names, made) && RebuildMarkerOf(made, CleanRebuild1) == RebuildMarkerOf(made, CleanRebuild2))
      && (forall g :: Present(EntryOf(e, g)) && (EntryOf(e, g).value.exit != Some(0) <==> made[g].blockers != {}))
      && InventoryOf(EntryOf(e, SbomReconcile)) == Some(inventorySha256)
  {
    var e := EvidenceOf(records);
    EvidenceEntries(records);
    forall g
      ensures EntryClean(names, g, EntryOf(e, g)) <==> made[g].blockers == {}
      ensures made[g].blockers == {} <==> GateClean(names, g, made[g].results)
      ensures EntryOf(e, g).value.exit != Some(0) <==> made[g].blockers != {}
    {
      GateLayersAgree(names, g, inventorySha256, made[g]);
    }
    if made[CleanRebuild1].blockers == {} && made[CleanRebuild2].blockers == {} {
      RebuildEntriesAgree(names, inventorySha256, made, records);
    }
  }

  /** The inventory digest that the evidence shows is not the one just built. */
  predicate InventoryDiffers(e: Evidence, inventory: Option<string>) {
    Shown(EntryOf(e, SbomReconcile), InventoryOf(EntryOf(e, SbomReconcile))) != if inventory.Some? then inventory.value else INVALID
  }

  /** What may keep a payload from being accepted, besides the evidence. */
  function PayloadBlockers(e: Evidence, inventory: Option<string>, orchestrated: bool): set<Blocker> {
    When(!orchestrated, OrchestratorRequired) + When(inventory.None?, InventoryUnavailable)
    + When(InventoryDiffers(e, inventory), SbomInventoryMismatch)
  }

  lemma {:induction false} PayloadNone(e: Evidence, inventory: Option<string>, orchestrated: bool)
    requires inventory.Some? ==> IsHex64(inventory.value)
    ensures var own := PayloadBlockers(e, inventory, orchestrated);
      && (own == {} <==> orchestrated && inventory.Some? && InventoryOf(EntryOf(e, SbomReconcile)) == inventory)
      && forall b :: b in own ==> b in {OrchestratorRequired, InventoryUnavailable, SbomInventoryMismatch}
  {
    var own := PayloadBlockers(e, inventory, orchestrated);
    NormalHex(InventoryOf(EntryOf(e, SbomReconcile)));
    assert !orchestrated ==> OrchestratorRequired in own;
    assert inventory.None? ==> InventoryUnavailable in own;
    assert InventoryDiffers(e, inventory) ==> SbomInventoryMismatch in own;
  }

  /** _acceptance_payload: the blockers, given the inventory digest or None where building it raised. */
  method AcceptanceBlockers(names: MetricNames, e: Evidence, inventory: Option<string>, orchestrated: bool)
    returns (blockers: set<Blocker>, summary: map<Gate, Line>)
    requires inventory.Some? ==> IsHex64(inventory.value)
    ensures forall g :: g in summary && LineFor(g, EntryOf(e, g), summary[g])
    ensures blockers == SummaryBlockers(names, e) + PayloadBlockers(e, inventory, orchestrated)
    ensures blockers == {} <==>
      EvidenceClean(names, e) && orchestrated && inventory.Some? && InventoryOf(EntryOf(e, SbomReconcile)) == inventory
    ensures forall g :: GateExit(g) in blockers <==> Present(EntryOf(e, g)) && EntryOf(e, g).value.exit != Some(0)
  {
    summary, blockers := EvidenceSummary(names, e);
    PayloadNone(e, inventory, orchestrated);
    blockers := OffPayload(e, inventory, orchestrated, summary[SbomReconcile], blockers);
  }

  /** The last three checks of the payload. */
  method OffPayload(e: Evidence, inventory: Option<string>, orchestrated: bool, line: Line, before: set<Blocker>)
    returns (blockers: set<Blocker>)
    requires LineFor(SbomReconcile, EntryOf(e, SbomReconcile), line)
    ensures blockers == before + PayloadBlockers(e, inventory, orchestrated)
  {
    blockers := before;
    if !orchestrated {
      blockers := blockers + {OrchestratorRequired};
    }
    if inventory.None? {
      blockers := blockers + {InventoryUnavailable};
    }
    var actual := if inventory.Some? then inventory.value else INVALID;
    if line.inventorySha256 != actual {
      blockers := blockers + {SbomInventoryMismatch};
    }
  }

  /** publish offers its evidence without the orchestrator, so it can only ever reject. */
  method PublishedDirectly(names: MetricNames, e: Evidence, inventory: Option<string>) returns (accepted: bool)
    requires inventory.Some? ==> IsHex64(inventory.value)
    ensures !accepted
  {
    var blockers, _ := AcceptanceBlockers(names, e, inventory, false);
    accepted := blockers == {};
  }

  /** _formal_payload over the gate records and the orchestrator's own blockers: one exact meaning
      of the verdict, across the three layers. */
  method FormalVerdict(names: MetricNames, records: map<Gate, Record>, ghost made: map<Gate, Made>,
                       inventorySha256: string, inventory: Option<string>, orchestrator: set<Blocker>)
    returns (accepted: bool, combined: set<Blocker>, summary: map<Gate, Line>)
    requires RecordsOf(names, inventorySha256, made, records)
    requires inventory.Some? ==> IsHex64(inventory.value)
    ensures accepted <==> combined == {}
    ensures combined == SummaryBlockers(names, EvidenceOf(records)) + PayloadBlockers(EvidenceOf(records), inventory, true) + orchestrator
    ensures accepted <==>
      && orchestrator == {} && AllClean(names, made)
      && RebuildMarkerOf(made, CleanRebuild1) == RebuildMarkerOf(made, CleanRebuild2)
      && inventory == Some(inventorySha256)
    ensures forall g :: GateExit(g) in combined <==> made[g].blockers != {} || GateExit(g) in orchestrator
    ensures forall g :: g in summary && ShowsDigests(g, summary[g])
  {
    var e := EvidenceOf(records);
    EvidenceLayerAgrees(names, inventorySha256, made, records);
    var published;
    published, summary := AcceptanceBlockers(names, e, inventory, true);
    forall g ensures ShowsDigests(g, summary[g]) {
      PresentShows(g, EntryOf(e, g), summary[g]);
    }
    accepted := published == {};
    combined := published + orchestrator;
    accepted := accepted && combined == {};
  }
}
