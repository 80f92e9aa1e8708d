/** What the evidence layers say, in the terms of the records that the evidence is made from: the
    entries are read back out of the JSON objects, and each blocker has its cause. */
module EvidenceMeaning {
  import opened Wrappers
  import opened Bytes
  import opened Documents
  import J = Json
  import Material
  import EvaluatedRejection
  import RejectionReader
  import opened V = Verdict

  // ---------- which blocker is raised when ----------

  predicate NoDigest(s: Option<string>) {
    s.None? || !IsHex64(s.value)
  }

  /** The metrics are named as expected, and one of them is not the number zero. */
  predicate SomeNonzero(metrics: Option<map<string, Option<int>>>, expected: set<string>) {
    && metrics.Some? && metrics.value.Keys == expected
    && exists name :: name in metrics.value && metrics.value[name] != Some(0)
  }

  /** When an entry that is there raises a blocker. */
  predicate EntryRaises(names: MetricNames, g: Gate, e: Entry, b: Blocker)
    requires e.Entry?
  {
    match b
    case GateExit(gate) => gate == g && e.exit != Some(0)
    case GateDigest(gate) => gate == g && NoDigest(e.digest)
    case CleanRebuildDigest(gate) => gate == g && (g == CleanRebuild1 || g == CleanRebuild2) && NoDigest(e.resultSha256)
    case SbomEvidenceDigestInvalid => g == SbomReconcile && NoDigest(e.inventorySha256)
    case ReverseMetricsIncomplete => g == Reverse && (e.metrics.None? || e.metrics.value.Keys != names.reverse)
    case ReverseMetricNonzero => g == Reverse && SomeNonzero(e.metrics, names.reverse)
    case _ => false
  }

  lemma {:induction false} MetricsRaise(metrics: Option<map<string, Option<int>>>, expected: set<string>, b: Blocker)
    ensures b in MetricBlockers(metrics, expected) <==>
      || (b == ReverseMetricsIncomplete && (metrics.None? || metrics.value.Keys != expected))
      || (b == ReverseMetricNonzero && SomeNonzero(metrics, expected))
  {
  }

  lemma {:induction false} OwnRaise(names: MetricNames, g: Gate, e: Entry, b: Blocker)
    requires e.Entry?
    ensures b in OwnBlockers(names, g, e) <==> EntryRaises(names, g, e, b)
  {
    MetricsRaise(e.metrics, names.reverse, b);
  }

  /** When the evidence as a whole raises a blocker. */
  ghost predicate EvidenceRaises(names: MetricNames, e: Evidence, b: Blocker) {
    match b
    case EvidenceSchemaInvalid => e.NoEvidence?
    case EvidenceForbiddenMaterial => e.Evidence? && e.forbidden
    case EvidenceGatesInvalid => e.Evidence? && e.gates.None?
    case EvidenceGateUndeclared => e.Evidence? && e.gates.Some? && exists k :: k in e.gates.value && k.Undeclared?
    case CleanRebuildNondeterministic => !RebuildsAgree(EntryOf(e, CleanRebuild1), EntryOf(e, CleanRebuild2))
    case GateMissing(g) => !Present(EntryOf(e, g))
    case _ => exists g :: Present(EntryOf(e, g)) && EntryRaises(names, g, EntryOf(e, g).value, b)
  }

  lemma {:induction false} GatesRaise(names: MetricNames, e: Evidence, sequence: seq<Gate>, b: Blocker)
    ensures b in GatesBlockers(names, e, sequence) <==>
      exists g :: g in sequence && b in EntryBlockers(names, g, EntryOf(e, g))
  {
    if sequence != [] {
      var n := |sequence| - 1;
      GatesRaise(names, e, sequence[..n], b);
      assert sequence == sequence[..n] + [sequence[n]];
    }
  }

  lemma {:induction false} ShapeRaise(e: Evidence, b: Blocker)
    ensures b in ShapeOf(e) <==>
      || (b == EvidenceSchemaInvalid && e.NoEvidence?) || (b == EvidenceForbiddenMaterial && e.Evidence? && e.forbidden)
      || (b == EvidenceGatesInvalid && e.Evidence? && e.gates.None?)
      || (b == EvidenceGateUndeclared && e.Evidence? && e.gates.Some? && exists k :: k in e.gates.value && k.Undeclared?)
  {
  }

  lemma {:induction false} EntryRaise(names: MetricNames, g: Gate, e: Option<Entry>, b: Blocker)
    ensures b in EntryBlockers(names, g, e) <==>
      if Present(e) then EntryRaises(names, g, e.value, b) else b == GateMissing(g)
  {
    if Present(e) {
      OwnRaise(names, g, e.value, b);
    }
  }

  lemma {:induction false} AnyGateRaises(names: MetricNames, e: Evidence, b: Blocker)
    ensures b in GatesBlockers(names, e, GATES) <==>
      || (b.GateMissing? && !Present(EntryOf(e, b.gate)))
      || exists g :: Present(EntryOf(e, g)) && EntryRaises(names, g, EntryOf(e, g).value, b)
  {
    GatesRaise(names, e, GATES, b);
    GatesCompleteAll();
    forall g ensures b in EntryBlockers(names, g, EntryOf(e, g)) <==>
      if Present(EntryOf(e, g)) then EntryRaises(names, g, EntryOf(e, g).value, b) else b == GateMissing(g)
    {
      EntryRaise(names, g, EntryOf(e, g), b);
    }
  }

  /** Every blocker of the evidence has its cause, and every cause its blocker. */
  lemma {:induction false} SummaryRaises(names: MetricNames, e: Evidence, b: Blocker)
    ensures b in SummaryBlockers(names, e) <==> EvidenceRaises(names, e, b)
  {
    ShapeRaise(e, b);
    AnyGateRaises(names, e, b);
  }

  // ---------- entries, read out of the records' JSON ----------

  function ReadNumber(n: Option<Node>): Option<int> {
    if n.Some? && n.value.Number? then
      match J.Loads(n.value.digits)
      case Parsed(Int(k), _) => Some(k)
      case _ => None
    else None
  }

  function ReadText(n: Option<Node>): Option<string> {
    if n.Some? && n.value.Text? then Some(n.value.text) else None
  }

  /** The names of an object with the numbers they stand for. */
  function NumbersOf(fields: seq<Field>): map<string, Option<int>> {
    if fields == [] then map[]
    else NumbersOf(fields[1..])[fields[0].name := ReadNumber(Some(fields[0].value))]
  }

  function ReadNumbers(n: Option<Node>): Option<map<string, Option<int>>> {
    if n.Some? && n.value.Record? then Some(NumbersOf(n.value.fields)) else None
  }

  function ReadEntry(n: Node): Entry {
    if n.Record? then
      Entry(ReadNumber(RejectionReader.Lookup(n.fields, "exit")),
            ReadText(RejectionReader.Lookup(n.fields, "normalized_output_sha256")),
            ReadNumbers(RejectionReader.Lookup(n.fields, "metrics")),
            ReadText(RejectionReader.Lookup(n.fields, "result_sha256")),
            ReadText(RejectionReader.Lookup(n.fields, "inventory_sha256")))
    else NotAnObject
  }

  lemma {:induction false} NumberRead(n: int)
    ensures ReadNumber(Some(Material.NumberOf(n))) == Some(n)
  {
    J.LoadsOfPrint(J.Int(n));
  }

  /** The list names exactly the metrics. */
  ghost predicate Lists(metrics: seq<string>, values: map<string, int>) {
    forall name :: name in metrics <==> name in values
  }

  lemma {:induction false} NumbersRead(values: map<string, int>, metrics: seq<string>)
    requires forall i :: 0 <= i < |metrics| ==> metrics[i] in values
    ensures var numbers := NumbersOf(Material.MetricFields(values, metrics));
      && (forall name :: name in numbers <==> name in metrics) && forall name :: name in metrics ==> numbers[name] == Some(values[name])
  {
    if metrics != [] {
      NumbersRead(values, metrics[1..]);
      assert Material.MetricFields(values, metrics)[1..] == Material.MetricFields(values, metrics[1..]);
      assert metrics == [metrics[0]] + metrics[1..];
      NumberRead(values[metrics[0]]);
    }
  }

  lemma {:induction false} FieldNames()
    ensures "exit" != "normalized_output_sha256" && "exit" != "metrics" && "exit" != "result_sha256" && "exit" != "inventory_sha256"
    ensures "normalized_output_sha256" != "metrics" && "normalized_output_sha256" != "result_sha256"
    ensures "normalized_output_sha256" != "inventory_sha256" && "metrics" != "result_sha256" && "metrics" != "inventory_sha256"
    ensures "result_sha256" != "inventory_sha256" && "runtime_inventory_sha256" != "inventory_sha256"
    ensures "runtime_inventory_sha256" != "metrics" && "runtime_inventory_sha256" != "result_sha256"
  {
  }

  lemma {:induction false} LookupTail(a: seq<Field>, b: seq<Field>, name: string)
    ensures RejectionReader.Lookup(a + b, name)
         == if RejectionReader.Lookup(a, name).Some? then RejectionReader.Lookup(a, name) else RejectionReader.Lookup(b, name)
  {
    if a == [] {
      assert a + b == b;
    } else if a[0].name != name {
      LookupTail(a[1..], b, name);
      assert (a + b)[1..] == a[1..] + b;
    }
  }

  lemma {:induction false} LookupMissing(fields: seq<Field>, name: string)
    requires forall i :: 0 <= i < |fields| ==> fields[i].name != name
    ensures RejectionReader.Lookup(fields, name).None?
  {
    if fields != [] {
      LookupMissing(fields[1..], name);
    }
  }

  lemma {:induction false} RecordLookup(g: Gate, r: Record, metrics: seq<string>, name: string)
    ensures var (shared, measured, rebuilt, reconciled) := (
        RejectionReader.Lookup(Material.SharedFields(r), name), RejectionReader.Lookup(Material.MeasuredFields(r, metrics), name),
        RejectionReader.Lookup(Material.RebuiltFields(g, r), name), RejectionReader.Lookup(Material.ReconciledFields(g, r), name));
      RejectionReader.Lookup(Material.RecordFields(g, r, metrics), name)
        == if shared.Some? then shared else if measured.Some? then measured else if rebuilt.Some? then rebuilt else reconciled
  {
    var shared, measured, rebuilt, reconciled
      := Material.SharedFields(r), Material.MeasuredFields(r, metrics), Material.RebuiltFields(g, r), Material.ReconciledFields(g, r);
    LookupTail(shared + measured + rebuilt, reconciled, name);
    LookupTail(shared + measured, rebuilt, name);
    LookupTail(shared, measured, name);
  }

  lemma {:induction false} SharedLookups(g: Gate, r: Record, metrics: seq<string>)
    ensures var fields := Material.RecordFields(g, r, metrics);
      && RejectionReader.Lookup(fields, "exit") == Some(Material.NumberOf(r.exit))
      && RejectionReader.Lookup(fields, "normalized_output_sha256") == Some(Text(r.outputSha256))
  {
    FieldNames();
    RecordLookup(g, r, metrics, "exit");
    RecordLookup(g, r, metrics, "normalized_output_sha256");
    RejectionReader.LookupAt(Material.SharedFields(r), 0);
    RejectionReader.LookupAt(Material.SharedFields(r), 1);
  }

  lemma {:induction false} MetricsLookup(g: Gate, r: Record, metrics: seq<string>)
    ensures RejectionReader.Lookup(Material.RecordFields(g, r, metrics), "metrics")
         == if r.metrics.Some? then Some(Node.Record(Material.MetricFields(r.metrics.value, metrics))) else None
  {
    FieldNames();
    RecordLookup(g, r, metrics, "metrics");
    LookupMissing(Material.SharedFields(r), "metrics");
    LookupMissing(Material.RebuiltFields(g, r), "metrics");
    LookupMissing(Material.ReconciledFields(g, r), "metrics");
    if r.metrics.Some? {
      RejectionReader.LookupAt(Material.MeasuredFields(r, metrics), 0);
    }
  }

  lemma {:induction false} RebuiltLookup(g: Gate, r: Record, metrics: seq<string>)
    ensures RejectionReader.Lookup(Material.RecordFields(g, r, metrics), "result_sha256")
         == if g == CleanRebuild1 || g == CleanRebuild2 then Some(Text(r.resultSha256)) else None
  {
    FieldNames();
    RecordLookup(g, r, metrics, "result_sha256");
    LookupMissing(Material.SharedFields(r), "result_sha256");
    LookupMissing(Material.MeasuredFields(r, metrics), "result_sha256");
    LookupMissing(Material.ReconciledFields(g, r), "result_sha256");
    if g == CleanRebuild1 || g == CleanRebuild2 {
      RejectionReader.LookupAt(Material.RebuiltFields(g, r), 0);
    }
  }

  lemma {:induction false} ReconciledLookup(g: Gate, r: Record, metrics: seq<string>)
    ensures RejectionReader.Lookup(Material.RecordFields(g, r, metrics), "inventory_sha256")
         == if g == SbomReconcile then Some(Text(r.inventorySha256)) else None
  {
    FieldNames();
    RecordLookup(g, r, metrics, "inventory_sha256");
    LookupMissing(Material.SharedFields(r), "inventory_sha256");
    LookupMissing(Material.MeasuredFields(r, metrics), "inventory_sha256");
    LookupMissing(Material.RebuiltFields(g, r), "inventory_sha256");
    if g == SbomReconcile {
      RejectionReader.LookupAt(Material.ReconciledFields(g, r), 0);
    }
  }

  lemma {:induction false} MetricsEqual(values: map<string, int>, metrics: seq<string>)
    requires Lists(metrics, values)
    ensures NumbersOf(Material.MetricFields(values, metrics)) == map name | name in values :: Some(values[name])
  {
    NumbersRead(values, metrics);
  }

  /** The record of a gate, written as JSON and read back by the evidence layer, is the entry that the
      layers are compared on: its exit, digest and metrics, and where the gate has them the rebuild's
      and the inventory's digest. */
  lemma {:induction false} RecordRead(g: Gate, r: Record, metrics: seq<string>)
    requires r.metrics.Some? ==> Lists(metrics, r.metrics.value)
    ensures ReadEntry(Node.Record(Material.RecordFields(g, r, metrics))) == AsEntry(g, r)
  {
    NumberRead(r.exit);
    if r.metrics.Some? {
      MetricsEqual(r.metrics.value, metrics);
    }
    SharedLookups(g, r, metrics);
    MetricsLookup(g, r, metrics);
    RebuiltLookup(g, r, metrics);
    ReconciledLookup(g, r, metrics);
  }

  /** The line of a record shows the record's own exit and digests. */
  lemma {:induction false} LineOfRecord(names: MetricNames, g: Gate, r: Record, line: Line)
    requires LineIs(names, g, Some(AsEntry(g, r)), line)
    ensures line.exit == r.exit
    ensures IsHex64(r.outputSha256) ==> line.digest == r.outputSha256
    ensures (g == CleanRebuild1 || g == CleanRebuild2) && IsHex64(r.resultSha256) ==> line.resultSha256 == r.resultSha256
    ensures (g == CleanRebuild1 || g == CleanRebuild2) && !IsHex64(r.resultSha256) ==> line.resultSha256 == "INVALID"
    ensures g == SbomReconcile && IsHex64(r.inventorySha256) ==> line.inventorySha256 == r.inventorySha256
  {
  }

  // ---------- gate names ----------

  function UpperChar(c: char): char {
    if 'a' <= c <= 'z' then (c as int - 32) as char else c
  }

  function UpperText(s: string): string {
    if s == "" then "" else [UpperChar(s[0])] + UpperText(s[1..])
  }

  lemma {:induction false} UpperAt(s: string, t: string)
    requires |s| == |t| && forall i :: 0 <= i < |s| ==> t[i] == UpperChar(s[i])
    ensures UpperText(s) == t
  {
    if s != "" {
      UpperAt(s[1..], t[1..]);
      assert t == [t[0]] + t[1..];
    }
  }

  lemma {:induction false} CommandGateNames(g: Gate)
    requires g in {MigrationReplay, TargetedTests, FullRepositoryTests, NpmCi, NpmLint, NpmBuild}
    ensures EvaluatedRejection.GateText(g) == UpperText(Material.GateName(g))
  {
    UpperAt(Material.GateName(g), EvaluatedRejection.GateText(g));
  }

  lemma {:induction false} CheckGateNames(g: Gate)
    requires g in {Reverse, CleanRebuild1, CleanRebuild2, LogCanary, SbomReconcile}
    ensures EvaluatedRejection.GateText(g) == UpperText(Material.GateName(g))
  {
    UpperAt(Material.GateName(g), EvaluatedRejection.GateText(g));
  }

  /** A gate is named in reason codes as in the evidence, in capitals. */
  lemma {:induction false} GateNamesAgree(g: Gate)
    ensures EvaluatedRejection.GateText(g) == UpperText(Material.GateName(g))
  {
    if g in {MigrationReplay, TargetedTests, FullRepositoryTests, NpmCi, NpmLint, NpmBuild} {
      CommandGateNames(g);
    } else {
      CheckGateNames(g);
    }
  }

  /** The codes of the evidence's faults tell the faults apart. */
  lemma {:induction false} FaultsDiffer(f: EvaluatedRejection.EvidenceFault, g: EvaluatedRejection.EvidenceFault)
    requires EvaluatedRejection.FaultText(f) == EvaluatedRejection.FaultText(g)
    ensures f == g
  {
    var s, t := EvaluatedRejection.FaultText(f), EvaluatedRejection.FaultText(g);
    assert |s| == |t| && s[15] == t[15] && s[16] == t[16] && s[17] == t[17];
  }
}
