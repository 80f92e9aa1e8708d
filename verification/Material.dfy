/** _forbidden_material of infra/f1/artifacts_v03.py: what evidence must not carry, and why the
    evidence that the orchestrator builds from its gate records never carries it. */
module Material {
  import opened Bytes
  import opened Documents
  import Json
  import V = Verdict

  const FORBIDDEN: set<string> := {
    "stdout", "stderr", "output", "full", "tail", "command", "cmd", "cwd", "path", "paths", "dsn", "token", "key", "secret"}

  predicate UsersAt(s: string, i: int)
    requires 0 <= i <= |s| - 7
  {
    s[i..i + 7] == "\\Users\\"
  }

  predicate PathText(s: string) {
    "/" <= s || "~/" <= s || exists i :: 0 <= i <= |s| - 7 && UsersAt(s, i)
  }

  /** _forbidden_material; lower is str.lower. */
  predicate Forbidden(lower: string -> string, m: Node)
    decreases m, 0
  {
    match m
    case Record(fields) => ForbiddenFields(lower, fields)
    case List(items) => ForbiddenItems(lower, items)
    case Text(text) => PathText(text)
    case _ => false
  }

  predicate ForbiddenFields(lower: string -> string, fields: seq<Field>)
    decreases fields, 1
  {
    && fields != []
    && (lower(fields[0].name) in FORBIDDEN || Forbidden(lower, fields[0].value) || ForbiddenFields(lower, fields[1..]))
  }

  predicate ForbiddenItems(lower: string -> string, items: seq<Node>)
    decreases items, 1
  {
    items != [] && (Forbidden(lower, items[0]) || ForbiddenItems(lower, items[1..]))
  }

  /** part lies in m at the end of the path. */
  predicate At(m: Node, path: seq<nat>, part: Node)
    decreases |path|
  {
    if path == [] then part == m
    else
      match m
      case Record(fields) => path[0] < |fields| && At(fields[path[0]].value, path[1..], part)
      case List(items) => path[0] < |items| && At(items[path[0]], path[1..], part)
      case _ => false
  }

  /** A forbidden key or a path, on this level. */
  predicate Offends(lower: string -> string, part: Node) {
    match part
    case Record(fields) => exists i :: 0 <= i < |fields| && lower(fields[i].name) in FORBIDDEN
    case Text(text) => PathText(text)
    case _ => false
  }

  lemma {:induction false} FieldsForbidden(lower: string -> string, fields: seq<Field>)
    ensures ForbiddenFields(lower, fields) <==>
      exists i :: 0 <= i < |fields| && (lower(fields[i].name) in FORBIDDEN || Forbidden(lower, fields[i].value))
  {
    if fields != [] {
      FieldsForbidden(lower, fields[1..]);
      if i :| 0 <= i < |fields| && (lower(fields[i].name) in FORBIDDEN || Forbidden(lower, fields[i].value)) {
        if i > 0 {
          assert fields[1..][i - 1] == fields[i];
        }
      }
    }
  }

  lemma {:induction false} ItemsForbidden(lower: string -> string, items: seq<Node>)
    ensures ForbiddenItems(lower, items) <==> exists i :: 0 <= i < |items| && Forbidden(lower, items[i])
  {
    if items != [] {
      ItemsForbidden(lower, items[1..]);
      if i :| 0 <= i < |items| && Forbidden(lower, items[i]) {
        if i > 0 {
          assert items[1..][i - 1] == items[i];
        }
      }
    }
  }

  /** It finds something only where there is something, */
  lemma {:induction false} ForbiddenHasPath(lower: string -> string, m: Node) returns (path: seq<nat>, part: Node)
    requires Forbidden(lower, m)
    ensures At(m, path, part) && Offends(lower, part)
    decreases m
  {
    path, part := [], m;
    if m.Record? && !Offends(lower, m) {
      FieldsForbidden(lower, m.fields);
      var i :| 0 <= i < |m.fields| && (lower(m.fields[i].name) in FORBIDDEN || Forbidden(lower, m.fields[i].value));
      var inner, found := ForbiddenHasPath(lower, m.fields[i].value);
      path, part := [i] + inner, found;
      assert path[1..] == inner;
    } else if m.List? {
      ItemsForbidden(lower, m.items);
      var i :| 0 <= i < |m.items| && Forbidden(lower, m.items[i]);
      var inner, found := ForbiddenHasPath(lower, m.items[i]);
      path, part := [i] + inner, found;
      assert path[1..] == inner;
    }
  }

  /** and it finds whatever offends, at any depth. */
  lemma {:induction false} PathIsForbidden(lower: string -> string, m: Node, path: seq<nat>, part: Node)
    requires At(m, path, part) && Offends(lower, part)
    ensures Forbidden(lower, m)
    decreases |path|
  {
    if m.Record? {
      FieldsForbidden(lower, m.fields);
    }
    if m.List? {
      ItemsForbidden(lower, m.items);
    }
    if path != [] {
      if m.Record? {
        PathIsForbidden(lower, m.fields[path[0]].value, path[1..], part);
      } else {
        PathIsForbidden(lower, m.items[path[0]], path[1..], part);
      }
    }
  }

  // ---------- the orchestrator's evidence ----------

  function GateName(g: V.Gate): string {
    match g
    case MigrationReplay => "migration_replay"
    case TargetedTests => "targeted_tests"
    case FullRepositoryTests => "full_repository_tests"
    case NpmCi => "npm_ci"
    case NpmLint => "npm_lint"
    case NpmBuild => "npm_build"
    case Reverse => "reverse"
    case CleanRebuild1 => "clean_rebuild_1"
    case CleanRebuild2 => "clean_rebuild_2"
    case LogCanary => "log_canary"
    case SbomReconcile => "sbom_reconcile"
  }

  function NumberOf(n: int): Node {
    Number(Json.Decimal(n))
  }

  function MetricFields(values: map<string, int>, names: seq<string>): seq<Field> {
    seq(|names|, i requires 0 <= i < |names| => Field(names[i], NumberOf(if names[i] in values then values[names[i]] else 0)))
  }

  /** A gate record: the fields that every record has, and those of its gate. `metrics` lists the
      metric names, in any order. */
  function RecordFields(g: V.Gate, r: V.Record, metrics: seq<string>): seq<Field> {
    SharedFields(r) + MeasuredFields(r, metrics) + RebuiltFields(g, r) + ReconciledFields(g, r)
  }

  function SharedFields(r: V.Record): seq<Field> {
    [Field("exit", NumberOf(r.exit)), Field("normalized_output_sha256", Text(r.outputSha256))]
  }

  function MeasuredFields(r: V.Record, metrics: seq<string>): seq<Field> {
    if r.metrics.Some? then [Field("metrics", Record(MetricFields(r.metrics.value, metrics)))] else []
  }

  function RebuiltFields(g: V.Gate, r: V.Record): seq<Field> {
    if V.IsRebuild(g) then [Field("result_sha256", Text(r.resultSha256))] else []
  }

  function ReconciledFields(g: V.Gate, r: V.Record): seq<Field> {
    if g == V.SbomReconcile
    then [Field("inventory_sha256", Text(r.inventorySha256)), Field("runtime_inventory_sha256", Text(r.runtimeInventorySha256))]
    else []
  }

  function GateFields(gates: seq<V.Gate>, records: map<V.Gate, V.Record>, metrics: seq<string>): seq<Field>
    requires forall g :: g in gates ==> g in records
  {
    seq(|gates|, i requires 0 <= i < |gates| =>
      Field(GateName(gates[i]), Record(RecordFields(gates[i], records[gates[i]], metrics))))
  }

  /** {"schema": EVIDENCE_SCHEMA, "gates": records}. */
  function EvidenceJson(records: map<V.Gate, V.Record>, metrics: seq<string>): Node
    requires forall g :: g in V.GATES ==> g in records
  {
    Record([
      Field("schema", Text("f1.1.1-machine-evidence-v1")),
      Field("gates", Record(GateFields(V.GATES, records, metrics)))])
  }

  predicate LowerName(s: string) {
    forall i :: 0 <= i < |s| ==> 'a' <= s[i] <= 'z' || '0' <= s[i] <= '9' || s[i] == '_'
  }

  /** str.lower leaves lower-case letters, digits and underscores alone. */
  ghost predicate LowerLaw(lower: string -> string) {
    forall s :: LowerName(s) ==> lower(s) == s
  }

  /** No forbidden key has an underscore. */
  lemma {:induction false} UnderscoreHarmless(s: string)
    requires '_' in s
    ensures s !in FORBIDDEN
  {
  }

  lemma {:induction false} TestNamesLower()
    ensures LowerName("migration_replay") && '_' in "migration_replay"
    ensures LowerName("targeted_tests") && '_' in "targeted_tests"
    ensures LowerName("full_repository_tests") && '_' in "full_repository_tests"
  {
    assert "migration_replay"[9] == '_';
    assert "targeted_tests"[8] == '_';
    assert "full_repository_tests"[4] == '_';
  }

  lemma {:induction false} NpmNamesLower()
    ensures LowerName("npm_ci") && '_' in "npm_ci"
    ensures LowerName("npm_lint") && '_' in "npm_lint"
    ensures LowerName("npm_build") && '_' in "npm_build"
  {
    assert "npm_ci"[3] == '_';
    assert "npm_lint"[3] == '_';
    assert "npm_build"[3] == '_';
  }

  lemma {:induction false} RebuildNamesLower()
    ensures LowerName("clean_rebuild_1") && '_' in "clean_rebuild_1"
    ensures LowerName("clean_rebuild_2") && '_' in "clean_rebuild_2"
  {
    assert "clean_rebuild_1"[5] == '_';
    assert "clean_rebuild_2"[5] == '_';
  }

  lemma {:induction false} LastNamesLower()
    ensures LowerName("log_canary") && '_' in "log_canary"
    ensures LowerName("sbom_reconcile") && '_' in "sbom_reconcile"
  {
    assert "log_canary"[3] == '_';
    assert "sbom_reconcile"[4] == '_';
  }

  lemma {:induction false} GateNamesLower(g: V.Gate)
    ensures LowerName(GateName(g)) && (g != V.Reverse ==> '_' in GateName(g))
  {
    TestNamesLower();
    NpmNamesLower();
    RebuildNamesLower();
    LastNamesLower();
  }

  lemma {:induction false} GateNamesHarmless(g: V.Gate)
    ensures LowerName(GateName(g)) && GateName(g) !in FORBIDDEN
  {
    GateNamesLower(g);
    if g == V.Reverse {
      assert "reverse" !in FORBIDDEN;
    } else {
      UnderscoreHarmless(GateName(g));
    }
  }

  lemma {:induction false} SharedNamesHarmless()
    ensures LowerName("exit") && "exit" !in FORBIDDEN
    ensures LowerName("normalized_output_sha256") && "normalized_output_sha256" !in FORBIDDEN
    ensures LowerName("metrics") && "metrics" !in FORBIDDEN
  {
    UnderscoreHarmless("normalized_output_sha256");
  }

  lemma {:induction false} ResultNameHarmless()
    ensures LowerName("result_sha256") && "result_sha256" !in FORBIDDEN
  {
    assert "result_sha256"[6] == '_';
    UnderscoreHarmless("result_sha256");
  }

  lemma {:induction false} InventoryNameHarmless()
    ensures LowerName("inventory_sha256") && "inventory_sha256" !in FORBIDDEN
  {
    assert "inventory_sha256"[9] == '_';
    UnderscoreHarmless("inventory_sha256");
  }

  lemma {:induction false} RuntimeNameHarmless()
    ensures LowerName("runtime_inventory_sha256") && "runtime_inventory_sha256" !in FORBIDDEN
  {
    assert "runtime_inventory_sha256"[7] == '_';
    UnderscoreHarmless("runtime_inventory_sha256");
  }

  lemma {:induction false} TopNamesHarmless()
    ensures LowerName("schema") && "schema" !in FORBIDDEN && LowerName("gates") && "gates" !in FORBIDDEN
    ensures !PathText("f1.1.1-machine-evidence-v1")
  {
    var s := "f1.1.1-machine-evidence-v1";
    assert s[0] == 'f';
    NoBackslash(s);
  }

  lemma {:induction false} NoBackslash(s: string)
    requires '\\' !in s && s != "" && s[0] != '/' && s[0] != '~'
    ensures !PathText(s)
  {
    forall i | 0 <= i <= |s| - 7 ensures !UsersAt(s, i) {
      assert s[i] in s && s[i..i + 7][0] == s[i];
    }
  }

  lemma {:induction false} DigestIsNoPath(s: string)
    requires V.HexOrInvalid(s)
    ensures !PathText(s)
  {
    if IsHex64(s) {
      forall c | c in s ensures c != '\\' {
        var i :| 0 <= i < |s| && s[i] == c;
        assert IsLowerHexChar(s[i]);
      }
      assert IsLowerHexChar(s[0]);
    }
    NoBackslash(s);
  }

  predicate Harmless(lower: string -> string, f: Field) {
    lower(f.name) !in FORBIDDEN && !Forbidden(lower, f.value)
  }

  lemma {:induction false} HarmlessFields(lower: string -> string, fields: seq<Field>)
    requires forall i :: 0 <= i < |fields| ==> Harmless(lower, fields[i])
    ensures !Forbidden(lower, Record(fields))
  {
    FieldsForbidden(lower, fields);
    assert forall i :: 0 <= i < |fields| ==> Harmless(lower, fields[i]);
  }

  ghost predicate HarmlessMetrics(metrics: seq<string>) {
    forall i :: 0 <= i < |metrics| ==> LowerName(metrics[i]) && metrics[i] !in FORBIDDEN
  }

  lemma {:induction false} MetricsAllowed(lower: string -> string, values: map<string, int>, metrics: seq<string>)
    requires LowerLaw(lower) && HarmlessMetrics(metrics)
    ensures !Forbidden(lower, Record(MetricFields(values, metrics)))
  {
    var fields := MetricFields(values, metrics);
    forall i | 0 <= i < |fields| ensures Harmless(lower, fields[i]) {
      assert LowerName(metrics[i]);
    }
    HarmlessFields(lower, fields);
  }

  predicate DigestsShown(r: V.Record) {
    && V.HexOrInvalid(r.outputSha256) && V.HexOrInvalid(r.resultSha256)
    && V.HexOrInvalid(r.inventorySha256) && V.HexOrInvalid(r.runtimeInventorySha256)
  }

  predicate AllHarmless(lower: string -> string, fields: seq<Field>) {
    forall i :: 0 <= i < |fields| ==> Harmless(lower, fields[i])
  }

  lemma {:induction false} SharedHarmless(lower: string -> string, r: V.Record)
    requires LowerLaw(lower) && DigestsShown(r)
    ensures AllHarmless(lower, SharedFields(r))
  {
    SharedNamesHarmless();
    DigestIsNoPath(r.outputSha256);
  }

  lemma {:induction false} MeasuredHarmless(lower: string -> string, r: V.Record, metrics: seq<string>)
    requires LowerLaw(lower) && HarmlessMetrics(metrics)
    ensures AllHarmless(lower, MeasuredFields(r, metrics))
  {
    SharedNamesHarmless();
    if r.metrics.Some? {
      MetricsAllowed(lower, r.metrics.value, metrics);
    }
  }

  lemma {:induction false} RebuiltHarmless(lower: string -> string, g: V.Gate, r: V.Record)
    requires LowerLaw(lower) && DigestsShown(r)
    ensures AllHarmless(lower, RebuiltFields(g, r))
  {
    ResultNameHarmless();
    DigestIsNoPath(r.resultSha256);
  }

  lemma {:induction false} ReconciledHarmless(lower: string -> string, g: V.Gate, r: V.Record)
    requires LowerLaw(lower) && DigestsShown(r)
    ensures AllHarmless(lower, ReconciledFields(g, r))
  {
    InventoryNameHarmless();
    RuntimeNameHarmless();
    DigestIsNoPath(r.inventorySha256);
    DigestIsNoPath(r.runtimeInventorySha256);
  }

  lemma {:induction false} HarmlessParts(lower: string -> string, a: seq<Field>, b: seq<Field>, c: seq<Field>, d: seq<Field>)
    requires AllHarmless(lower, a) && AllHarmless(lower, b) && AllHarmless(lower, c) && AllHarmless(lower, d)
    ensures !Forbidden(lower, Record(a + b + c + d))
  {
    HarmlessFields(lower, a + b + c + d);
  }

  lemma {:induction false} RecordAllowed(lower: string -> string, g: V.Gate, r: V.Record, metrics: seq<string>)
    requires LowerLaw(lower) && DigestsShown(r) && HarmlessMetrics(metrics)
    ensures !Forbidden(lower, Record(RecordFields(g, r, metrics)))
  {
    SharedHarmless(lower, r);
    MeasuredHarmless(lower, r, metrics);
    RebuiltHarmless(lower, g, r);
    ReconciledHarmless(lower, g, r);
    HarmlessParts(lower, SharedFields(r), MeasuredFields(r, metrics), RebuiltFields(g, r), ReconciledFields(g, r));
  }

  /** Every record of a run shows digests only, or the word INVALID. */
  lemma {:induction false} RecordsShowDigests(names: V.MetricNames, inventorySha256: string, g: V.Gate, m: V.Made)
    requires IsHex64(inventorySha256) && V.MadeFor(names, g, inventorySha256, m)
    ensures DigestsShown(m.record)
  {
    V.MarkerOfResult(m.results, V.OfGate(g));
  }

  /** The evidence that the orchestrator builds from its gate records never carries forbidden
      material, so long as the expected metric names are harmless. */
  lemma {:induction false} EvidenceAllowed(lower: string -> string, names: V.MetricNames, inventorySha256: string,
                                           made: map<V.Gate, V.Made>, records: map<V.Gate, V.Record>, metrics: seq<string>)
    requires LowerLaw(lower) && HarmlessMetrics(metrics)
    requires V.RecordsOf(names, inventorySha256, made, records)
    ensures !Forbidden(lower, EvidenceJson(records, metrics))
  {
    var fields := GateFields(V.GATES, records, metrics);
    forall i | 0 <= i < |fields| ensures Harmless(lower, fields[i]) {
      var g := V.GATES[i];
      GateNamesHarmless(g);
      assert V.MadeFor(names, g, inventorySha256, made[g]);
      RecordsShowDigests(names, inventorySha256, g, made[g]);
      RecordAllowed(lower, g, records[g], metrics);
    }
    HarmlessFields(lower, fields);
    TopNamesHarmless();
    HarmlessFields(lower, EvidenceJson(records, metrics).fields);
  }
}
