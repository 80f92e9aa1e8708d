/** The rejections that evaluation itself renders (infra/f1/formal_acceptance.py `_formal_payload` and
    `_artifact_contents`): reason codes, the summary of the gates, digests of the run, the projected
    rebuild evidence and the build inputs. They pass the publisher's guard like the fail-closed one. */
module EvaluatedRejection {
  import opened Wrappers
  import opened Bytes
  import opened Documents
  import opened Rejection
  import Batches
  import Sorting
  import Json
  import V = Verdict
  import Material

  // ---------- reason codes ----------

  function GateText(g: V.Gate): string {
    match g
    case MigrationReplay => "MIGRATION_REPLAY"
    case TargetedTests => "TARGETED_TESTS"
    case FullRepositoryTests => "FULL_REPOSITORY_TESTS"
    case NpmCi => "NPM_CI"
    case NpmLint => "NPM_LINT"
    case NpmBuild => "NPM_BUILD"
    case Reverse => "REVERSE"
    case CleanRebuild1 => "CLEAN_REBUILD_1"
    case CleanRebuild2 => "CLEAN_REBUILD_2"
    case LogCanary => "LOG_CANARY"
    case SbomReconcile => "SBOM_RECONCILE"
  }

  function NameText(n: V.Name): string {
    match n
    case MigrationApply1 => "MIGRATION_APPLY_1"
    case MigrationApply2 => "MIGRATION_APPLY_2"
    case PgLiveVerifier => "PG_LIVE_VERIFIER"
    case OfGate(g) => GateText(g)
    case FrozenBoundary => "FROZEN_F0_POST_BOUNDARY"
  }

  /** The codes that loading a round's evidence can raise, besides the round's own. */
  datatype EvidenceFault = RoundRejected | Missing | FileRejected | ReadRejected | JsonRejected | SchemaRejected
    | BindingRed | ResultRejected | SourceRejected

  function FaultText(f: EvidenceFault): string {
    match f
    case RoundRejected => "CLEAN_EVIDENCE_ROUND_REJECTED"
    case Missing => "CLEAN_EVIDENCE_MISSING"
    case FileRejected => "CLEAN_EVIDENCE_FILE_REJECTED"
    case ReadRejected => "CLEAN_EVIDENCE_READ_REJECTED"
    case JsonRejected => "CLEAN_EVIDENCE_JSON_REJECTED"
    case SchemaRejected => "CLEAN_EVIDENCE_SCHEMA_REJECTED"
    case BindingRed => "CLEAN_EVIDENCE_BINDING_RED"
    case ResultRejected => "CLEAN_EVIDENCE_RESULT_REJECTED"
    case SourceRejected => "CLEAN_EVIDENCE_SOURCE_REJECTED"
  }

  /** The code of a blocker; an inventory that cannot be built is reported under the name of the
      exception's class. */
  function CodeText(b: V.Blocker, errorClass: string): string {
    match b
    case GateRed(g) => "GATE_RED_" + GateText(g)
    case MigrationMarkerInvalid => "MIGRATION_REPLAY_" + "MARKER_INVALID"
    case PgLiveVerifierRed => "PG_LIVE_VERIFIER_RED"
    case TargetedTestContractRed => "TARGETED_TEST_CONTRACT_RED"
    case FullTestContractRed => "FULL_TEST_CONTRACT_RED"
    case ReverseMetricsRed => "REVERSE_METRICS_RED"
    case CleanRebuildMarkerRed => "CLEAN_REBUILD_MARKER_RED"
    case LogCanaryRed => "LOG_CANARY_" + "RED"
    case RuntimeImageRed => "RUNTIME_IMAGE_RECONCILIATION_RED"
    case CommandMissing(name) => "COMMAND_MISSING_" + NameText(name)
    case Isolation => "FROZEN_F0_LIVE_ISOLATION_REQUIRED"
    case SourceChanged => "IMPLEMENTATION_SOURCE_CHANGED"
    case CheckoutChanged => "IMPLEMENTATION_CHECKOUT_CHANGED"
    case CleanRebuildNondeterministic => "CLEAN_REBUILD_NONDETERMINISTIC"
    case GateSetIncomplete => "FORMAL_GATE_SET_INCOMPLETE"
    case CleanEvidenceRed(round) => "CLEAN_EVIDENCE_ROUND_" + Json.Digits(round) + "_RED"
    case CleanEvidenceIncomplete => "CLEAN_EVIDENCE_INCOMPLETE"
    case CleanProjectionRed => "CLEAN_EVIDENCE_NONDETERMINISTIC"
    case RuntimeInventoryRed => "RUNTIME_INVENTORY_" + "EVIDENCE_RED"
    case EvidenceSchemaInvalid => "EVIDENCE_SCHEMA_INVALID"
    case EvidenceForbiddenMaterial => "EVIDENCE_FORBIDDEN_MATERIAL"
    case EvidenceGatesInvalid => "EVIDENCE_GATES_INVALID"
    case EvidenceGateUndeclared => "EVIDENCE_GATE_UNDECLARED"
    case GateMissing(g) => "GATE_MISSING_" + GateText(g)
    case GateExit(g) => "GATE_EXIT_" + GateText(g)
    case GateDigest(g) => "GATE_DIGEST_" + GateText(g)
    case ReverseMetricsIncomplete => "REVERSE_METRICS_INCOMPLETE"
    case ReverseMetricNonzero => "REVERSE_METRIC_NONZERO"
    case CleanRebuildDigest(g) => if g == V.CleanRebuild1 then "CLEAN_REBUILD_DIGEST_1" else "CLEAN_REBUILD_DIGEST_2"
    case SbomEvidenceDigestInvalid => "SBOM_EVIDENCE_DIGEST_INVALID"
    case OrchestratorRequired => "FORMAL_ORCHESTRATOR_REQUIRED"
    case InventoryUnavailable => errorClass + "_INVENTORY"
    case SbomInventoryMismatch => "SBOM_INVENTORY_MISMATCH"
  }

  lemma {:induction false} GateTextQuiet(g: V.Gate)
    ensures !TokenIn(GateText(g))
  {
    LacksLetter(GateText(g));
  }

  lemma {:induction false} CommandTextQuiet(n: V.Name)
    requires n.MigrationApply1? || n.MigrationApply2? || n.PgLiveVerifier?
    ensures !TokenIn(NameText(n))
  {
    LacksLetter(NameText(n));
  }

  lemma {:induction false} BoundaryTextQuiet()
    ensures !TokenIn("FROZEN_F0_POST_BOUNDARY")
  {
    Joined("FROZEN_F0_", "POST_BOUNDARY");
    assert "FROZEN_F0_POST_BOUNDARY" == "FROZEN_F0_" + "POST_BOUNDARY";
  }

  lemma {:induction false} NameTextQuiet(n: V.Name)
    ensures !TokenIn(NameText(n))
  {
    if n.OfGate? {
      GateTextQuiet(n.gate);
    } else if n.FrozenBoundary? {
      BoundaryTextQuiet();
    } else {
      CommandTextQuiet(n);
    }
  }

  lemma {:induction false} FaultTextQuiet(f: EvidenceFault)
    ensures !TokenIn(FaultText(f))
  {
    LacksY(FaultText(f));
  }

  lemma {:induction false} LacksY(s: string)
    requires 'Y' !in s
    ensures !TokenIn(s)
  {
    LacksLetter(s);
  }

  lemma {:induction false} LacksD(s: string)
    requires 'D' !in s
    ensures !TokenIn(s)
  {
    LacksLetter(s);
  }

  predicate Lacking(s: string) {
    'R' !in s || 'D' !in s || 'Y' !in s
  }

  /** Two parts that meet in an underscore. */
  lemma {:induction false} Joined(a: string, b: string)
    requires (Lacking(a) || !TokenIn(a)) && (Lacking(b) || !TokenIn(b)) && a != [] && a[|a| - 1] == '_'
    ensures !TokenIn(a + b)
  {
    if Lacking(a) {
      LacksLetter(a);
    }
    if Lacking(b) {
      LacksLetter(b);
    }
    NoTokenAcross(a, b);
  }

  lemma {:induction false} DigitsQuiet(n: nat)
    ensures Batches.Quiet(Json.Digits(n))
  {
    if n >= 10 {
      DigitsQuiet(n / 10);
    }
  }

  /** The codes that are put together from parts. */
  predicate Composed(b: V.Blocker) {
    || b.GateRed? || b.MigrationMarkerInvalid? || b.LogCanaryRed? || b.CommandMissing? || b.CleanEvidenceRed?
    || b.RuntimeInventoryRed? || b.GateMissing? || b.GateExit? || b.GateDigest? || b.InventoryUnavailable?
  }

  lemma {:induction false} GateCodeQuiet(b: V.Blocker, errorClass: string)
    requires b.GateRed? || b.GateMissing? || b.GateExit? || b.GateDigest? || b.CommandMissing?
    ensures !TokenIn(CodeText(b, errorClass))
  {
    if b.CommandMissing? {
      NameTextQuiet(b.name);
      Joined("COMMAND_MISSING_", NameText(b.name));
    } else {
      GateTextQuiet(b.gate);
      Joined(if b.GateRed? then "GATE_RED_" else if b.GateMissing? then "GATE_MISSING_"
             else if b.GateExit? then "GATE_EXIT_" else "GATE_DIGEST_", GateText(b.gate));
    }
  }

  lemma {:induction false} RoundCodeQuiet(round: nat)
    ensures !TokenIn("CLEAN_EVIDENCE_ROUND_" + Json.Digits(round) + "_RED")
  {
    DigitsQuiet(round);
    QuietSealed(Json.Digits(round));
    Joined("CLEAN_EVIDENCE_ROUND_", Json.Digits(round));
    LacksLetter("_RED");
    NoTokenAcross("CLEAN_EVIDENCE_ROUND_" + Json.Digits(round), "_RED");
  }

  lemma {:induction false} ComposedCodeQuiet(b: V.Blocker, errorClass: string)
    requires Composed(b) && (b.InventoryUnavailable? ==> !TokenIn(errorClass))
    ensures !TokenIn(CodeText(b, errorClass))
  {
    match b {
      case MigrationMarkerInvalid => Joined("MIGRATION_REPLAY_", "MARKER_INVALID");
      case LogCanaryRed => Joined("LOG_CANARY_", "RED");
      case RuntimeInventoryRed => Joined("RUNTIME_INVENTORY_", "EVIDENCE_RED");
      case CleanEvidenceRed(round) => RoundCodeQuiet(round);
      case InventoryUnavailable =>
        LacksLetter("_INVENTORY");
        NoTokenAcross(errorClass, "_INVENTORY");
      case _ => GateCodeQuiet(b, errorClass);
    }
  }

  predicate RecordCode(b: V.Blocker) {
    || b.PgLiveVerifierRed? || b.TargetedTestContractRed? || b.FullTestContractRed? || b.ReverseMetricsRed?
    || b.CleanRebuildMarkerRed? || b.RuntimeImageRed?
  }

  lemma {:induction false} OutputsTexts()
    ensures !TokenIn("PG_LIVE_VERIFIER_RED") && !TokenIn("TARGETED_TEST_CONTRACT_RED") && !TokenIn("FULL_TEST_CONTRACT_RED")
  {
    LacksY("PG_LIVE_VERIFIER_RED");
    LacksY("TARGETED_TEST_CONTRACT_RED");
    LacksY("FULL_TEST_CONTRACT_RED");
  }

  lemma {:induction false} MarkersTexts()
    ensures !TokenIn("REVERSE_METRICS_RED") && !TokenIn("CLEAN_REBUILD_MARKER_RED") && !TokenIn("RUNTIME_IMAGE_RECONCILIATION_RED")
  {
    LacksY("REVERSE_METRICS_RED");
    LacksY("CLEAN_REBUILD_MARKER_RED");
    LacksY("RUNTIME_IMAGE_RECONCILIATION_RED");
  }

  lemma {:induction false} RecordCodeQuiet(b: V.Blocker, errorClass: string)
    requires RecordCode(b)
    ensures !TokenIn(CodeText(b, errorClass))
  {
    OutputsTexts();
    MarkersTexts();
  }

  predicate RunCode(b: V.Blocker) {
    || b.Isolation? || b.SourceChanged? || b.CheckoutChanged? || b.CleanRebuildNondeterministic? || b.GateSetIncomplete?
    || b.CleanEvidenceIncomplete? || b.CleanProjectionRed?
  }

  lemma {:induction false} DriftTexts()
    ensures !TokenIn("FROZEN_F0_LIVE_ISOLATION_REQUIRED")
    ensures !TokenIn("IMPLEMENTATION_SOURCE_CHANGED") && !TokenIn("IMPLEMENTATION_CHECKOUT_CHANGED")
  {
    LacksY("FROZEN_F0_LIVE_ISOLATION_REQUIRED");
    LacksY("IMPLEMENTATION_SOURCE_CHANGED");
    LacksY("IMPLEMENTATION_CHECKOUT_CHANGED");
  }

  lemma {:induction false} RebuildTexts()
    ensures !TokenIn("CLEAN_REBUILD_NONDETERMINISTIC") && !TokenIn("CLEAN_EVIDENCE_NONDETERMINISTIC")
  {
    LacksY("CLEAN_REBUILD_NONDETERMINISTIC");
    LacksY("CLEAN_EVIDENCE_NONDETERMINISTIC");
  }

  lemma {:induction false} IncompleteTexts()
    ensures !TokenIn("FORMAL_GATE_SET_INCOMPLETE") && !TokenIn("CLEAN_EVIDENCE_INCOMPLETE")
  {
    LacksY("FORMAL_GATE_SET_INCOMPLETE");
    LacksY("CLEAN_EVIDENCE_INCOMPLETE");
  }

  lemma {:induction false} RunCodeQuiet(b: V.Blocker, errorClass: string)
    requires RunCode(b)
    ensures !TokenIn(CodeText(b, errorClass))
  {
    DriftTexts();
    RebuildTexts();
    IncompleteTexts();
  }

  predicate ShapeCode(b: V.Blocker) {
    b.EvidenceSchemaInvalid? || b.EvidenceForbiddenMaterial?
  }

  lemma {:induction false} ShapeTexts()
    ensures !TokenIn("EVIDENCE_SCHEMA_INVALID") && !TokenIn("EVIDENCE_FORBIDDEN_MATERIAL")
  {
    LacksY("EVIDENCE_SCHEMA_INVALID");
    LacksY("EVIDENCE_FORBIDDEN_MATERIAL");
  }

  lemma {:induction false} ShapeCodeQuiet(b: V.Blocker, errorClass: string)
    requires ShapeCode(b)
    ensures !TokenIn(CodeText(b, errorClass))
  {
    ShapeTexts();
  }

  predicate GatesCode(b: V.Blocker) {
    b.EvidenceGatesInvalid? || b.EvidenceGateUndeclared? || b.OrchestratorRequired?
  }

  lemma {:induction false} GatesTexts()
    ensures !TokenIn("EVIDENCE_GATES_INVALID") && !TokenIn("EVIDENCE_GATE_UNDECLARED") && !TokenIn("FORMAL_ORCHESTRATOR_REQUIRED")
  {
    LacksY("EVIDENCE_GATES_INVALID");
    LacksY("EVIDENCE_GATE_UNDECLARED");
    LacksY("FORMAL_ORCHESTRATOR_REQUIRED");
  }

  lemma {:induction false} GatesCodeQuiet(b: V.Blocker, errorClass: string)
    requires GatesCode(b)
    ensures !TokenIn(CodeText(b, errorClass))
  {
    GatesTexts();
  }

  predicate MetricCode(b: V.Blocker) {
    b.ReverseMetricsIncomplete? || b.ReverseMetricNonzero?
  }

  lemma {:induction false} MetricTexts()
    ensures !TokenIn("REVERSE_METRICS_INCOMPLETE") && !TokenIn("REVERSE_METRIC_NONZERO")
  {
    LacksY("REVERSE_METRICS_INCOMPLETE");
    LacksY("REVERSE_METRIC_NONZERO");
  }

  lemma {:induction false} DigestTexts()
    ensures !TokenIn("CLEAN_REBUILD_DIGEST_1") && !TokenIn("CLEAN_REBUILD_DIGEST_2")
  {
    LacksY("CLEAN_REBUILD_DIGEST_1");
    LacksY("CLEAN_REBUILD_DIGEST_2");
  }

  lemma {:induction false} SbomTexts()
    ensures !TokenIn("SBOM_EVIDENCE_DIGEST_INVALID") && !TokenIn("SBOM_INVENTORY_MISMATCH")
  {
    LacksY("SBOM_EVIDENCE_DIGEST_INVALID");
    LacksD("SBOM_INVENTORY_MISMATCH");
  }

  lemma {:induction false} MetricCodeQuiet(b: V.Blocker, errorClass: string)
    requires MetricCode(b)
    ensures !TokenIn(CodeText(b, errorClass))
  {
    MetricTexts();
  }

  predicate DigestCode(b: V.Blocker) {
    b.CleanRebuildDigest? || b.SbomEvidenceDigestInvalid? || b.SbomInventoryMismatch?
  }

  lemma {:induction false} DigestCodeQuiet(b: V.Blocker, errorClass: string)
    requires DigestCode(b)
    ensures !TokenIn(CodeText(b, errorClass))
  {
    DigestTexts();
    SbomTexts();
  }

  /** No reason code holds the token: its own words never do. */
  lemma {:induction false} CodeTextQuiet(b: V.Blocker, errorClass: string)
    requires b.InventoryUnavailable? ==> !TokenIn(errorClass)
    ensures !TokenIn(CodeText(b, errorClass))
  {
    if Composed(b) {
      ComposedCodeQuiet(b, errorClass);
    } else if RecordCode(b) {
      RecordCodeQuiet(b, errorClass);
    } else if RunCode(b) {
      RunCodeQuiet(b, errorClass);
    } else if ShapeCode(b) {
      ShapeCodeQuiet(b, errorClass);
    } else if GatesCode(b) {
      GatesCodeQuiet(b, errorClass);
    } else if MetricCode(b) {
      MetricCodeQuiet(b, errorClass);
    } else {
      DigestCodeQuiet(b, errorClass);
    }
  }

  // ---------- what evaluation found ----------

  /** The projection of two rounds' rebuild evidence: digests and two counts. */
  datatype Projection = Projection(
    result: string, source: string, f0i: string, e2e: string, dbSchema: string, pg: string, runtime: string,
    services: nat, residuals: nat, first: string, second: string)

  datatype BuildInputs = BuildInputs(dockerfiles: string, npm: string, python: string, source: string)

  /** A gate's line in the payload, and whether the gate was there. */
  datatype Shown = Shown(present: bool, line: V.Line)

  /** What a rejected candidate is rendered from. */
  datatype Findings = Findings(
    blockers: seq<V.Blocker>, faults: seq<EvidenceFault>, errorClass: string, evidence: Digest, gates: V.Gate -> Shown,
    inventory: string, registry: Digest, source: string, sourceFiles: nat, config: string, runtime: string,
    buildInputs: Option<BuildInputs>, projection: Option<Projection>)

  predicate ProjectionShows(p: Projection) {
    && V.HexOrInvalid(p.result) && V.HexOrInvalid(p.source) && V.HexOrInvalid(p.f0i)
    && V.HexOrInvalid(p.e2e) && V.HexOrInvalid(p.dbSchema) && V.HexOrInvalid(p.pg)
    && V.HexOrInvalid(p.runtime) && V.HexOrInvalid(p.first) && V.HexOrInvalid(p.second)
  }

  predicate InputsShow(b: BuildInputs) {
    V.HexOrInvalid(b.dockerfiles) && V.HexOrInvalid(b.npm) && V.HexOrInvalid(b.python) && V.HexOrInvalid(b.source)
  }

  predicate LineShows(g: V.Gate, x: Shown) {
    V.HexOrInvalid(x.line.digest) && (x.present ==> V.ShowsDigests(g, x.line))
  }

  /** Every text that should be a digest is one, or says INVALID; and the class of an exception that
      kept the inventory from being built, if any, does not hold the token. */
  ghost predicate FindingsShow(f: Findings) {
    && V.HexOrInvalid(f.inventory) && V.HexOrInvalid(f.source) && V.HexOrInvalid(f.config) && V.HexOrInvalid(f.runtime)
    && (f.buildInputs.Some? ==> InputsShow(f.buildInputs.value))
    && (f.projection.Some? ==> ProjectionShows(f.projection.value))
    && (forall g :: LineShows(g, f.gates(g)))
    && (V.InventoryUnavailable in f.blockers ==> !TokenIn(f.errorClass))
  }

  function Codes(blockers: seq<V.Blocker>, errorClass: string): (codes: seq<string>)
    ensures |codes| == |blockers|
  {
    seq(|blockers|, i requires 0 <= i < |blockers| => CodeText(blockers[i], errorClass))
  }

  function Faults(faults: seq<EvidenceFault>): (codes: seq<string>)
    ensures |codes| == |faults|
  {
    seq(|faults|, i requires 0 <= i < |faults| => FaultText(faults[i]))
  }

  /** The reason codes, before sorted(set(...)). */
  function AllCodes(f: Findings): seq<string> {
    Codes(f.blockers, f.errorClass) + Faults(f.faults)
  }

  lemma {:induction false} AllCodesQuiet(f: Findings)
    requires V.InventoryUnavailable in f.blockers ==> !TokenIn(f.errorClass)
    ensures NoTokens(AllCodes(f))
  {
    forall i | 0 <= i < |AllCodes(f)| ensures !TokenIn(AllCodes(f)[i]) {
      if i < |f.blockers| {
        assert f.blockers[i] in f.blockers;
        CodeTextQuiet(f.blockers[i], f.errorClass);
      } else {
        FaultTextQuiet(f.faults[i - |f.blockers|]);
      }
    }
  }

  function Once(codes: seq<string>): seq<string> {
    if codes == [] then [] else (if codes[0] in codes[1..] then [] else [codes[0]]) + Once(codes[1..])
  }

  function Itself(s: string): string {
    s
  }

  /** The reason codes as the payload lists them. */
  function ListedCodes(f: Findings): seq<string> {
    Sorting.SortBy(Itself, Once(AllCodes(f)))
  }

  lemma {:induction false} OnceElements(codes: seq<string>)
    ensures Sorting.SameElements(codes, Once(codes)) && Sorting.NoDuplicates(Once(codes))
  {
    if codes != [] {
      OnceElements(codes[1..]);
      assert codes == [codes[0]] + codes[1..];
    }
  }

  /** Each code is listed once, in code-point order. */
  lemma {:induction false} CodesListed(f: Findings)
    ensures Sorting.SameElements(AllCodes(f), ListedCodes(f)) && Sorting.NoDuplicates(ListedCodes(f))
    ensures forall i, j :: 0 <= i < j < |ListedCodes(f)| ==> Sorting.StrLe(ListedCodes(f)[i], ListedCodes(f)[j])
  {
    OnceElements(AllCodes(f));
    Sorting.SortByElements(Itself, Once(AllCodes(f)));
    Sorting.SortByCorrect(Itself, Once(AllCodes(f)));
    var codes := ListedCodes(f);
    forall i, j | 0 <= i < j < |codes| ensures Sorting.StrLe(codes[i], codes[j]) {
      assert Sorting.StrLe(Itself(codes[i]), Itself(codes[j]));
    }
  }

  lemma {:induction false} ListedCodesQuiet(f: Findings)
    requires V.InventoryUnavailable in f.blockers ==> !TokenIn(f.errorClass)
    ensures NoTokens(ListedCodes(f))
  {
    AllCodesQuiet(f);
    CodesListed(f);
    forall i | 0 <= i < |ListedCodes(f)| ensures !TokenIn(ListedCodes(f)[i]) {
      assert ListedCodes(f)[i] in AllCodes(f);
    }
  }

  // ---------- the payload ----------

  predicate QuietName(f: Field) {
    Batches.Quiet(f.name)
  }

  /** Fields under lower-case names are clean if their values are. */
  lemma {:induction false} QuietFields(fields: seq<Field>)
    requires forall i :: 0 <= i < |fields| ==> QuietName(fields[i])
    requires forall i :: 0 <= i < |fields| ==> ValueClean(fields[i])
    ensures CleanFields(fields)
  {
    if fields != [] {
      assert QuietName(fields[0]) && ValueClean(fields[0]);
      QuietSealed(fields[0].name);
      QuietFields(fields[1..]);
    }
  }

  lemma {:induction false} ShowsClean(s: string)
    requires V.HexOrInvalid(s)
    ensures Clean(Text(s)) && !TokenIn(s)
  {
    if IsHex64(s) {
      HexHasNoToken(s);
    } else {
      LacksLetter(V.INVALID);
    }
  }

  lemma {:induction false} NumberClean(n: int)
    ensures Clean(Material.NumberOf(n))
  {
    DigitsQuiet(if n < 0 then -n else n);
  }

  function BuildInputFields(b: BuildInputs): seq<Field> {
    [ Field("dockerfile_set_sha256", Text(b.dockerfiles)),
      Field("npm_lock_sha256", Text(b.npm)),
      Field("python_lock_sha256", Text(b.python)),
      Field("source_snapshot_sha256", Text(b.source))]
  }

  function BuildInputsNode(b: Option<BuildInputs>): Node {
    if b.None? then Record([]) else Record(BuildInputFields(b.value))
  }

  lemma {:induction false} BuildInputNames(b: BuildInputs)
    ensures forall i :: 0 <= i < 4 ==> QuietName(BuildInputFields(b)[i])
  {
  }

  lemma {:induction false} BuildInputsClean(b: Option<BuildInputs>)
    requires b.Some? ==> InputsShow(b.value)
    ensures Clean(BuildInputsNode(b))
  {
    if b.Some? {
      BuildInputNames(b.value);
      ShowsClean(b.value.dockerfiles);
      ShowsClean(b.value.npm);
      ShowsClean(b.value.python);
      ShowsClean(b.value.source);
      QuietFields(BuildInputFields(b.value));
    }
  }

  const CLEAN_SCHEMA := "f1.1.1-clean-rebuild-evidence-v1"

  function ProjectionHead(p: Projection): seq<Field> {
    [ Field("cleanup_residuals", Material.NumberOf(p.residuals)),
      Field("e2e_sha256", Text(p.e2e)),
      Field("f0i_sha256", Text(p.f0i)),
      Field("pg_sha256", Text(p.pg)),
      Field("result_sha256", Text(p.result)),
      Field("round_1_evidence_sha256", Text(p.first))]
  }

  function ProjectionTail(p: Projection): seq<Field> {
    [ Field("round_2_evidence_sha256", Text(p.second)),
      Field("runtime_sha256", Text(p.runtime)),
      Field("schema", Text(CLEAN_SCHEMA)),
      Field("schema_sha256", Text(p.dbSchema)),
      Field("service_count", Material.NumberOf(p.services)),
      Field("source_sha256", Text(p.source))]
  }

  function ProjectionNode(p: Option<Projection>): Node {
    if p.None? then Record([Field("schema", Text(CLEAN_SCHEMA)), Field("validated", Flag(false))])
    else Record(ProjectionHead(p.value) + ProjectionTail(p.value))
  }

  lemma {:induction false} SchemaClean()
    ensures Clean(Text(CLEAN_SCHEMA))
  {
    LacksY(CLEAN_SCHEMA);
  }

  lemma {:induction false} ProjectionHeadNames(p: Projection)
    ensures forall i :: 0 <= i < 6 ==> QuietName(ProjectionHead(p)[i])
  {
  }

  lemma {:induction false} ProjectionHeadClean(p: Projection)
    requires ProjectionShows(p)
    ensures CleanFields(ProjectionHead(p))
  {
    ProjectionHeadNames(p);
    NumberClean(p.residuals);
    ShowsClean(p.e2e);
    ShowsClean(p.f0i);
    ShowsClean(p.pg);
    ShowsClean(p.result);
    ShowsClean(p.first);
    QuietFields(ProjectionHead(p));
  }

  lemma {:induction false} ProjectionTailNames(p: Projection)
    ensures forall i :: 0 <= i < 6 ==> QuietName(ProjectionTail(p)[i])
  {
  }

  lemma {:induction false} ProjectionTailClean(p: Projection)
    requires ProjectionShows(p)
    ensures CleanFields(ProjectionTail(p))
  {
    ProjectionTailNames(p);
    ShowsClean(p.second);
    ShowsClean(p.runtime);
    SchemaClean();
    ShowsClean(p.dbSchema);
    NumberClean(p.services);
    ShowsClean(p.source);
    QuietFields(ProjectionTail(p));
  }

  lemma {:induction false} ProjectionClean(p: Option<Projection>)
    requires p.Some? ==> ProjectionShows(p.value)
    ensures Clean(ProjectionNode(p))
  {
    if p.Some? {
      ProjectionHeadClean(p.value);
      ProjectionTailClean(p.value);
      CleanFieldsConcat(ProjectionHead(p.value), ProjectionTail(p.value));
    } else {
      SchemaClean();
      QuietFields(ProjectionNode(p).fields);
    }
  }

  function RunHead(f: Findings): seq<Field> {
    [ Field("build_inputs", BuildInputsNode(f.buildInputs)),
      Field("clean_rebuild", ProjectionNode(f.projection)),
      Field("command_registry_sha256", Text(Hex(f.registry))),
      Field("config_sha256", Text(f.config))]
  }

  function RunTail(f: Findings): seq<Field> {
    [ Field("runtime_inventory_sha256", Text(f.runtime)),
      Field("schema", Text("f1.1.1-formal-orchestration-v1")),
      Field("source_file_count", Material.NumberOf(f.sourceFiles)),
      Field("source_sha256", Text(f.source))]
  }

  function RunNode(f: Findings): Node {
    Record(RunHead(f) + RunTail(f))
  }

  lemma {:induction false} RunHeadNames(f: Findings)
    ensures forall i :: 0 <= i < 4 ==> QuietName(RunHead(f)[i])
  {
  }

  lemma {:induction false} RunHeadValues(f: Findings)
    requires FindingsShow(f)
    ensures forall i :: 0 <= i < 4 ==> ValueClean(RunHead(f)[i])
  {
    BuildInputsClean(f.buildInputs);
    ProjectionClean(f.projection);
    HexClean(f.registry);
    ShowsClean(f.config);
  }

  lemma {:induction false} RunHeadClean(f: Findings)
    requires FindingsShow(f)
    ensures CleanFields(RunHead(f))
  {
    RunHeadNames(f);
    RunHeadValues(f);
    QuietFields(RunHead(f));
  }

  lemma {:induction false} RunTailClean(f: Findings)
    requires FindingsShow(f)
    ensures CleanFields(RunTail(f))
  {
    ShowsClean(f.runtime);
    FormalSchemaText();
    NumberClean(f.sourceFiles);
    ShowsClean(f.source);
    QuietFields(RunTail(f));
  }

  lemma {:induction false} RunClean(f: Findings)
    requires FindingsShow(f)
    ensures Clean(RunNode(f))
  {
    RunHeadClean(f);
    RunTailClean(f);
    CleanFieldsConcat(RunHead(f), RunTail(f));
  }

  // ---------- the gates ----------

  lemma {:induction false} GateNameQuiet(g: V.Gate)
    ensures Batches.Quiet(Material.GateName(g))
  {
  }

  /** The gates in the order that sorted keys give. */
  const SHOWN_GATES: seq<V.Gate> := [
    V.CleanRebuild1, V.CleanRebuild2, V.FullRepositoryTests, V.LogCanary, V.MigrationReplay, V.NpmBuild, V.NpmCi, V.NpmLint,
    V.Reverse, V.SbomReconcile, V.TargetedTests]

  function If(shown: bool, name: string, value: Node): seq<Field> {
    if shown then [Field(name, value)] else []
  }

  /** A gate's line: what only some gates show stands around the digest, in key order. */
  function LineHead(g: V.Gate, x: Shown): seq<Field> {
    [Field("exit", Material.NumberOf(x.line.exit))]
    + If(x.present && g == V.SbomReconcile, "inventory_sha256", Text(x.line.inventorySha256))
    + If(x.present && g == V.Reverse, "metric_count", Material.NumberOf(x.line.metricCount))
  }

  function LineTail(g: V.Gate, x: Shown): seq<Field> {
    If(x.present && g == V.Reverse, "metric_nonzero", Material.NumberOf(x.line.metricNonzero))
    + [Field("normalized_output_sha256", Text(x.line.digest))]
    + If(x.present && V.IsRebuild(g), "result_sha256", Text(x.line.resultSha256))
  }

  function LineFields(g: V.Gate, x: Shown): seq<Field> {
    LineHead(g, x) + LineTail(g, x)
  }

  lemma {:induction false} IfClean(shown: bool, name: string, value: Node)
    requires Batches.Quiet(name) && (shown ==> Clean(value))
    ensures CleanFields(If(shown, name, value))
  {
    if shown {
      assert QuietName(Field(name, value)) && ValueClean(Field(name, value));
      QuietFields([Field(name, value)]);
    }
  }

  lemma {:induction false} ThreeParts(a: seq<Field>, b: seq<Field>, c: seq<Field>)
    requires CleanFields(a) && CleanFields(b) && CleanFields(c)
    ensures CleanFields(a + b + c)
  {
    CleanFieldsConcat(a, b);
    CleanFieldsConcat(a + b, c);
  }

  lemma {:induction false} LineHeadClean(g: V.Gate, x: Shown)
    requires LineShows(g, x)
    ensures CleanFields(LineHead(g, x))
  {
    NumberClean(x.line.exit);
    NumberClean(x.line.metricCount);
    if x.present && g == V.SbomReconcile {
      ShowsClean(x.line.inventorySha256);
    }
    IfClean(true, "exit", Material.NumberOf(x.line.exit));
    IfClean(x.present && g == V.SbomReconcile, "inventory_sha256", Text(x.line.inventorySha256));
    IfClean(x.present && g == V.Reverse, "metric_count", Material.NumberOf(x.line.metricCount));
    ThreeParts(If(true, "exit", Material.NumberOf(x.line.exit)),
               If(x.present && g == V.SbomReconcile, "inventory_sha256", Text(x.line.inventorySha256)),
               If(x.present && g == V.Reverse, "metric_count", Material.NumberOf(x.line.metricCount)));
  }

  lemma {:induction false} LineTailClean(g: V.Gate, x: Shown)
    requires LineShows(g, x)
    ensures CleanFields(LineTail(g, x))
  {
    NumberClean(x.line.metricNonzero);
    ShowsClean(x.line.digest);
    if x.present && V.IsRebuild(g) {
      ShowsClean(x.line.resultSha256);
    }
    IfClean(x.present && g == V.Reverse, "metric_nonzero", Material.NumberOf(x.line.metricNonzero));
    IfClean(true, "normalized_output_sha256", Text(x.line.digest));
    IfClean(x.present && V.IsRebuild(g), "result_sha256", Text(x.line.resultSha256));
    ThreeParts(If(x.present && g == V.Reverse, "metric_nonzero", Material.NumberOf(x.line.metricNonzero)),
               If(true, "normalized_output_sha256", Text(x.line.digest)),
               If(x.present && V.IsRebuild(g), "result_sha256", Text(x.line.resultSha256)));
  }

  lemma {:induction false} LineClean(g: V.Gate, x: Shown)
    requires LineShows(g, x)
    ensures CleanFields(LineFields(g, x))
  {
    LineHeadClean(g, x);
    LineTailClean(g, x);
    CleanFieldsConcat(LineHead(g, x), LineTail(g, x));
  }

  function GateFields(gates: seq<V.Gate>, shown: V.Gate -> Shown): seq<Field> {
    if gates == [] then []
    else [Field(Material.GateName(gates[0]), Record(LineFields(gates[0], shown(gates[0]))))] + GateFields(gates[1..], shown)
  }

  lemma {:induction false} GateFieldsClean(gates: seq<V.Gate>, shown: V.Gate -> Shown)
    requires forall g :: LineShows(g, shown(g))
    ensures CleanFields(GateFields(gates, shown))
  {
    if gates != [] {
      GateNameQuiet(gates[0]);
      QuietSealed(Material.GateName(gates[0]));
      LineClean(gates[0], shown(gates[0]));
      GateFieldsClean(gates[1..], shown);
      assert GateFields(gates, shown)[1..] == GateFields(gates[1..], shown);
    }
  }

  // ---------- the candidate ----------

  /** The candidate of an evaluation that found blockers. */
  function RejectedCandidate(f: Findings): Batches.Candidate {
    Batches.Candidate(
      FilesOf(RenderRejected(f.evidence, ListedCodes(f), RunNode(f), Record(GateFields(SHOWN_GATES, f.gates)), f.inventory, f.runtime)),
      false)
  }

  /** A rejected candidate of an evaluation passes the publisher's guard, whatever the blockers, the
      gates and the digests. */
  lemma {:induction false} EvaluatedIsScreened(f: Findings)
    requires FindingsShow(f)
    ensures Batches.Screened(RejectedCandidate(f))
  {
    var gates := Record(GateFields(SHOWN_GATES, f.gates));
    ListedCodesQuiet(f);
    RunClean(f);
    GateFieldsClean(SHOWN_GATES, f.gates);
    ShowsClean(f.inventory);
    ShowsClean(f.runtime);
    RenderRejectedHasNoToken(f.evidence, ListedCodes(f), RunNode(f), gates, f.inventory, f.runtime);
    FilesHaveNoToken(RenderRejected(f.evidence, ListedCodes(f), RunNode(f), gates, f.inventory, f.runtime));
  }

  /** What evaluation ends with: an accepted candidate's files, or what a rejected one is rendered from. */
  datatype Evaluation = Accepted(files: Batches.Files) | Rejected(findings: Findings)

  function CandidateOf(e: Evaluation): Batches.Candidate {
    match e
    case Accepted(files) => Batches.Candidate(files, true)
    case Rejected(findings) => RejectedCandidate(findings)
  }

  ghost predicate WellRendered(e: Evaluation) {
    match e
    case Accepted(files) => files.Keys == Batches.CANDIDATE_FILES
    case Rejected(findings) => FindingsShow(findings)
  }

  lemma {:induction false} EvaluationIsScreened(e: Evaluation)
    requires WellRendered(e)
    ensures Batches.Screened(CandidateOf(e))
  {
    if e.Rejected? {
      EvaluatedIsScreened(e.findings);
    }
  }
}
