/** What a reader of the rejection that evaluation renders finds: the reason codes, the digests of the
    run, and what each gate's line shows. */
module EvaluatedReader {
  import opened Wrappers
  import opened Bytes
  import opened Documents
  import opened RejectionReader
  import opened EvaluatedRejection
  import Batches
  import EvidenceMeaning
  import F = Formal
  import FormalRun
  import J = Json
  import Material
  import R = Rejection
  import Sorting
  import V = Verdict

  // ---------- the characters of reason codes ----------

  /** Letters, digits and underscores. */
  predicate Wordy(s: string) {
    forall i :: 0 <= i < |s| ==> 'A' <= s[i] <= 'Z' || 'a' <= s[i] <= 'z' || '0' <= s[i] <= '9' || s[i] == '_'
  }

  lemma {:induction false} WordyPlain(s: string)
    requires Wordy(s)
    ensures J.Plain(s) && '<' !in s
  {
  }

  lemma {:induction false} WordyJoin(a: string, b: string)
    requires Wordy(a) && Wordy(b)
    ensures Wordy(a + b)
  {
  }

  lemma {:induction false} WordyDigits(n: nat)
    ensures Wordy(J.Digits(n))
  {
    J.DigitsSpelling(n);
    forall i | 0 <= i < |J.Digits(n)| ensures '0' <= J.Digits(n)[i] <= '9' {
      assert J.IsDigit(J.Digits(n)[i]);
    }
  }

  lemma {:induction false} GateTextWordy(g: V.Gate)
    ensures Wordy(GateText(g))
  {
  }

  lemma {:induction false} NameTextWordy(n: V.Name)
    ensures Wordy(NameText(n))
  {
    if n.OfGate? {
      GateTextWordy(n.gate);
    }
  }

  lemma {:induction false} FaultTextWordy(f: EvidenceFault)
    ensures Wordy(FaultText(f))
  {
  }

  lemma {:induction false} GatePrefixes()
    ensures Wordy("GATE_RED_") && Wordy("GATE_MISSING_") && Wordy("GATE_EXIT_") && Wordy("GATE_DIGEST_")
  {
  }

  lemma {:induction false} GateCodeWordy(b: V.Blocker, errorClass: string)
    requires b.GateRed? || b.GateMissing? || b.GateExit? || b.GateDigest? || b.CommandMissing?
    ensures Wordy(CodeText(b, errorClass))
  {
    if b.CommandMissing? {
      NameTextWordy(b.name);
      WordyJoin("COMMAND_MISSING_", NameText(b.name));
    } else {
      GateTextWordy(b.gate);
      GatePrefixes();
      WordyJoin(if b.GateRed? then "GATE_RED_" else if b.GateMissing? then "GATE_MISSING_"
                else if b.GateExit? then "GATE_EXIT_" else "GATE_DIGEST_", GateText(b.gate));
    }
  }

  lemma {:induction false} TwoPartWords()
    ensures Wordy("MIGRATION_REPLAY_" + "MARKER_INVALID") && Wordy("LOG_CANARY_" + "RED") && Wordy("RUNTIME_INVENTORY_" + "EVIDENCE_RED")
  {
    WordyJoin("MIGRATION_REPLAY_", "MARKER_INVALID");
    WordyJoin("LOG_CANARY_", "RED");
    WordyJoin("RUNTIME_INVENTORY_", "EVIDENCE_RED");
  }

  lemma {:induction false} RoundCodeWordy(round: nat)
    ensures Wordy("CLEAN_EVIDENCE_ROUND_" + J.Digits(round) + "_RED")
  {
    WordyDigits(round);
    WordyJoin("CLEAN_EVIDENCE_ROUND_", J.Digits(round));
    WordyJoin("CLEAN_EVIDENCE_ROUND_" + J.Digits(round), "_RED");
  }

  lemma {:induction false} ComposedCodeWordy(b: V.Blocker, errorClass: string)
    requires Composed(b) && (b.InventoryUnavailable? ==> Wordy(errorClass))
    ensures Wordy(CodeText(b, errorClass))
  {
    match b {
      case MigrationMarkerInvalid => TwoPartWords();
      case LogCanaryRed => TwoPartWords();
      case RuntimeInventoryRed => TwoPartWords();
      case CleanEvidenceRed(round) => RoundCodeWordy(round);
      case InventoryUnavailable => WordyJoin(errorClass, "_INVENTORY");
      case _ => GateCodeWordy(b, errorClass);
    }
  }

  lemma {:induction false} OutputTexts()
    ensures Wordy("PG_LIVE_VERIFIER_RED") && Wordy("TARGETED_TEST_CONTRACT_RED") && Wordy("FULL_TEST_CONTRACT_RED")
  {
  }

  lemma {:induction false} MarkerTexts()
    ensures Wordy("REVERSE_METRICS_RED") && Wordy("CLEAN_REBUILD_MARKER_RED") && Wordy("RUNTIME_IMAGE_RECONCILIATION_RED")
  {
  }

  lemma {:induction false} RecordCodeWordy(b: V.Blocker, errorClass: string)
    requires RecordCode(b)
    ensures Wordy(CodeText(b, errorClass))
  {
    OutputTexts();
    MarkerTexts();
  }

  lemma {:induction false} DriftWords()
    ensures Wordy("FROZEN_F0_LIVE_ISOLATION_REQUIRED") && Wordy("IMPLEMENTATION_SOURCE_CHANGED") && Wordy("IMPLEMENTATION_CHECKOUT_CHANGED")
  {
  }

  lemma {:induction false} RebuildWords()
    ensures Wordy("CLEAN_REBUILD_NONDETERMINISTIC") && Wordy("CLEAN_EVIDENCE_NONDETERMINISTIC")
  {
  }

  lemma {:induction false} IncompleteWords()
    ensures Wordy("FORMAL_GATE_SET_INCOMPLETE") && Wordy("CLEAN_EVIDENCE_INCOMPLETE")
  {
  }

  lemma {:induction false} RunCodeWordy(b: V.Blocker, errorClass: string)
    requires RunCode(b)
    ensures Wordy(CodeText(b, errorClass))
  {
    DriftWords();
    RebuildWords();
    IncompleteWords();
  }

  lemma {:induction false} ShapeWords()
    ensures Wordy("EVIDENCE_SCHEMA_INVALID") && Wordy("EVIDENCE_FORBIDDEN_MATERIAL")
  {
  }

  lemma {:induction false} GatesWords()
    ensures Wordy("EVIDENCE_GATES_INVALID") && Wordy("EVIDENCE_GATE_UNDECLARED") && Wordy("FORMAL_ORCHESTRATOR_REQUIRED")
  {
  }

  lemma {:induction false} ShapeCodeWordy(b: V.Blocker, errorClass: string)
    requires ShapeCode(b)
    ensures Wordy(CodeText(b, errorClass))
  {
    ShapeWords();
  }

  lemma {:induction false} GatesCodeWordy(b: V.Blocker, errorClass: string)
    requires GatesCode(b)
    ensures Wordy(CodeText(b, errorClass))
  {
    GatesWords();
  }

  lemma {:induction false} MetricWords()
    ensures Wordy("REVERSE_METRICS_INCOMPLETE") && Wordy("REVERSE_METRIC_NONZERO")
  {
  }

  lemma {:induction false} DigestWords()
    ensures Wordy("CLEAN_REBUILD_DIGEST_1") && Wordy("CLEAN_REBUILD_DIGEST_2")
  {
  }

  lemma {:induction false} SbomWords()
    ensures Wordy("SBOM_EVIDENCE_DIGEST_INVALID") && Wordy("SBOM_INVENTORY_MISMATCH")
  {
  }

  lemma {:induction false} DigestCodeWordy(b: V.Blocker, errorClass: string)
    requires DigestCode(b)
    ensures Wordy(CodeText(b, errorClass))
  {
    DigestWords();
    SbomWords();
  }

  lemma {:induction false} MetricCodeWordy(b: V.Blocker, errorClass: string)
    requires MetricCode(b)
    ensures Wordy(CodeText(b, errorClass))
  {
    MetricWords();
  }

  lemma {:induction false} CodeTextWordy(b: V.Blocker, errorClass: string)
    requires b.InventoryUnavailable? ==> Wordy(errorClass)
    ensures Wordy(CodeText(b, errorClass))
  {
    if Composed(b) {
      ComposedCodeWordy(b, errorClass);
    } else if RecordCode(b) {
      RecordCodeWordy(b, errorClass);
    } else if RunCode(b) {
      RunCodeWordy(b, errorClass);
    } else if ShapeCode(b) {
      ShapeCodeWordy(b, errorClass);
    } else if GatesCode(b) {
      GatesCodeWordy(b, errorClass);
    } else if MetricCode(b) {
      MetricCodeWordy(b, errorClass);
    } else {
      DigestCodeWordy(b, errorClass);
    }
  }

  predicate EachWordy(codes: seq<string>) {
    forall i :: 0 <= i < |codes| ==> Wordy(codes[i])
  }

  lemma {:induction false} EachJoin(a: seq<string>, b: seq<string>)
    requires EachWordy(a) && EachWordy(b)
    ensures EachWordy(a + b)
  {
  }

  lemma {:induction false} CodesWordy(blockers: seq<V.Blocker>, errorClass: string)
    requires V.InventoryUnavailable in blockers ==> Wordy(errorClass)
    ensures EachWordy(Codes(blockers, errorClass))
  {
    forall k | 0 <= k < |blockers| ensures Wordy(Codes(blockers, errorClass)[k]) {
      var b := blockers[k];
      assert b in blockers;
      CodeTextWordy(b, errorClass);
    }
  }

  lemma {:induction false} FaultsWordy(faults: seq<EvidenceFault>)
    ensures EachWordy(Faults(faults))
  {
    forall k | 0 <= k < |faults| ensures Wordy(Faults(faults)[k]) {
      FaultTextWordy(faults[k]);
    }
  }

  lemma {:induction false} AllCodesWordy(f: Findings)
    requires V.InventoryUnavailable in f.blockers ==> Wordy(f.errorClass)
    ensures EachWordy(AllCodes(f))
  {
    CodesWordy(f.blockers, f.errorClass);
    FaultsWordy(f.faults);
    EachJoin(Codes(f.blockers, f.errorClass), Faults(f.faults));
  }

  lemma {:induction false} SomeWordy(codes: seq<string>, listed: seq<string>)
    requires EachWordy(codes) && Sorting.SameElements(codes, listed)
    ensures EachWordy(listed)
  {
    forall i | 0 <= i < |listed| ensures Wordy(listed[i]) {
      assert listed[i] in codes;
    }
  }

  lemma {:induction false} ListedCodesWordy(f: Findings)
    requires V.InventoryUnavailable in f.blockers ==> Wordy(f.errorClass)
    ensures EachWordy(ListedCodes(f))
  {
    CodesListed(f);
    AllCodesWordy(f);
    SomeWordy(AllCodes(f), ListedCodes(f));
  }

  // ---------- the document ----------

  lemma {:induction false} ShowsPlain(s: string)
    requires V.HexOrInvalid(s)
    ensures J.Plain(s)
  {
    if IsHex64(s) {
      J.HexPlain(s);
    }
  }

  lemma {:induction false} NumberReadable(n: int)
    ensures Readable(Material.NumberOf(n))
  {
    var m := if n < 0 then -n else n;
    J.DigitsSpelling(m);
    if n < 0 {
      var s := "-" + J.Digits(m);
      assert forall i :: 1 <= i < |s| ==> s[i] == J.Digits(m)[i - 1];
    }
  }

  lemma {:induction false} BuildInputWords()
    ensures J.Plain("dockerfile_set_sha256") && J.Plain("npm_lock_sha256") && J.Plain("python_lock_sha256")
    ensures J.Plain("source_snapshot_sha256")
  {
  }

  lemma {:induction false} BuildInputsReadable(b: Option<BuildInputs>)
    requires b.Some? ==> InputsShow(b.value)
    ensures Readable(BuildInputsNode(b))
  {
    if b.Some? {
      BuildInputWords();
      ShowsPlain(b.value.dockerfiles);
      ShowsPlain(b.value.npm);
      ShowsPlain(b.value.python);
      ShowsPlain(b.value.source);
      EachThenAll(BuildInputFields(b.value));
    }
  }

  lemma {:induction false} ProjectionHeadWords()
    ensures J.Plain("cleanup_residuals") && J.Plain("e2e_sha256") && J.Plain("f0i_sha256")
  {
  }

  lemma {:induction false} ProjectionMiddleWords()
    ensures J.Plain("pg_sha256") && J.Plain("result_sha256") && J.Plain("round_1_evidence_sha256")
  {
  }

  lemma {:induction false} ProjectionTailWords()
    ensures J.Plain("round_2_evidence_sha256") && J.Plain("runtime_sha256")
  {
  }

  lemma {:induction false} ProjectionLastWords()
    ensures J.Plain("schema_sha256") && J.Plain("service_count") && J.Plain("source_sha256")
  {
  }

  lemma {:induction false} SchemaNames()
    ensures J.Plain("schema") && J.Plain("validated") && J.Plain(CLEAN_SCHEMA)
  {
  }

  lemma {:induction false} ProjectionHeadReadable(p: Projection)
    requires ProjectionShows(p)
    ensures ReadableFields(ProjectionHead(p))
  {
    ProjectionHeadWords();
    ProjectionMiddleWords();
    NumberReadable(p.residuals);
    ShowsPlain(p.e2e);
    ShowsPlain(p.f0i);
    ShowsPlain(p.pg);
    ShowsPlain(p.result);
    ShowsPlain(p.first);
    EachThenAll(ProjectionHead(p));
  }

  lemma {:induction false} ProjectionTailReadable(p: Projection)
    requires ProjectionShows(p)
    ensures ReadableFields(ProjectionTail(p))
  {
    ProjectionTailWords();
    ProjectionLastWords();
    SchemaNames();
    ShowsPlain(p.second);
    ShowsPlain(p.runtime);
    ShowsPlain(p.dbSchema);
    NumberReadable(p.services);
    ShowsPlain(p.source);
    EachThenAll(ProjectionTail(p));
  }

  lemma {:induction false} ProjectionReadable(p: Option<Projection>)
    requires p.Some? ==> ProjectionShows(p.value)
    ensures Readable(ProjectionNode(p))
  {
    if p.Some? {
      ProjectionHeadReadable(p.value);
      ProjectionTailReadable(p.value);
      FieldsJoin(ProjectionHead(p.value), ProjectionTail(p.value));
    } else {
      SchemaNames();
      EachThenAll(ProjectionNode(p).fields);
    }
  }

  lemma {:induction false} RunHeadWords()
    ensures J.Plain("build_inputs") && J.Plain("clean_rebuild")
  {
  }

  lemma {:induction false} RunMiddleWords()
    ensures J.Plain("command_registry_sha256") && J.Plain("config_sha256")
  {
  }

  lemma {:induction false} RunTailWords()
    ensures J.Plain("runtime_inventory_sha256") && J.Plain("source_file_count")
  {
  }

  lemma {:induction false} RunLastWords()
    ensures J.Plain("source_sha256") && J.Plain("f1.1.1-formal-orchestration-v1")
  {
  }

  lemma {:induction false} RunReadable(f: Findings)
    requires FindingsShow(f)
    ensures Readable(RunNode(f))
  {
    RunHeadWords();
    RunMiddleWords();
    BuildInputsReadable(f.buildInputs);
    ProjectionReadable(f.projection);
    J.HexPlain(Hex(f.registry));
    ShowsPlain(f.config);
    EachThenAll(RunHead(f));
    RunTailReadable(f);
    FieldsJoin(RunHead(f), RunTail(f));
  }

  lemma {:induction false} RunTailReadable(f: Findings)
    requires FindingsShow(f)
    ensures ReadableFields(RunTail(f))
  {
    RunTailWords();
    RunLastWords();
    SchemaNames();
    ShowsPlain(f.runtime);
    NumberReadable(f.sourceFiles);
    ShowsPlain(f.source);
    EachThenAll(RunTail(f));
  }

  lemma {:induction false} IfReadable(shown: bool, name: string, value: Node)
    requires J.Plain(name) && (shown ==> Readable(value))
    ensures ReadableFields(If(shown, name, value))
  {
    if shown {
      EachThenAll([Field(name, value)]);
    }
  }

  lemma {:induction false} LineNames()
    ensures J.Plain("exit") && J.Plain("inventory_sha256") && J.Plain("metric_count")
    ensures J.Plain("metric_nonzero") && J.Plain("normalized_output_sha256") && J.Plain("result_sha256")
  {
  }

  lemma {:induction false} ThreeReadable(a: seq<Field>, b: seq<Field>, c: seq<Field>)
    requires ReadableFields(a) && ReadableFields(b) && ReadableFields(c)
    ensures ReadableFields(a + b + c)
  {
    FieldsJoin(a, b);
    FieldsJoin(a + b, c);
  }

  lemma {:induction false} LineHeadReadable(g: V.Gate, x: Shown)
    requires LineShows(g, x)
    ensures ReadableFields(LineHead(g, x))
  {
    LineNames();
    NumberReadable(x.line.exit);
    NumberReadable(x.line.metricCount);
    if x.present && g == V.SbomReconcile {
      ShowsPlain(x.line.inventorySha256);
    }
    IfReadable(true, "exit", Material.NumberOf(x.line.exit));
    IfReadable(x.present && g == V.SbomReconcile, "inventory_sha256", Text(x.line.inventorySha256));
    IfReadable(x.present && g == V.Reverse, "metric_count", Material.NumberOf(x.line.metricCount));
    ThreeReadable(If(true, "exit", Material.NumberOf(x.line.exit)),
                  If(x.present && g == V.SbomReconcile, "inventory_sha256", Text(x.line.inventorySha256)),
                  If(x.present && g == V.Reverse, "metric_count", Material.NumberOf(x.line.metricCount)));
  }

  lemma {:induction false} LineTailReadable(g: V.Gate, x: Shown)
    requires LineShows(g, x)
    ensures ReadableFields(LineTail(g, x))
  {
    LineNames();
    NumberReadable(x.line.metricNonzero);
    ShowsPlain(x.line.digest);
    if x.present && V.IsRebuild(g) {
      ShowsPlain(x.line.resultSha256);
    }
    IfReadable(x.present && g == V.Reverse, "metric_nonzero", Material.NumberOf(x.line.metricNonzero));
    IfReadable(true, "normalized_output_sha256", Text(x.line.digest));
    IfReadable(x.present && V.IsRebuild(g), "result_sha256", Text(x.line.resultSha256));
    ThreeReadable(If(x.present && g == V.Reverse, "metric_nonzero", Material.NumberOf(x.line.metricNonzero)),
                  If(true, "normalized_output_sha256", Text(x.line.digest)),
                  If(x.present && V.IsRebuild(g), "result_sha256", Text(x.line.resultSha256)));
  }

  lemma {:induction false} CommandGatePlain(g: V.Gate)
    requires g in {V.MigrationReplay, V.TargetedTests, V.FullRepositoryTests, V.NpmCi, V.NpmLint, V.NpmBuild}
    ensures J.Plain(Material.GateName(g))
  {
  }

  lemma {:induction false} GateNamePlain(g: V.Gate)
    ensures J.Plain(Material.GateName(g))
  {
    if g in {V.MigrationReplay, V.TargetedTests, V.FullRepositoryTests, V.NpmCi, V.NpmLint, V.NpmBuild} {
      CommandGatePlain(g);
    }
  }

  lemma {:induction false} GateFieldsReadable(gates: seq<V.Gate>, shown: V.Gate -> Shown)
    requires forall g :: LineShows(g, shown(g))
    ensures ReadableFields(GateFields(gates, shown))
  {
    if gates != [] {
      var g := gates[0];
      GateNamePlain(g);
      LineHeadReadable(g, shown(g));
      LineTailReadable(g, shown(g));
      FieldsJoin(LineHead(g, shown(g)), LineTail(g, shown(g)));
      GateFieldsReadable(gates[1..], shown);
      assert GateFields(gates, shown)[1..] == GateFields(gates[1..], shown);
    }
  }

  // ---------- what the reader finds ----------

  /** The texts of the run in the payload's formal part. */
  ghost predicate RunSays(n: Option<Node>, f: Findings) {
    && FieldOf(n, "command_registry_sha256") == Some(Text(Hex(f.registry))) && FieldOf(n, "config_sha256") == Some(Text(f.config))
    && FieldOf(n, "runtime_inventory_sha256") == Some(Text(f.runtime)) && FieldOf(n, "source_sha256") == Some(Text(f.source))
    && FieldOf(n, "source_file_count") == Some(Number(J.Digits(f.sourceFiles)))
  }

  lemma {:induction false} RunHeadDiffer()
    ensures "build_inputs" != "command_registry_sha256" && "build_inputs" != "config_sha256"
    ensures "clean_rebuild" != "command_registry_sha256" && "clean_rebuild" != "config_sha256"
    ensures "command_registry_sha256" != "config_sha256"
  {
  }

  lemma {:induction false} RunTailDiffer()
    ensures "runtime_inventory_sha256" != "schema" && "runtime_inventory_sha256" != "source_file_count"
    ensures "runtime_inventory_sha256" != "source_sha256" && "schema" != "source_file_count" && "schema" != "source_sha256"
    ensures "source_file_count" != "source_sha256"
  {
  }

  lemma {:induction false} HeadTailDiffer()
    ensures "build_inputs" !in ["runtime_inventory_sha256", "source_file_count", "source_sha256"]
    ensures "clean_rebuild" !in ["runtime_inventory_sha256", "source_file_count", "source_sha256"]
    ensures "command_registry_sha256" !in ["runtime_inventory_sha256", "source_file_count", "source_sha256"]
    ensures "config_sha256" !in ["runtime_inventory_sha256", "source_file_count", "source_sha256"]
  {
  }

  lemma {:induction false} LookupBehind(a: seq<Field>, b: seq<Field>, name: string)
    requires forall i :: 0 <= i < |a| ==> a[i].name != name
    ensures Lookup(a + b, name) == Lookup(b, name)
  {
    if a == [] {
      assert a + b == b;
    } else {
      LookupBehind(a[1..], b, name);
      assert (a + b)[1..] == a[1..] + b;
    }
  }

  lemma {:induction false} RunHeadHolds(f: Findings)
    ensures Lookup(RunHead(f), "command_registry_sha256") == Some(Text(Hex(f.registry)))
    ensures Lookup(RunHead(f), "config_sha256") == Some(Text(f.config))
  {
    RunHeadDiffer();
    LookupAt(RunHead(f), 2);
    LookupAt(RunHead(f), 3);
  }

  lemma {:induction false} RunTailHolds(f: Findings)
    ensures Lookup(RunTail(f), "runtime_inventory_sha256") == Some(Text(f.runtime))
    ensures Lookup(RunTail(f), "source_file_count") == Some(Number(J.Digits(f.sourceFiles)))
    ensures Lookup(RunTail(f), "source_sha256") == Some(Text(f.source))
  {
    RunTailDiffer();
    LookupAt(RunTail(f), 0);
    LookupAt(RunTail(f), 2);
    LookupAt(RunTail(f), 3);
  }

  lemma {:induction false} RunHolds(f: Findings)
    ensures RunSays(Some(RunNode(f)), f)
  {
    var head, tail := RunHead(f), RunTail(f);
    RunHeadHolds(f);
    RunTailHolds(f);
    LookupJoined(head, tail, "command_registry_sha256");
    LookupJoined(head, tail, "config_sha256");
    HeadTailDiffer();
    LookupBehind(head, tail, "runtime_inventory_sha256");
    LookupBehind(head, tail, "source_file_count");
    LookupBehind(head, tail, "source_sha256");
  }

  /** What a gate's line says. */
  ghost predicate LineSays(n: Option<Node>, g: V.Gate, x: Shown) {
    && FieldOf(n, "exit") == Some(Material.NumberOf(x.line.exit))
    && FieldOf(n, "normalized_output_sha256") == Some(Text(x.line.digest))
    && (x.present && (g == V.CleanRebuild1 || g == V.CleanRebuild2) ==> FieldOf(n, "result_sha256") == Some(Text(x.line.resultSha256)))
    && (x.present && g == V.SbomReconcile ==> FieldOf(n, "inventory_sha256") == Some(Text(x.line.inventorySha256)))
    && (x.present && g == V.Reverse ==>
          FieldOf(n, "metric_count") == Some(Material.NumberOf(x.line.metricCount))
          && FieldOf(n, "metric_nonzero") == Some(Material.NumberOf(x.line.metricNonzero)))
  }

  lemma {:induction false} IfLookup(shown: bool, name: string, value: Node, sought: string)
    ensures Lookup(If(shown, name, value), sought) == if shown && name == sought then Some(value) else None
  {
    if shown {
      assert [Field(name, value)][1..] == [];
    }
  }

  lemma {:induction false} LineDiffer()
    ensures "exit" !in ["normalized_output_sha256", "result_sha256", "inventory_sha256", "metric_count", "metric_nonzero"]
    ensures "inventory_sha256" !in ["normalized_output_sha256", "result_sha256", "metric_count", "metric_nonzero"]
    ensures "metric_count" !in ["normalized_output_sha256", "result_sha256", "metric_nonzero"]
    ensures "metric_nonzero" !in ["normalized_output_sha256", "result_sha256"] && "normalized_output_sha256" != "result_sha256"
  {
  }

  lemma {:induction false} LineLookup(g: V.Gate, x: Shown, name: string)
    ensures Lookup(LineFields(g, x), name) ==
      if name == "exit" then Some(Material.NumberOf(x.line.exit))
      else if x.present && g == V.SbomReconcile && name == "inventory_sha256" then Some(Text(x.line.inventorySha256))
      else if x.present && g == V.Reverse && name == "metric_count" then Some(Material.NumberOf(x.line.metricCount))
      else if x.present && g == V.Reverse && name == "metric_nonzero" then Some(Material.NumberOf(x.line.metricNonzero))
      else if name == "normalized_output_sha256" then Some(Text(x.line.digest))
      else if x.present && V.IsRebuild(g) && name == "result_sha256" then Some(Text(x.line.resultSha256))
      else None
  {
    var exit := If(true, "exit", Material.NumberOf(x.line.exit));
    var inventory := If(x.present && g == V.SbomReconcile, "inventory_sha256", Text(x.line.inventorySha256));
    var count := If(x.present && g == V.Reverse, "metric_count", Material.NumberOf(x.line.metricCount));
    var nonzero := If(x.present && g == V.Reverse, "metric_nonzero", Material.NumberOf(x.line.metricNonzero));
    var digest := If(true, "normalized_output_sha256", Text(x.line.digest));
    var result := If(x.present && V.IsRebuild(g), "result_sha256", Text(x.line.resultSha256));
    IfLookup(true, "exit", Material.NumberOf(x.line.exit), name);
    IfLookup(x.present && g == V.SbomReconcile, "inventory_sha256", Text(x.line.inventorySha256), name);
    IfLookup(x.present && g == V.Reverse, "metric_count", Material.NumberOf(x.line.metricCount), name);
    IfLookup(x.present && g == V.Reverse, "metric_nonzero", Material.NumberOf(x.line.metricNonzero), name);
    IfLookup(true, "normalized_output_sha256", Text(x.line.digest), name);
    IfLookup(x.present && V.IsRebuild(g), "result_sha256", Text(x.line.resultSha256), name);
    ThreeLookup(exit, inventory, count, name);
    ThreeLookup(nonzero, digest, result, name);
    EvidenceMeaning.LookupTail(exit + inventory + count, nonzero + digest + result, name);
  }

  lemma {:induction false} ThreeLookup(a: seq<Field>, b: seq<Field>, c: seq<Field>, name: string)
    ensures Lookup(a + b + c, name)
         == if Lookup(a, name).Some? then Lookup(a, name) else if Lookup(b, name).Some? then Lookup(b, name) else Lookup(c, name)
  {
    EvidenceMeaning.LookupTail(a + b, c, name);
    EvidenceMeaning.LookupTail(a, b, name);
  }

  lemma {:induction false} LineHolds(g: V.Gate, x: Shown)
    ensures LineSays(Some(Record(LineFields(g, x))), g, x)
  {
    LineDiffer();
    LineLookup(g, x, "exit");
    LineLookup(g, x, "normalized_output_sha256");
    LineLookup(g, x, "result_sha256");
    LineLookup(g, x, "inventory_sha256");
    LineLookup(g, x, "metric_count");
    LineLookup(g, x, "metric_nonzero");
  }

  lemma {:induction false} GateNamesDiffer(g: V.Gate, k: V.Gate)
    requires Material.GateName(g) == Material.GateName(k)
    ensures g == k
  {
    var s, t := Material.GateName(g), Material.GateName(k);
    assert |s| == |t| && s[|s| - 1] == t[|t| - 1] && s[4] == t[4];
  }

  lemma {:induction false} GatesHold(gates: seq<V.Gate>, shown: V.Gate -> Shown, g: V.Gate)
    requires g in gates
    ensures Lookup(GateFields(gates, shown), Material.GateName(g)) == Some(Record(LineFields(g, shown(g))))
  {
    assert GateFields(gates, shown)[1..] == GateFields(gates[1..], shown);
    if gates[0] != g {
      if Material.GateName(gates[0]) == Material.GateName(g) {
        GateNamesDiffer(gates[0], g);
      }
      GatesHold(gates[1..], shown, g);
    }
  }

  lemma {:induction false} AllShown(g: V.Gate)
    ensures g in SHOWN_GATES
  {
    var i := match g
      case CleanRebuild1 => 0
      case CleanRebuild2 => 1
      case FullRepositoryTests => 2
      case LogCanary => 3
      case MigrationReplay => 4
      case NpmBuild => 5
      case NpmCi => 6
      case NpmLint => 7
      case Reverse => 8
      case SbomReconcile => 9
      case TargetedTests => 10;
    assert SHOWN_GATES[i] == g;
  }

  // ---------- the rejection of an evaluation ----------

  /** What acceptance.json of the rejection says: not accepted, which codes, of which run, and which line
      for each gate. */
  ghost predicate Says(data: bytes, f: Findings) {
    var n := ReadDocument(data);
    && Rejects(data, f.evidence, ListedCodes(f)) && FieldOf(n, "inventory_sha256") == Some(Text(f.inventory))
    && RunSays(FieldOf(n, "formal"), f)
    && forall g :: LineSays(FieldOf(FieldOf(n, "gates"), Material.GateName(g)), g, f.gates(g))
  }

  lemma {:induction false} PayloadDiffer()
    ensures "formal" != "gates" && "formal" != "inventory_sha256" && "gates" != "inventory_sha256"
    ensures forall name :: name in ["formal", "gates", "inventory_sha256"] ==>
      name != "accepted" && name != "accuracy_evaluated" && name != "arbitrary_upload_closed" && name != "blockers"
      && name != "conclusion" && name != "evidence_sha256"
  {
  }

  lemma {:induction false} PayloadLookup(evidence: Digest, blockers: seq<string>, formal: Node, gates: Node, inventory: string)
    ensures var n := Some(R.AcceptanceNode(evidence, blockers, formal, gates, inventory));
      FieldOf(n, "formal") == Some(formal) && FieldOf(n, "gates") == Some(gates) && FieldOf(n, "inventory_sha256") == Some(Text(inventory))
  {
    var head, tail := R.AcceptanceHead(evidence, blockers), R.AcceptanceTail(formal, gates, inventory);
    PayloadDiffer();
    assert "formal" in ["formal", "gates", "inventory_sha256"] && "gates" in ["formal", "gates", "inventory_sha256"];
    assert "inventory_sha256" in ["formal", "gates", "inventory_sha256"];
    LookupBehind(head, tail, "formal");
    LookupBehind(head, tail, "gates");
    LookupBehind(head, tail, "inventory_sha256");
    LookupAt(tail, 0);
    LookupAt(tail, 1);
    LookupAt(tail, 2);
  }

  lemma {:induction false} CodesReadable(f: Findings)
    requires V.InventoryUnavailable in f.blockers ==> Wordy(f.errorClass)
    ensures AllPlain(ListedCodes(f)) && forall i :: 0 <= i < |ListedCodes(f)| ==> '<' !in ListedCodes(f)[i]
  {
    ListedCodesWordy(f);
    forall i | 0 <= i < |ListedCodes(f)| ensures J.Plain(ListedCodes(f)[i]) && '<' !in ListedCodes(f)[i] {
      WordyPlain(ListedCodes(f)[i]);
    }
  }

  function GatesNode(f: Findings): Node {
    Record(GateFields(SHOWN_GATES, f.gates))
  }

  function Payload(f: Findings): Node {
    R.AcceptanceNode(f.evidence, ListedCodes(f), RunNode(f), GatesNode(f), f.inventory)
  }

  lemma {:induction false} PayloadReads(f: Findings)
    requires FindingsShow(f) && (V.InventoryUnavailable in f.blockers ==> Wordy(f.errorClass))
    ensures var data := RejectedCandidate(f).files["acceptance.json"];
      ReadDocument(data) == Some(Payload(f)) && Rejects(data, f.evidence, ListedCodes(f))
  {
    CodesReadable(f);
    RunReadable(f);
    GateFieldsReadable(SHOWN_GATES, f.gates);
    ShowsPlain(f.inventory);
    RejectionReads(f.evidence, ListedCodes(f), RunNode(f), GatesNode(f), f.inventory, f.runtime);
    PayloadRead(f.evidence, ListedCodes(f), RunNode(f), GatesNode(f), f.inventory, f.runtime);
  }

  lemma {:induction false} GatesSay(f: Findings, g: V.Gate)
    ensures LineSays(FieldOf(Some(GatesNode(f)), Material.GateName(g)), g, f.gates(g))
  {
    AllShown(g);
    GatesHold(SHOWN_GATES, f.gates, g);
    LineHolds(g, f.gates(g));
  }

  lemma {:induction false} PayloadSays(data: bytes, f: Findings)
    requires ReadDocument(data) == Some(Payload(f)) && Rejects(data, f.evidence, ListedCodes(f))
    ensures Says(data, f)
  {
    PayloadLookup(f.evidence, ListedCodes(f), RunNode(f), GatesNode(f), f.inventory);
    RunHolds(f);
    forall g ensures LineSays(FieldOf(Some(GatesNode(f)), Material.GateName(g)), g, f.gates(g)) {
      GatesSay(f, g);
    }
  }

  /** A reader of the rejection that evaluation renders finds all of this, and on its status page the
      same codes. */
  lemma {:induction false} EvaluatedReads(f: Findings)
    requires FindingsShow(f) && (V.InventoryUnavailable in f.blockers ==> Wordy(f.errorClass))
    ensures var files := RejectedCandidate(f).files; Says(files["acceptance.json"], f) && ReadPage(files["status.html"]) == Some(ListedCodes(f))
  {
    PayloadReads(f);
    PayloadSays(RejectedCandidate(f).files["acceptance.json"], f);
    CodesReadable(f);
    PageReads(f.evidence, ListedCodes(f));
  }

  // ---------- from the answers to the reader ----------

  /** What a reader finds, in terms of what the run was given and what it found. */
  ghost predicate Tells(files: Batches.Files, setup: F.Setup, a: F.Answers, facts: FormalRun.Facts, blockers: seq<V.Blocker>,
                        summary: map<V.Gate, V.Line>)
    requires "acceptance.json" in files && "status.html" in files && forall g :: g in summary
  {
    var n := ReadDocument(files["acceptance.json"]);
    var formal, gates := FieldOf(n, "formal"), FieldOf(n, "gates");
    && FieldOf(n, "accepted") == Some(Flag(false)) && FieldOf(n, "evidence_sha256") == Some(Text(Hex(facts.evidence)))
    && FieldOf(n, "inventory_sha256") == Some(Text(if a.rebuilt.Some? then Hex(a.rebuilt.value) else "INVALID"))
    && FieldOf(formal, "command_registry_sha256") == Some(Text(Hex(facts.registry)))
    && FieldOf(formal, "config_sha256") == Some(Text(facts.config))
    && FieldOf(formal, "source_sha256") == Some(Text(setup.before.sha256))
    && FieldOf(formal, "runtime_inventory_sha256") == Some(Text(if a.inventoried then facts.runtime else "INVALID"))
    && (forall g :: LineSays(FieldOf(gates, Material.GateName(g)), g, Shown(true, summary[g])))
    && exists codes :: ListsTexts(FieldOf(n, "blockers"), codes) && ReadPage(files["status.html"]) == Some(codes)
         && Sorting.NoDuplicates(codes) && forall c :: c in codes <==> CodeOfRun(c, facts, blockers)
  }

  /** The code of a blocker that was found, or of a fault in the rebuilds' evidence. */
  ghost predicate CodeOfRun(c: string, facts: FormalRun.Facts, blockers: seq<V.Blocker>) {
    || (exists b :: b in blockers && c == CodeText(b, facts.errorClass))
    || (exists f :: f in facts.faults && c == FaultText(f))
  }

  lemma {:induction false} InCodes(blockers: seq<V.Blocker>, errorClass: string, c: string)
    ensures c in Codes(blockers, errorClass) <==> exists b :: b in blockers && c == CodeText(b, errorClass)
  {
    var codes := Codes(blockers, errorClass);
    if c in codes {
      var k :| 0 <= k < |codes| && codes[k] == c;
      assert blockers[k] in blockers;
    }
    if b :| b in blockers && c == CodeText(b, errorClass) {
      var k :| 0 <= k < |blockers| && blockers[k] == b;
      assert codes[k] == c;
    }
  }

  lemma {:induction false} InFaults(faults: seq<EvidenceFault>, c: string)
    ensures c in Faults(faults) <==> exists f :: f in faults && c == FaultText(f)
  {
    var codes := Faults(faults);
    if c in codes {
      var k :| 0 <= k < |codes| && codes[k] == c;
      assert faults[k] in faults;
    }
    if f :| f in faults && c == FaultText(f) {
      var k :| 0 <= k < |faults| && faults[k] == f;
      assert codes[k] == c;
    }
  }

  lemma {:induction false} CodesOfRun(f: Findings, facts: FormalRun.Facts, c: string)
    requires f.errorClass == facts.errorClass && f.faults == facts.faults
    ensures c in ListedCodes(f) <==> CodeOfRun(c, facts, f.blockers)
  {
    CodesListed(f);
    InCodes(f.blockers, f.errorClass, c);
    InFaults(f.faults, c);
    assert c in ListedCodes(f) <==> c in AllCodes(f);
  }

  /** The rejection that a run renders, read back: its digests, a line for each gate, and as reason codes
      exactly those of the blockers and faults that were found. */
  lemma {:induction false} RunReads(setup: F.Setup, a: F.Answers, facts: FormalRun.Facts, blockers: seq<V.Blocker>,
                                    summary: map<V.Gate, V.Line>)
    requires FormalRun.FactsOk(setup, facts) && Wordy(facts.errorClass)
    requires forall g :: g in summary && V.ShowsDigests(g, summary[g])
    ensures Tells(RejectedCandidate(FormalRun.FindingsOf(setup, a, facts, blockers, summary)).files, setup, a, facts, blockers, summary)
  {
    var f := FormalRun.FindingsOf(setup, a, facts, blockers, summary);
    FormalRun.FindingsOk(setup, a, facts, blockers, summary);
    EvaluatedReads(f);
    CodesListed(f);
    forall c ensures c in ListedCodes(f) <==> CodeOfRun(c, facts, blockers) {
      CodesOfRun(f, facts, c);
    }
    forall g ensures f.gates(g) == Shown(true, summary[g]) {
      assert g in summary;
    }
  }
}
