/** Backup manifests (infra/f1/local_backup.py): create_manifest commits to a database dump and
    an object-store tree, verify_backup checks a stage against its manifest, and the manifest is
    put in place by writing a temporary file and renaming it. */
module Backup {
  import opened Wrappers
  import opened Bytes
  import opened Json
  import T = Tree

  const MAX_MANIFEST_BYTES := 64 * 1024

  datatype Code =
    | ProjectIdInvalid | DatabaseInvalid | BusinessSnapshotInvalid
    | EntryMissing | EntryExtra | IntegerTooLong
    | TreeOverflow
    | ManifestAlreadyExists | ManifestWriteFailed
    | ManifestSizeInvalid | ManifestJsonInvalid | ManifestDuplicateField | ManifestInvalid
    | ManifestNotCanonical | ManifestProjectMismatch | ManifestDatabaseMismatch
    | DatabaseDumpMismatch | MinioTreeMismatch

  datatype Result<+T> = Ok(value: T) | Err(code: Code)

  datatype Business = Business(tableCount: int, totalRows: int, nonemptyTables: int, countSha256: string)

  datatype Manifest = Manifest(
    projectId: string, database: string, dumpSha256: string, dumpSize: int, business: Business,
    treeSha256: string, fileCount: int, totalSize: int, createdAt: string)

  // ---------- validation ----------

  predicate IsAlphanumeric(c: char) {
    'A' <= c <= 'Z' || 'a' <= c <= 'z' || '0' <= c <= '9'
  }

  /** `^[A-Za-z0-9][A-Za-z0-9_-]{0,127}$`. */
  predicate IsIdentifier(s: string) {
    1 <= |s| <= 128 && IsAlphanumeric(s[0])
    && forall i :: 0 <= i < |s| ==> IsAlphanumeric(s[i]) || s[i] == '_' || s[i] == '-'
  }

  predicate ValidBusiness(b: Business) {
    && (b.tableCount == 31 || b.tableCount == 34 || b.tableCount == 35)
    && 0 <= b.nonemptyTables <= b.tableCount && b.nonemptyTables <= b.totalRows
    && IsHex64(b.countSha256)
  }

  function TwoDigits(s: string, i: nat): int
    requires i + 2 <= |s|
  {
    10 * (s[i] as int - 48) + (s[i + 1] as int - 48)
  }

  function DaysInMonth(year: int, month: int): int {
    if month == 2 then (if year % 4 == 0 && (year % 100 != 0 || year % 400 == 0) then 29 else 28)
    else if month == 4 || month == 6 || month == 9 || month == 11 then 30
    else 31
  }

  /** `YYYY-MM-DDThh:mm:ssZ` naming a moment that exists. */
  predicate IsTimestamp(s: string) {
    && |s| == 20
    && (forall i :: 0 <= i < 20 ==>
          if i == 4 || i == 7 then s[i] == '-'
          else if i == 10 then s[i] == 'T'
          else if i == 13 || i == 16 then s[i] == ':'
          else if i == 19 then s[i] == 'Z'
          else IsDigit(s[i]))
    && (var year, month := 100 * TwoDigits(s, 0) + TwoDigits(s, 2), TwoDigits(s, 5);
        1 <= year && 1 <= month <= 12 && 1 <= TwoDigits(s, 8) <= DaysInMonth(year, month))
    && TwoDigits(s, 11) < 24 && TwoDigits(s, 14) < 60 && TwoDigits(s, 17) < 60
  }

  predicate ValidManifest(m: Manifest) {
    && IsIdentifier(m.projectId) && IsIdentifier(m.database)
    && IsHex64(m.dumpSha256) && IsHex64(m.treeSha256)
    && 0 <= m.dumpSize && 0 <= m.fileCount && 0 <= m.totalSize
    && ValidBusiness(m.business) && IsTimestamp(m.createdAt)
  }

  // ---------- the manifest document ----------

  const MANIFEST_KEYS := [
    "business_count_sha256", "business_nonempty_table_count", "business_table_count",
    "business_total_row_count", "created_at", "database", "db_dump_sha256", "db_dump_size",
    "minio_file_count", "minio_total_size", "minio_tree_sha256", "project_id", "schema"]

  function ManifestFields(m: Manifest): (fields: seq<Field>)
    ensures |fields| == 13
  {
    [Field("business_count_sha256", Str(m.business.countSha256)),
     Field("business_nonempty_table_count", Int(m.business.nonemptyTables)),
     Field("business_table_count", Int(m.business.tableCount)),
     Field("business_total_row_count", Int(m.business.totalRows)),
     Field("created_at", Str(m.createdAt)),
     Field("database", Str(m.database)),
     Field("db_dump_sha256", Str(m.dumpSha256)),
     Field("db_dump_size", Int(m.dumpSize)),
     Field("minio_file_count", Int(m.fileCount)),
     Field("minio_total_size", Int(m.totalSize)),
     Field("minio_tree_sha256", Str(m.treeSha256)),
     Field("project_id", Str(m.projectId)),
     Field("schema", Str("anhuan-engineering-backup-v2"))]
  }

  function ReadBusiness(fields: seq<Field>): Option<Business> {
    var tableCount :- GetInt(fields, "business_table_count");
    var totalRows :- GetInt(fields, "business_total_row_count");
    var nonemptyTables :- GetInt(fields, "business_nonempty_table_count");
    var countSha256 :- GetStr(fields, "business_count_sha256");
    Some(Business(tableCount, totalRows, nonemptyTables, countSha256))
  }

  function ReadFields(fields: seq<Field>): Option<Manifest> {
    var schema :- GetStr(fields, "schema");
    if schema != "anhuan-engineering-backup-v2" then None
    else
      var projectId :- GetStr(fields, "project_id");
      var database :- GetStr(fields, "database");
      var dumpSha256 :- GetStr(fields, "db_dump_sha256");
      var dumpSize :- GetInt(fields, "db_dump_size");
      var business :- ReadBusiness(fields);
      var treeSha256 :- GetStr(fields, "minio_tree_sha256");
      var fileCount :- GetInt(fields, "minio_file_count");
      var totalSize :- GetInt(fields, "minio_total_size");
      var createdAt :- GetStr(fields, "created_at");
      Some(Manifest(projectId, database, dumpSha256, dumpSize, business, treeSha256, fileCount, totalSize, createdAt))
  }

  /** _validate_manifest. */
  function ReadManifest(v: Value): (r: Option<Manifest>)
    ensures r.Some? ==> ValidManifest(r.value)
  {
    if !v.Obj? || !KeysAre(v.fields, MANIFEST_KEYS) then None
    else
      var m :- ReadFields(v.fields);
      if ValidManifest(m) then Some(m) else None
  }

  const LAST_KEYS := ["db_dump_size", "minio_file_count", "minio_total_size", "minio_tree_sha256", "project_id", "schema"]

  lemma {:induction false} LastKeysAscend()
    ensures Ascending(LAST_KEYS)
  {
    AscendingCons("project_id", ["schema"], 0);
    var two := ["project_id"] + ["schema"];
    AscendingCons("minio_tree_sha256", two, 0);
    AscendingCons("minio_total_size", ["minio_tree_sha256"] + two, 7);
    var four := ["minio_total_size"] + (["minio_tree_sha256"] + two);
    AscendingCons("minio_file_count", four, 6);
    AscendingCons("db_dump_size", ["minio_file_count"] + four, 0);
    assert LAST_KEYS == ["db_dump_size"] + (["minio_file_count"] + four);
  }

  const MIDDLE_KEYS := ["business_total_row_count", "created_at", "database", "db_dump_sha256"]

  lemma {:induction false} MiddleKeysAscend(tail: seq<string>)
    requires Ascending(tail) && tail != [] && tail[0] == "db_dump_size"
    ensures Ascending(MIDDLE_KEYS + tail)
  {
    AscendingCons("db_dump_sha256", tail, 9);
    AscendingCons("database", ["db_dump_sha256"] + tail, 1);
    var two := ["database"] + (["db_dump_sha256"] + tail);
    AscendingCons("created_at", two, 0);
    AscendingCons("business_total_row_count", ["created_at"] + two, 0);
    assert MIDDLE_KEYS + tail == ["business_total_row_count"] + (["created_at"] + two);
  }

  const FIRST_KEYS := ["business_count_sha256", "business_nonempty_table_count", "business_table_count"]

  lemma {:induction false} FirstKeysAscend(tail: seq<string>)
    requires Ascending(tail) && tail != [] && tail[0] == "business_total_row_count"
    ensures Ascending(FIRST_KEYS + tail)
  {
    AscendingCons("business_table_count", tail, 10);
    AscendingCons("business_nonempty_table_count", ["business_table_count"] + tail, 9);
    var two := ["business_nonempty_table_count"] + (["business_table_count"] + tail);
    AscendingCons("business_count_sha256", two, 9);
    assert FIRST_KEYS + tail == ["business_count_sha256"] + two;
  }

  /** ManifestFields lists the document the way sort_keys=True does. */
  lemma {:induction false} ManifestKeysAscend()
    ensures Ascending(MANIFEST_KEYS)
  {
    LastKeysAscend();
    MiddleKeysAscend(LAST_KEYS);
    FirstKeysAscend(MIDDLE_KEYS + LAST_KEYS);
    assert MANIFEST_KEYS == FIRST_KEYS + (MIDDLE_KEYS + LAST_KEYS);
  }

  lemma {:induction false} ManifestKeysDistinct(m: Manifest)
    ensures DistinctKeys(ManifestFields(m))
  {
    ManifestKeysAscend();
    AscendingDistinct(ManifestFields(m), MANIFEST_KEYS);
  }

  lemma {:induction false} BusinessRoundTrip(m: Manifest)
    ensures ReadBusiness(ManifestFields(m)) == Some(m.business)
  {
    var fields := ManifestFields(m);
    ManifestKeysDistinct(m);
    GetAt(fields, 0);
    GetAt(fields, 1);
    GetAt(fields, 2);
    GetAt(fields, 3);
  }

  lemma {:induction false} FieldsRoundTrip(m: Manifest)
    ensures ReadFields(ManifestFields(m)) == Some(m)
  {
    var fields := ManifestFields(m);
    ManifestKeysDistinct(m);
    BusinessRoundTrip(m);
    GetAt(fields, 4);
    GetAt(fields, 5);
    GetAt(fields, 6);
    GetAt(fields, 7);
    GetAt(fields, 8);
    GetAt(fields, 9);
    GetAt(fields, 10);
    GetAt(fields, 11);
    GetAt(fields, 12);
  }

  lemma {:induction false} ManifestRoundTrip(m: Manifest)
    requires ValidManifest(m)
    ensures ReadManifest(Obj(ManifestFields(m))) == Some(m)
  {
    KeysAreAt(ManifestFields(m), MANIFEST_KEYS);
    FieldsRoundTrip(m);
  }

  /** json.dumps takes the manifest: each of its integers is short enough to be written. */
  predicate Convertible(m: Manifest) {
    && ConvertibleInt(m.dumpSize) && ConvertibleInt(m.fileCount) && ConvertibleInt(m.totalSize)
    && ConvertibleInt(m.business.tableCount) && ConvertibleInt(m.business.totalRows)
    && ConvertibleInt(m.business.nonemptyTables)
  }

  predicate Writable(m: Manifest) {
    ValidManifest(m) && Convertible(m)
  }

  lemma {:induction false} IdentifierPlain(s: string)
    requires IsIdentifier(s)
    ensures Plain(s)
  {
  }

  lemma {:induction false} TimestampPlain(s: string)
    requires IsTimestamp(s)
    ensures Plain(s)
  {
    forall i | 0 <= i < |s| ensures ' ' <= s[i] <= '~' && s[i] != '"' && s[i] != '\\' {
      assert IsDigit(s[i]) || s[i] == '-' || s[i] == ':' || s[i] == 'T' || s[i] == 'Z';
    }
  }

  lemma {:induction false} IdentifierShort(s: string)
    requires IsIdentifier(s)
    ensures ShortValue(Str(s), MAX_INT_DIGITS)
  {
    IdentifierPlain(s);
    ShortStr(s, MAX_INT_DIGITS);
  }

  lemma {:induction false} TimestampShort(s: string)
    requires IsTimestamp(s)
    ensures ShortValue(Str(s), MAX_INT_DIGITS)
  {
    TimestampPlain(s);
    ShortStr(s, MAX_INT_DIGITS);
  }

  lemma {:induction false} HexShort(s: string)
    requires IsHex64(s)
    ensures ShortValue(Str(s), MAX_INT_DIGITS)
  {
    HexPlain(s);
    ShortStr(s, MAX_INT_DIGITS);
  }

  lemma {:induction false} ConvertibleShort(n: nat)
    requires ConvertibleInt(n)
    ensures ShortValue(Int(n), MAX_INT_DIGITS)
  {
  }

  lemma {:induction false} SchemaShort()
    ensures ShortValue(Str("anhuan-engineering-backup-v2"), MAX_INT_DIGITS)
  {
    ShortStr("anhuan-engineering-backup-v2", MAX_INT_DIGITS);
  }

  lemma {:induction false} FirstValuesShort(m: Manifest)
    requires Writable(m)
    ensures forall i :: 0 <= i < 4 ==> ShortValue(ManifestFields(m)[i].value, MAX_INT_DIGITS)
  {
    HexShort(m.business.countSha256);
    ConvertibleShort(m.business.nonemptyTables);
    ConvertibleShort(m.business.tableCount);
    ConvertibleShort(m.business.totalRows);
  }

  lemma {:induction false} MiddleValuesShort(m: Manifest)
    requires Writable(m)
    ensures forall i :: 4 <= i < 8 ==> ShortValue(ManifestFields(m)[i].value, MAX_INT_DIGITS)
  {
    TimestampShort(m.createdAt);
    IdentifierShort(m.database);
    HexShort(m.dumpSha256);
    ConvertibleShort(m.dumpSize);
  }

  lemma {:induction false} LastValuesShort(m: Manifest)
    requires Writable(m)
    ensures forall i :: 8 <= i < 12 ==> ShortValue(ManifestFields(m)[i].value, MAX_INT_DIGITS)
  {
    ConvertibleShort(m.fileCount);
    ConvertibleShort(m.totalSize);
    HexShort(m.treeSha256);
    IdentifierShort(m.projectId);
  }

  lemma {:induction false} SchemaFieldShort(m: Manifest)
    ensures ShortValue(ManifestFields(m)[12].value, MAX_INT_DIGITS)
  {
    SchemaShort();
  }

  lemma {:induction false} FirstKeysShort()
    ensures ShortKey("business_count_sha256") && ShortKey("business_nonempty_table_count")
    ensures ShortKey("business_table_count") && ShortKey("business_total_row_count")
  {
    LettersPlain("business_count_sha256");
    LettersPlain("business_nonempty_table_count");
    LettersPlain("business_table_count");
    LettersPlain("business_total_row_count");
  }

  lemma {:induction false} MiddleKeysShort()
    ensures ShortKey("created_at") && ShortKey("database") && ShortKey("db_dump_sha256") && ShortKey("db_dump_size")
  {
    LettersPlain("created_at");
    LettersPlain("database");
    LettersPlain("db_dump_sha256");
    LettersPlain("db_dump_size");
  }

  lemma {:induction false} LastKeysShort()
    ensures ShortKey("minio_file_count") && ShortKey("minio_total_size") && ShortKey("minio_tree_sha256")
    ensures ShortKey("project_id") && ShortKey("schema")
  {
    LettersPlain("minio_file_count");
    LettersPlain("minio_total_size");
    LettersPlain("minio_tree_sha256");
    LettersPlain("project_id");
    LettersPlain("schema");
  }

  lemma {:induction false} ManifestKeysShort(m: Manifest)
    ensures forall i :: 0 <= i < 13 ==> ShortKey(ManifestFields(m)[i].key)
  {
    FirstKeysShort();
    MiddleKeysShort();
    LastKeysShort();
  }

  lemma {:induction false} ManifestFieldsShort(m: Manifest)
    requires Writable(m)
    ensures ShortFields(ManifestFields(m), MAX_INT_DIGITS)
  {
    ManifestKeysShort(m);
    FirstValuesShort(m);
    MiddleValuesShort(m);
    LastValuesShort(m);
    SchemaFieldShort(m);
    forall i | 0 <= i < 13 ensures ShortValue(ManifestFields(m)[i].value, MAX_INT_DIGITS) {
      assert i < 4 || 4 <= i < 8 || 8 <= i < 12 || i == 12;
    }
  }

  /** A manifest that can be written is within the 64 KiB that verification reads. */
  lemma {:induction false} ManifestPrints(m: Manifest)
    requires Writable(m)
    ensures WellFormed(Obj(ManifestFields(m)))
    ensures IsAscii(Print(Obj(ManifestFields(m))) + "\n") && |Print(Obj(ManifestFields(m))) + "\n"| <= MAX_MANIFEST_BYTES
  {
    ManifestFieldsShort(m);
    ManifestKeysDistinct(m);
    ObjectLength(ManifestFields(m), MAX_INT_DIGITS);
    PrintAscii(Obj(ManifestFields(m)));
  }

  /** _canonical_json of a manifest; json.dumps raises on the others. */
  function ManifestText(m: Manifest): (s: string)
    requires Writable(m)
    ensures IsAscii(s) && |s| <= MAX_MANIFEST_BYTES
  {
    ManifestPrints(m);
    Print(Obj(ManifestFields(m))) + "\n"
  }

  /** What json.loads and _validate_manifest make of the manifest file. */
  function ParseManifest(raw: bytes): (r: Result<Manifest>)
    ensures r.Ok? ==> Writable(r.value)
  {
    if !AllAscii(raw) then Err(ManifestJsonInvalid)
    else
      match Loads(ToAscii(raw))
      case Malformed => Err(ManifestJsonInvalid)
      case DuplicateKey => Err(ManifestDuplicateField)
      case Parsed(v, _) =>
        if !ConvertibleInts(v) then Err(IntegerTooLong)
        else
          var m := ReadManifest(v);
          if m.None? then Err(ManifestInvalid)
          else
            ReadConvertible(v);
            Ok(m.value)
  }

  lemma {:induction false} BusinessConvertible(fields: seq<Field>)
    requires ConvertibleInts(Obj(fields)) && ReadBusiness(fields).Some?
    ensures var b := ReadBusiness(fields).value;
      ConvertibleInt(b.tableCount) && ConvertibleInt(b.totalRows) && ConvertibleInt(b.nonemptyTables)
  {
    GetIntConvertible(fields, "business_table_count");
    GetIntConvertible(fields, "business_total_row_count");
    GetIntConvertible(fields, "business_nonempty_table_count");
  }

  lemma {:induction false} ReadFieldsConvertible(fields: seq<Field>)
    requires ConvertibleInts(Obj(fields)) && ReadFields(fields).Some?
    ensures Convertible(ReadFields(fields).value)
  {
    BusinessConvertible(fields);
    GetIntConvertible(fields, "db_dump_size");
    GetIntConvertible(fields, "minio_file_count");
    GetIntConvertible(fields, "minio_total_size");
  }

  lemma {:induction false} ReadConvertible(v: Value)
    requires ConvertibleInts(v) && ReadManifest(v).Some?
    ensures Convertible(ReadManifest(v).value)
  {
    ReadFieldsConvertible(v.fields);
  }

  lemma {:induction false} FieldsConvertible(m: Manifest)
    requires Convertible(m)
    ensures ConvertibleInts(Obj(ManifestFields(m)))
  {
    var fields := ManifestFields(m);
    forall f | f in fields ensures ConvertibleInts(f.value) {
      var i :| 0 <= i < 13 && fields[i] == f;
    }
  }

  lemma {:induction false} LoadsOfPrintAndNewline(v: Value)
    requires WellFormed(v)
    ensures Loads(Print(v) + "\n") == Parsed(v, "")
  {
    PrintStart(v);
    SkipNothing(Print(v) + "\n");
    PrintThenParse(v, "\n");
    assert "\n"[1..] == "";
    assert SkipSpace("\n") == SkipSpace("");
  }

  lemma {:induction false} ParseManifestText(m: Manifest)
    requires Writable(m)
    ensures ParseManifest(FromAscii(ManifestText(m))) == Ok(m)
  {
    ManifestPrints(m);
    FieldsConvertible(m);
    LoadsOfPrintAndNewline(Obj(ManifestFields(m)));
    ManifestRoundTrip(m);
    AsciiRoundTrip(ManifestText(m));
  }

  // ---------- what creating and verifying compute ----------

  function Describe(projectId: string, database: string, business: Business, dump: bytes,
                    tree: T.Summary, now: string, h: bytes -> Digest): Manifest {
    Manifest(projectId, database, Hex(h(dump)), |dump|, business,
             Hex(tree.digest), tree.fileCount, tree.totalSize, now)
  }

  /** The checks of verify_backup on the manifest file alone. */
  function CheckDocument(raw: bytes, projectId: string, database: string): (r: Result<Manifest>)
    ensures r.Ok? ==> Writable(r.value)
  {
    if |raw| > MAX_MANIFEST_BYTES then Err(ManifestSizeInvalid)
    else
      var parsed := ParseManifest(raw);
      if parsed.Err? then parsed
      else if raw != FromAscii(ManifestText(parsed.value)) then Err(ManifestNotCanonical)
      else if parsed.value.projectId != projectId then Err(ManifestProjectMismatch)
      else if parsed.value.database != database then Err(ManifestDatabaseMismatch)
      else parsed
  }

  /** The checks of verify_backup on the dump and the tree against an accepted manifest. */
  function CheckContents(m: Manifest, dump: bytes, tree: T.Outcome, h: bytes -> Digest): Result<Manifest> {
    if Hex(h(dump)) != m.dumpSha256 || |dump| != m.dumpSize then Err(DatabaseDumpMismatch)
    else if tree.OverflowError? then Err(TreeOverflow)
    else if Hex(tree.summary.digest) != m.treeSha256 || tree.summary.fileCount != m.fileCount
            || tree.summary.totalSize != m.totalSize then Err(MinioTreeMismatch)
    else Ok(m)
  }

  function Check(raw: bytes, projectId: string, database: string, dump: bytes, tree: T.Outcome,
                 h: bytes -> Digest): Result<Manifest> {
    var document := CheckDocument(raw, projectId, database);
    if document.Err? then document else CheckContents(document.value, dump, tree, h)
  }

  /** A manifest that could be written verifies on the unchanged stage and comes back as it was. */
  lemma {:induction false} CreatedVerifies(m: Manifest, dump: bytes, tree: T.Summary, h: bytes -> Digest)
    requires Writable(m)
    requires m == Describe(m.projectId, m.database, m.business, dump, tree, m.createdAt, h)
    ensures Check(FromAscii(ManifestText(m)), m.projectId, m.database, dump, T.Summarized(tree), h) == Ok(m)
  {
    ParseManifestText(m);
  }

  /** Only the text of a manifest verifies as that manifest, and only under its own names. */
  lemma {:induction false} VerifiedDocument(raw: bytes, projectId: string, database: string, dump: bytes, tree: T.Outcome,
                         h: bytes -> Digest, m: Manifest)
    ensures Check(raw, projectId, database, dump, tree, h) == Ok(m)
       <==> && Writable(m) && m.projectId == projectId && m.database == database
            && raw == FromAscii(ManifestText(m)) && tree.Summarized?
            && m == Describe(m.projectId, m.database, m.business, dump, tree.summary, m.createdAt, h)
  {
    if Writable(m) && raw == FromAscii(ManifestText(m)) {
      ParseManifestText(m);
    }
  }

  /** Verification catches every later change: a stage that verifies under a manifest made for
      one dump and tree holds that dump and a tree with the same paths, kinds, sizes and content
      digests, unless it exhibits a collision of the hash. */
  lemma {:induction false} ChangesAreCaught(m: Manifest, dump: bytes, root: T.Node, records: seq<T.Record>,
                         dump': bytes, root': T.Node, records': seq<T.Record>, h: bytes -> Digest)
    requires T.ValidTree(root) && T.SortedList(root, h, records) && T.AllFit(records)
    requires T.ValidTree(root') && T.SortedList(root', h, records') && T.AllFit(records')
    requires m == Describe(m.projectId, m.database, m.business, dump, T.Summarize(h, records).summary, m.createdAt, h)
    requires CheckContents(m, dump', T.Summarize(h, records'), h) == Ok(m)
    requires Separates(h, dump, dump')
    requires Separates(h, T.TREE_DOMAIN + T.TreeStream(records), T.TREE_DOMAIN + T.TreeStream(records'))
    ensures dump' == dump && T.SameTree(root, root', h)
  {
    HexInjective(h(dump), h(dump'));
    HexInjective(T.Summarize(h, records).summary.digest, T.Summarize(h, records').summary.digest);
    T.SummaryIffSameTree(root, root', h, records, records');
  }

  // ---------- the stage directory ----------

  datatype WriteOutcome = Written | WriteError(code: Code) | Crashed

  /** How a call goes: it succeeds, it fails, or the process stops there. */
  datatype Turn = Fine | Fails | Stops

  /** How the calls of a write go: opening the temporary file, each write and how much it takes, what
      comes before the replacement and what after it, and removing the temporary file. */
  datatype Disk = Disk(open: Turn, write: nat -> Turn, takes: nat -> nat, finish: Turn, confirm: Turn, unlink: Turn)

  /** A write takes some of the n bytes that are left. */
  function Taken(disk: Disk, k: nat, n: nat): (t: nat)
    requires n > 0
    ensures 1 <= t <= n
  {
    if disk.takes(k) < 1 then 1 else if disk.takes(k) > n then n else disk.takes(k)
  }

  /** The writes of n bytes, from the k-th on, all succeed. */
  predicate WritesFine(disk: Disk, k: nat, n: nat)
    decreases n
  {
    n == 0 || (disk.write(k).Fine? && WritesFine(disk, k + 1, n - Taken(disk, k, n)))
  }

  /** No call of a write of n bytes fails. */
  predicate Completes(disk: Disk, n: nat) {
    disk.open.Fine? && WritesFine(disk, 0, n) && disk.finish.Fine? && disk.confirm.Fine?
  }

  ghost predicate NoFault(disk: Disk) {
    disk.open.Fine? && (forall k: nat :: disk.write(k).Fine?) && disk.finish.Fine? && disk.confirm.Fine?
  }

  /** No call of the write of this manifest fails. */
  predicate Lands(disk: Disk, m: Manifest) {
    Writable(m) && Completes(disk, |ManifestText(m)|)
  }

  lemma {:induction false} NoFaultWrites(disk: Disk, k: nat, n: nat)
    requires NoFault(disk)
    ensures WritesFine(disk, k, n)
    decreases n
  {
    if n > 0 {
      NoFaultWrites(disk, k + 1, n - Taken(disk, k, n));
    }
  }

  /** A backup stage: the two inputs, the manifest, temporary manifest files, and the names of
      anything else that lies in the directory. */
  class Stage {
    var dump: Option<bytes>
    var tree: Option<T.Node>
    var manifest: Option<bytes>
    var temporaries: map<string, bytes>
    var others: set<string>

    ghost predicate Valid()
      reads this
    {
      tree.Some? ==> tree.value.Dir? && T.ValidTree(tree.value)
    }

    /** _require_exact_root. */
    method RequireExactRoot(withManifest: bool) returns (r: Result<()>)
      ensures r.Ok? <==> dump.Some? && tree.Some? && manifest.Some? == withManifest && others == {} && temporaries == map[]
      ensures r.Err? ==> r.code == EntryMissing || r.code == EntryExtra
    {
      if dump.None? || tree.None? || (withManifest && manifest.None?) {
        return Err(EntryMissing);
      }
      if (!withManifest && manifest.Some?) || others != {} || temporaries != map[] {
        return Err(EntryExtra);
      }
      return Ok(());
    }

    /** _atomic_write_manifest. Each call may fail, and the process may stop at it; a write may be
        short. It succeeds exactly when there is no manifest yet and no call fails. */
    method AtomicWriteManifest(payload: bytes, name: string, disk: Disk) returns (outcome: WriteOutcome)
      modifies this`manifest, this`temporaries
      ensures manifest == old(manifest) || (old(manifest) == None && manifest == Some(payload))
      ensures outcome.Written? <==> old(manifest) == None && name !in old(temporaries) && Completes(disk, |payload|)
      ensures outcome.Written? ==> manifest == Some(payload)
      ensures old(manifest).Some? ==> outcome == WriteError(ManifestAlreadyExists)
      ensures outcome.Written? ==> temporaries == old(temporaries) - {name}
      ensures temporaries - {name} == old(temporaries) - {name}
    {
      if manifest.Some? {
        return WriteError(ManifestAlreadyExists);
      }
      if disk.open.Stops? {
        return Crashed;
      }
      if name in temporaries || disk.open.Fails? {
        // os.open refused: an existing name under O_EXCL, or any other OSError.
        outcome := Unlink(name, ManifestWriteFailed, disk.unlink);
        return;
      }
      var filled := Fill(payload, name, disk);
      if !filled.Fine? || !disk.finish.Fine? {
        // A write, fsync, fstat, close or replace failed, or the process stopped at it.
        if filled.Stops? || (filled.Fine? && disk.finish.Stops?) {
          return Crashed;
        }
        outcome := Unlink(name, ManifestWriteFailed, disk.unlink);
        return;
      }
      manifest := Some(temporaries[name]);
      temporaries := temporaries - {name};
      if disk.confirm.Stops? {
        return Crashed;
      }
      if disk.confirm.Fails? {
        // Reading the manifest back, or syncing the directory, failed: it is in place all the same.
        return WriteError(ManifestWriteFailed);
      }
      return Written;
    }

    /** The temporary file is created and filled. */
    method Fill(payload: bytes, name: string, disk: Disk) returns (turn: Turn)
      requires name !in temporaries
      modifies this`temporaries
      ensures temporaries - {name} == old(temporaries) - {name}
      ensures turn.Fine? <==> WritesFine(disk, 0, |payload|)
      ensures turn.Fine? ==> name in temporaries && temporaries[name] == payload
    {
      temporaries := temporaries[name := []];
      var written, k := 0, 0;
      while written < |payload|
        invariant 0 <= written <= |payload|
        invariant name in temporaries && temporaries[name] == payload[..written]
        invariant temporaries - {name} == old(temporaries) - {name}
        invariant WritesFine(disk, 0, |payload|) <==> WritesFine(disk, k, |payload| - written)
      {
        turn := disk.write(k);
        if !turn.Fine? {
          return;
        }
        var n := Taken(disk, k, |payload| - written);
        temporaries := temporaries[name := temporaries[name] + payload[written..written + n]];
        assert payload[..written] + payload[written..written + n] == payload[..written + n];
        written, k := written + n, k + 1;
      }
      assert payload[..written] == payload;
      turn := Fine;
    }

    /** The finally block of a failed write; unlinking may itself fail, which is ignored. */
    method Unlink(name: string, code: Code, turn: Turn) returns (outcome: WriteOutcome)
      modifies this`temporaries
      ensures outcome == if turn.Stops? then Crashed else WriteError(code)
      ensures temporaries - {name} == old(temporaries) - {name}
      ensures turn.Fine? ==> name !in temporaries
    {
      if turn.Stops? {
        return Crashed;
      }
      if turn.Fine? {
        temporaries := temporaries - {name};
      }
      return WriteError(code);
    }

    /** What create_manifest needs of the stage and its arguments. */
    ghost predicate Ready(projectId: string, database: string, business: Business, now: string)
      reads this
    {
      && IsIdentifier(projectId) && IsIdentifier(database) && ValidBusiness(business) && IsTimestamp(now)
      && dump.Some? && tree.Some? && others == {}
    }

    /** The manifest that describes the stage, given the one sorted list of its tree. */
    ghost predicate Described(m: Manifest, projectId: string, database: string, business: Business, now: string,
                              h: bytes -> Digest, records: seq<T.Record>)
      reads this
    {
      && Ready(projectId, database, business, now)
      && T.SortedList(tree.value, h, records) && T.AllFit(records)
      && m == Describe(projectId, database, business, dump.value, T.Summarize(h, records).summary, now, h)
    }

    /** A manifest can be made of the stage: it holds the two inputs and nothing else, the tree's
        lengths and sizes fit the integers of its stream, and json.dumps takes the manifest's. */
    ghost predicate Creatable(projectId: string, database: string, business: Business, now: string, h: bytes -> Digest)
      reads this
    {
      && Ready(projectId, database, business, now) && manifest.None? && temporaries == map[]
      && exists records :: T.SortedList(tree.value, h, records) && T.AllFit(records)
           && Convertible(Describe(projectId, database, business, dump.value, T.Summarize(h, records).summary, now, h))
    }

    /** create_manifest up to the point where it writes: the manifest that describes the stage, exactly
        where one can be made. */
    method ComputeManifest(projectId: string, database: string, business: Business, now: string, h: bytes -> Digest)
      returns (r: Result<Manifest>, ghost records: seq<T.Record>)
      requires Valid() && IsTimestamp(now)
      ensures r.Ok? <==> Creatable(projectId, database, business, now, h)
      ensures r.Ok? ==> manifest.None? && temporaries == map[] && Writable(r.value)
      ensures r.Ok? ==> Described(r.value, projectId, database, business, now, h, records)
      ensures r.Err? && r.code == IntegerTooLong ==>
        exists m :: Described(m, projectId, database, business, now, h, records) && !Convertible(m)
    {
      records := [];
      if !IsIdentifier(projectId) {
        return Err(ProjectIdInvalid), [];
      }
      if !IsIdentifier(database) {
        return Err(DatabaseInvalid), [];
      }
      if !ValidBusiness(business) {
        return Err(BusinessSnapshotInvalid), [];
      }
      var root := RequireExactRoot(false);
      if root.Err? {
        return Err(root.code), [];
      }
      var summary;
      summary, records := T.TreeSummary(tree.value, h);
      OneList(h, records);
      if summary.OverflowError? {
        return Err(TreeOverflow), records;
      }
      var m := Describe(projectId, database, business, dump.value, summary.summary, now, h);
      DescribedValid(m, dump.value, summary.summary, h);
      assert Described(m, projectId, database, business, now, h, records);
      r := if Convertible(m) then Ok(m) else Err(IntegerTooLong);
    }

    lemma {:induction false} OneList(h: bytes -> Digest, records: seq<T.Record>)
      requires Valid() && tree.Some? && T.SortedList(tree.value, h, records)
      ensures forall other :: T.SortedList(tree.value, h, other) ==> other == records
    {
      forall other | T.SortedList(tree.value, h, other) ensures other == records {
        T.SortedListUnique(tree.value, h, records, other);
      }
    }

    /** create_manifest: what is written is the manifest that describes the stage, or nothing. */
    method CreateManifest(projectId: string, database: string, business: Business, now: string,
                          name: string, disk: Disk, h: bytes -> Digest)
      returns (r: Result<Manifest>, crashed: bool, ghost made: Result<Manifest>, ghost records: seq<T.Record>)
      requires Valid() && IsTimestamp(now)
      modifies this`manifest, this`temporaries
      ensures made.Ok? <==> old(Creatable(projectId, database, business, now, h))
      ensures made.Ok? ==> old(manifest).None? && old(temporaries) == map[] && Writable(made.value)
      ensures made.Ok? ==> Described(made.value, projectId, database, business, now, h, records)
      ensures manifest == old(manifest) || (made.Ok? && manifest == Some(FromAscii(ManifestText(made.value))))
      ensures r.Ok? && !crashed ==> r == made && manifest == Some(FromAscii(ManifestText(r.value))) && temporaries == map[]
      ensures made.Err? ==> r == made && !crashed
      ensures r.Ok? && !crashed <==> made.Ok? && Lands(disk, made.value)
    {
      r, records := ComputeManifest(projectId, database, business, now, h);
      made := r;
      crashed := false;
      if r.Ok? {
        assert temporaries == map[];
        r, crashed := WriteManifest(r.value, name, disk);
      }
    }

    /** create_manifest from the point where it writes. */
    method WriteManifest(m: Manifest, name: string, disk: Disk) returns (r: Result<Manifest>, crashed: bool)
      requires Writable(m) && temporaries == map[] && others == {} && dump.Some? && tree.Some? && manifest.None?
      modifies this`manifest, this`temporaries
      ensures manifest == old(manifest) || manifest == Some(FromAscii(ManifestText(m)))
      ensures r.Ok? && !crashed ==> r == Ok(m) && manifest == Some(FromAscii(ManifestText(m))) && temporaries == map[]
      ensures r.Ok? && !crashed <==> Lands(disk, m)
    {
      var outcome := AtomicWriteManifest(FromAscii(ManifestText(m)), name, disk);
      crashed := outcome.Crashed?;
      r := Ok(m);
      if outcome.WriteError? {
        r := Err(outcome.code);
      } else if outcome.Written? {
        var root := RequireExactRoot(true);
        // Nothing else has touched the stage, so this check passes.
        match root {
          case Ok(_) =>
          case Err(code) => r := Err(code);
        }
      }
    }

    /** The names and contents that verify_backup asks for before it looks into them. */
    ghost predicate Complete(projectId: string, database: string)
      reads this
    {
      && IsIdentifier(projectId) && IsIdentifier(database)
      && dump.Some? && tree.Some? && manifest.Some? && temporaries == map[] && others == {}
    }

    /** verify_backup. */
    method VerifyBackup(projectId: string, database: string, h: bytes -> Digest)
      returns (r: Result<Manifest>, ghost records: seq<T.Record>)
      requires Valid()
      ensures r.Ok? ==> Complete(projectId, database)
      ensures Complete(projectId, database) ==>
        && T.SortedList(tree.value, h, records)
        && r == Check(manifest.value, projectId, database, dump.value, T.Summarize(h, records), h)
    {
      records := [];
      if !IsIdentifier(projectId) {
        return Err(ProjectIdInvalid), [];
      }
      if !IsIdentifier(database) {
        return Err(DatabaseInvalid), [];
      }
      var root := RequireExactRoot(true);
      if root.Err? {
        return Err(root.code), [];
      }
      var document := CheckDocument(manifest.value, projectId, database);
      var summary;
      summary, records := T.TreeSummary(tree.value, h);
      r := if document.Err? then document else CheckContents(document.value, dump.value, summary, h);
    }

    /** The round trip on one stage that nobody touches in between: once creation has returned,
        the stage holds the text of the manifest that describes it, and verification under the same
        identifiers returns that manifest. */
    method CreateThenVerify(projectId: string, database: string, business: Business, now: string,
                            name: string, disk: Disk, h: bytes -> Digest)
      returns (created: Result<Manifest>, crashed: bool, verified: Result<Manifest>, ghost records: seq<T.Record>)
      requires Valid() && IsTimestamp(now)
      modifies this`manifest, this`temporaries
      ensures created.Ok? && !crashed ==> old(Creatable(projectId, database, business, now, h)) && verified == created
      ensures created.Ok? && !crashed ==> Described(created.value, projectId, database, business, now, h, records)
      ensures created.Ok? && !crashed ==>
        Writable(created.value) && manifest == Some(FromAscii(ManifestText(created.value))) && temporaries == map[]
      ensures !old(Creatable(projectId, database, business, now, h)) ==> created.Err? && manifest == old(manifest)
      ensures old(Creatable(projectId, database, business, now, h)) && NoFault(disk) ==>
        created.Ok? && !crashed && verified == created
    {
      ghost var made, again;
      created, crashed, made, records := CreateManifest(projectId, database, business, now, name, disk, h);
      if made.Ok? && NoFault(disk) {
        NoFaultWrites(disk, 0, |ManifestText(made.value)|);
        assert Lands(disk, made.value);
      }
      verified, again := VerifyBackup(projectId, database, h);
      if created.Ok? && !crashed {
        T.SortedListUnique(tree.value, h, records, again);
        CreatedVerifies(created.value, dump.value, T.Summarize(h, records).summary, h);
      }
    }
  }

  lemma {:induction false} DescribedValid(m: Manifest, dump: bytes, tree: T.Summary, h: bytes -> Digest)
    requires m == Describe(m.projectId, m.database, m.business, dump, tree, m.createdAt, h)
    requires IsIdentifier(m.projectId) && IsIdentifier(m.database) && ValidBusiness(m.business)
    requires IsTimestamp(m.createdAt)
    ensures ValidManifest(m)
  {
  }

  /** verify_restored_minio: the two trees' summaries agree exactly when the trees do, up to a
      collision of the hash on their streams. */
  method VerifyRestored(backup: T.Node, restored: T.Node, h: bytes -> Digest)
    returns (r: Option<T.Summary>, ghost ra: seq<T.Record>, ghost rb: seq<T.Record>)
    requires backup.Dir? && restored.Dir? && T.ValidTree(backup) && T.ValidTree(restored)
    ensures T.SortedList(backup, h, ra) && T.SortedList(restored, h, rb)
    ensures T.SameTree(backup, restored, h) && T.AllFit(ra) ==> r.Some?
    ensures r.Some? ==> T.AllFit(ra) && T.AllFit(rb) && T.Summarize(h, rb) == T.Summarized(r.value)
    ensures r.Some? && Separates(h, T.TREE_DOMAIN + T.TreeStream(ra), T.TREE_DOMAIN + T.TreeStream(rb))
      ==> T.SameTree(backup, restored, h)
    ensures r.Some? ==> forall other :: T.SortedList(restored, h, other) ==> T.Summarize(h, other) == T.Summarized(r.value)
  {
    var expected, observed;
    expected, ra := T.TreeSummary(backup, h);
    observed, rb := T.TreeSummary(restored, h);
    T.ComparisonDecides(backup, restored, h, ra, rb);
    r := if expected.Summarized? && observed == expected then Some(observed.summary) else None;
  }
}
