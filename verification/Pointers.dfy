/** What a reader of the shared directory finds: current.json and a batch's manifest.json are parsed as
    JSON, and their entries are looked up by key. */
module Pointers {
  import opened Wrappers
  import opened Bytes
  import opened Json
  import opened Batches

  // ---------- indented JSON ----------

  /** White space between two tokens. */
  predicate IsGap(g: string) {
    forall i :: 0 <= i < |g| ==> IsSpace(g[i])
  }

  lemma {:induction false} SkipGap(g: string, s: string)
    requires IsGap(g) && s != "" && !IsSpace(s[0])
    ensures SkipSpace(g + s) == s
  {
    if g == "" {
      assert g + s == s;
    } else {
      assert (g + s)[1..] == g[1..] + s;
      SkipGap(g[1..], s);
    }
  }

  lemma {:induction false} ParsePlain(s: string, rest: string)
    requires Plain(s)
    ensures ParseString(s + "\"" + rest) == Parsed(s, rest)
  {
    EscapePlain(s);
    QuoteLength(s);
    ParseStringOfEscape(s, rest);
  }

  lemma {:induction false} TextValue(s: string, rest: string)
    requires Plain(s)
    ensures ParseValue("\"" + (s + "\"" + rest)) == Parsed(Str(s), rest)
  {
    ParsePlain(s, rest);
    assert ("\"" + (s + "\"" + rest))[1..] == s + "\"" + rest;
  }

  /** A key and what follows its colon. */
  lemma {:induction false} KeyText(key: string, text: string)
    requires Plain(key) && text != "" && !IsSpace(text[0])
    ensures var s := key + "\"" + (": " + text);
      ParseString(s) == Parsed(key, ": " + text) && SkipSpace(": " + text) == ": " + text && SkipSpace((": " + text)[1..]) == text
  {
    ParsePlain(key, ": " + text);
    SkipNothing(": " + text);
    assert (": " + text)[1..] == " " + text;
    SkipGap(" ", text);
  }

  function Member(key: string, text: string): string {
    "\"" + (key + "\"" + (": " + text))
  }

  lemma {:induction false} LastMember(key: string, text: string, v: Value, g: string, rest: string)
    requires Plain(key) && StartsPlainly(text) && IsGap(g) && ParseValue(text) == Parsed(v, g + ("}" + rest))
    ensures ParseFields(Member(key, text)) == Parsed([Field(key, v)], rest)
  {
    KeyText(key, text);
    SkipGap(g, "}" + rest);
    assert ("}" + rest)[1..] == rest;
    assert Member(key, text)[1..] == key + "\"" + (": " + text);
  }

  lemma {:induction false} NextMember(key: string, text: string, v: Value, g: string, tail: string, fields: seq<Field>, rest: string)
    requires Plain(key) && StartsPlainly(text) && IsGap(g) && StartsPlainly(tail)
    requires ParseValue(text) == Parsed(v, "," + (g + tail)) && ParseFields(tail) == Parsed(fields, rest)
    ensures ParseFields(Member(key, text)) == Parsed([Field(key, v)] + fields, rest)
  {
    KeyText(key, text);
    SkipNothing("," + (g + tail));
    assert ("," + (g + tail))[1..] == g + tail;
    SkipGap(g, tail);
    assert Member(key, text)[1..] == key + "\"" + (": " + text);
  }

  lemma {:induction false} ObjectText(g: string, body: string, fields: seq<Field>, rest: string)
    requires IsGap(g) && StartsPlainly(body) && ParseFields(body) == Parsed(fields, rest) && DistinctKeys(fields)
    ensures ParseValue("{" + (g + body)) == Parsed(Obj(fields), rest)
  {
    assert ("{" + (g + body))[1..] == g + body;
    SkipGap(g, body);
  }

  /** A text entry that another follows, and one that closes its object. */
  function Entry(key: string, s: string, g: string, tail: string): string {
    Member(key, "\"" + (s + "\"" + ("," + (g + tail))))
  }

  function LastEntry(key: string, s: string, g: string, rest: string): string {
    Member(key, "\"" + (s + "\"" + (g + ("}" + rest))))
  }

  lemma {:induction false} EntryParses(key: string, s: string, g: string, tail: string, fields: seq<Field>, rest: string)
    requires Plain(key) && Plain(s) && IsGap(g) && StartsPlainly(tail) && ParseFields(tail) == Parsed(fields, rest)
    ensures StartsPlainly(Entry(key, s, g, tail)) && ParseFields(Entry(key, s, g, tail)) == Parsed([Field(key, Str(s))] + fields, rest)
  {
    TextValue(s, "," + (g + tail));
    NextMember(key, "\"" + (s + "\"" + ("," + (g + tail))), Str(s), g, tail, fields, rest);
  }

  lemma {:induction false} LastEntryParses(key: string, s: string, g: string, rest: string)
    requires Plain(key) && Plain(s) && IsGap(g)
    ensures StartsPlainly(LastEntry(key, s, g, rest)) && ParseFields(LastEntry(key, s, g, rest)) == Parsed([Field(key, Str(s))], rest)
  {
    TextValue(s, g + ("}" + rest));
    LastMember(key, "\"" + (s + "\"" + (g + ("}" + rest))), Str(s), g, rest);
  }

  // ---------- the texts, cut where the parser cuts them ----------

  const OUTER := "\n  "
  const INNER := "\n    "

  /** The entries of current.json's files, up to what follows the object. */
  function FilesBody(acceptance: string, manifest: string, sbom: string, status: string, rest: string): string {
    Entry("acceptance.json", acceptance, INNER,
          Entry("manifest.json", manifest, INNER,
                Entry("sbom.json", sbom, INNER, LastEntry("status.html", status, OUTER, rest))))
  }

  function FilesFields(acceptance: string, manifest: string, sbom: string, status: string): seq<Field> {
    [ Field("acceptance.json", Str(acceptance)), Field("manifest.json", Str(manifest)),
      Field("sbom.json", Str(sbom)), Field("status.html", Str(status))]
  }

  lemma {:induction false} Literals()
    ensures Plain("acceptance.json") && Plain("manifest.json") && Plain("sbom.json") && Plain("status.html")
    ensures Plain("batch_id") && Plain("conclusion") && Plain("files") && Plain("schema")
  {
  }

  lemma {:induction false} SchemaLiterals()
    ensures Plain("f1.1.1-current-batch-v1") && Plain("f1.1.1-immutable-batch-v1")
  {
  }

  lemma {:induction false} FilesBodyParses(acceptance: string, manifest: string, sbom: string, status: string, rest: string)
    requires Plain(acceptance) && Plain(manifest) && Plain(sbom) && Plain(status)
    ensures var body := FilesBody(acceptance, manifest, sbom, status, rest);
      StartsPlainly(body) && ParseFields(body) == Parsed(FilesFields(acceptance, manifest, sbom, status), rest)
  {
    Literals();
    var d := LastEntry("status.html", status, OUTER, rest);
    LastEntryParses("status.html", status, OUTER, rest);
    var c := Entry("sbom.json", sbom, INNER, d);
    EntryParses("sbom.json", sbom, INNER, d, [Field("status.html", Str(status))], rest);
    var b := Entry("manifest.json", manifest, INNER, c);
    EntryParses("manifest.json", manifest, INNER, c, [Field("sbom.json", Str(sbom))] + [Field("status.html", Str(status))], rest);
    EntryParses("acceptance.json", acceptance, INNER, b,
                [Field("manifest.json", Str(manifest))] + ([Field("sbom.json", Str(sbom))] + [Field("status.html", Str(status))]), rest);
    assert FilesFields(acceptance, manifest, sbom, status)
        == [Field("acceptance.json", Str(acceptance))]
           + ([Field("manifest.json", Str(manifest))] + ([Field("sbom.json", Str(sbom))] + [Field("status.html", Str(status))]));
  }

  lemma {:induction false} FlatNine(a: string, b: string, c: string, d: string, e: string, f: string, g: string, i: string, j: string,
                                    rest: string)
    ensures a + b + c + d + e + f + g + i + j + rest == a + (b + (c + (d + (e + (f + (g + (i + (j + rest))))))))
  {
    FlatFive(a, b, c, d, e + (f + (g + (i + (j + rest)))));
    FlatFive(a + b + c + d + e, f, g, i, j + rest);
    assert a + b + c + d + (e + (f + (g + (i + (j + rest))))) == a + b + c + d + e + (f + (g + (i + (j + rest))));
  }

  lemma {:induction false} FlatFive(a: string, b: string, c: string, d: string, rest: string)
    ensures a + b + c + d + rest == a + (b + (c + (d + rest)))
  {
  }

  /** The opening of an entry's text. */
  function Opening(key: string): string {
    "\"" + key + "\": \""
  }

  lemma {:induction false} OpeningText(key: string, z: string)
    ensures Opening(key) + z == Member(key, "\"" + z)
  {
  }

  lemma {:induction false} SeparatorText(g: string, key: string, separator: string, z: string)
    requires separator == "\"," + g + Opening(key)
    ensures separator + z == "\"" + ("," + (g + Member(key, "\"" + z)))
  {
    OpeningText(key, z);
    assert separator + z == "\"," + (g + (Opening(key) + z));
    assert "\"," == "\"" + ",";
  }

  lemma {:induction false} Quoted(s: string, z: string)
    ensures "\"" + (s + ("\"" + z)) == "\"" + (s + "\"" + z)
  {
    assert s + ("\"" + z) == s + "\"" + z;
  }

  /** An entry, and the separator behind it with the entry that follows. */
  lemma {:induction false} EntryCut(key: string, s: string, g: string, next: string, separator: string, z: string)
    requires separator == "\"," + g + Opening(next)
    ensures Member(key, "\"" + (s + (separator + z))) == Entry(key, s, g, Member(next, "\"" + z))
  {
    SeparatorText(g, next, separator, z);
    Quoted(s, "," + (g + Member(next, "\"" + z)));
  }

  lemma {:induction false} LastCut(key: string, s: string, g: string, close: string, rest: string)
    requires close == "\"" + g + "}"
    ensures Member(key, "\"" + (s + (close + rest))) == LastEntry(key, s, g, rest)
  {
    assert close + rest == "\"" + (g + ("}" + rest));
    Quoted(s, g + ("}" + rest));
  }

  const TO_MANIFEST := "\",\n    \"manifest.json\": \""
  const TO_SBOM := "\",\n    \"sbom.json\": \""
  const TO_STATUS := "\",\n    \"status.html\": \""
  const CLOSE_FILES := "\"\n  }"

  lemma {:induction false} Separators()
    ensures TO_MANIFEST == "\"," + INNER + Opening("manifest.json")
    ensures TO_SBOM == "\"," + INNER + Opening("sbom.json")
    ensures TO_STATUS == "\"," + INNER + Opening("status.html")
    ensures CLOSE_FILES == "\"" + OUTER + "}"
  {
  }

  lemma {:induction false} FilesCut(acceptance: string, manifest: string, sbom: string, status: string, rest: string)
    ensures FilesText(acceptance, manifest, sbom, status) + rest == "{" + (INNER + FilesBody(acceptance, manifest, sbom, status, rest))
  {
    var head := "{\n    \"acceptance.json\": \"";
    Separators();
    var d := status + (CLOSE_FILES + rest);
    var c := sbom + (TO_STATUS + d);
    var b := manifest + (TO_SBOM + c);
    var a := acceptance + (TO_MANIFEST + b);
    FlatNine(head, acceptance, TO_MANIFEST, manifest, TO_SBOM, sbom, TO_STATUS, status, CLOSE_FILES, rest);
    LastCut("status.html", status, OUTER, CLOSE_FILES, rest);
    EntryCut("sbom.json", sbom, INNER, "status.html", TO_STATUS, d);
    EntryCut("manifest.json", manifest, INNER, "sbom.json", TO_SBOM, c);
    EntryCut("acceptance.json", acceptance, INNER, "manifest.json", TO_MANIFEST, b);
    assert head == "{" + INNER + Opening("acceptance.json");
    HeadCut("{", INNER, "acceptance.json", head, a);
  }

  lemma {:induction false} HeadCut(brace: string, g: string, key: string, head: string, z: string)
    requires head == brace + g + Opening(key)
    ensures head + z == brace + (g + Member(key, "\"" + z))
  {
    OpeningText(key, z);
    assert head + z == brace + (g + (Opening(key) + z));
  }

  lemma {:induction false} FilesParse(acceptance: string, manifest: string, sbom: string, status: string, rest: string)
    requires Plain(acceptance) && Plain(manifest) && Plain(sbom) && Plain(status)
    ensures ParseValue(FilesText(acceptance, manifest, sbom, status) + rest)
         == Parsed(Obj(FilesFields(acceptance, manifest, sbom, status)), rest)
    ensures StartsPlainly(FilesText(acceptance, manifest, sbom, status) + rest)
  {
    FilesCut(acceptance, manifest, sbom, status, rest);
    FilesBodyParses(acceptance, manifest, sbom, status, rest);
    var fields := FilesFields(acceptance, manifest, sbom, status);
    FileKeysDistinct();
    ObjectText(INNER, FilesBody(acceptance, manifest, sbom, status, rest), fields, rest);
  }

  lemma {:induction false} FileKeysDistinct()
    ensures "acceptance.json" != "manifest.json" && "acceptance.json" != "sbom.json" && "acceptance.json" != "status.html"
    ensures "manifest.json" != "sbom.json" && "manifest.json" != "status.html" && "sbom.json" != "status.html"
  {
  }

  // ---------- current.json ----------

  function CurrentFields(id: string, conclusion: string, files: seq<Field>): seq<Field> {
    [ Field("batch_id", Str(id)), Field("conclusion", Str(conclusion)), Field("files", Obj(files)),
      Field("schema", Str("f1.1.1-current-batch-v1"))]
  }

  const AFTER_FILES := ",\n  \"schema\": \"f1.1.1-current-batch-v1\"\n}\n"

  function SchemaEntry(): string {
    LastEntry("schema", "f1.1.1-current-batch-v1", "\n", "\n")
  }

  lemma {:induction false} AfterFiles()
    ensures AFTER_FILES == "," + (OUTER + SchemaEntry())
  {
    var schema, close := "f1.1.1-current-batch-v1", "\"\n}";
    AfterFilesPieces();
    LastCut("schema", schema, "\n", close, "\n");
    OpeningText("schema", schema + (close + "\n"));
    FlatFive(",", OUTER, Opening("schema"), schema, close + "\n");
  }

  lemma {:induction false} AfterFilesPieces()
    ensures AFTER_FILES == "," + OUTER + Opening("schema") + "f1.1.1-current-batch-v1" + ("\"\n}" + "\n")
  {
    assert "," + OUTER + Opening("schema") == ",\n  \"schema\": \"";
    assert AFTER_FILES == ",\n  \"schema\": \"" + "f1.1.1-current-batch-v1" + "\"\n}\n";
    assert "\"\n}" + "\n" == "\"\n}\n";
  }

  lemma {:induction false} CurrentTailParses(conclusion: string, files: string, fields: seq<Field>)
    requires Plain(conclusion) && StartsPlainly(files + AFTER_FILES) && ParseValue(files + AFTER_FILES) == Parsed(Obj(fields), AFTER_FILES)
    ensures var tail := Member("files", files + AFTER_FILES);
      && StartsPlainly(tail) && ParseFields(tail)
           == Parsed([Field("files", Obj(fields))] + [Field("schema", Str("f1.1.1-current-batch-v1"))], "\n")
  {
    Literals();
    SchemaLiterals();
    AfterFiles();
    LastEntryParses("schema", "f1.1.1-current-batch-v1", "\n", "\n");
    NextMember("files", files + AFTER_FILES, Obj(fields), OUTER, SchemaEntry(),
               [Field("schema", Str("f1.1.1-current-batch-v1"))], "\n");
  }

  const TO_CONCLUSION := "\",\n  \"conclusion\": \""
  const TO_FILES := "\",\n  \"files\": "

  function CurrentBody(id: string, conclusion: string, files: string): string {
    Entry("batch_id", id, OUTER, Entry("conclusion", conclusion, OUTER, Member("files", files + AFTER_FILES)))
  }

  lemma {:induction false} FilesSeparator(conclusion: string, z: string)
    ensures Member("conclusion", "\"" + (conclusion + (TO_FILES + z))) == Entry("conclusion", conclusion, OUTER, Member("files", z))
  {
    assert TO_FILES == "\"," + OUTER + ("\"" + "files" + "\": ");
    assert "\"" + "files" + "\": " + z == Member("files", z);
    assert TO_FILES + z == "\"," + (OUTER + ("\"" + "files" + "\": " + z));
    assert "\"," == "\"" + ",";
    assert TO_FILES + z == "\"" + ("," + (OUTER + Member("files", z)));
    Quoted(conclusion, "," + (OUTER + Member("files", z)));
  }

  lemma {:induction false} CurrentCut(id: string, accepted: bool, acceptance: string, manifest: string, sbom: string, status: string)
    ensures CurrentText(id, accepted, acceptance, manifest, sbom, status)
         == "{" + (OUTER + CurrentBody(id, Conclusion(accepted), FilesText(acceptance, manifest, sbom, status)))
  {
    var head, files, conclusion := "{\n  \"batch_id\": \"", FilesText(acceptance, manifest, sbom, status), Conclusion(accepted);
    var z := files + AFTER_FILES;
    FlatSix(head, id, TO_CONCLUSION, conclusion, TO_FILES, files, AFTER_FILES);
    FilesSeparator(conclusion, z);
    assert TO_CONCLUSION == "\"," + OUTER + Opening("conclusion");
    EntryCut("batch_id", id, OUTER, "conclusion", TO_CONCLUSION, conclusion + (TO_FILES + z));
    assert head == "{" + OUTER + Opening("batch_id");
    HeadCut("{", OUTER, "batch_id", head, id + (TO_CONCLUSION + (conclusion + (TO_FILES + z))));
  }

  /** The pieces of current.json, bracketed as they are written and as they are read. */
  lemma {:induction false} FlatSix(a: string, b: string, c: string, d: string, e: string, f: string, g: string)
    ensures (a + b + c) + d + (e + f + g) == a + (b + (c + (d + (e + (f + g)))))
  {
    FlatFive(a, b, c, d, e + f + g);
  }

  /** What a conclusion says. */
  function Conclusion(accepted: bool): string {
    if accepted then "F1_1_1_ACCEPTED_FIXTURE_ONLY" else "F1_1_1_REJECTED"
  }

  lemma {:induction false} ConclusionPlain(accepted: bool)
    ensures Plain(Conclusion(accepted))
  {
  }

  lemma {:induction false} CurrentKeysDistinct()
    ensures "batch_id" != "conclusion" && "batch_id" != "files" && "batch_id" != "schema"
    ensures "conclusion" != "files" && "conclusion" != "schema" && "files" != "schema"
  {
  }

  lemma {:induction false} CurrentBodyParses(id: string, conclusion: string, files: string, fields: seq<Field>)
    requires Plain(id) && Plain(conclusion)
    requires StartsPlainly(files + AFTER_FILES) && ParseValue(files + AFTER_FILES) == Parsed(Obj(fields), AFTER_FILES)
    ensures StartsPlainly(CurrentBody(id, conclusion, files))
    ensures ParseFields(CurrentBody(id, conclusion, files)) == Parsed(CurrentFields(id, conclusion, fields), "\n")
  {
    Literals();
    CurrentTailParses(conclusion, files, fields);
    var tail := Member("files", files + AFTER_FILES);
    var rest := [Field("files", Obj(fields))] + [Field("schema", Str("f1.1.1-current-batch-v1"))];
    EntryParses("conclusion", conclusion, OUTER, tail, rest, "\n");
    EntryParses("batch_id", id, OUTER, Entry("conclusion", conclusion, OUTER, tail), [Field("conclusion", Str(conclusion))] + rest, "\n");
    assert CurrentFields(id, conclusion, fields) == [Field("batch_id", Str(id))] + ([Field("conclusion", Str(conclusion))] + rest);
  }

  lemma {:induction false} LoadsObject(body: string, fields: seq<Field>)
    requires StartsPlainly(body) && ParseFields(body) == Parsed(fields, "\n") && DistinctKeys(fields)
    ensures Loads("{" + (OUTER + body)) == Parsed(Obj(fields), "")
  {
    ObjectText(OUTER, body, fields, "\n");
    SkipNothing("{" + (OUTER + body));
    SkipNewline();
  }

  /** current.json as JSON. */
  lemma {:induction false} CurrentParses(id: string, accepted: bool, acceptance: string, manifest: string, sbom: string, status: string)
    requires Plain(id) && Plain(acceptance) && Plain(manifest) && Plain(sbom) && Plain(status)
    ensures Loads(CurrentText(id, accepted, acceptance, manifest, sbom, status))
         == Parsed(Obj(CurrentFields(id, Conclusion(accepted), FilesFields(acceptance, manifest, sbom, status))), "")
  {
    var files, fields := FilesText(acceptance, manifest, sbom, status), FilesFields(acceptance, manifest, sbom, status);
    ConclusionPlain(accepted);
    FilesParse(acceptance, manifest, sbom, status, AFTER_FILES);
    CurrentBodyParses(id, Conclusion(accepted), files, fields);
    CurrentKeysDistinct();
    LoadsObject(CurrentBody(id, Conclusion(accepted), files), CurrentFields(id, Conclusion(accepted), fields));
    CurrentCut(id, accepted, acceptance, manifest, sbom, status);
  }

  lemma {:induction false} SkipNewline()
    ensures SkipSpace("\n") == ""
  {
    assert "\n"[1..] == "" && SkipSpace("") == "";
  }

  // ---------- manifest.json ----------

  const CLOSE_DIGESTS := "\"\n  },\n  \"schema\": \""
  const SCHEMA := "f1.1.1-immutable-batch-v1"
  const CLOSE := "\"\n}\n"

  function DigestFields(acceptance: string, sbom: string, status: string): seq<Field> {
    [Field("acceptance.json", Str(acceptance)), Field("sbom.json", Str(sbom)), Field("status.html", Str(status))]
  }

  /** What stands behind the digests of a manifest, from the comma on. */
  const AFTER_DIGESTS := ",\n  \"schema\": \"f1.1.1-immutable-batch-v1\"\n}\n"

  function ManifestSchema(): string {
    LastEntry("schema", SCHEMA, "\n", "\n")
  }

  lemma {:induction false} AfterDigestsPieces()
    ensures AFTER_DIGESTS == "," + OUTER + Opening("schema") + SCHEMA + ("\"\n}" + "\n")
  {
    assert "," + OUTER + Opening("schema") == ",\n  \"schema\": \"";
    assert AFTER_DIGESTS == ",\n  \"schema\": \"" + SCHEMA + "\"\n}\n";
    assert "\"\n}" + "\n" == "\"\n}\n";
  }

  lemma {:induction false} AfterDigests()
    ensures AFTER_DIGESTS == "," + (OUTER + ManifestSchema())
  {
    AfterDigestsPieces();
    LastCut("schema", SCHEMA, "\n", "\"\n}", "\n");
    OpeningText("schema", SCHEMA + ("\"\n}" + "\n"));
    FlatFive(",", OUTER, Opening("schema"), SCHEMA, "\"\n}" + "\n");
  }

  function DigestsBody(acceptance: string, sbom: string, status: string, rest: string): string {
    Entry("acceptance.json", acceptance, INNER, Entry("sbom.json", sbom, INNER, LastEntry("status.html", status, OUTER, rest)))
  }

  lemma {:induction false} DigestsParse(acceptance: string, sbom: string, status: string, rest: string)
    requires Plain(acceptance) && Plain(sbom) && Plain(status)
    ensures ParseValue("{" + (INNER + DigestsBody(acceptance, sbom, status, rest)))
         == Parsed(Obj(DigestFields(acceptance, sbom, status)), rest)
  {
    Literals();
    var c := LastEntry("status.html", status, OUTER, rest);
    LastEntryParses("status.html", status, OUTER, rest);
    EntryParses("sbom.json", sbom, INNER, c, [Field("status.html", Str(status))], rest);
    EntryParses("acceptance.json", acceptance, INNER, Entry("sbom.json", sbom, INNER, c),
                [Field("sbom.json", Str(sbom))] + [Field("status.html", Str(status))], rest);
    var fields := DigestFields(acceptance, sbom, status);
    assert fields == [Field("acceptance.json", Str(acceptance))] + ([Field("sbom.json", Str(sbom))] + [Field("status.html", Str(status))]);
    FileKeysDistinct();
    ObjectText(INNER, DigestsBody(acceptance, sbom, status, rest), fields, rest);
  }

  const MANIFEST_HEAD := "{\n  \"files\": {\n    \"acceptance.json\": \""

  lemma {:induction false} ManifestEnd()
    ensures CLOSE_DIGESTS + SCHEMA + CLOSE == CLOSE_FILES + AFTER_DIGESTS
  {
    AfterDigestsPieces();
    assert CLOSE_DIGESTS == CLOSE_FILES + ",\n  \"schema\": \"";
    assert "," + OUTER + Opening("schema") == ",\n  \"schema\": \"";
    assert CLOSE == "\"\n}" + "\n";
  }

  lemma {:induction false} ManifestHead(z: string)
    ensures MANIFEST_HEAD + z == "{" + (OUTER + Member("files", "{" + (INNER + Member("acceptance.json", "\"" + z))))
  {
    var inner := "{" + INNER + Opening("acceptance.json");
    HeadCut("{", INNER, "acceptance.json", inner, z);
    MemberStart("files", inner + z);
    ManifestHeadPieces(inner);
    FlatFive("{", OUTER, "\"" + "files" + "\": ", inner, z);
  }

  lemma {:induction false} MemberStart(key: string, text: string)
    ensures "\"" + key + "\": " + text == Member(key, text)
  {
  }

  const FILES_OPEN := "{\n  \"files\": "

  lemma {:induction false} ManifestHeadPieces(inner: string)
    requires inner == "{" + INNER + Opening("acceptance.json")
    ensures MANIFEST_HEAD == "{" + OUTER + ("\"" + "files" + "\": ") + inner
  {
    assert "{" + OUTER + ("\"" + "files" + "\": ") == FILES_OPEN;
    InnerHead();
  }

  lemma {:induction false} InnerHead()
    ensures "{" + INNER + Opening("acceptance.json") == FILES_HEAD && MANIFEST_HEAD == FILES_OPEN + FILES_HEAD
  {
  }

  lemma {:induction false} ManifestCut(acceptance: string, sbom: string, status: string)
    ensures ManifestText(acceptance, sbom, status)
         == "{" + (OUTER + Member("files", "{" + (INNER + DigestsBody(acceptance, sbom, status, AFTER_DIGESTS))))
  {
    Separators();
    var c := status + (CLOSE_FILES + AFTER_DIGESTS);
    var b := sbom + (TO_STATUS + c);
    var a := acceptance + (TO_SBOM + b);
    ManifestEnd();
    FlatNine(MANIFEST_HEAD, acceptance, TO_SBOM, sbom, TO_STATUS, status, CLOSE_DIGESTS, SCHEMA, CLOSE, "");
    assert ManifestText(acceptance, sbom, status) + "" == ManifestText(acceptance, sbom, status);
    assert CLOSE_DIGESTS + (SCHEMA + (CLOSE + "")) == CLOSE_FILES + AFTER_DIGESTS;
    LastCut("status.html", status, OUTER, CLOSE_FILES, AFTER_DIGESTS);
    EntryCut("sbom.json", sbom, INNER, "status.html", TO_STATUS, c);
    EntryCut("acceptance.json", acceptance, INNER, "sbom.json", TO_SBOM, b);
    ManifestHead(a);
  }

  /** manifest.json as JSON. */
  lemma {:induction false} ManifestParses(acceptance: string, sbom: string, status: string)
    requires Plain(acceptance) && Plain(sbom) && Plain(status)
    ensures Loads(ManifestText(acceptance, sbom, status))
         == Parsed(Obj([Field("files", Obj(DigestFields(acceptance, sbom, status))), Field("schema", Str(SCHEMA))]), "")
  {
    var fields := DigestFields(acceptance, sbom, status);
    var text := "{" + (INNER + DigestsBody(acceptance, sbom, status, AFTER_DIGESTS));
    Literals();
    SchemaLiterals();
    AfterDigests();
    DigestsParse(acceptance, sbom, status, AFTER_DIGESTS);
    LastEntryParses("schema", SCHEMA, "\n", "\n");
    NextMember("files", text, Obj(fields), OUTER, ManifestSchema(), [Field("schema", Str(SCHEMA))], "\n");
    CurrentKeysDistinct();
    var all := [Field("files", Obj(fields)), Field("schema", Str(SCHEMA))];
    assert all == [Field("files", Obj(fields))] + [Field("schema", Str(SCHEMA))];
    LoadsObject(Member("files", text), all);
    ManifestCut(acceptance, sbom, status);
  }

  // ---------- readers ----------

  /** The object that a file holds, if it holds one. */
  function ReadObject(data: bytes): Option<seq<Field>> {
    if !AllAscii(data) then None
    else
      match Loads(ToAscii(data))
      case Parsed(Obj(fields), _) => Some(fields)
      case _ => None
  }

  /** The entries of `files`. */
  function FilesEntry(fields: seq<Field>): Option<seq<Field>> {
    var v :- Get(fields, "files");
    if v.Obj? then Some(v.fields) else None
  }

  /** What a reader takes out of current.json: the batch, the conclusion, and the digest under each name. */
  datatype Current = Current(batch: string, conclusion: string, files: seq<Field>)

  function ReadCurrent(data: bytes): Option<Current> {
    var fields :- ReadObject(data);
    var batch :- GetStr(fields, "batch_id");
    var conclusion :- GetStr(fields, "conclusion");
    var files :- FilesEntry(fields);
    Some(Current(batch, conclusion, files))
  }

  /** The digests that a manifest lists. */
  function ReadManifest(data: bytes): Option<seq<Field>> {
    var fields :- ReadObject(data);
    FilesEntry(fields)
  }

  lemma {:induction false} TextBytesBack(s: string)
    requires IsAscii(s)
    ensures AllAscii(TextBytes(s)) && ToAscii(TextBytes(s)) == s
  {
    var data := TextBytes(s);
    assert |data| == |s| && forall i :: 0 <= i < |s| ==> data[i] == s[i] as int;
    assert |ToAscii(data)| == |s| && forall i :: 0 <= i < |s| ==> ToAscii(data)[i] == s[i];
  }

  lemma {:induction false} AsciiThree(a: string, b: string, c: string)
    requires IsAscii(a) && IsAscii(b) && IsAscii(c)
    ensures IsAscii(a + b + c)
  {
  }

  lemma {:induction false} AsciiSeven(a: string, b: string, c: string, d: string, e: string, f: string, g: string)
    requires IsAscii(a) && IsAscii(b) && IsAscii(c) && IsAscii(d) && IsAscii(e) && IsAscii(f) && IsAscii(g)
    ensures IsAscii(a + b + c + d + (e + f + g)) && IsAscii(a + b + c + d + e + f + g)
  {
    AsciiThree(a, b, c);
    AsciiThree(e, f, g);
    AsciiThree(a + b + c, d, e + f + g);
    AsciiThree(a + b + c, d, e);
    AsciiThree(a + b + c + d + e, f, g);
  }

  const CURRENT_HEAD := "{\n  \"batch_id\": \""
  const FILES_HEAD := "{\n    \"acceptance.json\": \""

  lemma {:induction false} SeparatorsAscii()
    ensures IsAscii(TO_MANIFEST) && IsAscii(TO_SBOM) && IsAscii(TO_STATUS) && IsAscii(CLOSE_FILES) && IsAscii(FILES_HEAD)
  {
  }

  lemma {:induction false} CurrentPiecesAscii()
    ensures IsAscii(CURRENT_HEAD) && IsAscii(TO_CONCLUSION) && IsAscii(TO_FILES) && IsAscii(AFTER_FILES)
  {
  }

  lemma {:induction false} ManifestPiecesAscii()
    ensures IsAscii(MANIFEST_HEAD) && IsAscii(CLOSE_DIGESTS) && IsAscii(SCHEMA) && IsAscii(CLOSE)
  {
  }

  lemma {:induction false} CurrentAscii(id: string, accepted: bool, acceptance: string, manifest: string, sbom: string, status: string)
    requires IsAscii(id) && IsAscii(acceptance) && IsAscii(manifest) && IsAscii(sbom) && IsAscii(status)
    ensures IsAscii(CurrentText(id, accepted, acceptance, manifest, sbom, status))
  {
    FilesAscii(acceptance, manifest, sbom, status);
    CurrentPiecesAscii();
    ConclusionPlain(accepted);
    AsciiSeven(CURRENT_HEAD, id, TO_CONCLUSION, Conclusion(accepted), TO_FILES, FilesText(acceptance, manifest, sbom, status), AFTER_FILES);
  }

  lemma {:induction false} FilesAscii(acceptance: string, manifest: string, sbom: string, status: string)
    requires IsAscii(acceptance) && IsAscii(manifest) && IsAscii(sbom) && IsAscii(status)
    ensures IsAscii(FilesText(acceptance, manifest, sbom, status))
  {
    SeparatorsAscii();
    AsciiSeven(FILES_HEAD, acceptance, TO_MANIFEST, manifest, TO_SBOM, sbom, TO_STATUS);
    AsciiThree(FILES_HEAD + acceptance + TO_MANIFEST + manifest + TO_SBOM + sbom + TO_STATUS, status, CLOSE_FILES);
  }

  lemma {:induction false} CurrentLookups(id: string, conclusion: string, files: seq<Field>)
    ensures var fields := CurrentFields(id, conclusion, files);
      && GetStr(fields, "batch_id") == Some(id) && GetStr(fields, "conclusion") == Some(conclusion)
      && FilesEntry(fields) == Some(files)
  {
    var fields := CurrentFields(id, conclusion, files);
    CurrentKeysDistinct();
    GetAt(fields, 0);
    GetAt(fields, 1);
    GetAt(fields, 2);
  }

  lemma {:induction false} FileLookups(acceptance: string, manifest: string, sbom: string, status: string)
    ensures var fields := FilesFields(acceptance, manifest, sbom, status);
      && GetStr(fields, "acceptance.json") == Some(acceptance) && GetStr(fields, "manifest.json") == Some(manifest)
      && GetStr(fields, "sbom.json") == Some(sbom) && GetStr(fields, "status.html") == Some(status)
  {
    var fields := FilesFields(acceptance, manifest, sbom, status);
    FileKeysDistinct();
    GetAt(fields, 0);
    GetAt(fields, 1);
    GetAt(fields, 2);
    GetAt(fields, 3);
  }

  lemma {:induction false} DigestLookups(acceptance: string, sbom: string, status: string)
    ensures var fields := DigestFields(acceptance, sbom, status);
      && GetStr(fields, "acceptance.json") == Some(acceptance) && GetStr(fields, "sbom.json") == Some(sbom)
      && GetStr(fields, "status.html") == Some(status)
  {
    var fields := DigestFields(acceptance, sbom, status);
    FileKeysDistinct();
    GetAt(fields, 0);
    GetAt(fields, 1);
    GetAt(fields, 2);
  }

  lemma {:induction false} HexPlainAscii(d: bytes)
    ensures Plain(Hex(d)) && IsAscii(Hex(d))
  {
    forall i | 0 <= i < |Hex(d)| ensures ' ' <= Hex(d)[i] <= '~' && Hex(d)[i] != '"' && Hex(d)[i] != '\\' {
      assert IsLowerHexChar(Hex(d)[i]);
    }
  }

  /** The digest listed under a name is that of the file's content. */
  ghost predicate Lists(h: bytes -> Digest, entries: seq<Field>, files: Files, name: string) {
    name in files && GetStr(entries, name) == Some(Hex(h(files[name])))
  }

  /** The digests of all four files of a batch are listed, each under its name. */
  ghost predicate ListsBatch(h: bytes -> Digest, entries: seq<Field>, files: Files) {
    && Lists(h, entries, files, "acceptance.json") && Lists(h, entries, files, "manifest.json")
    && Lists(h, entries, files, "sbom.json") && Lists(h, entries, files, "status.html")
  }

  /** current.json names a batch that is there, and lists the digests of its files. */
  ghost predicate PointsAt(h: bytes -> Digest, batches: map<string, Files>, pointer: bytes) {
    var r := ReadCurrent(pointer);
    r.Some? && r.value.batch in batches && ListsBatch(h, r.value.files, batches[r.value.batch])
  }

  ghost predicate SaysAccepted(pointer: bytes) {
    var r := ReadCurrent(pointer);
    r.Some? && r.value.conclusion == "F1_1_1_ACCEPTED_FIXTURE_ONLY"
  }

  /** The manifest lists the digests of the other three files. */
  ghost predicate ManifestLists(h: bytes -> Digest, files: Files) {
    && MANIFEST in files
    && var r := ReadManifest(files[MANIFEST]);
       r.Some? && Lists(h, r.value, files, "acceptance.json") && Lists(h, r.value, files, "sbom.json")
       && Lists(h, r.value, files, "status.html")
  }

  /** Whoever reads the pointer to a batch finds the batch's name, the conclusion, and under each name
      the digest of that file. */
  lemma {:induction false} PointerRead(h: bytes -> Digest, batch: bytes, accepted: bool, files: Files)
    requires BATCH_FILES <= files.Keys
    ensures var r := ReadCurrent(PointerBytes(h, Sha(h, batch), accepted, files));
      && r.Some? && r.value.batch == Hex(h(batch)) && r.value.conclusion == Conclusion(accepted)
      && Lists(h, r.value.files, files, "acceptance.json") && Lists(h, r.value.files, files, "manifest.json")
      && Lists(h, r.value.files, files, "sbom.json") && Lists(h, r.value.files, files, "status.html")
  {
    var a, m, b, t := Sha(h, files[ACCEPTANCE]), Sha(h, files[MANIFEST]), Sha(h, files[SBOM]), Sha(h, files[STATUS]);
    HexPlainAscii(h(batch));
    HexPlainAscii(h(files[ACCEPTANCE]));
    HexPlainAscii(h(files[MANIFEST]));
    HexPlainAscii(h(files[SBOM]));
    HexPlainAscii(h(files[STATUS]));
    CurrentRead(Sha(h, batch), accepted, a, m, b, t);
    FileLookups(a, m, b, t);
  }

  lemma {:induction false} CurrentRead(id: string, accepted: bool, acceptance: string, manifest: string, sbom: string, status: string)
    requires Plain(id) && Plain(acceptance) && Plain(manifest) && Plain(sbom) && Plain(status)
    requires IsAscii(id) && IsAscii(acceptance) && IsAscii(manifest) && IsAscii(sbom) && IsAscii(status)
    ensures ReadCurrent(TextBytes(CurrentText(id, accepted, acceptance, manifest, sbom, status)))
         == Some(Current(id, Conclusion(accepted), FilesFields(acceptance, manifest, sbom, status)))
  {
    CurrentParses(id, accepted, acceptance, manifest, sbom, status);
    CurrentAscii(id, accepted, acceptance, manifest, sbom, status);
    TextBytesBack(CurrentText(id, accepted, acceptance, manifest, sbom, status));
    CurrentLookups(id, Conclusion(accepted), FilesFields(acceptance, manifest, sbom, status));
  }

  lemma {:induction false} ManifestAscii(acceptance: string, sbom: string, status: string)
    requires IsAscii(acceptance) && IsAscii(sbom) && IsAscii(status)
    ensures IsAscii(ManifestText(acceptance, sbom, status))
  {
    SeparatorsAscii();
    ManifestPiecesAscii();
    AsciiSeven(MANIFEST_HEAD, acceptance, TO_SBOM, sbom, TO_STATUS, status, CLOSE_DIGESTS);
    AsciiThree(MANIFEST_HEAD + acceptance + TO_SBOM + sbom + TO_STATUS + status + CLOSE_DIGESTS, SCHEMA, CLOSE);
  }

  lemma {:induction false} ManifestLookup(files: seq<Field>)
    ensures FilesEntry([Field("files", Obj(files)), Field("schema", Str(SCHEMA))]) == Some(files)
  {
    var fields := [Field("files", Obj(files)), Field("schema", Str(SCHEMA))];
    assert Get(fields, "files") == Some(fields[0].value);
  }

  /** And whoever reads the manifest finds the digests of the three files. */
  lemma {:induction false} ManifestRead(h: bytes -> Digest, files: Files)
    requires CANDIDATE_FILES <= files.Keys
    ensures var r := ReadManifest(ManifestBytes(h, files));
      && r.Some? && Lists(h, r.value, files, "acceptance.json") && Lists(h, r.value, files, "sbom.json")
      && Lists(h, r.value, files, "status.html")
  {
    var a, b, t := Sha(h, files[ACCEPTANCE]), Sha(h, files[SBOM]), Sha(h, files[STATUS]);
    HexPlainAscii(h(files[ACCEPTANCE]));
    HexPlainAscii(h(files[SBOM]));
    HexPlainAscii(h(files[STATUS]));
    ManifestParses(a, b, t);
    ManifestAscii(a, b, t);
    TextBytesBack(ManifestText(a, b, t));
    ManifestLookup(DigestFields(a, b, t));
    DigestLookups(a, b, t);
  }

  // ---------- batches ----------

  lemma {:induction false} CompleteManifest(h: bytes -> Digest, id: string, files: Files)
    requires CompleteBatch(h, id, files)
    ensures ManifestLists(h, files) && id == Hex(h(files[MANIFEST]))
  {
    var others := files - {MANIFEST};
    ManifestRead(h, others);
    assert others[ACCEPTANCE] == files[ACCEPTANCE] && others[SBOM] == files[SBOM] && others[STATUS] == files[STATUS];
  }

  /** The pointer to a batch points at whatever holds files of the same digests under its name. */
  lemma {:induction false} PointsAtSame(h: bytes -> Digest, batch: bytes, accepted: bool, planned: Files, batches: map<string, Files>)
    requires BATCH_FILES <= planned.Keys && Sha(h, batch) in batches && BATCH_FILES <= batches[Sha(h, batch)].Keys
    requires forall name :: name in BATCH_FILES ==> h(batches[Sha(h, batch)][name]) == h(planned[name])
    ensures PointsAt(h, batches, PointerBytes(h, Sha(h, batch), accepted, planned))
  {
    PointerRead(h, batch, accepted, planned);
    assert ACCEPTANCE in BATCH_FILES && MANIFEST in BATCH_FILES && SBOM in BATCH_FILES && STATUS in BATCH_FILES;
  }

  lemma {:induction false} PointsKept(h: bytes -> Digest, before: map<string, Files>, after: map<string, Files>, pointer: bytes)
    requires PointsAt(h, before, pointer) && forall id :: id in before ==> id in after && after[id] == before[id]
    ensures PointsAt(h, after, pointer)
  {
  }

  lemma {:induction false} ConclusionTells(h: bytes -> Digest, batch: bytes, accepted: bool, files: Files)
    requires BATCH_FILES <= files.Keys
    ensures SaysAccepted(PointerBytes(h, Sha(h, batch), accepted, files)) <==> accepted
  {
    PointerRead(h, batch, accepted, files);
    assert "F1_1_1_REJECTED"[7] != "F1_1_1_ACCEPTED_FIXTURE_ONLY"[7];
  }
}
