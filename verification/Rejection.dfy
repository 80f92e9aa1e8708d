/** The fail-closed rejection of infra/f1/formal_acceptance.py: the three files it renders never
    hold the success token that publication refuses in a rejected candidate. */
module Rejection {
  import opened Wrappers
  import opened Bytes
  import opened Documents
  import Batches

  /** The characters of READY, from position i. */
  predicate SpelledAt(s: string, i: int)
    requires 0 <= i <= |s| - 5
  {
    s[i] == 'R' && s[i + 1] == 'E' && s[i + 2] == 'A' && s[i + 3] == 'D' && s[i + 4] == 'Y'
  }

  predicate TokenIn(s: string) {
    exists i :: 0 <= i <= |s| - 5 && SpelledAt(s, i)
  }

  predicate Upper(c: char) {
    'A' <= c <= 'Z'
  }

  /** No token, and no upper-case letter at either end. */
  predicate Sealed(s: string) {
    !TokenIn(s) && (s != [] ==> !Upper(s[0]) && !Upper(s[|s| - 1]))
  }

  /** The token cannot straddle a boundary that a letter does not touch on both sides. */
  lemma {:induction false} NoTokenAcross(a: string, b: string)
    requires !TokenIn(a) && !TokenIn(b)
    requires a == [] || b == [] || !Upper(a[|a| - 1]) || !Upper(b[0])
    ensures !TokenIn(a + b)
  {
    var s := a + b;
    forall i | 0 <= i <= |s| - 5 ensures !SpelledAt(s, i) {
      if i + 5 <= |a| {
        assert SpelledAt(s, i) == SpelledAt(a, i);
      } else if |a| <= i {
        assert SpelledAt(s, i) == SpelledAt(b, i - |a|);
      } else {
        assert a[|a| - 1] == s[|a| - 1] && b[0] == s[|a|];
      }
    }
  }

  lemma {:induction false} SealedConcat(a: string, b: string)
    requires Sealed(a) && Sealed(b)
    ensures Sealed(a + b)
  {
    NoTokenAcross(a, b);
  }

  lemma {:induction false} LacksLetter(s: string)
    requires 'R' !in s || 'D' !in s || 'Y' !in s
    ensures !TokenIn(s)
  {
    forall i | 0 <= i <= |s| - 5 ensures !SpelledAt(s, i) {
      assert s[i] in s && s[i + 3] in s && s[i + 4] in s;
    }
  }

  lemma {:induction false} QuietSealed(s: string)
    requires Batches.Quiet(s)
    ensures Sealed(s)
  {
    LacksLetter(s);
  }

  lemma {:induction false} QuoteSealed(open: string, s: string, close: string)
    requires Batches.Quiet(open) && open != [] && Batches.Quiet(close) && close != []
    requires !TokenIn(s)
    ensures Sealed(open + s + close)
  {
    QuietSealed(open);
    QuietSealed(close);
    NoTokenAcross(open, s);
    NoTokenAcross(open + s, close);
  }

  lemma {:induction false} TokenBytes(s: string)
    requires !TokenIn(s)
    ensures !Batches.ContainsReady(Batches.TextBytes(s))
  {
    var data := Batches.TextBytes(s);
    forall i | 0 <= i <= |data| - 5 ensures !Batches.TokenAt(data, i) {
      assert !SpelledAt(s, i);
      var k := Differ(s, i);
      assert data[i..i + 5][k] == data[i + k] != Batches.READY[k];
    }
  }

  lemma {:induction false} Differ(s: string, i: int) returns (k: nat)
    requires 0 <= i <= |s| - 5 && !SpelledAt(s, i)
    ensures k < 5 && s[i + k] as int != Batches.READY[k] as int && Batches.READY[k] != 0
  {
    k := if s[i] != 'R' then 0 else if s[i + 1] != 'E' then 1 else if s[i + 2] != 'A' then 2
         else if s[i + 3] != 'D' then 3 else 4;
  }

  // ---------- pretty-printed JSON ----------

  function Indent(depth: nat): string {
    if depth == 0 then "" else "  " + Indent(depth - 1)
  }

  function Quoted(s: string): string {
    "\"" + s + "\""
  }

  function Break(depth: nat): string {
    "\n" + Indent(depth)
  }

  /** json.dumps with an indent of two, of a value whose texts need no escape. */
  function Pretty(n: Node, depth: nat): string
    decreases n, 0
  {
    match n
    case Null => "null"
    case Flag(on) => if on then "true" else "false"
    case Number(digits) => digits
    case Text(text) => Quoted(text)
    case List(items) => if items == [] then "[]" else "[" + PrettyItems(items, depth + 1) + Break(depth) + "]"
    case Record(fields) => if fields == [] then "{}" else "{" + PrettyFields(fields, depth + 1) + Break(depth) + "}"
  }

  function PrettyItems(items: seq<Node>, depth: nat): string
    decreases items, 1
  {
    if items == [] then ""
    else Break(depth) + Pretty(items[0], depth) + (if |items| == 1 then "" else ",") + PrettyItems(items[1..], depth)
  }

  function PrettyFields(fields: seq<Field>, depth: nat): string
    decreases fields, 1
  {
    if fields == [] then ""
    else Break(depth) + Quoted(fields[0].name) + ": " + Pretty(fields[0].value, depth)
         + (if |fields| == 1 then "" else ",") + PrettyFields(fields[1..], depth)
  }

  /** No text or name holds the token; numbers are digits. */
  predicate Clean(n: Node)
    decreases n, 0
  {
    match n
    case Null => true
    case Flag(_) => true
    case Number(digits) => Batches.Quiet(digits)
    case Text(text) => !TokenIn(text)
    case List(items) => CleanItems(items)
    case Record(fields) => CleanFields(fields)
  }

  predicate CleanItems(items: seq<Node>)
    decreases items, 1
  {
    items == [] || (Clean(items[0]) && CleanItems(items[1..]))
  }

  predicate CleanFields(fields: seq<Field>)
    decreases fields, 1
  {
    fields == [] || (!TokenIn(fields[0].name) && Clean(fields[0].value) && CleanFields(fields[1..]))
  }

  lemma {:induction false} BreakSealed(depth: nat)
    ensures Sealed(Break(depth))
  {
    IndentQuiet(depth);
    QuietSealed(Break(depth));
  }

  lemma {:induction false} IndentQuiet(depth: nat)
    ensures Batches.Quiet(Indent(depth))
  {
    if depth > 0 {
      IndentQuiet(depth - 1);
    }
  }

  lemma {:induction false} QuotedSealed(s: string)
    requires !TokenIn(s)
    ensures Sealed(Quoted(s))
  {
    QuoteSealed("\"", s, "\"");
  }

  lemma {:induction false} SealedThree(a: string, b: string, c: string)
    requires Sealed(a) && Sealed(b) && Sealed(c)
    ensures Sealed(a + b + c)
  {
    SealedConcat(a, b);
    SealedConcat(a + b, c);
  }

  /** Printing never makes a token that no text of the value holds. */
  lemma {:induction false} PrettySealed(n: Node, depth: nat)
    requires Clean(n)
    ensures Sealed(Pretty(n, depth))
    decreases n, 0
  {
    match n {
      case Null => QuietSealed(Pretty(n, depth));
      case Flag(on) => QuietSealed(Pretty(n, depth));
      case Number(digits) => QuietSealed(digits);
      case Text(text) => QuotedSealed(text);
      case List(items) =>
        QuietSealed("[]");
        PrettyItemsSealed(items, depth + 1);
        Bracketed("[", PrettyItems(items, depth + 1), depth, "]");
      case Record(fields) =>
        QuietSealed("{}");
        PrettyFieldsSealed(fields, depth + 1);
        Bracketed("{", PrettyFields(fields, depth + 1), depth, "}");
    }
  }

  lemma {:induction false} Bracketed(open: string, inner: string, depth: nat, close: string)
    requires Batches.Quiet(open) && Batches.Quiet(close) && Sealed(inner)
    ensures Sealed(open + inner + Break(depth) + close)
  {
    QuietSealed(open);
    QuietSealed(close);
    BreakSealed(depth);
    SealedThree(open, inner, Break(depth));
    SealedConcat(open + inner + Break(depth), close);
  }

  lemma {:induction false} PrettyItemsSealed(items: seq<Node>, depth: nat)
    requires CleanItems(items)
    ensures Sealed(PrettyItems(items, depth))
    decreases items, 1
  {
    if items != [] {
      PrettySealed(items[0], depth);
      PrettyItemsSealed(items[1..], depth);
      BreakSealed(depth);
      var comma := if |items| == 1 then "" else ",";
      QuietSealed(comma);
      SealedThree(Break(depth), Pretty(items[0], depth), comma);
      SealedConcat(Break(depth) + Pretty(items[0], depth) + comma, PrettyItems(items[1..], depth));
    }
  }

  lemma {:induction false} PrettyFieldsSealed(fields: seq<Field>, depth: nat)
    requires CleanFields(fields)
    ensures Sealed(PrettyFields(fields, depth))
    decreases fields, 1
  {
    if fields != [] {
      var name, value := Quoted(fields[0].name), Pretty(fields[0].value, depth);
      QuotedSealed(fields[0].name);
      PrettySealed(fields[0].value, depth);
      PrettyFieldsSealed(fields[1..], depth);
      BreakSealed(depth);
      QuietSealed(": ");
      var comma := if |fields| == 1 then "" else ",";
      QuietSealed(comma);
      SealedThree(Break(depth), name, ": ");
      SealedThree(Break(depth) + name + ": ", value, comma);
      SealedConcat(Break(depth) + name + ": " + value + comma, PrettyFields(fields[1..], depth));
    }
  }

  // ---------- the rejection ----------

  const REJECTED := "F1_1_1_REJECTED"
  const FALLBACK := "PRIMARY_STACK_PREPARATION_RED"
  const INVALID := "INVALID"

  predicate CodeChar(c: char) {
    'A' <= c <= 'Z' || '0' <= c <= '9' || c == '_'
  }

  /** The fixed format of reason codes: a capital letter, then 2 to 95 capitals, digits or underscores. */
  predicate ReasonCode(s: string) {
    3 <= |s| <= 96 && 'A' <= s[0] <= 'Z' && forall i :: 0 <= i < |s| ==> CodeChar(s[i])
  }

  predicate Reportable(s: string) {
    ReasonCode(s) && !TokenIn(s)
  }

  /** _failure_blocker: the error's own code where it may be shown. */
  function FailureBlocker(code: Option<string>, fallback: string): string {
    if code.Some? && Reportable(code.value) then code.value else fallback
  }

  lemma {:induction false} FallbackReportable()
    ensures Reportable(FALLBACK)
  {
    LacksLetter("PRIMARY_STACK_");
    LacksLetter("PREPARATION_RED");
    NoTokenAcross("PRIMARY_STACK_", "PREPARATION_RED");
    assert FALLBACK == "PRIMARY_STACK_" + "PREPARATION_RED";
  }

  lemma {:induction false} FailureBlockerReportable(code: Option<string>)
    ensures Reportable(FailureBlocker(code, FALLBACK))
  {
    FallbackReportable();
  }

  /** Digests of the fixed empty evidence and of the command registry. */
  datatype Fixed = Fixed(evidence: Digest, registry: Digest)

  function FormalNode(fixed: Fixed, config: string): Node {
    Record([
      Field("command_registry_sha256", Text(Hex(fixed.registry))),
      Field("config_sha256", Text(config)),
      Field("runtime_inventory_sha256", Text(INVALID)),
      Field("schema", Text("f1.1.1-formal-orchestration-v1")),
      Field("source_file_count", Number("0")),
      Field("source_sha256", Text(INVALID))])
  }

  function Texts(items: seq<string>): seq<Node> {
    if items == [] then [] else [Text(items[0])] + Texts(items[1..])
  }

  function AcceptanceHead(evidence: Digest, blockers: seq<string>): seq<Field> {
    [ Field("accepted", Flag(false)),
      Field("accuracy_evaluated", Flag(false)),
      Field("arbitrary_upload_closed", Flag(true)),
      Field("blockers", List(Texts(blockers))),
      Field("conclusion", Text(REJECTED)),
      Field("evidence_sha256", Text(Hex(evidence)))]
  }

  function AcceptanceTail(formal: Node, gates: Node, inventory: string): seq<Field> {
    [ Field("formal", formal),
      Field("gates", gates),
      Field("inventory_sha256", Text(inventory)),
      Field("malware_scan_closed", Flag(true)),
      Field("production", Flag(false)),
      Field("professional_judgment_required", Flag(true)),
      Field("schema", Text("f1.1.1-acceptance-v2"))]
  }

  /** The payload of a rejection. */
  function AcceptanceNode(evidence: Digest, blockers: seq<string>, formal: Node, gates: Node, inventory: string): Node {
    Record(AcceptanceHead(evidence, blockers) + AcceptanceTail(formal, gates, inventory))
  }

  function SbomComponent(): Node {
    Record([
      Field("bom-ref", Text("application:anhuan-f1-fixture:1.1.1")),
      Field("name", Text("anhuan-f1-fixture")),
      Field("type", Text("application")),
      Field("version", Text("1.1.1"))])
  }

  function SbomProperties(inventory: string): Node {
    List([Record([Field("name", Text("inventory:sha256")), Field("value", Text(inventory))])])
  }

  function SbomMetadata(inventory: string): Node {
    Record([Field("component", SbomComponent()), Field("properties", SbomProperties(inventory))])
  }

  /** The serial number: the first half of the inventory's digest, written as a UUID. */
  function SerialText(inventory: string): string
    requires IsHex64(inventory)
  {
    "urn:uuid:" + inventory[..8] + "-" + inventory[8..12] + "-" + inventory[12..16] + "-" + inventory[16..20] + "-" + inventory[20..32]
  }

  function SbomSerial(inventory: string): seq<Field> {
    if IsHex64(inventory) then [Field("serialNumber", Text(SerialText(inventory)))] else []
  }

  function SbomHead(inventory: string): seq<Field> {
    [ Field("bomFormat", Text("CycloneDX")),
      Field("components", List([])),
      Field("metadata", SbomMetadata(inventory))]
  }

  function SbomTail(): seq<Field> {
    [ Field("specVersion", Text("1.5")),
      Field("version", Number("1"))]
  }

  /** The bill of materials of a rejection lists no component. */
  function SbomNode(inventory: string): Node {
    Record(SbomHead(inventory) + SbomSerial(inventory) + SbomTail())
  }

  const STATUS_HEAD :=
    "<!doctype html><html lang='zh'>" + "<head><meta charset='utf-8'>" + "<title>F1.1.1 acceptance</title>" + "</head><body><h1>"
  const STATUS_FOOTER :=
    "FIXTURE_ONLY / " + "NOT_PRODUCTION / " + "ACCURACY_NOT_" + "EVALUATED / " + "PROFESSIONAL_JUDGMENT_REQUIRED"

  function StatusSummary(evidence: Digest): string {
    "</h1><p>accepted=false</p>" + "<p>evidence_sha256=" + Hex(evidence)
  }

  function StatusItems(blockers: seq<string>): string {
    if blockers == [] then "" else "<li>" + blockers[0] + "</li>" + StatusItems(blockers[1..])
  }

  function StatusList(blockers: seq<string>): string {
    "</p><ul>" + StatusItems(blockers) + "</ul><p>"
  }

  /** The status page; reason codes hold nothing that html.escape would change. */
  function StatusText(evidence: Digest, blockers: seq<string>): string {
    STATUS_HEAD + REJECTED + StatusSummary(evidence) + StatusList(blockers) + STATUS_FOOTER + "</p></body></html>"
  }

  predicate NoTokens(items: seq<string>) {
    forall i :: 0 <= i < |items| ==> !TokenIn(items[i])
  }

  lemma {:induction false} CleanFieldsConcat(a: seq<Field>, b: seq<Field>)
    requires CleanFields(a) && CleanFields(b)
    ensures CleanFields(a + b)
  {
    if a == [] {
      assert a + b == b;
    } else {
      CleanFieldsConcat(a[1..], b);
      assert (a + b)[1..] == a[1..] + b;
    }
  }

  predicate NameClean(f: Field) {
    'Y' !in f.name
  }

  predicate ValueClean(f: Field) {
    Clean(f.value)
  }

  lemma {:induction false} CleanFieldsAll(fields: seq<Field>)
    requires forall i :: 0 <= i < |fields| ==> NameClean(fields[i])
    requires forall i :: 0 <= i < |fields| ==> ValueClean(fields[i])
    ensures CleanFields(fields)
  {
    if fields != [] {
      assert NameClean(fields[0]) && ValueClean(fields[0]);
      LacksLetter(fields[0].name);
      CleanFieldsAll(fields[1..]);
    }
  }

  lemma {:induction false} CleanText(s: string)
    requires 'R' !in s || 'D' !in s || 'Y' !in s
    ensures Clean(Text(s))
  {
    LacksLetter(s);
  }

  lemma {:induction false} HexClean(d: Digest)
    ensures Clean(Text(Hex(d)))
  {
    Batches.HexQuiet(d);
    QuietSealed(Hex(d));
  }

  lemma {:induction false} FormalLiterals()
    ensures 'Y' !in "command_registry_sha256" && 'Y' !in "config_sha256" && 'Y' !in "runtime_inventory_sha256"
    ensures 'Y' !in "source_file_count" && 'Y' !in "source_sha256" && 'Y' !in "schema"
  {
  }

  lemma {:induction false} FormalTexts()
    ensures Clean(Text(INVALID)) && Clean(Number("0"))
  {
    CleanText(INVALID);
  }

  lemma {:induction false} FormalSchemaText()
    ensures Clean(Text("f1.1.1-formal-orchestration-v1"))
  {
    CleanText("f1.1.1-formal-orchestration-v1");
  }

  lemma {:induction false} FormalNames(fixed: Fixed, config: string)
    ensures forall i :: 0 <= i < 6 ==> NameClean(FormalNode(fixed, config).fields[i])
  {
    FormalLiterals();
  }

  lemma {:induction false} FormalValues(fixed: Fixed, config: string)
    requires !TokenIn(config)
    ensures forall i :: 0 <= i < 6 ==> ValueClean(FormalNode(fixed, config).fields[i])
  {
    HexClean(fixed.registry);
    FormalTexts();
    FormalSchemaText();
  }

  lemma {:induction false} FormalClean(fixed: Fixed, config: string)
    requires !TokenIn(config)
    ensures Clean(FormalNode(fixed, config))
  {
    FormalNames(fixed, config);
    FormalValues(fixed, config);
    CleanFieldsAll(FormalNode(fixed, config).fields);
  }

  lemma {:induction false} HeadNames(evidence: Digest, blockers: seq<string>)
    ensures forall i :: 0 <= i < 6 ==> NameClean(AcceptanceHead(evidence, blockers)[i])
  {
    assert 'Y' !in "accepted" && 'Y' !in "accuracy_evaluated" && 'Y' !in "arbitrary_upload_closed";
    assert 'Y' !in "blockers" && 'Y' !in "conclusion" && 'Y' !in "evidence_sha256";
  }

  lemma {:induction false} TextsClean(items: seq<string>)
    requires NoTokens(items)
    ensures CleanItems(Texts(items))
  {
    if items != [] {
      TextsClean(items[1..]);
      assert Texts(items)[1..] == Texts(items[1..]);
    }
  }

  lemma {:induction false} OneClean(n: Node)
    requires Clean(n)
    ensures CleanItems([n])
  {
    assert CleanItems([n][1..]);
  }

  lemma {:induction false} HeadClean(evidence: Digest, blockers: seq<string>)
    requires NoTokens(blockers)
    ensures CleanFields(AcceptanceHead(evidence, blockers))
  {
    HeadNames(evidence, blockers);
    HexClean(evidence);
    CleanText(REJECTED);
    TextsClean(blockers);
    CleanFieldsAll(AcceptanceHead(evidence, blockers));
  }

  lemma {:induction false} TailLiterals()
    ensures 'Y' !in "formal" && 'Y' !in "gates" && 'Y' !in "inventory_sha256" && 'Y' !in "malware_scan_closed"
    ensures 'Y' !in "production" && 'Y' !in "professional_judgment_required" && 'Y' !in "schema"
  {
  }

  lemma {:induction false} TailNames(formal: Node, gates: Node, inventory: string)
    ensures forall i :: 0 <= i < 7 ==> NameClean(AcceptanceTail(formal, gates, inventory)[i])
  {
    TailLiterals();
  }

  lemma {:induction false} TailValues(formal: Node, gates: Node, inventory: string)
    requires Clean(formal) && Clean(gates) && !TokenIn(inventory)
    ensures forall i :: 0 <= i < 7 ==> ValueClean(AcceptanceTail(formal, gates, inventory)[i])
  {
    CleanText("f1.1.1-acceptance-v2");
  }

  lemma {:induction false} TailClean(formal: Node, gates: Node, inventory: string)
    requires Clean(formal) && Clean(gates) && !TokenIn(inventory)
    ensures CleanFields(AcceptanceTail(formal, gates, inventory))
  {
    TailNames(formal, gates, inventory);
    TailValues(formal, gates, inventory);
    CleanFieldsAll(AcceptanceTail(formal, gates, inventory));
  }

  lemma {:induction false} ComponentLiterals()
    ensures 'Y' !in "application:anhuan-f1-fixture:1.1.1" && 'Y' !in "anhuan-f1-fixture" && 'Y' !in "application"
    ensures 'Y' !in "1.1.1"
  {
  }

  lemma {:induction false} ComponentNames()
    ensures 'Y' !in "bom-ref" && 'Y' !in "name" && 'Y' !in "type" && 'Y' !in "version"
  {
  }

  lemma {:induction false} SbomLiterals()
    ensures 'Y' !in "bomFormat" && 'Y' !in "components" && 'Y' !in "metadata" && 'Y' !in "specVersion" && 'Y' !in "version"
    ensures 'Y' !in "component" && 'Y' !in "properties" && 'Y' !in "name" && 'Y' !in "value"
  {
  }

  lemma {:induction false} SbomTexts()
    ensures 'Y' !in "CycloneDX" && 'Y' !in "inventory:sha256" && 'Y' !in INVALID && 'Y' !in "1.5"
  {
  }

  lemma {:induction false} ComponentClean()
    ensures Clean(SbomComponent())
  {
    ComponentLiterals();
    ComponentNames();
    CleanText("application:anhuan-f1-fixture:1.1.1");
    CleanText("anhuan-f1-fixture");
    CleanText("application");
    CleanText("1.1.1");
    CleanFieldsAll(SbomComponent().fields);
  }

  lemma {:induction false} PropertiesClean(inventory: string)
    requires !TokenIn(inventory)
    ensures Clean(SbomProperties(inventory))
  {
    SbomLiterals();
    SbomTexts();
    CleanText("inventory:sha256");
    var property := SbomProperties(inventory).items[0];
    CleanFieldsAll(property.fields);
    OneClean(property);
  }

  lemma {:induction false} MetadataClean(inventory: string)
    requires !TokenIn(inventory)
    ensures Clean(SbomMetadata(inventory))
  {
    SbomLiterals();
    ComponentClean();
    PropertiesClean(inventory);
    CleanFieldsAll(SbomMetadata(inventory).fields);
  }

  lemma {:induction false} SbomHeadClean(inventory: string)
    requires !TokenIn(inventory)
    ensures CleanFields(SbomHead(inventory))
  {
    SbomLiterals();
    SbomTexts();
    MetadataClean(inventory);
    CleanText("CycloneDX");
    assert Clean(List([]));
    CleanFieldsAll(SbomHead(inventory));
  }

  lemma {:induction false} SbomTailClean()
    ensures CleanFields(SbomTail())
  {
    SbomLiterals();
    SbomTexts();
    CleanText("1.5");
    assert Batches.Quiet("1");
    CleanFieldsAll(SbomTail());
  }

  lemma {:induction false} HexQuiet(s: string)
    requires IsHex64(s)
    ensures Batches.Quiet(s)
  {
    forall i | 0 <= i < |s| ensures !('A' <= s[i] <= 'Z') {
      assert IsLowerHexChar(s[i]);
    }
  }

  lemma {:induction false} SbomSerialClean(inventory: string)
    ensures CleanFields(SbomSerial(inventory))
  {
    if IsHex64(inventory) {
      HexQuiet(inventory);
      assert Batches.Quiet(SerialText(inventory));
      QuietSealed(SerialText(inventory));
      assert 'Y' !in "serialNumber";
      CleanFieldsAll(SbomSerial(inventory));
    }
  }

  lemma {:induction false} SbomClean(inventory: string)
    requires !TokenIn(inventory)
    ensures Clean(SbomNode(inventory))
  {
    SbomHeadClean(inventory);
    SbomSerialClean(inventory);
    SbomTailClean();
    CleanFieldsConcat(SbomHead(inventory), SbomSerial(inventory));
    CleanFieldsConcat(SbomHead(inventory) + SbomSerial(inventory), SbomTail());
  }

  lemma {:induction false} AcceptanceClean(evidence: Digest, blockers: seq<string>, formal: Node, gates: Node, inventory: string)
    requires NoTokens(blockers) && Clean(formal) && Clean(gates) && !TokenIn(inventory)
    ensures Clean(AcceptanceNode(evidence, blockers, formal, gates, inventory))
  {
    HeadClean(evidence, blockers);
    TailClean(formal, gates, inventory);
    CleanFieldsConcat(AcceptanceHead(evidence, blockers), AcceptanceTail(formal, gates, inventory));
  }

  // ---------- the files ----------

  lemma {:induction false} StatusWords()
    ensures !TokenIn("FIXTURE_ONLY / ") && !TokenIn("NOT_PRODUCTION / ") && !TokenIn("ACCURACY_NOT_")
  {
    LacksLetter("FIXTURE_ONLY / ");
    LacksLetter("NOT_PRODUCTION / ");
    LacksLetter("ACCURACY_NOT_");
  }

  lemma {:induction false} MoreStatusWords()
    ensures !TokenIn("EVALUATED / ") && !TokenIn("PROFESSIONAL_JUDGMENT_REQUIRED")
  {
    LacksLetter("EVALUATED / ");
    LacksLetter("PROFESSIONAL_JUDGMENT_REQUIRED");
  }

  lemma {:induction false} StatusFooter()
    ensures !TokenIn(STATUS_FOOTER)
  {
    StatusWords();
    MoreStatusWords();
    var a, b, c, d := "FIXTURE_ONLY / ", "NOT_PRODUCTION / ", "ACCURACY_NOT_", "EVALUATED / ";
    NoTokenAcross(a, b);
    NoTokenAcross(a + b, c);
    NoTokenAcross(a + b + c, d);
    NoTokenAcross(a + b + c + d, "PROFESSIONAL_JUDGMENT_REQUIRED");
  }

  /** The three rendered texts. */
  datatype Rendered = Rendered(acceptance: string, sbom: string, status: string)

  /** The three files of a rejection; the inventory of the payload and that of the run may differ. */
  function RenderRejected(evidence: Digest, blockers: seq<string>, formal: Node, gates: Node, inventory: string, runtime: string): Rendered {
    Rendered(Pretty(AcceptanceNode(evidence, blockers, formal, gates, inventory), 0) + "\n", Pretty(SbomNode(runtime), 0) + "\n",
             StatusText(evidence, blockers))
  }

  function Render(fixed: Fixed, config: string, blocker: string): Rendered {
    RenderRejected(fixed.evidence, [blocker], FormalNode(fixed, config), Record([]), INVALID, INVALID)
  }

  function FilesOf(r: Rendered): Batches.Files {
    map[
      Batches.ACCEPTANCE := Batches.TextBytes(r.acceptance),
      Batches.SBOM := Batches.TextBytes(r.sbom),
      Batches.STATUS := Batches.TextBytes(r.status)]
  }

  /** _fail_closed_candidate. */
  function FailClosedCandidate(fixed: Fixed, config: string, blocker: string): Batches.Candidate {
    var config := if IsHex64(config) then config else INVALID;
    var blocker := if Reportable(blocker) then blocker else FALLBACK;
    Batches.Candidate(FilesOf(Render(fixed, config, blocker)), false)
  }

  lemma {:induction false} PrettyHasNoToken(n: Node)
    requires Clean(n)
    ensures !TokenIn(Pretty(n, 0) + "\n")
  {
    PrettySealed(n, 0);
    QuietSealed("\n");
    SealedConcat(Pretty(n, 0), "\n");
  }

  lemma {:induction false} HexHasNoToken(s: string)
    requires IsHex64(s)
    ensures !TokenIn(s)
  {
    HexQuiet(s);
    QuietSealed(s);
  }

  /** Sealed on the right, so that anything without the token may follow. */
  predicate EndsQuiet(s: string) {
    !TokenIn(s) && s != [] && !Upper(s[|s| - 1])
  }

  lemma {:induction false} EndsQuietThen(a: string, b: string)
    requires EndsQuiet(a) && !TokenIn(b)
    ensures !TokenIn(a + b)
    ensures b != [] && !Upper(b[|b| - 1]) ==> EndsQuiet(a + b)
  {
    NoTokenAcross(a, b);
  }

  lemma {:induction false} DoctypeEndsQuiet()
    ensures EndsQuiet("<!doctype html><html lang='zh'>")
  {
    LacksLetter("<!doctype html><html lang='zh'>");
  }

  lemma {:induction false} CharsetEndsQuiet()
    ensures EndsQuiet("<head><meta charset='utf-8'>")
  {
    LacksLetter("<head><meta charset='utf-8'>");
  }

  lemma {:induction false} TitleEndsQuiet()
    ensures EndsQuiet("<title>F1.1.1 acceptance</title>")
  {
    LacksLetter("<title>F1.1.1 acceptance</title>");
  }

  lemma {:induction false} HeadingEndsQuiet()
    ensures EndsQuiet("</head><body><h1>")
  {
    LacksLetter("</head><body><h1>");
  }

  lemma {:induction false} EndsQuietFour(a: string, b: string, c: string, d: string)
    requires EndsQuiet(a) && EndsQuiet(b) && EndsQuiet(c) && EndsQuiet(d)
    ensures EndsQuiet(a + b + c + d)
  {
    EndsQuietThen(a, b);
    EndsQuietThen(a + b, c);
    EndsQuietThen(a + b + c, d);
  }

  lemma {:induction false} StatusHeadEndsQuiet()
    ensures EndsQuiet(STATUS_HEAD)
  {
    DoctypeEndsQuiet();
    CharsetEndsQuiet();
    TitleEndsQuiet();
    HeadingEndsQuiet();
    EndsQuietFour("<!doctype html><html lang='zh'>", "<head><meta charset='utf-8'>",
                  "<title>F1.1.1 acceptance</title>", "</head><body><h1>");
  }

  lemma {:induction false} StatusSummarySealed(evidence: Digest)
    ensures Sealed(StatusSummary(evidence)) && StatusSummary(evidence) != []
  {
    Batches.HexQuiet(evidence);
    QuietSealed("</h1><p>accepted=false</p>");
    QuietSealed("<p>evidence_sha256=");
    QuietSealed(Hex(evidence));
    SealedThree("</h1><p>accepted=false</p>", "<p>evidence_sha256=", Hex(evidence));
  }

  lemma {:induction false} StatusItemsSealed(blockers: seq<string>)
    requires NoTokens(blockers)
    ensures Sealed(StatusItems(blockers))
  {
    if blockers != [] {
      QuoteSealed("<li>", blockers[0], "</li>");
      StatusItemsSealed(blockers[1..]);
      SealedConcat("<li>" + blockers[0] + "</li>", StatusItems(blockers[1..]));
    }
  }

  lemma {:induction false} StatusListSealed(blockers: seq<string>)
    requires NoTokens(blockers)
    ensures Sealed(StatusList(blockers)) && StatusList(blockers) != []
  {
    QuietSealed("</p><ul>");
    QuietSealed("</ul><p>");
    StatusItemsSealed(blockers);
    SealedThree("</p><ul>", StatusItems(blockers), "</ul><p>");
  }

  lemma {:induction false} StatusEnds()
    ensures !TokenIn(REJECTED) && Sealed("</p></body></html>")
  {
    LacksLetter(REJECTED);
    QuietSealed("</p></body></html>");
  }

  lemma {:induction false} StatusAssembled(head: string, conclusion: string, summary: string, item: string, footer: string, end: string)
    requires EndsQuiet(head) && !TokenIn(conclusion) && !TokenIn(footer)
    requires Sealed(summary) && Sealed(item) && Sealed(end) && summary != [] && item != [] && end != []
    ensures !TokenIn(head + conclusion + summary + item + footer + end)
  {
    EndsQuietThen(head, conclusion);
    NoTokenAcross(head + conclusion, summary);
    EndsQuietThen(head + conclusion + summary, item);
    EndsQuietThen(head + conclusion + summary + item, footer);
    NoTokenAcross(head + conclusion + summary + item + footer, end);
  }

  lemma {:induction false} StatusHasNoToken(evidence: Digest, blockers: seq<string>)
    requires NoTokens(blockers)
    ensures !TokenIn(StatusText(evidence, blockers))
  {
    StatusHeadEndsQuiet();
    StatusSummarySealed(evidence);
    StatusListSealed(blockers);
    StatusEnds();
    StatusFooter();
    StatusAssembled(STATUS_HEAD, REJECTED, StatusSummary(evidence), StatusList(blockers), STATUS_FOOTER, "</p></body></html>");
  }

  /** A fail-closed candidate always passes the publisher's guard: whatever code the error carries,
      whatever the configuration digest, none of its three files holds the success token. */
  lemma {:induction false} FailClosedIsScreened(fixed: Fixed, config: string, blocker: string)
    ensures Batches.Screened(FailClosedCandidate(fixed, config, blocker))
  {
    var config' := if IsHex64(config) then config else INVALID;
    var blocker' := if Reportable(blocker) then blocker else FALLBACK;
    FallbackReportable();
    if IsHex64(config) {
      HexHasNoToken(config);
    } else {
      LacksLetter(INVALID);
    }
    RenderHasNoToken(fixed, config', blocker');
    FilesHaveNoToken(Render(fixed, config', blocker'));
  }

  predicate NoToken(r: Rendered) {
    !TokenIn(r.acceptance) && !TokenIn(r.sbom) && !TokenIn(r.status)
  }

  /** A rejection shows the token only where one of the texts it is given does. */
  lemma {:induction false} RenderRejectedHasNoToken(evidence: Digest, blockers: seq<string>, formal: Node, gates: Node,
                                                    inventory: string, runtime: string)
    requires NoTokens(blockers) && Clean(formal) && Clean(gates) && !TokenIn(inventory) && !TokenIn(runtime)
    ensures NoToken(RenderRejected(evidence, blockers, formal, gates, inventory, runtime))
  {
    AcceptanceClean(evidence, blockers, formal, gates, inventory);
    PrettyHasNoToken(AcceptanceNode(evidence, blockers, formal, gates, inventory));
    SbomClean(runtime);
    PrettyHasNoToken(SbomNode(runtime));
    StatusHasNoToken(evidence, blockers);
  }

  lemma {:induction false} RenderHasNoToken(fixed: Fixed, config: string, blocker: string)
    requires !TokenIn(config) && !TokenIn(blocker)
    ensures NoToken(Render(fixed, config, blocker))
  {
    FormalClean(fixed, config);
    LacksLetter(INVALID);
    assert Clean(Record([]));
    RenderRejectedHasNoToken(fixed.evidence, [blocker], FormalNode(fixed, config), Record([]), INVALID, INVALID);
  }

  lemma {:induction false} FilesHaveNoToken(r: Rendered)
    requires NoToken(r)
    ensures FilesOf(r).Keys == Batches.CANDIDATE_FILES
    ensures forall name :: name in FilesOf(r) ==> !Batches.ContainsReady(FilesOf(r)[name])
  {
    TokenBytes(r.acceptance);
    TokenBytes(r.sbom);
    TokenBytes(r.status);
  }

  // ---------- the pointer of a rejected batch ----------

  lemma {:induction false} QuietThree(a: string, b: string, c: string)
    requires Batches.Quiet(a) && Batches.Quiet(b) && Batches.Quiet(c)
    ensures Batches.Quiet(a + b + c)
  {
  }

  lemma {:induction false} FilesTextQuiet(acceptance: string, manifest: string, sbom: string, status: string)
    requires Batches.Quiet(acceptance) && Batches.Quiet(manifest) && Batches.Quiet(sbom) && Batches.Quiet(status)
    ensures Batches.Quiet(Batches.FilesText(acceptance, manifest, sbom, status))
  {
    var a := "{\n    \"acceptance.json\": \"" + acceptance;
    var b := a + "\",\n    \"manifest.json\": \"" + manifest;
    var c := b + "\",\n    \"sbom.json\": \"" + sbom;
    assert Batches.Quiet(a);
    QuietThree(a, "\",\n    \"manifest.json\": \"", manifest);
    QuietThree(b, "\",\n    \"sbom.json\": \"", sbom);
    QuietThree(c, "\",\n    \"status.html\": \"", status);
  }

  lemma {:induction false} PointerTailQuiet(files: string)
    requires Batches.Quiet(files)
    ensures Batches.Quiet("\",\n  \"files\": " + files + ",\n  \"schema\": \"f1.1.1-current-batch-v1\"\n}\n")
  {
    assert Batches.Quiet(",\n  \"schema\": \"f1.1.1-current-batch-v1\"\n}\n");
  }

  lemma {:induction false} PointerHeadQuiet(batchId: string)
    requires Batches.Quiet(batchId)
    ensures Batches.Quiet("{\n  \"batch_id\": \"" + batchId + "\",\n  \"conclusion\": \"")
  {
  }

  /** The guard on the pointer of a rejected candidate never fires: the pointer holds digests, fixed
      lower-case text and the rejection's conclusion. */
  lemma {:induction false} RejectedPointerHasNoToken(h: bytes -> Digest, c: Batches.Candidate)
    requires c.files.Keys == Batches.CANDIDATE_FILES && !c.accepted
    ensures !Batches.ContainsReady(Batches.PlanOf(h, c).pointer)
  {
    var manifest := Batches.ManifestBytes(h, c.files);
    var files := c.files[Batches.MANIFEST := manifest];
    var id := Batches.Sha(h, manifest);
    Batches.HexQuiet(h(manifest));
    Batches.HexQuiet(h(files[Batches.ACCEPTANCE]));
    Batches.HexQuiet(h(files[Batches.MANIFEST]));
    Batches.HexQuiet(h(files[Batches.SBOM]));
    Batches.HexQuiet(h(files[Batches.STATUS]));
    PointerHasNoToken(id, Batches.Sha(h, files[Batches.ACCEPTANCE]), Batches.Sha(h, files[Batches.MANIFEST]),
                      Batches.Sha(h, files[Batches.SBOM]), Batches.Sha(h, files[Batches.STATUS]));
  }

  lemma {:induction false} PointerHasNoToken(id: string, acceptance: string, manifest: string, sbom: string, status: string)
    requires Batches.Quiet(id) && Batches.Quiet(acceptance) && Batches.Quiet(manifest) && Batches.Quiet(sbom) && Batches.Quiet(status)
    ensures !Batches.ContainsReady(Batches.TextBytes(Batches.CurrentText(id, false, acceptance, manifest, sbom, status)))
  {
    var head := "{\n  \"batch_id\": \"" + id + "\",\n  \"conclusion\": \"";
    var files := Batches.FilesText(acceptance, manifest, sbom, status);
    var tail := "\",\n  \"files\": " + files + ",\n  \"schema\": \"f1.1.1-current-batch-v1\"\n}\n";
    PointerHeadQuiet(id);
    FilesTextQuiet(acceptance, manifest, sbom, status);
    PointerTailQuiet(files);
    StatusEnds();
    QuoteSealed(head, REJECTED, tail);
    TokenBytes(head + REJECTED + tail);
  }
}
