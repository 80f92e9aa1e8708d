/** The part of JSON (RFC 8259) that the repository's canonical documents use: integers,
    strings, arrays and objects, printed the way json.dumps(ensure_ascii=True,
    separators=(",", ":")) prints them, and a parser that accepts everything the printer's
    grammar allows plus optional white space and every string escape.

    The main result is PrintThenParse: parsing a printed value gives back that value and
    stops exactly where the value ends. */
module Json {
  import opened Wrappers
  import opened Bytes
  import Sorting

  datatype Value =
    | Int(n: int)
    | Str(s: string)
    | Arr(items: seq<Value>)
    | Obj(fields: seq<Field>)

  datatype Field = Field(key: string, value: Value)

  datatype Parse<+T> = Parsed(value: T, rest: string) | Malformed | DuplicateKey {
    predicate IsFailure() { !Parsed? }

    function PropagateFailure<U>(): Parse<U>
      requires !Parsed?
    {
      if Malformed? then Malformed else DuplicateKey
    }

    function Extract(): (T, string)
      requires Parsed?
    {
      (value, rest)
    }
  }

  // ---------- printing ----------

  function DigitChar(d: nat): (c: char)
    requires d < 10
  {
    (48 + d) as char
  }

  function Digits(n: nat): (s: string)
    ensures s != ""
  {
    if n < 10 then [DigitChar(n)] else Digits(n / 10) + [DigitChar(n % 10)]
  }

  function Decimal(n: int): string {
    if n < 0 then "-" + Digits(-n) else Digits(n)
  }

  /** json.encoder.ESCAPE_ASCII for the characters below 128. */
  function EscapeChar(c: char): string
    requires c as int < 128
  {
    if c == '"' then "\\\""
    else if c == '\\' then "\\\\"
    else if c == '\n' then "\\n"
    else if c == '\r' then "\\r"
    else if c == '\t' then "\\t"
    else if c as int == 8 then "\\b"
    else if c as int == 12 then "\\f"
    else if ' ' <= c <= '~' then [c]
    else "\\u00" + [HexChar(c as int / 16), HexChar(c as int % 16)]
  }

  function Escape(s: string): string
    requires forall i :: 0 <= i < |s| ==> s[i] as int < 128
  {
    if s == "" then "" else EscapeChar(s[0]) + Escape(s[1..])
  }

  predicate DistinctKeys(fields: seq<Field>) {
    forall i, j :: 0 <= i < j < |fields| ==> fields[i].key != fields[j].key
  }

  /** What a Python value of this shape satisfies by construction: dictionary keys are
      distinct. Strings are ASCII because the repository's documents are. */
  predicate WellFormed(v: Value) {
    match v
    case Int(_) => true
    case Str(s) => IsAscii(s)
    case Arr(items) => forall x :: x in items ==> WellFormed(x)
    case Obj(fields) => DistinctKeys(fields) && WellFormedFields(fields)
  }

  predicate WellFormedFields(fields: seq<Field>) {
    forall f :: f in fields ==> IsAscii(f.key) && WellFormed(f.value)
  }

  function Quote(s: string): string
    requires IsAscii(s)
  {
    "\"" + Escape(s) + "\""
  }

  function Print(v: Value): (s: string)
    requires WellFormed(v)
    decreases v, 1
  {
    match v
    case Int(n) => Decimal(n)
    case Str(s) => Quote(s)
    case Arr(items) => if items == [] then "[]" else "[" + PrintItems(items) + "]"
    case Obj(fields) => if fields == [] then "{}" else "{" + PrintFields(fields) + "}"
  }

  function PrintItems(items: seq<Value>): string
    requires items != [] && forall x :: x in items ==> WellFormed(x)
    decreases items, 0
  {
    if |items| == 1 then Print(items[0]) else Print(items[0]) + "," + PrintItems(items[1..])
  }

  function PrintFields(fields: seq<Field>): string
    requires fields != [] && WellFormedFields(fields)
    decreases fields, 0
  {
    if |fields| == 1 then PrintMember(fields[0])
    else PrintMember(fields[0]) + "," + PrintFields(fields[1..])
  }

  function PrintMember(f: Field): string
    requires IsAscii(f.key) && WellFormed(f.value)
    decreases f, 2
  {
    Quote(f.key) + ":" + Print(f.value)
  }

  // ---------- parsing ----------

  predicate IsDigit(c: char) { '0' <= c <= '9' }

  predicate IsSpace(c: char) { c == ' ' || c == '\t' || c == '\n' || c == '\r' }

  function SkipSpace(s: string): (r: string)
    ensures |r| <= |s|
  {
    if s != "" && IsSpace(s[0]) then SkipSpace(s[1..]) else s
  }

  function DigitRun(s: string): (k: nat)
    ensures k <= |s|
    ensures forall i :: 0 <= i < k ==> IsDigit(s[i])
  {
    if s != "" && IsDigit(s[0]) then 1 + DigitRun(s[1..]) else 0
  }

  function DigitValue(c: char): nat
    requires IsDigit(c)
  {
    c as int - 48
  }

  function DigitsValue(s: string): nat
    requires forall i :: 0 <= i < |s| ==> IsDigit(s[i])
  {
    if s == "" then 0
    else
      assert IsDigit(s[|s| - 1]);
      10 * DigitsValue(s[..|s| - 1]) + DigitValue(s[|s| - 1])
  }

  /** An unsigned number without a leading zero; a fraction or an exponent is left over and
      makes whatever follows malformed. */
  function ParseDigits(s: string): (r: Parse<nat>)
    ensures r.Parsed? ==> |r.rest| < |s|
  {
    var k := DigitRun(s);
    if k == 0 then Malformed
    else if s[0] == '0' then Parsed(0, s[1..])
    else Parsed(DigitsValue(s[..k]), s[k..])
  }

  function ParseInt(s: string): (r: Parse<Value>)
    ensures r.Parsed? ==> |r.rest| < |s|
  {
    if s != "" && s[0] == '-' then
      var (n, rest) :- ParseDigits(s[1..]);
      Parsed(Int(-(n as int)), rest)
    else
      var (n, rest) :- ParseDigits(s);
      Parsed(Int(n), rest)
  }

  predicate IsHexChar(c: char) {
    IsDigit(c) || 'a' <= c <= 'f' || 'A' <= c <= 'F'
  }

  function HexValue(c: char): (n: nat)
    requires IsHexChar(c)
    ensures n < 16
  {
    if IsDigit(c) then c as int - 48 else if 'a' <= c <= 'f' then c as int - 87 else c as int - 55
  }

  function SimpleEscape(c: char): (r: string)
    ensures |r| <= 1
  {
    if c == '"' || c == '\\' || c == '/' then [c]
    else if c == 'n' then "\n"
    else if c == 'r' then "\r"
    else if c == 't' then "\t"
    else if c == 'b' then [8 as char]
    else if c == 'f' then [12 as char]
    else ""
  }

  /** The rest of a string whose opening quote has been read. An escaped surrogate is refused:
      no document of the repository can hold one, so the verdict on the document is the same. */
  function ParseString(s: string): (r: Parse<string>)
    ensures r.Parsed? ==> |r.rest| < |s|
  {
    if s == "" then Malformed
    else if s[0] == '"' then Parsed("", s[1..])
    else if s[0] == '\\' then
      if |s| < 2 then Malformed
      else if s[1] == 'u' then
        if |s| >= 6 && IsHexChar(s[2]) && IsHexChar(s[3]) && IsHexChar(s[4]) && IsHexChar(s[5]) then
          var code := 4096 * HexValue(s[2]) + 256 * HexValue(s[3]) + 16 * HexValue(s[4]) + HexValue(s[5]);
          if 0xD800 <= code < 0xE000 then Malformed
          else
            var (t, rest) :- ParseString(s[6..]);
            Parsed([code as char] + t, rest)
        else Malformed
      else
        var c := SimpleEscape(s[1]);
        if c == "" then Malformed
        else
          var (t, rest) :- ParseString(s[2..]);
          Parsed(c + t, rest)
    else if s[0] < ' ' then Malformed
    else
      var (t, rest) :- ParseString(s[1..]);
      Parsed([s[0]] + t, rest)
  }

  function ParseValue(s: string): (r: Parse<Value>)
    ensures r.Parsed? ==> |r.rest| < |s|
    decreases |s|, 1
  {
    if s == "" then Malformed
    else if s[0] == '"' then
      var (t, rest) :- ParseString(s[1..]);
      Parsed(Str(t), rest)
    else if s[0] == '[' then
      var t := SkipSpace(s[1..]);
      if t != "" && t[0] == ']' then Parsed(Arr([]), t[1..])
      else
        var (items, rest) :- ParseItems(t);
        Parsed(Arr(items), rest)
    else if s[0] == '{' then
      var t := SkipSpace(s[1..]);
      if t != "" && t[0] == '}' then Parsed(Obj([]), t[1..])
      else
        var (fields, rest) :- ParseFields(t);
        if DistinctKeys(fields) then Parsed(Obj(fields), rest) else DuplicateKey
    else ParseInt(s)
  }

  function ParseItems(s: string): (r: Parse<seq<Value>>)
    ensures r.Parsed? ==> |r.rest| < |s|
    decreases |s|, 2
  {
    var (v, afterValue) :- ParseValue(s);
    var t := SkipSpace(afterValue);
    if t != "" && t[0] == ']' then Parsed([v], t[1..])
    else if t != "" && t[0] == ',' then
      var (vs, rest) :- ParseItems(SkipSpace(t[1..]));
      Parsed([v] + vs, rest)
    else Malformed
  }

  function ParseFields(s: string): (r: Parse<seq<Field>>)
    ensures r.Parsed? ==> |r.rest| < |s|
    decreases |s|, 0
  {
    if s == "" || s[0] != '"' then Malformed
    else
      var (key, afterKey) :- ParseString(s[1..]);
      var t := SkipSpace(afterKey);
      if t == "" || t[0] != ':' then Malformed
      else
        var (v, afterValue) :- ParseValue(SkipSpace(t[1..]));
        var u := SkipSpace(afterValue);
        if u != "" && u[0] == '}' then Parsed([Field(key, v)], u[1..])
        else if u != "" && u[0] == ',' then
          var (fields, rest) :- ParseFields(SkipSpace(u[1..]));
          Parsed([Field(key, v)] + fields, rest)
        else Malformed
  }

  /** json.loads: one value with white space around it. */
  function Loads(s: string): (r: Parse<Value>) {
    var (v, rest) :- ParseValue(SkipSpace(s));
    if SkipSpace(rest) == "" then Parsed(v, "") else Malformed
  }

  // ---------- printing then parsing ----------

  /** What may follow a printed value so that a number in it ends where it was printed to. */
  predicate EndsNumber(rest: string) {
    rest == "" || !IsDigit(rest[0])
  }

  lemma {:induction false} DigitRunOfDigits(s: string, rest: string)
    requires forall i :: 0 <= i < |s| ==> IsDigit(s[i])
    requires EndsNumber(rest)
    ensures DigitRun(s + rest) == |s|
  {
    if s == "" {
      assert s + rest == rest;
    } else {
      assert (s + rest)[1..] == s[1..] + rest;
      DigitRunOfDigits(s[1..], rest);
    }
  }

  lemma {:induction false} DigitsSpelling(n: nat)
    ensures forall i :: 0 <= i < |Digits(n)| ==> IsDigit(Digits(n)[i])
    ensures DigitsValue(Digits(n)) == n
    ensures Digits(n)[0] == '0' ==> n == 0
  {
    if n >= 10 {
      DigitsSpelling(n / 10);
      assert Digits(n)[..|Digits(n)| - 1] == Digits(n / 10);
    }
  }

  lemma {:induction false} ParseDigitsOfDigits(n: nat, rest: string)
    requires EndsNumber(rest)
    ensures ParseDigits(Digits(n) + rest) == Parsed(n, rest)
  {
    DigitsSpelling(n);
    DigitRunOfDigits(Digits(n), rest);
    var s := Digits(n) + rest;
    assert s[..|Digits(n)|] == Digits(n) && s[|Digits(n)|..] == rest;
    if n == 0 {
      assert Digits(0) == "0";
    }
  }

  lemma {:induction false} DecimalStart(n: int)
    ensures Decimal(n)[0] == '-' || IsDigit(Decimal(n)[0])
  {
    if n >= 0 {
      DigitsSpelling(n);
    }
  }

  lemma {:induction false} ParseIntNegative(t: string, n: nat, rest: string)
    requires ParseDigits(t) == Parsed(n, rest)
    ensures ParseInt("-" + t) == Parsed(Int(-(n as int)), rest)
  {
    assert ("-" + t)[1..] == t;
  }

  lemma {:induction false} ParseIntPositive(t: string, n: nat, rest: string)
    requires ParseDigits(t) == Parsed(n, rest)
    requires t != "" && t[0] != '-'
    ensures ParseInt(t) == Parsed(Int(n), rest)
  {
  }

  lemma {:induction false} ParseIntOfDecimal(n: int, rest: string)
    requires EndsNumber(rest)
    ensures ParseInt(Decimal(n) + rest) == Parsed(Int(n), rest)
  {
    if n < 0 {
      var t := Digits(-n) + rest;
      ParseDigitsOfDigits(-n, rest);
      ParseIntNegative(t, -n, rest);
      assert Decimal(n) + rest == "-" + t;
    } else {
      var t := Digits(n) + rest;
      ParseDigitsOfDigits(n, rest);
      DigitsSpelling(n);
      assert t[0] == Digits(n)[0];
      ParseIntPositive(t, n, rest);
      assert Decimal(n) + rest == t;
    }
  }

  /** One printed character is read back as that character. */
  lemma {:induction false} ParseEscapedChar(c: char, tail: string)
    requires c as int < 128
    requires ParseString(tail).Parsed?
    ensures ParseString(EscapeChar(c) + tail)
         == Parsed([c] + ParseString(tail).value, ParseString(tail).rest)
  {
    var e := EscapeChar(c);
    var s := e + tail;
    assert s[|e|..] == tail;
    if |e| == 6 {
      assert s[0] == '\\' && s[1] == 'u' && s[2] == '0' && s[3] == '0';
      assert s[4] == HexChar(c as int / 16) && s[5] == HexChar(c as int % 16);
      assert HexValue(s[4]) == c as int / 16 && HexValue(s[5]) == c as int % 16;
    } else if |e| == 2 {
      assert s[0] == '\\' && s[1] == e[1];
      assert SimpleEscape(s[1]) == [c];
    } else {
      assert s[0] == c;
    }
  }

  lemma {:induction false} ParseStringOfEscape(s: string, rest: string)
    requires IsAscii(s)
    ensures ParseString(Escape(s) + "\"" + rest) == Parsed(s, rest)
  {
    if s == "" {
      assert Escape(s) + "\"" + rest == "\"" + rest;
      assert ("\"" + rest)[1..] == rest;
    } else {
      var tail := Escape(s[1..]) + "\"" + rest;
      ParseStringOfEscape(s[1..], rest);
      assert Escape(s) + "\"" + rest == EscapeChar(s[0]) + tail;
      ParseEscapedChar(s[0], tail);
      assert [s[0]] + s[1..] == s;
    }
  }

  /** A printed value starts with a character that white-space skipping leaves alone, and that
      does not close an array or an object. */
  lemma {:induction false} PrintStart(v: Value)
    requires WellFormed(v)
    ensures Print(v) != ""
    ensures !IsSpace(Print(v)[0]) && Print(v)[0] != ']' && Print(v)[0] != '}'
  {
    if v.Int? {
      DecimalStart(v.n);
    }
  }

  lemma {:induction false} SkipNothing(s: string)
    requires s != "" && !IsSpace(s[0])
    ensures SkipSpace(s) == s
  {
  }

  predicate StartsPlainly(s: string) {
    s != "" && !IsSpace(s[0]) && s[0] != ']' && s[0] != '}'
  }

  lemma {:induction false} ParseLastItem(s: string, v: Value, rest: string)
    requires ParseValue(s) == Parsed(v, "]" + rest)
    ensures ParseItems(s) == Parsed([v], rest)
  {
    SkipNothing("]" + rest);
    assert ("]" + rest)[1..] == rest;
  }

  lemma {:induction false} ParseMoreItems(s: string, v: Value, tail: string, vs: seq<Value>, rest: string)
    requires ParseValue(s) == Parsed(v, "," + tail) && StartsPlainly(tail)
    requires ParseItems(tail) == Parsed(vs, rest)
    ensures ParseItems(s) == Parsed([v] + vs, rest)
  {
    SkipNothing("," + tail);
    assert ("," + tail)[1..] == tail;
    SkipNothing(tail);
  }

  lemma {:induction false} ParseArray(body: string, items: seq<Value>, rest: string)
    requires StartsPlainly(body) && ParseItems(body) == Parsed(items, rest)
    ensures ParseValue("[" + body) == Parsed(Arr(items), rest)
  {
    assert ("[" + body)[1..] == body;
    SkipNothing(body);
  }

  lemma {:induction false} ParseObject(body: string, fields: seq<Field>, rest: string)
    requires StartsPlainly(body) && ParseFields(body) == Parsed(fields, rest) && DistinctKeys(fields)
    ensures ParseValue("{" + body) == Parsed(Obj(fields), rest)
  {
    assert ("{" + body)[1..] == body;
    SkipNothing(body);
  }

  lemma {:induction false} ParseLastField(s: string, key: string, text: string, v: Value, rest: string)
    requires ParseString(s) == Parsed(key, ":" + text) && StartsPlainly(text)
    requires ParseValue(text) == Parsed(v, "}" + rest)
    ensures ParseFields("\"" + s) == Parsed([Field(key, v)], rest)
  {
    assert ("\"" + s)[1..] == s;
    SkipNothing(":" + text);
    assert (":" + text)[1..] == text;
    SkipNothing(text);
    SkipNothing("}" + rest);
    assert ("}" + rest)[1..] == rest;
  }

  lemma {:induction false} ParseMoreFields(s: string, key: string, text: string, v: Value, tail: string,
                        fields: seq<Field>, rest: string)
    requires ParseString(s) == Parsed(key, ":" + text) && StartsPlainly(text)
    requires ParseValue(text) == Parsed(v, "," + tail) && StartsPlainly(tail)
    requires ParseFields(tail) == Parsed(fields, rest)
    ensures ParseFields("\"" + s) == Parsed([Field(key, v)] + fields, rest)
  {
    assert ("\"" + s)[1..] == s;
    SkipNothing(":" + text);
    assert (":" + text)[1..] == text;
    SkipNothing(text);
    SkipNothing("," + tail);
    assert ("," + tail)[1..] == tail;
    SkipNothing(tail);
  }

  lemma {:induction false} PrintIntThenParse(n: int, rest: string)
    requires EndsNumber(rest)
    ensures ParseValue(Print(Int(n)) + rest) == Parsed(Int(n), rest)
  {
    ParseIntOfDecimal(n, rest);
    DecimalStart(n);
    assert (Decimal(n) + rest)[0] == Decimal(n)[0];
  }

  lemma {:induction false} PrintStrThenParse(t: string, rest: string)
    requires IsAscii(t)
    ensures ParseValue(Print(Str(t)) + rest) == Parsed(Str(t), rest)
  {
    ParseStringOfEscape(t, rest);
    assert (Quote(t) + rest)[1..] == Escape(t) + "\"" + rest;
  }

  lemma {:induction false} EmptyThenParse(rest: string)
    ensures ParseValue("[]" + rest) == Parsed(Arr([]), rest)
    ensures ParseValue("{}" + rest) == Parsed(Obj([]), rest)
  {
    assert ("[]" + rest)[1..] == "]" + rest && ("{}" + rest)[1..] == "}" + rest;
    assert ("]" + rest)[1..] == rest && ("}" + rest)[1..] == rest;
    SkipNothing("]" + rest);
    SkipNothing("}" + rest);
  }

  lemma {:induction false} PrintArr(items: seq<Value>, rest: string)
    requires items != [] && WellFormed(Arr(items))
    ensures Print(Arr(items)) + rest == "[" + (PrintItems(items) + "]" + rest)
  {
  }

  lemma {:induction false} PrintObj(fields: seq<Field>, rest: string)
    requires fields != [] && WellFormed(Obj(fields))
    ensures Print(Obj(fields)) + rest == "{" + (PrintFields(fields) + "}" + rest)
  {
  }

  /** A printed member, cut where the parser cuts it. */
  lemma {:induction false} MemberText(key: string, text: string, rest: string)
    ensures "\"" + key + "\"" + ":" + text + rest == "\"" + (key + "\"" + (":" + (text + rest)))
  {
  }

  lemma {:induction false} FirstAndRest(fields: seq<Field>)
    requires fields != [] && WellFormedFields(fields)
    ensures IsAscii(fields[0].key) && WellFormed(fields[0].value) && WellFormedFields(fields[1..])
  {
    assert fields[0] in fields;
    assert forall f :: f in fields[1..] ==> f in fields;
  }

  lemma {:induction false} Reassociate(a: string, b: string, c: string)
    ensures a + "," + b + c == a + ("," + (b + c))
  {
  }

  lemma {:induction false} PrintFieldsUnfold(fields: seq<Field>, after: string)
    requires |fields| > 1 && WellFormedFields(fields)
    requires IsAscii(fields[0].key) && WellFormed(fields[0].value) && WellFormedFields(fields[1..])
    ensures PrintFields(fields) + after == PrintMember(fields[0]) + ("," + (PrintFields(fields[1..]) + after))
  {
    Reassociate(PrintMember(fields[0]), PrintFields(fields[1..]), after);
  }

  lemma {:induction false} PrintLastField(f: Field, rest: string)
    requires IsAscii(f.key) && WellFormed(f.value)
    requires ParseValue(Print(f.value) + ("}" + rest)) == Parsed(f.value, "}" + rest)
    ensures ParseFields(PrintMember(f) + ("}" + rest)) == Parsed([f], rest)
    ensures StartsPlainly(PrintMember(f) + ("}" + rest))
  {
    var text := Print(f.value) + ("}" + rest);
    PrintStart(f.value);
    ParseStringOfEscape(f.key, ":" + text);
    ParseLastField(Escape(f.key) + "\"" + (":" + text), f.key, text, f.value, rest);
    MemberText(Escape(f.key), Print(f.value), "}" + rest);
  }

  lemma {:induction false} PrintMoreFields(f: Field, tail: string, fields: seq<Field>, rest: string)
    requires IsAscii(f.key) && WellFormed(f.value) && StartsPlainly(tail)
    requires ParseValue(Print(f.value) + ("," + tail)) == Parsed(f.value, "," + tail)
    requires ParseFields(tail) == Parsed(fields, rest)
    ensures ParseFields(PrintMember(f) + ("," + tail)) == Parsed([f] + fields, rest)
    ensures StartsPlainly(PrintMember(f) + ("," + tail))
  {
    var text := Print(f.value) + ("," + tail);
    PrintStart(f.value);
    ParseStringOfEscape(f.key, ":" + text);
    ParseMoreFields(Escape(f.key) + "\"" + (":" + text), f.key, text, f.value, tail, fields, rest);
    MemberText(Escape(f.key), Print(f.value), "," + tail);
  }

  lemma {:induction false} PrintThenParse(v: Value, rest: string)
    requires WellFormed(v) && EndsNumber(rest)
    ensures ParseValue(Print(v) + rest) == Parsed(v, rest)
    decreases v, 1
  {
    match v
    case Int(n) =>
      PrintIntThenParse(n, rest);
    case Str(t) =>
      PrintStrThenParse(t, rest);
    case Arr(items) =>
      if items == [] {
        EmptyThenParse(rest);
      } else {
        PrintItemsThenParse(items, rest);
        PrintArr(items, rest);
        ParseArray(PrintItems(items) + "]" + rest, items, rest);
      }
    case Obj(fields) =>
      if fields == [] {
        EmptyThenParse(rest);
      } else {
        PrintFieldsThenParse(fields, rest);
        PrintObj(fields, rest);
        ParseObject(PrintFields(fields) + "}" + rest, fields, rest);
      }
  }

  lemma {:induction false} PrintItemsThenParse(items: seq<Value>, rest: string)
    requires items != [] && forall x :: x in items ==> WellFormed(x)
    ensures ParseItems(PrintItems(items) + "]" + rest) == Parsed(items, rest)
    ensures StartsPlainly(PrintItems(items) + "]" + rest)
    decreases items, 0
  {
    var s := PrintItems(items) + "]" + rest;
    PrintStart(items[0]);
    if |items| == 1 {
      assert s == Print(items[0]) + ("]" + rest);
      PrintThenParse(items[0], "]" + rest);
      ParseLastItem(s, items[0], rest);
      assert items == [items[0]];
    } else {
      var tail := PrintItems(items[1..]) + "]" + rest;
      assert s == Print(items[0]) + ("," + tail);
      PrintThenParse(items[0], "," + tail);
      PrintItemsThenParse(items[1..], rest);
      ParseMoreItems(s, items[0], tail, items[1..], rest);
      assert items == [items[0]] + items[1..];
    }
  }

  lemma {:induction false} PrintFieldsThenParse(fields: seq<Field>, rest: string)
    requires fields != [] && WellFormedFields(fields)
    ensures ParseFields(PrintFields(fields) + "}" + rest) == Parsed(fields, rest)
    ensures StartsPlainly(PrintFields(fields) + "}" + rest)
    decreases fields, 0
  {
    var f := fields[0];
    FirstAndRest(fields);
    assert PrintFields(fields) + "}" + rest == PrintFields(fields) + ("}" + rest);
    if |fields| == 1 {
      PrintThenParse(f.value, "}" + rest);
      PrintLastField(f, rest);
      assert fields == [f];
    } else {
      var tail := PrintFields(fields[1..]) + ("}" + rest);
      PrintFieldsUnfold(fields, "}" + rest);
      assert PrintFields(fields[1..]) + "}" + rest == tail;
      PrintThenParse(f.value, "," + tail);
      PrintFieldsThenParse(fields[1..], rest);
      PrintMoreFields(f, tail, fields[1..], rest);
      assert fields == [f] + fields[1..];
    }
  }

  lemma {:induction false} LoadsOfPrint(v: Value)
    requires WellFormed(v)
    ensures Loads(Print(v)) == Parsed(v, "")
  {
    PrintStart(v);
    SkipNothing(Print(v));
    assert Print(v) + "" == Print(v);
    PrintThenParse(v, "");
  }

  /** Printing is injective, even when something follows: a stream of printed values can be cut
      up in one way only. */
  lemma {:induction false} PrintInjective(v: Value, r: string, w: Value, t: string)
    requires WellFormed(v) && WellFormed(w) && EndsNumber(r) && EndsNumber(t)
    requires Print(v) + r == Print(w) + t
    ensures v == w && r == t
  {
    PrintThenParse(v, r);
    PrintThenParse(w, t);
  }

  // ---------- dictionaries ----------

  /** dict.get on a dictionary with distinct keys. */
  function Get(fields: seq<Field>, key: string): Option<Value> {
    if fields == [] then None
    else if fields[0].key == key then Some(fields[0].value)
    else Get(fields[1..], key)
  }

  function GetStr(fields: seq<Field>, key: string): Option<string> {
    var v :- Get(fields, key);
    if v.Str? then Some(v.s) else None
  }

  function GetInt(fields: seq<Field>, key: string): Option<int> {
    var v :- Get(fields, key);
    if v.Int? then Some(v.n) else None
  }

  /** set(dictionary) == keys. */
  predicate KeysAre(fields: seq<Field>, keys: seq<string>) {
    && (forall f :: f in fields ==> f.key in keys)
    && (forall k :: k in keys ==> exists i :: 0 <= i < |fields| && fields[i].key == k)
  }

  lemma {:induction false} GetAt(fields: seq<Field>, i: nat)
    requires i < |fields| && DistinctKeys(fields)
    ensures Get(fields, fields[i].key) == Some(fields[i].value)
  {
    if i > 0 {
      assert fields[0].key != fields[i].key;
      GetAt(fields[1..], i - 1);
    }
  }

  lemma {:induction false} KeysAreAt(fields: seq<Field>, keys: seq<string>)
    requires |fields| == |keys| && forall i :: 0 <= i < |keys| ==> fields[i].key == keys[i]
    ensures KeysAre(fields, keys)
  {
  }

  // ---------- sizes and character sets of printed text ----------

  predicate Plain(s: string) {
    forall i :: 0 <= i < |s| ==> ' ' <= s[i] <= '~' && s[i] != '"' && s[i] != '\\'
  }

  lemma {:induction false} EscapePlain(s: string)
    requires Plain(s)
    ensures Escape(s) == s
  {
    if s != "" {
      EscapePlain(s[1..]);
      assert s == [s[0]] + s[1..];
    }
  }

  lemma {:induction false} QuoteLength(s: string)
    requires Plain(s)
    ensures IsAscii(s) && |Quote(s)| == |s| + 2
  {
    EscapePlain(s);
  }

  function Pow10(k: nat): (p: nat)
    ensures p >= 1
  {
    if k == 0 then 1 else 10 * Pow10(k - 1)
  }

  lemma {:induction false} Pow10Grows(j: nat, k: nat)
    requires j <= k
    ensures Pow10(j) <= Pow10(k)
  {
    if j < k {
      Pow10Grows(j, k - 1);
    }
  }

  lemma {:induction false} Pow10Values()
    ensures Pow10(3) == 1000 && Pow10(7) == 10_000_000 && Pow10(8) == 100_000_000
  {
    assert Pow10(4) == 10_000;
    assert Pow10(8) == 10 * Pow10(7);
  }

  lemma {:induction false} DigitsLength(n: nat, k: nat)
    requires k >= 1 && n < Pow10(k)
    ensures |Digits(n)| <= k
  {
    if n >= 10 {
      assert Pow10(1) == 10 * Pow10(0);
      assert k > 1;
      assert Pow10(k) == 10 * Pow10(k - 1);
      DigitsLength(n / 10, k - 1);
    }
  }

  // ---------- the interpreter's limit on integers ----------

  /** CPython converts integers of at most this many digits to text and back (since 3.11, the
      repository's version); json.dumps and json.loads raise ValueError on a longer one. */
  const MAX_INT_DIGITS := 4300

  predicate ConvertibleInt(n: int) {
    |Digits(if n < 0 then -n else n)| <= MAX_INT_DIGITS
  }

  predicate ConvertibleInts(v: Value) {
    match v
    case Int(n) => ConvertibleInt(n)
    case Str(_) => true
    case Arr(items) => forall x :: x in items ==> ConvertibleInts(x)
    case Obj(fields) => forall f :: f in fields ==> ConvertibleInts(f.value)
  }

  lemma {:induction false} GetIsField(fields: seq<Field>, key: string)
    requires Get(fields, key).Some?
    ensures exists f :: f in fields && f.value == Get(fields, key).value
  {
    if fields[0].key != key {
      GetIsField(fields[1..], key);
    } else {
      assert fields[0] in fields;
    }
  }

  lemma {:induction false} GetIntConvertible(fields: seq<Field>, key: string)
    requires ConvertibleInts(Obj(fields)) && GetInt(fields, key).Some?
    ensures ConvertibleInt(GetInt(fields, key).value)
  {
    GetIsField(fields, key);
  }

  // ---------- short objects ----------

  predicate ShortKey(key: string) {
    Plain(key) && |key| <= 32
  }

  /** A value whose text is at most m characters. */
  predicate ShortValue(v: Value, m: nat) {
    WellFormed(v) && |Print(v)| <= m
  }

  lemma {:induction false} ShortStr(s: string, m: nat)
    requires Plain(s) && |s| + 2 <= m
    ensures ShortValue(Str(s), m)
  {
    QuoteLength(s);
  }

  lemma {:induction false} ShortInt(n: int, m: nat)
    requires 0 <= n < 100_000_000 && 8 <= m
    ensures ShortValue(Int(n), m)
  {
    Pow10Values();
    DigitsLength(n, 8);
  }

  lemma {:induction false} MemberLength(f: Field, m: nat)
    requires ShortKey(f.key) && ShortValue(f.value, m)
    ensures IsAscii(f.key) && |PrintMember(f)| <= m + 35
  {
    QuoteLength(f.key);
  }

  predicate ShortFields(fields: seq<Field>, m: nat) {
    && (forall i :: 0 <= i < |fields| ==> ShortKey(fields[i].key))
    && (forall i :: 0 <= i < |fields| ==> ShortValue(fields[i].value, m))
  }

  lemma {:induction false} ShortWellFormed(fields: seq<Field>, m: nat)
    requires ShortFields(fields, m)
    ensures WellFormedFields(fields)
  {
    forall f | f in fields ensures IsAscii(f.key) && WellFormed(f.value) {
      assert ShortKey(f.key) && ShortValue(f.value, m);
    }
  }

  lemma {:induction false} FieldsLength(fields: seq<Field>, m: nat)
    requires fields != [] && ShortFields(fields, m) && WellFormedFields(fields)
    ensures |PrintFields(fields)| < |fields| * (m + 36)
  {
    MemberLength(fields[0], m);
    FirstAndRest(fields);
    if |fields| > 1 {
      FieldsLength(fields[1..], m);
      PrintFieldsUnfold(fields, "");
      assert PrintFields(fields) + "" == PrintFields(fields);
      assert PrintFields(fields[1..]) + "" == PrintFields(fields[1..]);
      assert |fields| * (m + 36) == (|fields| - 1) * (m + 36) + (m + 36);
    }
  }

  lemma {:induction false} ObjectLength(fields: seq<Field>, m: nat)
    requires fields != [] && ShortFields(fields, m) && DistinctKeys(fields)
    ensures ShortValue(Obj(fields), |fields| * (m + 36) + 1)
  {
    ShortWellFormed(fields, m);
    FieldsLength(fields, m);
  }

  lemma {:induction false} LettersPlain(key: string)
    requires |key| <= 32 && forall i :: 0 <= i < |key| ==> '0' <= key[i] <= '9' || key[i] == '_' || 'a' <= key[i] <= 'z'
    ensures ShortKey(key)
  {
  }

  lemma {:induction false} HexPlain(s: string)
    requires IsHex64(s)
    ensures Plain(s)
  {
  }

  // ---------- printed text is ASCII ----------

  lemma {:induction false} PrintAscii(v: Value)
    requires WellFormed(v)
    ensures IsAscii(Print(v))
    decreases v, 1
  {
    match v
    case Int(n) =>
      DigitsAscii(if n < 0 then -n else n);
    case Str(s) =>
      EscapeAscii(s);
    case Arr(items) =>
      if items != [] {
        PrintItemsAscii(items);
      }
    case Obj(fields) =>
      if fields != [] {
        PrintFieldsAscii(fields);
      }
  }

  lemma {:induction false} DigitsAscii(n: nat)
    ensures IsAscii(Digits(n))
  {
    DigitsSpelling(n);
    forall i | 0 <= i < |Digits(n)| ensures Digits(n)[i] as int < 128 {
      assert IsDigit(Digits(n)[i]);
    }
  }

  lemma {:induction false} EscapeAscii(s: string)
    requires IsAscii(s)
    ensures IsAscii(Escape(s))
  {
    if s != "" {
      EscapeAscii(s[1..]);
    }
  }

  lemma {:induction false} PrintItemsAscii(items: seq<Value>)
    requires items != [] && forall x :: x in items ==> WellFormed(x)
    ensures IsAscii(PrintItems(items))
    decreases items, 0
  {
    PrintAscii(items[0]);
    if |items| > 1 {
      PrintItemsAscii(items[1..]);
    }
  }

  lemma {:induction false} PrintFieldsAscii(fields: seq<Field>)
    requires fields != [] && WellFormedFields(fields)
    ensures IsAscii(PrintFields(fields))
    decreases fields, 0
  {
    FirstAndRest(fields);
    PrintAscii(fields[0].value);
    EscapeAscii(fields[0].key);
    if |fields| > 1 {
      PrintFieldsAscii(fields[1..]);
    }
  }

  predicate Ascending(keys: seq<string>) {
    forall i :: 0 <= i < |keys| - 1 ==> Sorting.StrLe(keys[i], keys[i + 1]) && keys[i] != keys[i + 1]
  }

  lemma {:induction false} AscendingCons(key: string, keys: seq<string>, k: nat)
    requires keys != [] && Ascending(keys)
    requires k < |key| && k < |keys[0]| && key[..k] == keys[0][..k] && key[k] < keys[0][k]
    ensures Ascending([key] + keys)
  {
    Sorting.StrLeAt(key, keys[0], k);
    forall i | 0 <= i < |keys|
      ensures Sorting.StrLe(([key] + keys)[i], ([key] + keys)[i + 1]) && ([key] + keys)[i] != ([key] + keys)[i + 1]
    {
      if i > 0 {
        assert ([key] + keys)[i] == keys[i - 1] && ([key] + keys)[i + 1] == keys[i];
      }
    }
  }

  lemma {:induction false} AscendingPair(keys: seq<string>, i: nat, j: nat)
    requires Ascending(keys) && i < j < |keys|
    ensures Sorting.StrLe(keys[i], keys[j]) && keys[i] != keys[j]
    decreases j
  {
    if i < j - 1 {
      AscendingPair(keys, i, j - 1);
      assert Sorting.StrLe(keys[j - 1], keys[j - 1 + 1]) && keys[j - 1] != keys[j - 1 + 1];
      Sorting.StrLeTransitive(keys[i], keys[j - 1], keys[j]);
      if keys[i] == keys[j] {
        Sorting.StrLeAntisymmetric(keys[j - 1], keys[j]);
      }
    } else {
      assert Sorting.StrLe(keys[i], keys[i + 1]) && keys[i] != keys[i + 1];
    }
  }

  lemma {:induction false} AscendingDistinct(fields: seq<Field>, keys: seq<string>)
    requires Ascending(keys) && |fields| == |keys|
    requires forall i :: 0 <= i < |keys| ==> fields[i].key == keys[i]
    ensures DistinctKeys(fields)
  {
    forall i, j | 0 <= i < j < |fields| ensures fields[i].key != fields[j].key {
      AscendingPair(keys, i, j);
    }
  }
}
