/** What a reader of a rejection's files finds: the indented JSON is read back to the document that was
    rendered, and the status page to the list of its reason codes. */
module RejectionReader {
  import opened Wrappers
  import opened Bytes
  import opened Documents
  import Batches
  import J = Json
  import Pointers
  import R = Rejection

  // ---------- a reader of JSON with white space between its tokens ----------

  predicate Begins(s: string, word: string) {
    |s| >= |word| && s[..|word|] == word
  }

  /** Up to the closing quote; a text with an escape is not read. */
  function ReadText(s: string): (r: J.Parse<string>)
    ensures r.Parsed? ==> |r.rest| < |s|
  {
    if s == "" || s[0] == '\\' then J.Malformed
    else if s[0] == '"' then J.Parsed("", s[1..])
    else
      var (t, rest) :- ReadText(s[1..]);
      J.Parsed([s[0]] + t, rest)
  }

  function ReadNode(s: string): (r: J.Parse<Node>)
    ensures r.Parsed? ==> |r.rest| < |s|
    decreases |s|, 1
  {
    if s == "" then J.Malformed
    else if s[0] == '"' then
      var (t, rest) :- ReadText(s[1..]);
      J.Parsed(Text(t), rest)
    else if s[0] == '[' then
      var t := J.SkipSpace(s[1..]);
      if t != "" && t[0] == ']' then J.Parsed(List([]), t[1..])
      else
        var (items, rest) :- ReadItems(t);
        J.Parsed(List(items), rest)
    else if s[0] == '{' then
      var t := J.SkipSpace(s[1..]);
      if t != "" && t[0] == '}' then J.Parsed(Record([]), t[1..])
      else
        var (fields, rest) :- ReadFields(t);
        J.Parsed(Record(fields), rest)
    else if Begins(s, "null") then J.Parsed(Null, s[4..])
    else if Begins(s, "true") then J.Parsed(Flag(true), s[4..])
    else if Begins(s, "false") then J.Parsed(Flag(false), s[5..])
    else
      var sign := if s[0] == '-' then 1 else 0;
      var k := J.DigitRun(s[sign..]);
      if k == 0 then J.Malformed else J.Parsed(Number(s[..sign + k]), s[sign + k..])
  }

  function ReadItems(s: string): (r: J.Parse<seq<Node>>)
    ensures r.Parsed? ==> |r.rest| < |s|
    decreases |s|, 2
  {
    var (n, after) :- ReadNode(s);
    var t := J.SkipSpace(after);
    if t != "" && t[0] == ']' then J.Parsed([n], t[1..])
    else if t != "" && t[0] == ',' then
      var (ns, rest) :- ReadItems(J.SkipSpace(t[1..]));
      J.Parsed([n] + ns, rest)
    else J.Malformed
  }

  function ReadFields(s: string): (r: J.Parse<seq<Field>>)
    ensures r.Parsed? ==> |r.rest| < |s|
    decreases |s|, 0
  {
    if s == "" || s[0] != '"' then J.Malformed
    else
      var (name, afterName) :- ReadText(s[1..]);
      var t := J.SkipSpace(afterName);
      if t == "" || t[0] != ':' then J.Malformed
      else
        var (n, after) :- ReadNode(J.SkipSpace(t[1..]));
        var u := J.SkipSpace(after);
        if u != "" && u[0] == '}' then J.Parsed([Field(name, n)], u[1..])
        else if u != "" && u[0] == ',' then
          var (fields, rest) :- ReadFields(J.SkipSpace(u[1..]));
          J.Parsed([Field(name, n)] + fields, rest)
        else J.Malformed
  }

  // ---------- indented print, then read ----------

  /** Digits, with or without a sign. */
  predicate NumberText(s: string) {
    && s != "" && (s[0] != '-' || |s| > 1)
    && (J.IsDigit(s[0]) || s[0] == '-') && forall i :: 1 <= i < |s| ==> J.IsDigit(s[i])
  }

  /** Texts of visible ASCII characters without quote or escape, and whole numbers. */
  predicate Readable(n: Node)
    decreases n, 0
  {
    match n
    case Null => true
    case Flag(_) => true
    case Number(digits) => NumberText(digits)
    case Text(text) => J.Plain(text)
    case List(items) => ReadableItems(items)
    case Record(fields) => ReadableFields(fields)
  }

  predicate ReadableItems(items: seq<Node>)
    decreases items, 1
  {
    items == [] || (Readable(items[0]) && ReadableItems(items[1..]))
  }

  predicate ReadableFields(fields: seq<Field>)
    decreases fields, 1
  {
    fields == [] || (J.Plain(fields[0].name) && Readable(fields[0].value) && ReadableFields(fields[1..]))
  }

  lemma {:induction false} TextRead(s: string, rest: string)
    requires J.Plain(s)
    ensures ReadText(s + ("\"" + rest)) == J.Parsed(s, rest)
  {
    if s == "" {
      assert s + ("\"" + rest) == "\"" + rest;
    } else {
      TextRead(s[1..], rest);
      assert (s + ("\"" + rest))[1..] == s[1..] + ("\"" + rest);
      assert s == [s[0]] + s[1..];
    }
  }

  lemma {:induction false} QuotedRead(s: string, rest: string)
    requires J.Plain(s)
    ensures ReadNode(R.Quoted(s) + rest) == J.Parsed(Text(s), rest)
    ensures ReadText((R.Quoted(s) + rest)[1..]) == J.Parsed(s, rest)
  {
    TextRead(s, rest);
    assert (R.Quoted(s) + rest)[1..] == s + ("\"" + rest);
  }

  lemma {:induction false} NumberRead(digits: string, rest: string)
    requires NumberText(digits) && J.EndsNumber(rest)
    ensures ReadNode(digits + rest) == J.Parsed(Number(digits), rest)
  {
    var s := digits + rest;
    var sign := if s[0] == '-' then 1 else 0;
    assert s[0] == digits[0];
    J.DigitRunOfDigits(digits[sign..], rest);
    assert s[sign..] == digits[sign..] + rest;
    assert s[..|digits|] == digits && s[|digits|..] == rest;
  }

  lemma {:induction false} WordRead(on: bool, rest: string)
    ensures ReadNode("null" + rest) == J.Parsed(Null, rest)
    ensures ReadNode((if on then "true" else "false") + rest) == J.Parsed(Flag(on), rest)
  {
    assert ("null" + rest)[4..] == rest && ("null" + rest)[..4] == "null";
    if on {
      assert ("true" + rest)[4..] == rest && ("true" + rest)[..4] == "true" && ("true" + rest)[0] == 't';
    } else {
      assert ("false" + rest)[5..] == rest && ("false" + rest)[..5] == "false" && ("false" + rest)[0] == 'f';
    }
  }

  lemma {:induction false} IndentGap(depth: nat)
    ensures Pointers.IsGap(R.Indent(depth))
  {
    if depth > 0 {
      IndentGap(depth - 1);
    }
  }

  lemma {:induction false} BreakSkipped(depth: nat, s: string)
    requires s != "" && !J.IsSpace(s[0])
    ensures J.SkipSpace(R.Break(depth) + s) == s
  {
    IndentGap(depth);
    Pointers.SkipGap(R.Break(depth), s);
  }

  lemma {:induction false} PrettyStart(n: Node, depth: nat)
    requires Readable(n)
    ensures R.Pretty(n, depth) != "" && J.StartsPlainly(R.Pretty(n, depth))
  {
  }

  // ---------- one step of the reader ----------

  lemma {:induction false} LastItemRead(s: string, n: Node, after: string, rest: string)
    requires ReadNode(s) == J.Parsed(n, after) && J.SkipSpace(after) == "]" + rest
    ensures ReadItems(s) == J.Parsed([n], rest)
  {
    assert ("]" + rest)[1..] == rest;
  }

  lemma {:induction false} MoreItemsRead(s: string, n: Node, tail: string, ns: seq<Node>, rest: string)
    requires ReadNode(s) == J.Parsed(n, "," + tail) && ReadItems(J.SkipSpace(tail)) == J.Parsed(ns, rest)
    ensures ReadItems(s) == J.Parsed([n] + ns, rest)
  {
    J.SkipNothing("," + tail);
    assert ("," + tail)[1..] == tail;
  }

  lemma {:induction false} ListRead(tail: string, items: seq<Node>, rest: string)
    requires J.StartsPlainly(J.SkipSpace(tail)) && ReadItems(J.SkipSpace(tail)) == J.Parsed(items, rest)
    ensures ReadNode("[" + tail) == J.Parsed(List(items), rest)
  {
    assert ("[" + tail)[1..] == tail;
  }

  lemma {:induction false} NameRead(name: string, s: string)
    requires J.Plain(name) && J.StartsPlainly(s)
    ensures var z := R.Quoted(name) + (": " + s);
      z[0] == '"' && ReadText(z[1..]) == J.Parsed(name, ": " + s)
    ensures J.SkipSpace(": " + s) == ": " + s && J.SkipSpace((": " + s)[1..]) == s
  {
    QuotedRead(name, ": " + s);
    J.SkipNothing(": " + s);
    assert (": " + s)[1..] == " " + s;
    Pointers.SkipGap(" ", s);
  }

  lemma {:induction false} LastFieldRead(name: string, s: string, n: Node, after: string, rest: string)
    requires J.Plain(name) && J.StartsPlainly(s)
    requires ReadNode(s) == J.Parsed(n, after) && J.SkipSpace(after) == "}" + rest
    ensures ReadFields(R.Quoted(name) + (": " + s)) == J.Parsed([Field(name, n)], rest)
  {
    NameRead(name, s);
    assert ("}" + rest)[1..] == rest;
  }

  lemma {:induction false} MoreFieldsRead(name: string, s: string, n: Node, tail: string, fields: seq<Field>, rest: string)
    requires J.Plain(name) && J.StartsPlainly(s)
    requires ReadNode(s) == J.Parsed(n, "," + tail) && ReadFields(J.SkipSpace(tail)) == J.Parsed(fields, rest)
    ensures ReadFields(R.Quoted(name) + (": " + s)) == J.Parsed([Field(name, n)] + fields, rest)
  {
    NameRead(name, s);
    J.SkipNothing("," + tail);
    assert ("," + tail)[1..] == tail;
  }

  lemma {:induction false} RecordRead(tail: string, fields: seq<Field>, rest: string)
    requires J.StartsPlainly(J.SkipSpace(tail)) && ReadFields(J.SkipSpace(tail)) == J.Parsed(fields, rest)
    ensures ReadNode("{" + tail) == J.Parsed(Record(fields), rest)
  {
    assert ("{" + tail)[1..] == tail;
  }

  lemma {:induction false} EmptyRead(rest: string)
    ensures ReadNode("[]" + rest) == J.Parsed(List([]), rest) && ReadNode("{}" + rest) == J.Parsed(Record([]), rest)
  {
    assert ("[]" + rest)[1..] == "]" + rest && ("]" + rest)[1..] == rest;
    assert ("{}" + rest)[1..] == "}" + rest && ("}" + rest)[1..] == rest;
  }

  // ---------- printing then reading ----------

  /** What closes a list or record: never part of a number. */
  lemma {:induction false} CloseText(depth: nat, bracket: string, rest: string)
    requires bracket == "]" || bracket == "}"
    ensures J.EndsNumber(R.Break(depth) + (bracket + rest))
    ensures J.SkipSpace(R.Break(depth) + (bracket + rest)) == bracket + rest
  {
    BreakSkipped(depth, bracket + rest);
  }

  /** A text in front of a plain start is skipped to, whatever follows it. */
  lemma {:induction false} StartsThen(a: string, b: string)
    requires J.StartsPlainly(a)
    ensures J.StartsPlainly(a + b)
  {
  }

  lemma {:induction false} ListCut(inner: string, depth: nat, rest: string)
    ensures "[" + inner + R.Break(depth) + "]" + rest == "[" + (inner + (R.Break(depth) + ("]" + rest)))
  {
  }

  lemma {:induction false} RecordCut(inner: string, depth: nat, rest: string)
    ensures "{" + inner + R.Break(depth) + "}" + rest == "{" + (inner + (R.Break(depth) + ("}" + rest)))
  {
  }

  /** What is printed reads back, up to exactly where it ends. */
  lemma {:induction false} PrettyThenRead(n: Node, depth: nat, rest: string)
    requires Readable(n) && J.EndsNumber(rest)
    ensures ReadNode(R.Pretty(n, depth) + rest) == J.Parsed(n, rest)
    decreases n, 0
  {
    match n {
      case Null => WordRead(true, rest);
      case Flag(on) => WordRead(on, rest);
      case Number(digits) => NumberRead(digits, rest);
      case Text(text) => QuotedRead(text, rest);
      case List(items) =>
        EmptyRead(rest);
        if items != [] {
          ItemsRead(items, depth, rest);
          var inner := R.PrettyItems(items, depth + 1);
          ListCut(inner, depth, rest);
          ListRead(inner + (R.Break(depth) + ("]" + rest)), items, rest);
        }
      case Record(fields) =>
        EmptyRead(rest);
        if fields != [] {
          FieldsRead(fields, depth, rest);
          var inner := R.PrettyFields(fields, depth + 1);
          RecordCut(inner, depth, rest);
          RecordRead(inner + (R.Break(depth) + ("}" + rest)), fields, rest);
        }
    }
  }

  lemma {:induction false} LastItem(first: string, n: Node, depth: nat, rest: string)
    requires J.StartsPlainly(first) && ReadNode(first + (R.Break(depth) + ("]" + rest))) == J.Parsed(n, R.Break(depth) + ("]" + rest))
    ensures var s := J.SkipSpace(R.Break(depth + 1) + (first + (R.Break(depth) + ("]" + rest))));
      J.StartsPlainly(s) && ReadItems(s) == J.Parsed([n], rest)
  {
    var close := R.Break(depth) + ("]" + rest);
    CloseText(depth, "]", rest);
    StartsThen(first, close);
    BreakSkipped(depth + 1, first + close);
    LastItemRead(first + close, n, close, rest);
  }

  lemma {:induction false} NextItem(first: string, n: Node, depth: nat, tail: string, ns: seq<Node>, rest: string)
    requires J.StartsPlainly(first) && ReadNode(first + ("," + tail)) == J.Parsed(n, "," + tail)
    requires ReadItems(J.SkipSpace(tail)) == J.Parsed(ns, rest)
    ensures var s := J.SkipSpace(R.Break(depth + 1) + (first + ("," + tail)));
      J.StartsPlainly(s) && ReadItems(s) == J.Parsed([n] + ns, rest)
  {
    StartsThen(first, "," + tail);
    BreakSkipped(depth + 1, first + ("," + tail));
    MoreItemsRead(first + ("," + tail), n, tail, ns, rest);
  }

  lemma {:induction false} FlatThree(a: string, b: string, c: string)
    ensures a + b + c == a + (b + c)
  {
  }

  /** The first item, cut off: what follows it is the closing or the next item. */
  lemma {:induction false} ItemsCut(items: seq<Node>, depth: nat, close: string)
    requires items != []
    ensures |items| == 1 ==> R.PrettyItems(items, depth) + close == R.Break(depth) + (R.Pretty(items[0], depth) + close)
    ensures |items| > 1 ==> R.PrettyItems(items, depth) + close
                            == R.Break(depth) + (R.Pretty(items[0], depth) + ("," + (R.PrettyItems(items[1..], depth) + close)))
  {
    var head, first, tail := R.Break(depth), R.Pretty(items[0], depth), R.PrettyItems(items[1..], depth);
    if |items| == 1 {
      assert R.PrettyItems(items, depth) == head + first;
      FlatThree(head, first, close);
    } else {
      assert R.PrettyItems(items, depth) == head + first + "," + tail;
      Pointers.FlatFive(head, first, ",", tail, close);
    }
  }

  /** The items behind the white space, and what follows their closing. */
  predicate ItemsAt(text: string, items: seq<Node>, rest: string) {
    var s := J.SkipSpace(text);
    J.StartsPlainly(s) && ReadItems(s) == J.Parsed(items, rest)
  }

  lemma {:induction false} OneItem(first: string, items: seq<Node>, depth: nat, rest: string, text: string)
    requires |items| == 1 && J.StartsPlainly(first)
    requires text == R.Break(depth + 1) + (first + (R.Break(depth) + ("]" + rest)))
    requires ReadNode(first + (R.Break(depth) + ("]" + rest))) == J.Parsed(items[0], R.Break(depth) + ("]" + rest))
    ensures ItemsAt(text, items, rest)
  {
    LastItem(first, items[0], depth, rest);
    assert items == [items[0]];
  }

  lemma {:induction false} ManyItems(items: seq<Node>, depth: nat, rest: string, close: string, tail: string)
    requires |items| > 1 && Readable(items[0]) && tail == R.PrettyItems(items[1..], depth + 1) + close
    requires ReadNode(R.Pretty(items[0], depth + 1) + ("," + tail)) == J.Parsed(items[0], "," + tail)
    requires ItemsAt(tail, items[1..], rest)
    ensures ItemsAt(R.PrettyItems(items, depth + 1) + close, items, rest)
  {
    ItemsCut(items, depth + 1, close);
    PrettyStart(items[0], depth + 1);
    NextItem(R.Pretty(items[0], depth + 1), items[0], depth, tail, items[1..], rest);
    assert items == [items[0]] + items[1..];
  }

  lemma {:induction false} ItemsRead(items: seq<Node>, depth: nat, rest: string)
    requires items != [] && ReadableItems(items)
    ensures ItemsAt(R.PrettyItems(items, depth + 1) + (R.Break(depth) + ("]" + rest)), items, rest)
    decreases items, 1
  {
    var close := R.Break(depth) + ("]" + rest);
    if |items| == 1 {
      CloseText(depth, "]", rest);
      PrettyThenRead(items[0], depth + 1, close);
      PrettyStart(items[0], depth + 1);
      ItemsCut(items, depth + 1, close);
      OneItem(R.Pretty(items[0], depth + 1), items, depth, rest, R.PrettyItems(items, depth + 1) + close);
    } else {
      var tail := R.PrettyItems(items[1..], depth + 1) + close;
      PrettyThenRead(items[0], depth + 1, "," + tail);
      ItemsRead(items[1..], depth, rest);
      ManyItems(items, depth, rest, close, tail);
    }
  }

  lemma {:induction false} QuotedStart(name: string, rest: string)
    ensures J.StartsPlainly(R.Quoted(name) + rest)
  {
  }

  lemma {:induction false} LastEntry(name: string, first: string, n: Node, depth: nat, rest: string)
    requires J.Plain(name) && J.StartsPlainly(first)
    requires ReadNode(first + (R.Break(depth) + ("}" + rest))) == J.Parsed(n, R.Break(depth) + ("}" + rest))
    ensures var s := J.SkipSpace(R.Break(depth + 1) + (R.Quoted(name) + (": " + (first + (R.Break(depth) + ("}" + rest))))));
      J.StartsPlainly(s) && ReadFields(s) == J.Parsed([Field(name, n)], rest)
  {
    var close := R.Break(depth) + ("}" + rest);
    CloseText(depth, "}", rest);
    StartsThen(first, close);
    QuotedStart(name, ": " + (first + close));
    BreakSkipped(depth + 1, R.Quoted(name) + (": " + (first + close)));
    LastFieldRead(name, first + close, n, close, rest);
  }

  lemma {:induction false} NextEntry(name: string, first: string, n: Node, depth: nat, tail: string, fields: seq<Field>, rest: string)
    requires J.Plain(name) && J.StartsPlainly(first) && ReadNode(first + ("," + tail)) == J.Parsed(n, "," + tail)
    requires ReadFields(J.SkipSpace(tail)) == J.Parsed(fields, rest)
    ensures var s := J.SkipSpace(R.Break(depth + 1) + (R.Quoted(name) + (": " + (first + ("," + tail)))));
      J.StartsPlainly(s) && ReadFields(s) == J.Parsed([Field(name, n)] + fields, rest)
  {
    StartsThen(first, "," + tail);
    QuotedStart(name, ": " + (first + ("," + tail)));
    BreakSkipped(depth + 1, R.Quoted(name) + (": " + (first + ("," + tail))));
    MoreFieldsRead(name, first + ("," + tail), n, tail, fields, rest);
  }

  lemma {:induction false} FieldsCut(fields: seq<Field>, depth: nat, close: string)
    requires fields != []
    ensures |fields| == 1 ==> R.PrettyFields(fields, depth) + close
                              == R.Break(depth) + (R.Quoted(fields[0].name) + (": " + (R.Pretty(fields[0].value, depth) + close)))
    ensures |fields| > 1 ==> R.PrettyFields(fields, depth) + close
                             == R.Break(depth) + (R.Quoted(fields[0].name) + (": " + (R.Pretty(fields[0].value, depth)
                                  + ("," + (R.PrettyFields(fields[1..], depth) + close)))))
  {
    var head, name, first := R.Break(depth), R.Quoted(fields[0].name), R.Pretty(fields[0].value, depth);
    var tail := R.PrettyFields(fields[1..], depth);
    if |fields| == 1 {
      assert R.PrettyFields(fields, depth) == head + name + ": " + first;
      Pointers.FlatFive(head, name, ": ", first, close);
    } else {
      assert R.PrettyFields(fields, depth) == head + name + ": " + first + "," + tail;
      Pointers.FlatFive(head, name, ": ", first, "," + tail + close);
      CommaText(head + name + ": " + first, tail, close);
    }
  }

  lemma {:induction false} CommaText(a: string, tail: string, close: string)
    ensures a + "," + tail + close == a + ("," + tail + close)
  {
  }

  predicate FieldsAt(text: string, fields: seq<Field>, rest: string) {
    var s := J.SkipSpace(text);
    J.StartsPlainly(s) && ReadFields(s) == J.Parsed(fields, rest)
  }

  lemma {:induction false} OneField(first: string, fields: seq<Field>, depth: nat, rest: string, text: string)
    requires |fields| == 1 && J.Plain(fields[0].name) && J.StartsPlainly(first)
    requires text == R.Break(depth + 1) + (R.Quoted(fields[0].name) + (": " + (first + (R.Break(depth) + ("}" + rest)))))
    requires ReadNode(first + (R.Break(depth) + ("}" + rest))) == J.Parsed(fields[0].value, R.Break(depth) + ("}" + rest))
    ensures FieldsAt(text, fields, rest)
  {
    LastEntry(fields[0].name, first, fields[0].value, depth, rest);
    assert fields == [fields[0]];
  }

  lemma {:induction false} ManyFields(fields: seq<Field>, depth: nat, rest: string, close: string, tail: string)
    requires |fields| > 1 && J.Plain(fields[0].name) && Readable(fields[0].value)
    requires tail == R.PrettyFields(fields[1..], depth + 1) + close
    requires ReadNode(R.Pretty(fields[0].value, depth + 1) + ("," + tail)) == J.Parsed(fields[0].value, "," + tail)
    requires FieldsAt(tail, fields[1..], rest)
    ensures FieldsAt(R.PrettyFields(fields, depth + 1) + close, fields, rest)
  {
    FieldsCut(fields, depth + 1, close);
    PrettyStart(fields[0].value, depth + 1);
    NextEntry(fields[0].name, R.Pretty(fields[0].value, depth + 1), fields[0].value, depth, tail, fields[1..], rest);
    assert fields == [fields[0]] + fields[1..];
  }

  lemma {:induction false} FieldsRead(fields: seq<Field>, depth: nat, rest: string)
    requires fields != [] && ReadableFields(fields)
    ensures FieldsAt(R.PrettyFields(fields, depth + 1) + (R.Break(depth) + ("}" + rest)), fields, rest)
    decreases fields, 1
  {
    var close := R.Break(depth) + ("}" + rest);
    if |fields| == 1 {
      CloseText(depth, "}", rest);
      PrettyThenRead(fields[0].value, depth + 1, close);
      PrettyStart(fields[0].value, depth + 1);
      FieldsCut(fields, depth + 1, close);
      OneField(R.Pretty(fields[0].value, depth + 1), fields, depth, rest, R.PrettyFields(fields, depth + 1) + close);
    } else {
      var tail := R.PrettyFields(fields[1..], depth + 1) + close;
      PrettyThenRead(fields[0].value, depth + 1, "," + tail);
      FieldsRead(fields[1..], depth, rest);
      ManyFields(fields, depth, rest, close, tail);
    }
  }

  // ---------- as bytes ----------

  lemma {:induction false} IndentAscii(depth: nat)
    ensures IsAscii(R.Indent(depth)) && IsAscii(R.Break(depth))
  {
    if depth > 0 {
      IndentAscii(depth - 1);
    }
  }

  lemma {:induction false} BracketedAscii(open: string, inner: string, depth: nat, close: string)
    requires IsAscii(open) && IsAscii(inner) && IsAscii(close)
    ensures IsAscii(open + inner + R.Break(depth) + close)
  {
    IndentAscii(depth);
    Pointers.AsciiThree(open, inner, R.Break(depth));
  }

  lemma {:induction false} DigitsAscii(digits: string)
    requires NumberText(digits)
    ensures IsAscii(digits)
  {
  }

  lemma {:induction false} PrettyAscii(n: Node, depth: nat)
    requires Readable(n)
    ensures IsAscii(R.Pretty(n, depth))
    decreases n, 0
  {
    match n {
      case Number(digits) => DigitsAscii(digits);
      case Text(text) => Pointers.AsciiThree("\"", text, "\"");
      case List(items) =>
        PrettyItemsAscii(items, depth + 1);
        BracketedAscii("[", R.PrettyItems(items, depth + 1), depth, "]");
      case Record(fields) =>
        PrettyFieldsAscii(fields, depth + 1);
        BracketedAscii("{", R.PrettyFields(fields, depth + 1), depth, "}");
      case _ =>
    }
  }

  lemma {:induction false} PrettyItemsAscii(items: seq<Node>, depth: nat)
    requires ReadableItems(items)
    ensures IsAscii(R.PrettyItems(items, depth))
    decreases items, 1
  {
    if items != [] {
      IndentAscii(depth);
      PrettyAscii(items[0], depth);
      PrettyItemsAscii(items[1..], depth);
      var comma := if |items| == 1 then "" else ",";
      Pointers.AsciiThree(R.Break(depth), R.Pretty(items[0], depth), comma);
    }
  }

  lemma {:induction false} PrettyFieldsAscii(fields: seq<Field>, depth: nat)
    requires ReadableFields(fields)
    ensures IsAscii(R.PrettyFields(fields, depth))
    decreases fields, 1
  {
    if fields != [] {
      IndentAscii(depth);
      PrettyAscii(fields[0].value, depth);
      PrettyFieldsAscii(fields[1..], depth);
      var comma := if |fields| == 1 then "" else ",";
      Pointers.AsciiThree(R.Break(depth), R.Quoted(fields[0].name), ": ");
      Pointers.AsciiThree(R.Break(depth) + R.Quoted(fields[0].name) + ": ", R.Pretty(fields[0].value, depth), comma);
    }
  }

  /** The document that a file holds. */
  function ReadDocument(data: bytes): Option<Node> {
    if !AllAscii(data) then None
    else
      match ReadNode(J.SkipSpace(ToAscii(data)))
      case Parsed(n, rest) => if J.SkipSpace(rest) == "" then Some(n) else None
      case _ => None
  }

  /** A rendered document is read back from its bytes. */
  lemma {:induction false} RenderedReads(n: Node)
    requires Readable(n)
    ensures ReadDocument(Batches.TextBytes(R.Pretty(n, 0) + "\n")) == Some(n)
  {
    PrettyAscii(n, 0);
    var text := R.Pretty(n, 0) + "\n";
    Pointers.TextBytesBack(text);
    PrettyStart(n, 0);
    J.SkipNothing(text);
    PrettyThenRead(n, 0, "\n");
    Pointers.SkipNewline();
  }

  // ---------- the fields of a rejection ----------

  function Lookup(fields: seq<Field>, name: string): Option<Node> {
    if fields == [] then None
    else if fields[0].name == name then Some(fields[0].value)
    else Lookup(fields[1..], name)
  }

  /** The value of a document's field. */
  function FieldOf(n: Option<Node>, name: string): Option<Node> {
    if n.Some? && n.value.Record? then Lookup(n.value.fields, name) else None
  }

  /** The list has exactly these texts, in order. */
  predicate ListsTexts(n: Option<Node>, texts: seq<string>) {
    && n.Some? && n.value.List? && |n.value.items| == |texts|
    && forall i :: 0 <= i < |texts| ==> n.value.items[i] == Text(texts[i])
  }

  predicate AllPlain(texts: seq<string>) {
    forall i :: 0 <= i < |texts| ==> J.Plain(texts[i])
  }

  lemma {:induction false} TextsReadable(texts: seq<string>)
    requires AllPlain(texts)
    ensures ReadableItems(R.Texts(texts)) && ListsTexts(Some(List(R.Texts(texts))), texts)
  {
    if texts != [] {
      TextsReadable(texts[1..]);
      forall i | 0 <= i < |texts| ensures R.Texts(texts)[i] == Text(texts[i]) {
        if i > 0 {
          assert texts[i] == texts[1..][i - 1];
        }
      }
    }
  }

  lemma {:induction false} FieldsJoin(a: seq<Field>, b: seq<Field>)
    requires ReadableFields(a) && ReadableFields(b)
    ensures ReadableFields(a + b)
  {
    if a == [] {
      assert a + b == b;
    } else {
      FieldsJoin(a[1..], b);
      assert (a + b)[1..] == a[1..] + b;
    }
  }

  lemma {:induction false} LookupJoined(a: seq<Field>, b: seq<Field>, name: string)
    requires Lookup(a, name).Some?
    ensures Lookup(a + b, name) == Lookup(a, name)
  {
    if a[0].name != name {
      LookupJoined(a[1..], b, name);
      assert (a + b)[1..] == a[1..] + b;
    }
  }

  predicate EachReadable(fields: seq<Field>) {
    forall i :: 0 <= i < |fields| ==> J.Plain(fields[i].name) && Readable(fields[i].value)
  }

  lemma {:induction false} EachThenAll(fields: seq<Field>)
    requires EachReadable(fields)
    ensures ReadableFields(fields)
  {
    if fields != [] {
      EachThenAll(fields[1..]);
    }
  }

  lemma {:induction false} HeadNames()
    ensures J.Plain("accepted") && J.Plain("accuracy_evaluated") && J.Plain("arbitrary_upload_closed")
    ensures J.Plain("blockers") && J.Plain("conclusion") && J.Plain("evidence_sha256")
    ensures J.Plain(R.REJECTED)
  {
  }

  lemma {:induction false} TailNames()
    ensures J.Plain("formal") && J.Plain("gates") && J.Plain("inventory_sha256") && J.Plain("malware_scan_closed")
  {
  }

  lemma {:induction false} LastNames()
    ensures J.Plain("production") && J.Plain("professional_judgment_required") && J.Plain("schema")
    ensures J.Plain("f1.1.1-acceptance-v2")
  {
  }

  lemma {:induction false} HeadReadable(evidence: Digest, blockers: seq<string>)
    requires AllPlain(blockers)
    ensures ReadableFields(R.AcceptanceHead(evidence, blockers))
  {
    HeadNames();
    TextsReadable(blockers);
    J.HexPlain(Hex(evidence));
    assert Readable(List(R.Texts(blockers)));
    EachThenAll(R.AcceptanceHead(evidence, blockers));
  }

  lemma {:induction false} TailReadable(formal: Node, gates: Node, inventory: string)
    requires Readable(formal) && Readable(gates) && J.Plain(inventory)
    ensures ReadableFields(R.AcceptanceTail(formal, gates, inventory))
  {
    TailNames();
    LastNames();
    EachThenAll(R.AcceptanceTail(formal, gates, inventory));
  }

  lemma {:induction false} LookupAt(fields: seq<Field>, i: nat)
    requires i < |fields| && forall j :: 0 <= j < i ==> fields[j].name != fields[i].name
    ensures Lookup(fields, fields[i].name) == Some(fields[i].value)
  {
    if i > 0 {
      LookupAt(fields[1..], i - 1);
    }
  }

  lemma {:induction false} NamesDiffer()
    ensures "accepted" != "blockers" && "accuracy_evaluated" != "blockers" && "arbitrary_upload_closed" != "blockers"
    ensures "accepted" != "conclusion" && "accuracy_evaluated" != "conclusion" && "arbitrary_upload_closed" != "conclusion"
    ensures "blockers" != "conclusion" && "conclusion" != "evidence_sha256"
    ensures "accepted" != "evidence_sha256" && "accuracy_evaluated" != "evidence_sha256"
    ensures "arbitrary_upload_closed" != "evidence_sha256" && "blockers" != "evidence_sha256"
  {
  }

  /** The entries of the head, by name. */
  lemma {:induction false} HeadHolds(evidence: Digest, blockers: seq<string>)
    ensures var head := R.AcceptanceHead(evidence, blockers);
      && Lookup(head, "accepted") == Some(Flag(false)) && Lookup(head, "blockers") == Some(List(R.Texts(blockers)))
      && Lookup(head, "conclusion") == Some(Text("F1_1_1_REJECTED")) && Lookup(head, "evidence_sha256") == Some(Text(Hex(evidence)))
  {
    var head := R.AcceptanceHead(evidence, blockers);
    NamesDiffer();
    LookupAt(head, 0);
    LookupAt(head, 3);
    LookupAt(head, 4);
    LookupAt(head, 5);
  }

  /** What acceptance.json of a rejection says. */
  ghost predicate Rejects(data: bytes, evidence: Digest, blockers: seq<string>) {
    var n := ReadDocument(data);
    && FieldOf(n, "accepted") == Some(Flag(false)) && FieldOf(n, "conclusion") == Some(Text("F1_1_1_REJECTED"))
    && FieldOf(n, "evidence_sha256") == Some(Text(Hex(evidence))) && ListsTexts(FieldOf(n, "blockers"), blockers)
  }

  /** The whole payload is read back. */
  lemma {:induction false} PayloadRead(evidence: Digest, blockers: seq<string>, formal: Node, gates: Node, inventory: string, runtime: string)
    requires AllPlain(blockers) && Readable(formal) && Readable(gates) && J.Plain(inventory)
    ensures ReadDocument(R.FilesOf(R.RenderRejected(evidence, blockers, formal, gates, inventory, runtime))["acceptance.json"])
         == Some(R.AcceptanceNode(evidence, blockers, formal, gates, inventory))
  {
    HeadReadable(evidence, blockers);
    TailReadable(formal, gates, inventory);
    FieldsJoin(R.AcceptanceHead(evidence, blockers), R.AcceptanceTail(formal, gates, inventory));
    RenderedReads(R.AcceptanceNode(evidence, blockers, formal, gates, inventory));
  }

  /** A reader of a rejection's acceptance.json finds that it is not accepted, and exactly the reason
      codes that it was rendered from. */
  lemma {:induction false} RejectionReads(evidence: Digest, blockers: seq<string>, formal: Node, gates: Node, inventory: string, runtime: string)
    requires AllPlain(blockers) && Readable(formal) && Readable(gates) && J.Plain(inventory)
    ensures Rejects(R.FilesOf(R.RenderRejected(evidence, blockers, formal, gates, inventory, runtime))["acceptance.json"], evidence, blockers)
  {
    var head, tail := R.AcceptanceHead(evidence, blockers), R.AcceptanceTail(formal, gates, inventory);
    PayloadRead(evidence, blockers, formal, gates, inventory, runtime);
    HeadHolds(evidence, blockers);
    LookupJoined(head, tail, "accepted");
    LookupJoined(head, tail, "blockers");
    LookupJoined(head, tail, "conclusion");
    LookupJoined(head, tail, "evidence_sha256");
    TextsReadable(blockers);
  }

  // ---------- the status page ----------

  /** What stands before the next tag. */
  function UpToTag(s: string): (t: string)
    ensures |t| <= |s|
  {
    if s == "" || s[0] == '<' then "" else [s[0]] + UpToTag(s[1..])
  }

  /** The texts of a page's list items. */
  function ListItems(s: string): seq<string>
    decreases |s|
  {
    if s == "" then []
    else if Begins(s, "<li>") then
      var t := UpToTag(s[4..]);
      [t] + ListItems(s[4 + |t|..])
    else ListItems(s[1..])
  }

  /** No list item starts here. */
  predicate NoItem(s: string) {
    forall i :: 0 <= i < |s| && s[i] == '<' ==> i + 1 < |s| && s[i + 1] != 'l'
  }

  lemma {:induction false} NoItemSkipped(s: string, rest: string)
    requires NoItem(s)
    ensures ListItems(s + rest) == ListItems(rest)
  {
    if s == "" {
      assert s + rest == rest;
    } else {
      var z := s + rest;
      assert z[1..] == s[1..] + rest;
      assert !Begins(z, "<li>") by {
        assert "<li>"[0] == '<' && "<li>"[1] == 'l';
        if z[0] == '<' {
          assert z[1] == s[1];
        }
      }
      NoItemSkipped(s[1..], rest);
    }
  }

  lemma {:induction false} NoItemJoin(a: string, b: string)
    requires NoItem(a) && NoItem(b)
    ensures NoItem(a + b)
  {
  }

  lemma {:induction false} UpToTagOf(s: string, rest: string)
    requires '<' !in s && rest != "" && rest[0] == '<'
    ensures UpToTag(s + rest) == s
  {
    if s == "" {
      assert s + rest == rest;
    } else {
      assert s[0] in s;
      assert (s + rest)[1..] == s[1..] + rest;
      UpToTagOf(s[1..], rest);
    }
  }

  lemma {:induction false} OneListed(code: string, rest: string)
    requires '<' !in code
    ensures ListItems("<li>" + code + "</li>" + rest) == [code] + ListItems(rest)
  {
    var s := "<li>" + code + "</li>" + rest;
    assert s[..4] == "<li>" && s[4..] == code + ("</li>" + rest);
    UpToTagOf(code, "</li>" + rest);
    assert s[4 + |code|..] == "</li>" + rest;
    NoItemSkipped("</li>", rest);
  }

  lemma {:induction false} ItemsListed(codes: seq<string>, rest: string)
    requires forall i :: 0 <= i < |codes| ==> '<' !in codes[i]
    ensures ListItems(R.StatusItems(codes) + rest) == codes + ListItems(rest)
  {
    if codes == [] {
      assert R.StatusItems(codes) + rest == rest;
    } else {
      OneListed(codes[0], R.StatusItems(codes[1..]) + rest);
      ItemsListed(codes[1..], rest);
      FlatThree("<li>" + codes[0] + "</li>", R.StatusItems(codes[1..]), rest);
      assert codes == [codes[0]] + codes[1..];
    }
  }

  lemma {:induction false} HeadHasNoItem()
    ensures NoItem(R.STATUS_HEAD)
  {
    NoItemJoin("<!doctype html><html lang='zh'>", "<head><meta charset='utf-8'>");
    NoItemJoin("<!doctype html><html lang='zh'>" + "<head><meta charset='utf-8'>", "<title>F1.1.1 acceptance</title>");
    NoItemJoin("<!doctype html><html lang='zh'>" + "<head><meta charset='utf-8'>" + "<title>F1.1.1 acceptance</title>", "</head><body><h1>");
  }

  lemma {:induction false} FooterHasNoItem()
    ensures NoItem(R.STATUS_FOOTER)
  {
    NoItemJoin("FIXTURE_ONLY / ", "NOT_PRODUCTION / ");
    NoItemJoin("FIXTURE_ONLY / " + "NOT_PRODUCTION / ", "ACCURACY_NOT_");
    NoItemJoin("FIXTURE_ONLY / " + "NOT_PRODUCTION / " + "ACCURACY_NOT_", "EVALUATED / ");
    NoItemJoin("FIXTURE_ONLY / " + "NOT_PRODUCTION / " + "ACCURACY_NOT_" + "EVALUATED / ", "PROFESSIONAL_JUDGMENT_REQUIRED");
  }

  lemma {:induction false} SummaryHasNoItem(evidence: Digest)
    ensures NoItem(R.StatusSummary(evidence))
  {
    assert forall i :: 0 <= i < |Hex(evidence)| ==> IsLowerHexChar(Hex(evidence)[i]);
    NoItemJoin("</h1><p>accepted=false</p>" + "<p>evidence_sha256=", Hex(evidence));
  }

  /** The status page lists exactly the reason codes, in order. */
  lemma {:induction false} StatusLists(evidence: Digest, codes: seq<string>)
    requires forall i :: 0 <= i < |codes| ==> '<' !in codes[i]
    ensures ListItems(R.StatusText(evidence, codes)) == codes
  {
    HeadHasNoItem();
    SummaryHasNoItem(evidence);
    FooterHasNoItem();
    var before := R.STATUS_HEAD + R.REJECTED + R.StatusSummary(evidence);
    NoItemJoin(R.STATUS_HEAD, R.REJECTED);
    NoItemJoin(R.STATUS_HEAD + R.REJECTED, R.StatusSummary(evidence));
    NoItemJoin(before, "</p><ul>");
    var last := "</ul><p>" + R.STATUS_FOOTER + "</p></body></html>";
    NoItemJoin("</ul><p>", R.STATUS_FOOTER);
    NoItemJoin("</ul><p>" + R.STATUS_FOOTER, "</p></body></html>");
    NoItemSkipped(before + "</p><ul>", R.StatusItems(codes) + last);
    ItemsListed(codes, last);
    NoItemSkipped(last, "");
    assert last + "" == last;
    PageCut(before, R.StatusItems(codes), R.STATUS_FOOTER, "</p></body></html>");
  }

  lemma {:induction false} PageCut(before: string, items: string, footer: string, end: string)
    ensures before + ("</p><ul>" + items + "</ul><p>") + footer + end == before + "</p><ul>" + (items + ("</ul><p>" + footer + end))
  {
  }

  // ---------- a fail-closed rejection ----------

  lemma {:induction false} ReportablePlain(code: string)
    requires R.Reportable(code)
    ensures J.Plain(code) && '<' !in code
  {
    forall i | 0 <= i < |code| ensures ' ' <= code[i] <= '~' && code[i] != '"' && code[i] != '\\' {
      assert R.CodeChar(code[i]);
    }
  }

  lemma {:induction false} FormalNames()
    ensures J.Plain("command_registry_sha256") && J.Plain("config_sha256") && J.Plain("runtime_inventory_sha256")
  {
  }

  lemma {:induction false} SourceNames()
    ensures J.Plain("schema") && J.Plain("f1.1.1-formal-orchestration-v1")
    ensures J.Plain("source_file_count") && J.Plain("source_sha256") && J.Plain(R.INVALID)
  {
  }

  lemma {:induction false} FormalReadable(fixed: R.Fixed, config: string)
    requires J.Plain(config)
    ensures Readable(R.FormalNode(fixed, config))
  {
    FormalNames();
    SourceNames();
    J.HexPlain(Hex(fixed.registry));
    EachThenAll(R.FormalNode(fixed, config).fields);
  }

  lemma {:induction false} HeadAscii()
    ensures IsAscii(R.STATUS_HEAD)
  {
    Pointers.AsciiThree("<!doctype html><html lang='zh'>", "<head><meta charset='utf-8'>", "<title>F1.1.1 acceptance</title>");
  }

  lemma {:induction false} FooterAscii()
    ensures IsAscii(R.STATUS_FOOTER)
  {
    Pointers.AsciiThree("FIXTURE_ONLY / ", "NOT_PRODUCTION / ", "ACCURACY_NOT_");
    Pointers.AsciiThree("FIXTURE_ONLY / " + "NOT_PRODUCTION / " + "ACCURACY_NOT_", "EVALUATED / ", "PROFESSIONAL_JUDGMENT_REQUIRED");
  }

  predicate AllAsciiTexts(codes: seq<string>) {
    forall i :: 0 <= i < |codes| ==> IsAscii(codes[i])
  }

  lemma {:induction false} ItemsAscii(codes: seq<string>)
    requires AllAsciiTexts(codes)
    ensures IsAscii(R.StatusItems(codes))
  {
    if codes != [] {
      ItemsAscii(codes[1..]);
      Pointers.AsciiThree("<li>", codes[0], "</li>");
    }
  }

  lemma {:induction false} ListAscii(codes: seq<string>)
    requires AllAsciiTexts(codes)
    ensures IsAscii(R.StatusList(codes))
  {
    ItemsAscii(codes);
    Pointers.AsciiThree("</p><ul>", R.StatusItems(codes), "</ul><p>");
  }

  lemma {:induction false} SummaryAscii(evidence: Digest)
    ensures IsAscii(R.StatusSummary(evidence))
  {
    assert forall i :: 0 <= i < |Hex(evidence)| ==> IsLowerHexChar(Hex(evidence)[i]);
    Pointers.AsciiThree("</h1><p>accepted=false</p>", "<p>evidence_sha256=", Hex(evidence));
  }

  lemma {:induction false} StatusAscii(evidence: Digest, codes: seq<string>)
    requires AllAsciiTexts(codes)
    ensures IsAscii(R.StatusText(evidence, codes))
  {
    HeadAscii();
    FooterAscii();
    SummaryAscii(evidence);
    ListAscii(codes);
    var head, summary, list, footer := R.STATUS_HEAD, R.StatusSummary(evidence), R.StatusList(codes), R.STATUS_FOOTER;
    Pointers.AsciiSeven(head, R.REJECTED, summary, list, footer, "</p></body></html>", "");
  }

  /** The items that a status page's bytes list. */
  function ReadPage(data: bytes): Option<seq<string>> {
    if AllAscii(data) then Some(ListItems(ToAscii(data))) else None
  }

  lemma {:induction false} PageReads(evidence: Digest, codes: seq<string>)
    requires forall i :: 0 <= i < |codes| ==> J.Plain(codes[i]) && '<' !in codes[i]
    ensures ReadPage(Batches.TextBytes(R.StatusText(evidence, codes))) == Some(codes)
  {
    StatusAscii(evidence, codes);
    Pointers.TextBytesBack(R.StatusText(evidence, codes));
    StatusLists(evidence, codes);
  }

  /** What a reader of a fail-closed rejection finds: in acceptance.json that nothing is accepted and the
      one reason, in status.html the same reason; the error's own code where that may be shown. */
  lemma {:induction false} FailClosedReads(fixed: R.Fixed, config: string, code: string)
    ensures var files := R.FailClosedCandidate(fixed, config, code).files;
      var shown := if R.ReasonCode(code) && !R.TokenIn(code) then code else "PRIMARY_STACK_PREPARATION_RED";
      && Rejects(files["acceptance.json"], fixed.evidence, [shown])
      && ReadPage(files["status.html"]) == Some([shown])
  {
    R.FallbackReportable();
    var shown := if R.Reportable(code) then code else R.FALLBACK;
    var configText := if IsHex64(config) then config else R.INVALID;
    ReportablePlain(shown);
    SourceNames();
    if IsHex64(config) {
      J.HexPlain(config);
    }
    FormalReadable(fixed, configText);
    RejectionReads(fixed.evidence, [shown], R.FormalNode(fixed, configText), Record([]), R.INVALID, R.INVALID);
    PageReads(fixed.evidence, [shown]);
  }
}
