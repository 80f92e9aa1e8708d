/** The text that canonical JSON is printed as: visible ASCII only, every character by its shortest
    spelling. */
module JsonText {
  import opened Bytes
  import opened Json

  /** Printable ASCII, the blank included. */
  predicate Visible(s: string) {
    forall i :: 0 <= i < |s| ==> ' ' <= s[i] <= '~'
  }

  /** The character is what a string literal with this text says. */
  predicate Spells(e: string, c: char) {
    Visible(e) && ParseString(e + "\"") == Parsed([c], "")
  }

  lemma {:induction false} EscapeVisible(c: char)
    requires c as int < 128
    ensures Visible(EscapeChar(c))
  {
  }

  lemma {:induction false} EscapeSpells(c: char)
    requires c as int < 128
    ensures Spells(EscapeChar(c), c)
  {
    EscapeVisible(c);
    ParseEscapedChar(c, "\"");
    assert "\""[1..] == "" && ParseString("\"") == Parsed("", "");
    assert [c] + "" == [c];
  }

  /** The printer's escape of a character spells it, and no visible text that spells it is shorter. */
  lemma {:induction false} EscapeIsShortest(c: char, e: string)
    requires c as int < 128
    ensures Spells(EscapeChar(c), c)
    ensures Spells(e, c) ==> |EscapeChar(c)| <= |e|
  {
    EscapeSpells(c);
    if Spells(e, c) {
      NotShorter(c, e);
    }
  }

  lemma {:induction false} OneChar(a: string, t: string, c: char)
    requires |a| == 1 && a + t == [c]
    ensures a[0] == c
  {
    assert (a + t)[0] == a[0];
  }

  lemma {:induction false} TooShort(c: char)
    ensures !Spells("", c) && !Spells("\\", c)
  {
    var s := "\\" + "\"";
    assert "" + "\"" == "\"" && "\""[1..] == "";
    assert s[0] == '\\' && s[1] == '"' && s[2..] == "";
  }

  /** A numeral escape takes six characters. */
  lemma {:induction false} ShortNumeral(c: char, e: string)
    requires 2 <= |e| < 6 && e[0] == '\\' && e[1] == 'u'
    ensures !Spells(e, c)
  {
    var s := e + "\"";
    assert s[0] == '\\' && s[1] == 'u' && s[|e|] == '"';
  }

  lemma {:induction false} NotShorter(c: char, e: string)
    requires c as int < 128 && Spells(e, c)
    ensures |EscapeChar(c)| <= |e|
  {
    TooShort(c);
    if e[0] != '\\' {
      PlainSpelling(c, e);
    } else if |e| < 6 {
      EscapedSpelling(c, e);
    }
  }

  lemma {:induction false} PlainSpelling(c: char, e: string)
    requires Spells(e, c) && e != "" && e[0] != '\\'
    ensures c == e[0] && c != '"'
  {
    var s := e + "\"";
    assert s[0] == e[0];
    if s[0] != '"' {
      OneChar([s[0]], ParseString(s[1..]).value, c);
    }
  }

  lemma {:induction false} EscapedSpelling(c: char, e: string)
    requires Spells(e, c) && e != "" && e[0] == '\\' && |e| < 6
    ensures |e| >= 2 && (c == '/' || c in "\"\\\n\r\t" || c as int == 8 || c as int == 12)
  {
    var s := e + "\"";
    TooShort(c);
    assert e != "\\";
    assert s[0] == '\\' && s[1] == e[1];
    if e[1] == 'u' {
      ShortNumeral(c, e);
    }
    OneChar(SimpleEscape(s[1]), ParseString(s[2..]).value, c);
  }

  lemma {:induction false} JoinVisible(a: string, b: string)
    requires Visible(a) && Visible(b)
    ensures Visible(a + b)
  {
  }

  lemma {:induction false} QuoteVisible(s: string)
    requires IsAscii(s)
    ensures Visible(Quote(s))
  {
    EscapedVisible(s);
  }

  lemma {:induction false} EscapedVisible(s: string)
    requires IsAscii(s)
    ensures Visible(Escape(s))
  {
    if s != "" {
      EscapeVisible(s[0]);
      EscapedVisible(s[1..]);
    }
  }

  lemma {:induction false} DigitsVisible(n: nat)
    ensures Visible(Digits(n))
  {
    DigitsSpelling(n);
    forall i | 0 <= i < |Digits(n)| ensures ' ' <= Digits(n)[i] <= '~' {
      assert IsDigit(Digits(n)[i]);
    }
  }

  /** A printed document has no line break and no other character that is not visible ASCII. */
  lemma {:induction false} PrintVisible(v: Value)
    requires WellFormed(v)
    ensures Visible(Print(v))
    decreases v, 1
  {
    match v {
      case Int(n) => DigitsVisible(if n < 0 then -n else n);
      case Str(s) => QuoteVisible(s);
      case Arr(items) =>
        if items != [] {
          ItemsVisible(items);
        }
      case Obj(fields) =>
        if fields != [] {
          FieldsVisible(fields);
        }
    }
  }

  lemma {:induction false} ItemsVisible(items: seq<Value>)
    requires items != [] && forall x :: x in items ==> WellFormed(x)
    ensures Visible(PrintItems(items))
    decreases items, 0
  {
    PrintVisible(items[0]);
    if |items| > 1 {
      ItemsVisible(items[1..]);
      JoinVisible(Print(items[0]) + ",", PrintItems(items[1..]));
    }
  }

  lemma {:induction false} MemberVisible(f: Field)
    requires IsAscii(f.key) && WellFormed(f.value)
    ensures Visible(PrintMember(f))
    decreases f, 2
  {
    QuoteVisible(f.key);
    PrintVisible(f.value);
    JoinVisible(Quote(f.key) + ":", Print(f.value));
  }

  lemma {:induction false} FieldsVisible(fields: seq<Field>)
    requires fields != [] && WellFormedFields(fields)
    ensures Visible(PrintFields(fields))
    decreases fields, 0
  {
    assert fields[0] in fields;
    MemberVisible(fields[0]);
    if |fields| > 1 {
      FieldsVisible(fields[1..]);
      JoinVisible(PrintMember(fields[0]) + ",", PrintFields(fields[1..]));
    }
  }

  // ---------- what the parser takes besides ----------

  /** Blanks, tabs, line feeds and carriage returns. */
  predicate White(s: string) {
    forall i :: 0 <= i < |s| ==> s[i] in " \t\n\r"
  }

  lemma {:induction false} WhiteSkipped(s: string, rest: string)
    requires White(s) && (rest == "" || !IsSpace(rest[0]))
    ensures SkipSpace(s + rest) == rest
  {
    if s == "" {
      assert s + rest == rest;
    } else {
      assert s[0] in " \t\n\r";
      assert (s + rest)[1..] == s[1..] + rest;
      WhiteSkipped(s[1..], rest);
    }
  }

  lemma {:induction false} WhiteEndsNumber(s: string)
    requires White(s)
    ensures EndsNumber(s)
  {
    if s != "" {
      assert s[0] in " \t\n\r";
    }
  }

  /** White space before and after a document makes no difference. */
  lemma {:induction false} SpaceAround(v: Value, before: string, after: string)
    requires WellFormed(v) && White(before) && White(after)
    ensures Loads(before + (Print(v) + after)) == Parsed(v, "")
  {
    PrintStart(v);
    WhiteSkipped(before, Print(v) + after);
    WhiteEndsNumber(after);
    PrintThenParse(v, after);
    assert after + "" == after;
    WhiteSkipped(after, "");
  }

  /** The two-character escapes of section 7 of RFC 8259: those of a character by itself, and those of
      control characters. */
  lemma {:induction false} EscapesRead(rest: string)
    requires ParseString(rest).Parsed?
    ensures var t, u := ParseString(rest).value, ParseString(rest).rest;
      && ParseString("\\\"" + rest) == Parsed("\"" + t, u) && ParseString("\\\\" + rest) == Parsed("\\" + t, u)
      && ParseString("\\/" + rest) == Parsed("/" + t, u)
  {
    EscapeRead('"', rest);
    EscapeRead('\\', rest);
    EscapeRead('/', rest);
  }

  lemma {:induction false} ControlsRead(rest: string)
    requires ParseString(rest).Parsed?
    ensures var t, u := ParseString(rest).value, ParseString(rest).rest;
      && ParseString("\\n" + rest) == Parsed("\n" + t, u) && ParseString("\\r" + rest) == Parsed("\r" + t, u)
      && ParseString("\\t" + rest) == Parsed("\t" + t, u) && ParseString("\\b" + rest) == Parsed([8 as char] + t, u)
      && ParseString("\\f" + rest) == Parsed([12 as char] + t, u)
  {
    EscapeRead('n', rest);
    EscapeRead('r', rest);
    EscapeRead('t', rest);
    EscapeRead('b', rest);
    EscapeRead('f', rest);
  }

  lemma {:induction false} EscapeRead(c: char, rest: string)
    requires ParseString(rest).Parsed? && c != 'u' && SimpleEscape(c) != ""
    ensures ParseString("\\" + [c] + rest) == Parsed(SimpleEscape(c) + ParseString(rest).value, ParseString(rest).rest)
    ensures "\\" + [c] == ['\\', c]
  {
    var s := "\\" + [c] + rest;
    assert s[0] == '\\' && s[1] == c && s[2..] == rest;
  }
}
