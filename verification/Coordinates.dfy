/** The decimals of the envelope's boxes, as _format_box of infra/f0e/runner.py prints them, and the
    pages whose envelopes the reader takes, in numbers. */
module Coordinates {
  import opened Wrappers
  import opened Bytes
  import opened Json
  import opened Envelope

  // ---------- three decimals ----------

  function Three(n: nat): (s: string)
    requires n < 1000
    ensures |s| == 3
  {
    [DigitChar(n / 100), DigitChar(n / 10 % 10), DigitChar(n % 10)]
  }

  function SpelledMagnitude(m: nat): string {
    Digits(m / 1000) + "." + Three(m % 1000)
  }

  /** n thousandths with three decimals. */
  function Spelled(n: int): string {
    if n < 0 then "-" + SpelledMagnitude(-n) else SpelledMagnitude(n)
  }

  lemma {:induction false} DigitCharIs(d: nat)
    requires d < 10
    ensures IsDigit(DigitChar(d)) && DigitValue(DigitChar(d)) == d
  {
  }

  lemma {:induction false} ThreeReads(n: nat)
    requires n < 1000
    ensures AllDigits(Three(n)) && DigitsValue(Three(n)) == n
  {
    var a, b, c := n / 100, n / 10 % 10, n % 10;
    DigitCharIs(a);
    DigitCharIs(b);
    DigitCharIs(c);
    var s := Three(n);
    assert s[..2] == [DigitChar(a), DigitChar(b)] && s[..2][..1] == [DigitChar(a)] && [DigitChar(a)][..0] == "";
    assert DigitsValue([DigitChar(a)]) == a;
    assert DigitsValue(s[..2]) == 10 * a + b;
    assert DigitsValue(s) == 10 * DigitsValue(s[..2]) + c;
  }

  lemma {:induction false} MagnitudeReads(m: nat)
    ensures var s, k := SpelledMagnitude(m), |Digits(m / 1000)|;
      && |s| == k + 4 && s[..k] == Digits(m / 1000) && s[k] == '.' && s[k + 1..] == Three(m % 1000)
      && AllDigits(s[..k]) && AllDigits(s[k + 1..]) && IsDigit(s[0])
      && (s[0] == '0' ==> k == 1)
      && 1000 * DigitsValue(s[..k]) + DigitsValue(s[k + 1..]) == m
  {
    var s, k := SpelledMagnitude(m), |Digits(m / 1000)|;
    DigitsSpelling(m / 1000);
    ThreeReads(m % 1000);
    assert s[..k] == Digits(m / 1000) && s[k + 1..] == Three(m % 1000);
    assert s[0] == Digits(m / 1000)[0];
  }

  /** Every number of thousandths is spelled as a decimal of the format, and read back. */
  lemma {:induction false} SpelledReads(n: int)
    ensures IsThreeDecimal(Spelled(n)) && Thousandths(Spelled(n)) == n
  {
    var m: nat := if n < 0 then -n else n;
    MagnitudeReads(m);
    var s := SpelledMagnitude(m);
    assert Unsigned(Spelled(n)) == s;
  }

  // ---------- and no other text is one ----------

  lemma {:induction false} DigitsOfValue(u: string)
    requires u != "" && AllDigits(u) && (u[0] != '0' || |u| == 1)
    ensures Digits(DigitsValue(u)) == u
  {
    var k := |u| - 1;
    assert IsDigit(u[k]);
    var last := DigitValue(u[k]);
    assert DigitChar(last) == u[k];
    if k == 0 {
      assert u[..0] == "" && u == [u[0]];
    } else {
      var front := u[..k];
      assert front[0] == u[0];
      DigitsOfValue(front);
      DigitsValueLower(front);
      var n := DigitsValue(front);
      assert n >= 1 && DigitsValue(u) == 10 * n + last;
      assert (10 * n + last) / 10 == n && (10 * n + last) % 10 == last;
      assert u == front + [u[k]];
    }
  }

  lemma {:induction false} ValueOfThree(u: string)
    requires |u| == 3 && AllDigits(u)
    ensures IsDigit(u[0]) && IsDigit(u[1]) && IsDigit(u[2])
    ensures DigitsValue(u) == 100 * DigitValue(u[0]) + 10 * DigitValue(u[1]) + DigitValue(u[2])
  {
    assert u[..2][..1] == [u[0]] && [u[0]][..0] == "" && u[..2][1] == u[1];
    assert DigitsValue([u[0]]) == DigitValue(u[0]);
    assert DigitsValue(u[..2]) == 10 * DigitValue(u[0]) + DigitValue(u[1]);
  }

  lemma {:induction false} HundredsTensUnits(a: nat, b: nat, c: nat)
    requires a < 10 && b < 10 && c < 10
    ensures var n := 100 * a + 10 * b + c; n < 1000 && n / 100 == a && n / 10 % 10 == b && n % 10 == c
  {
  }

  lemma {:induction false} CharOfDigit(c: char)
    requires IsDigit(c)
    ensures DigitValue(c) < 10 && DigitChar(DigitValue(c)) == c
  {
  }

  lemma {:induction false} ThreeOfValue(u: string)
    requires |u| == 3 && AllDigits(u)
    ensures DigitsValue(u) < 1000 && Three(DigitsValue(u)) == u
  {
    ValueOfThree(u);
    CharOfDigit(u[0]);
    CharOfDigit(u[1]);
    CharOfDigit(u[2]);
    HundredsTensUnits(DigitValue(u[0]), DigitValue(u[1]), DigitValue(u[2]));
  }

  lemma {:induction false} UnsignedIsSpelled(t: string)
    requires IsThreeDecimal(t) && t[0] != '-'
    ensures Thousandths(t) >= 0 && t == SpelledMagnitude(Thousandths(t))
  {
    var k := |t| - 4;
    var u, v := t[..k], t[|t| - 3..];
    assert u[0] == t[0];
    DigitsOfValue(u);
    ThreeOfValue(v);
    var a, b := DigitsValue(u), DigitsValue(v);
    assert (1000 * a + b) / 1000 == a && (1000 * a + b) % 1000 == b;
    assert t == u + [t[k]] + t[k + 1..];
    assert t[k + 1..] == v;
  }

  /** A decimal of the format is the spelling of its value, or a zero with a sign. */
  lemma {:induction false} DecimalIsSpelled(s: string)
    requires IsThreeDecimal(s)
    ensures s == Spelled(Thousandths(s)) || s == "-0.000"
  {
    if s[0] == '-' {
      var t := s[1..];
      assert s == "-" + t;
      SignedStart(s);
      UnsignedIsSpelled(t);
      if Thousandths(t) == 0 {
        assert Digits(0) == "0" && Three(0) == "000";
        assert t == "0.000";
      }
    } else {
      UnsignedIsSpelled(s);
    }
  }

  lemma {:induction false} SignedStart(s: string)
    requires IsThreeDecimal(s) && s[0] == '-'
    ensures IsThreeDecimal(s[1..]) && s[1..][0] != '-' && Thousandths(s) == -Thousandths(s[1..])
  {
    var t := s[1..];
    assert Unsigned(s) == t;
    assert t[0] == t[..|t| - 4][0];
  }

  // ---------- boxes ----------

  /** A box in thousandths. */
  datatype Area = Area(left: int, bottom: int, right: int, top: int)

  /** _format_box. */
  function Printed(a: Area): Box {
    Box(Spelled(a.bottom), Spelled(a.left), Spelled(a.right), Spelled(a.top))
  }

  predicate Within(n: int) {
    -1_000_000_000 <= n <= 1_000_000_000
  }

  /** The areas that have a width and a height, within a million in every direction. */
  predicate Proper(a: Area) {
    && Within(a.left) && Within(a.bottom) && Within(a.right) && Within(a.top)
    && a.left < a.right && a.bottom < a.top
  }

  lemma {:induction false} BoxIffProper(b: Box, a: Area)
    requires IsThreeDecimal(b.left) && IsThreeDecimal(b.bottom) && IsThreeDecimal(b.right) && IsThreeDecimal(b.top)
    requires Thousandths(b.left) == a.left && Thousandths(b.bottom) == a.bottom
    requires Thousandths(b.right) == a.right && Thousandths(b.top) == a.top
    ensures ValidBox(b) <==> Proper(a)
  {
  }

  /** A printed box is valid exactly when the area is proper, signs included. */
  lemma {:induction false} PrintedValid(a: Area)
    ensures ValidBox(Printed(a)) <==> Proper(a)
  {
    SpelledReads(a.left);
    SpelledReads(a.bottom);
    SpelledReads(a.right);
    SpelledReads(a.top);
    BoxIffProper(Printed(a), a);
  }

  // ---------- pages in numbers ----------

  /** What every envelope says of its source, in numbers. */
  datatype Facts = Facts(pages: int, page: int, unit: Digest)

  function UnitOf(h: bytes -> Digest, source: bytes, f: Facts): Unit {
    Unit(Hex(h(source)), |source|, f.pages, f.page, Hex(f.unit))
  }

  predicate FactsOk(source: bytes, f: Facts) {
    8 <= |source| <= 67_108_864 && 1 <= f.page <= f.pages <= 128
  }

  lemma {:induction false} UnitValid(h: bytes -> Digest, source: bytes, f: Facts)
    ensures ValidUnit(UnitOf(h, source, f)) <==> FactsOk(source, f)
  {
  }

  function PdfHeader(h: bytes -> Digest, source: bytes, f: Facts, media: Area, crop: Area, turn: int): Header {
    Pdf(UnitOf(h, source, f), Printed(media), Printed(crop), turn)
  }

  predicate PdfOk(source: bytes, f: Facts, media: Area, crop: Area, turn: int) {
    FactsOk(source, f) && Proper(media) && Proper(crop) && (turn == 0 || turn == 90 || turn == 180 || turn == 270)
  }

  function JpegHeader(h: bytes -> Digest, source: bytes, f: Facts, width: int, height: int): Header {
    Jpeg(UnitOf(h, source, f), width, height)
  }

  predicate JpegOk(source: bytes, f: Facts, width: int, height: int) {
    8 <= |source| <= 67_108_864 && f.pages == 1 && f.page == 1 && width >= 1 && height >= 1 && width * height <= 16_000_000
  }

  /** A PDF page as it is printed is described by its header exactly when its numbers are in range, and
      then its envelope is read back. */
  lemma {:induction false} PdfDecodes(h: bytes -> Digest, source: bytes, f: Facts, media: Area, crop: Area, turn: int)
    ensures Describes(PdfHeader(h, source, f, media, crop, turn), source, h) <==> PdfOk(source, f, media, crop, turn)
    ensures PdfOk(source, f, media, crop, turn) ==>
      var header := PdfHeader(h, source, f, media, crop, turn);
      ValidHeader(header) && Decode(Encode(header, source), h) == Ok((header, source))
  {
    var header := PdfHeader(h, source, f, media, crop, turn);
    UnitValid(h, source, f);
    PrintedValid(media);
    PrintedValid(crop);
    if PdfOk(source, f, media, crop, turn) {
      DecodeIffEncode(Encode(header, source), header, source, h);
    }
  }

  /** And so is an image. */
  lemma {:induction false} JpegDecodes(h: bytes -> Digest, source: bytes, f: Facts, width: int, height: int)
    ensures Describes(JpegHeader(h, source, f, width, height), source, h) <==> JpegOk(source, f, width, height)
    ensures JpegOk(source, f, width, height) ==>
      var header := JpegHeader(h, source, f, width, height);
      ValidHeader(header) && Decode(Encode(header, source), h) == Ok((header, source))
  {
    var header := JpegHeader(h, source, f, width, height);
    UnitValid(h, source, f);
    if JpegOk(source, f, width, height) {
      DecodeIffEncode(Encode(header, source), header, source, h);
    }
  }

  // ---------- and no others ----------

  function Unhex(s: string): bytes
    requires |s| % 2 == 0 && forall i :: 0 <= i < |s| ==> IsLowerHexChar(s[i])
  {
    if s == "" then []
    else
      assert IsLowerHexChar(s[0]) && IsLowerHexChar(s[1]);
      [16 * HexValue(s[0]) + HexValue(s[1])] + Unhex(s[2..])
  }

  lemma {:induction false} UnhexOfHex(b: bytes)
    ensures Unhex(Hex(b)) == b
  {
    if b != [] {
      assert Hex(b)[2..] == Hex(b[1..]);
      UnhexOfHex(b[1..]);
      assert b == [b[0]] + b[1..];
      assert HexValue(HexChar(b[0] / 16)) == b[0] / 16 && HexValue(HexChar(b[0] % 16)) == b[0] % 16;
    }
  }

  lemma {:induction false} HexDigits(c: char, d: char)
    requires IsLowerHexChar(c) && IsLowerHexChar(d)
    ensures var n := 16 * HexValue(c) + HexValue(d); n < 256 && HexChar(n / 16) == c && HexChar(n % 16) == d
  {
  }

  lemma {:induction false} HexOfUnhex(s: string)
    requires |s| % 2 == 0 && forall i :: 0 <= i < |s| ==> IsLowerHexChar(s[i])
    ensures Hex(Unhex(s)) == s && |Unhex(s)| == |s| / 2
  {
    if s != "" {
      HexOfUnhex(s[2..]);
      var b := Unhex(s);
      assert b[1..] == Unhex(s[2..]);
      assert IsLowerHexChar(s[0]) && IsLowerHexChar(s[1]);
      HexDigits(s[0], s[1]);
      assert s == [s[0], s[1]] + s[2..];
    }
  }

  /** The texts of 64 hexadecimal digits are those of the digests. */
  lemma {:induction false} HexIsDigest(s: string)
    ensures IsHex64(s) <==> exists d: Digest :: Hex(d) == s
  {
    if IsHex64(s) {
      HexOfUnhex(s);
      var d: Digest := Unhex(s);
      assert Hex(d) == s;
    }
  }

  /** A coordinate that is accepted is in range, and printed that way or as a zero with a sign. */
  lemma {:induction false} CoordinateIsPrinted(s: string)
    ensures ValidCoordinate(s) <==> s == "-0.000" || exists n :: Within(n) && s == Spelled(n)
  {
    if ValidCoordinate(s) {
      DecimalIsSpelled(s);
    }
    if exists n :: Within(n) && s == Spelled(n) {
      var n :| Within(n) && s == Spelled(n);
      SpelledReads(n);
    }
    SignedZero();
  }

  lemma {:induction false} SignedZero()
    ensures ValidCoordinate("-0.000") && Thousandths("-0.000") == 0
  {
    SpelledReads(0);
    assert Digits(0) == "0" && Three(0) == "000" && Spelled(0) == "0.000";
    assert Unsigned("-0.000") == "0.000";
  }
}
