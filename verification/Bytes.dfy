/** Octet strings, fixed-width big-endian integers, hexadecimal digests and UTF-8.

    Every commitment in the repository is a digest of a byte stream that is glued together
    from such pieces, so the lemmas here say which pieces can be read back from a stream. */
module Bytes {

  type byte = x: int | 0 <= x < 256
  type bytes = seq<byte>

  /** A SHA-256 value. The hash itself is always a parameter `h: bytes -> Digest`: it is an
      arbitrary function, and a theorem that needs two inputs not to collide says so. */
  type Digest = d: bytes | |d| == 32 witness seq(32, _ => 0)

  /** The two inputs are not a collision of `h`. */
  predicate Separates(h: bytes -> Digest, a: bytes, b: bytes) {
    h(a) == h(b) ==> a == b
  }

  lemma {:induction false} CancelPrefix<T>(a: seq<T>, r: seq<T>, b: seq<T>, s: seq<T>)
    requires a + r == b + s && |a| == |b|
    ensures a == b && r == s
  {
    assert a == (a + r)[..|a|] == (b + s)[..|b|] == b;
    assert r == (a + r)[|a|..] == (b + s)[|b|..] == s;
  }

  // ---------- big-endian integers: int.to_bytes(width, "big") and int.from_bytes ----------

  function Pow256(width: nat): (p: nat)
    ensures p >= 1
  {
    if width == 0 then 1 else 256 * Pow256(width - 1)
  }

  function BigEndian(n: nat, width: nat): (b: bytes)
    requires n < Pow256(width)
    ensures |b| == width
  {
    if width == 0 then [] else BigEndian(n / 256, width - 1) + [n % 256]
  }

  function FromBigEndian(b: bytes): (n: nat)
    ensures n < Pow256(|b|)
  {
    if b == [] then 0 else 256 * FromBigEndian(b[..|b| - 1]) + b[|b| - 1]
  }

  lemma {:induction false} BigEndianRoundTrip(n: nat, width: nat)
    requires n < Pow256(width)
    ensures FromBigEndian(BigEndian(n, width)) == n
  {
    if width > 0 {
      var b := BigEndian(n, width);
      assert b[..|b| - 1] == BigEndian(n / 256, width - 1);
      BigEndianRoundTrip(n / 256, width - 1);
    }
  }

  lemma {:induction false} SplitLast(n: nat, last: byte)
    ensures (256 * n + last) / 256 == n && (256 * n + last) % 256 == last
  {
  }

  lemma {:induction false} FromBigEndianRoundTrip(b: bytes)
    ensures BigEndian(FromBigEndian(b), |b|) == b
  {
    if b != [] {
      var front, last := b[..|b| - 1], b[|b| - 1];
      FromBigEndianRoundTrip(front);
      SplitLast(FromBigEndian(front), last);
      assert b == front + [last];
    }
  }

  lemma {:induction false} BigEndianInjective(m: nat, n: nat, width: nat)
    requires m < Pow256(width) && n < Pow256(width)
    requires BigEndian(m, width) == BigEndian(n, width)
    ensures m == n
  {
    BigEndianRoundTrip(m, width);
    BigEndianRoundTrip(n, width);
  }

  /** The values of the widths that the repository uses. */
  lemma {:induction false} Pow256Values()
    ensures Pow256(4) == 0x1_0000_0000
    ensures Pow256(8) == 0x1_0000_0000_0000_0000
  {
    assert Pow256(1) == 256;
    assert Pow256(2) == 65536;
    assert Pow256(3) == 16777216;
    assert Pow256(4) == 4294967296;
    assert Pow256(5) == 256 * Pow256(4);
    assert Pow256(6) == 256 * Pow256(5);
    assert Pow256(7) == 256 * Pow256(6);
    assert Pow256(8) == 256 * Pow256(7);
  }

  // ---------- ASCII text and bytes ----------

  predicate IsAscii(s: string) {
    forall i :: 0 <= i < |s| ==> s[i] as int < 128
  }

  function FromAscii(s: string): (b: bytes)
    requires IsAscii(s)
    ensures |b| == |s|
  {
    seq(|s|, i requires 0 <= i < |s| => s[i] as int)
  }

  predicate AllAscii(b: bytes) {
    forall i :: 0 <= i < |b| ==> b[i] < 128
  }

  /** bytes.decode("ascii") on bytes that pass it. */
  function ToAscii(b: bytes): (s: string)
    requires AllAscii(b)
    ensures |s| == |b| && IsAscii(s)
  {
    seq(|b|, i requires 0 <= i < |b| => b[i] as char)
  }

  lemma {:induction false} AsciiRoundTrip(s: string)
    requires IsAscii(s)
    ensures AllAscii(FromAscii(s)) && ToAscii(FromAscii(s)) == s
  {
    assert |ToAscii(FromAscii(s))| == |s|;
  }

  // ---------- lower-case hexadecimal: hexdigest() ----------

  predicate IsLowerHexChar(c: char) {
    '0' <= c <= '9' || 'a' <= c <= 'f'
  }

  function HexChar(n: nat): (c: char)
    requires n < 16
    ensures IsLowerHexChar(c)
  {
    if n < 10 then (48 + n) as char else (87 + n) as char
  }

  function Hex(b: bytes): (s: string)
    ensures |s| == 2 * |b|
    ensures forall i :: 0 <= i < |s| ==> IsLowerHexChar(s[i])
  {
    if b == [] then "" else [HexChar(b[0] / 16), HexChar(b[0] % 16)] + Hex(b[1..])
  }

  lemma {:induction false} HexInjective(a: bytes, b: bytes)
    requires Hex(a) == Hex(b)
    ensures a == b
  {
    if a != [] && b != [] {
      assert Hex(a)[0] == HexChar(a[0] / 16) && Hex(a)[1] == HexChar(a[0] % 16);
      assert Hex(b)[0] == HexChar(b[0] / 16) && Hex(b)[1] == HexChar(b[0] % 16);
      assert Hex(a)[2..] == Hex(a[1..]) && Hex(b)[2..] == Hex(b[1..]);
      HexInjective(a[1..], b[1..]);
      assert a == [a[0]] + a[1..] && b == [b[0]] + b[1..];
    }
  }

  /** `^[0-9a-f]{64}$` as a full match. */
  predicate IsHex64(s: string) {
    |s| == 64 && forall i :: 0 <= i < |s| ==> IsLowerHexChar(s[i])
  }

  // ---------- UTF-8 ----------

  function EncodeChar(c: char): (b: bytes)
    ensures 1 <= |b| <= 4
  {
    var n := c as int;
    if n < 0x80 then [n]
    else if n < 0x800 then [0xC0 + n / 0x40, 0x80 + n % 0x40]
    else if n < 0x1_0000 then [0xE0 + n / 0x1000, 0x80 + n / 0x40 % 0x40, 0x80 + n % 0x40]
    else [0xF0 + n / 0x4_0000, 0x80 + n / 0x1000 % 0x40, 0x80 + n / 0x40 % 0x40, 0x80 + n % 0x40]
  }

  function Utf8(s: string): (b: bytes)
    ensures |s| <= |b| <= 4 * |s|
  {
    if s == "" then [] else EncodeChar(s[0]) + Utf8(s[1..])
  }

  /** The code point that an encoding spells, by its length. */
  function DecodePoint(b: bytes): (n: int)
    requires 1 <= |b| <= 4
  {
    if |b| == 1 then b[0]
    else if |b| == 2 then 0x40 * (b[0] as int - 0xC0) + (b[1] as int - 0x80)
    else if |b| == 3 then 0x1000 * (b[0] as int - 0xE0) + 0x40 * (b[1] as int - 0x80) + (b[2] as int - 0x80)
    else 0x4_0000 * (b[0] as int - 0xF0) + 0x1000 * (b[1] as int - 0x80) + 0x40 * (b[2] as int - 0x80)
         + (b[3] as int - 0x80)
  }

  lemma {:induction false} DecodeEncodeChar(c: char)
    ensures DecodePoint(EncodeChar(c)) == c as int
  {
    var n := c as int;
    assert n / 0x1000 == (n / 0x40) / 0x40;
    assert n / 0x4_0000 == (n / 0x1000) / 0x40;
  }

  function LengthFromFirst(b: byte): nat {
    if b < 0xC0 then 1 else if b < 0xE0 then 2 else if b < 0xF0 then 3 else 4
  }

  lemma {:induction false} FirstByteGivesLength(c: char)
    ensures LengthFromFirst(EncodeChar(c)[0]) == |EncodeChar(c)|
  {
  }

  /** No character's encoding is a proper prefix of another's. */
  lemma {:induction false} EncodeCharPrefixFree(c: char, r: bytes, d: char, s: bytes)
    requires EncodeChar(c) + r == EncodeChar(d) + s
    ensures c == d && r == s
  {
    ghost var x, y := EncodeChar(c), EncodeChar(d);
    assert x[0] == (x + r)[0] == (y + s)[0] == y[0];
    FirstByteGivesLength(c);
    FirstByteGivesLength(d);
    CancelPrefix(x, r, y, s);
    DecodeEncodeChar(c);
    DecodeEncodeChar(d);
  }

  lemma {:induction false} Utf8Injective(s: string, t: string)
    requires Utf8(s) == Utf8(t)
    ensures s == t
  {
    if s != "" && t != "" {
      EncodeCharPrefixFree(s[0], Utf8(s[1..]), t[0], Utf8(t[1..]));
      Utf8Injective(s[1..], t[1..]);
      assert s == [s[0]] + s[1..] && t == [t[0]] + t[1..];
    }
  }
}
