/** The marker classes of the JPEG scanner by number (table B.1 of ITU-T T.81), and images put together
    from raw bytes: tables may precede the frame header, a scan may not. */
module JpegMarkers {
  import opened Bytes
  import opened Jpeg

  /** Start of frame: the thirteen frame headers, and no table among them. */
  lemma {:induction false} FrameMarkers(m: byte)
    ensures IsFrameHeader(m) <==>
      m in {0xC0, 0xC1, 0xC2, 0xC3, 0xC5, 0xC6, 0xC7, 0xC9, 0xCA, 0xCB, 0xCD, 0xCE, 0xCF}
  {
  }

  /** Markers without a parameter segment: temporary, restarts, start and end of image. */
  lemma {:induction false} StandaloneMarkers(m: byte)
    ensures IsStandalone(m) <==>
      m in {0x01, 0xD0, 0xD1, 0xD2, 0xD3, 0xD4, 0xD5, 0xD6, 0xD7, 0xD8, 0xD9}
  {
  }

  const SOI: bytes := [0xFF, 0xD8]
  const APP0: byte := 0xE0
  const DQT: byte := 0xDB
  const DHT: byte := 0xC4
  const SOS: byte := 0xDA

  /** A marker segment in raw bytes. */
  function Raw(marker: byte, body: bytes): bytes
    requires |body| < 65_534
  {
    [0xFF, marker, (|body| + 2) / 256, (|body| + 2) % 256] + body
  }

  lemma {:induction false} RawIsSegment(marker: byte, body: bytes)
    requires |body| < 65_534 && !IsStandalone(marker) && marker != 0xFF
    ensures ValidSegment(Sized(1, marker, body)) && SegmentBytes(Sized(1, marker, body)) == Raw(marker, body)
  {
    assert Fill(1) == [0xFF];
    assert SegmentBytes(Sized(1, marker, body)) == [0xFF] + [marker] + (Bytes2(|body| + 2) + body);
  }

  /** The body of a frame header: precision, height, width, and the components. */
  function FrameBody(precision: byte, height: nat, width: nat, components: bytes): bytes
    requires height < 0x1_0000 && width < 0x1_0000
  {
    [precision, height / 256, height % 256, width / 256, width % 256] + components
  }

  lemma {:induction false} FrameBodyReads(precision: byte, height: nat, width: nat, components: bytes)
    requires height < 0x1_0000 && width < 0x1_0000
    ensures var b := FrameBody(precision, height, width, components);
      FromBigEndian(b[1..3]) == height && FromBigEndian(b[3..5]) == width
  {
    var b := FrameBody(precision, height, width, components);
    Bytes2RoundTrip(height);
    Bytes2RoundTrip(width);
    assert b[1..3] == Bytes2(height) && b[3..5] == Bytes2(width);
  }

  /** An application segment and both kinds of tables in front of a frame header: the size is found. */
  lemma {:induction false} TablesMayPrecede(app: bytes, quantization: bytes, huffman: bytes, marker: byte, precision: byte,
                                            height: nat, width: nat, components: bytes, tail: bytes)
    requires |app| < 65_534 && |quantization| < 65_534 && |huffman| < 65_534 && 1 <= |components| < 65_529
    requires 1 <= height < 0x1_0000 && 1 <= width < 0x1_0000
    requires marker in {0xC0, 0xC1, 0xC2, 0xC3, 0xC5, 0xC6, 0xC7, 0xC9, 0xCA, 0xCB, 0xCD, 0xCE, 0xCF}
    ensures Dimensions(SOI + Raw(APP0, app) + Raw(DQT, quantization) + Raw(DHT, huffman)
                       + Raw(marker, FrameBody(precision, height, width, components)) + tail)
         == Found(Size(width, height))
  {
    var a, q, f := Sized(1, APP0, app), Sized(1, DQT, quantization), Sized(1, DHT, huffman);
    var frame := Sized(1, marker, FrameBody(precision, height, width, components));
    RawIsSegment(APP0, app);
    RawIsSegment(DQT, quantization);
    RawIsSegment(DHT, huffman);
    RawIsSegment(marker, frame.body);
    FrameBodyReads(precision, height, width, components);
    var segments := [a, q, f];
    PrefixOfThree(a, q, f);
    ScanComplete(segments, frame, tail, Size(width, height));
    Flat(SOI, Raw(APP0, app), Raw(DQT, quantization), Raw(DHT, huffman), Raw(marker, frame.body), tail);
  }

  lemma {:induction false} PrefixOfThree(a: Segment, b: Segment, c: Segment)
    requires ValidPrefixSegment(a) && ValidPrefixSegment(b) && ValidPrefixSegment(c)
    ensures ValidPrefix([a, b, c]) && PrefixBytes([a, b, c]) == SegmentBytes(a) + SegmentBytes(b) + SegmentBytes(c)
  {
    assert [a, b, c][1..] == [b, c] && [b, c][1..] == [c] && [c][1..] == [];
    assert PrefixBytes([c]) == SegmentBytes(c);
  }

  lemma {:induction false} Flat(soi: bytes, a: bytes, b: bytes, c: bytes, d: bytes, tail: bytes)
    requires |soi| == 2
    ensures var s := soi + a + b + c + d + tail; |s| >= 2 && s[..2] == soi && s[2..] == a + b + c + (d + tail)
  {
    assert soi + a + b + c + d + tail == soi + (a + b + c + (d + tail));
  }

  /** A scan that starts before any frame header ends the search without a size. */
  lemma {:induction false} ScanFirstRefused(body: bytes, tail: bytes)
    requires |body| < 65_534
    ensures Dimensions(SOI + Raw(SOS, body) + tail) == HeaderInvalid
  {
    var s := SOI + Raw(SOS, body) + tail;
    var u := s[2..];
    assert u == Raw(SOS, body) + tail;
    RawIsSegment(SOS, body);
    ScanSized(Sized(1, SOS, body), tail);
    var behind := Bytes2(|body| + 2) + body + tail;
    assert ([SOS] + behind)[1..] == behind;
  }
}
