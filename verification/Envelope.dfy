/** The F0-E source envelope: a four-byte big-endian header length, a canonical JSON header,
    then exactly the source bytes the header announces (infra/f0e/runner.py). The printers are
    infra/f0e/synthetic_probe.py and the page framing of infra/f1/local_material_rag_verify.py.

    Decode is the reader as a function of the whole input. DecodeIffEncode says that it
    accepts exactly the printed envelopes; ReadEnvelope is the reader as the program has it,
    over a stream that may split its reads anywhere, and computes Decode. */
module Envelope {
  import opened Wrappers
  import opened Bytes
  import opened Json
  import Sorting

  const MAX_HEADER_BYTES := 4096
  const MAX_SOURCE_BYTES := 64 * 1024 * 1024
  const MAX_PDF_PAGES := 128
  const MAX_PIXELS_PER_PAGE := 16_000_000

  datatype Code =
    | EnvelopeTruncated
    | EnvelopeHeaderLimit
    | EnvelopeHeaderInvalid
    | EnvelopeNotCanonical
    | EnvelopeTrailingBytes
    | SourceHashMismatch

  datatype Result<+T> = Ok(value: T) | Err(code: Code)

  /** Box coordinates stay the strings that the header holds. */
  datatype Box = Box(bottom: string, left: string, right: string, top: string)

  datatype Unit = Unit(sourceSha256: string, sourceSize: int, totalPages: int, pageNo: int, unitId: string)

  datatype Header =
    | Pdf(unit: Unit, mediaBox: Box, cropBox: Box, rotation: int)
    | Jpeg(unit: Unit, width: int, height: int)

  // ---------- validation ----------

  predicate AllDigits(s: string) {
    forall i :: 0 <= i < |s| ==> IsDigit(s[i])
  }

  function Unsigned(s: string): string {
    if s != "" && s[0] == '-' then s[1..] else s
  }

  /** `^-?(?:0|[1-9][0-9]*)\.[0-9]{3}$` as a full match. */
  predicate IsThreeDecimal(s: string) {
    var t := Unsigned(s);
    |t| >= 5 && t[|t| - 4] == '.' && AllDigits(t[|t| - 3..])
    && AllDigits(t[..|t| - 4]) && (t[0] != '0' || |t| == 5)
  }

  /** The decimal that the string spells, in thousandths. */
  function Thousandths(s: string): int
    requires IsThreeDecimal(s)
  {
    var t := Unsigned(s);
    var n := 1000 * DigitsValue(t[..|t| - 4]) + DigitsValue(t[|t| - 3..]);
    if s[0] == '-' then -(n as int) else n
  }

  predicate ValidCoordinate(s: string) {
    IsThreeDecimal(s) && -1_000_000_000 <= Thousandths(s) <= 1_000_000_000
  }

  predicate ValidBox(b: Box) {
    && ValidCoordinate(b.left) && ValidCoordinate(b.bottom)
    && ValidCoordinate(b.right) && ValidCoordinate(b.top)
    && Thousandths(b.left) < Thousandths(b.right)
    && Thousandths(b.bottom) < Thousandths(b.top)
  }

  predicate ValidUnit(u: Unit) {
    && IsHex64(u.sourceSha256) && IsHex64(u.unitId)
    && 8 <= u.sourceSize <= MAX_SOURCE_BYTES
    && 1 <= u.totalPages <= MAX_PDF_PAGES
    && 1 <= u.pageNo <= u.totalPages
  }

  predicate ValidHeader(h: Header) {
    && ValidUnit(h.unit)
    && match h
       case Pdf(_, media, crop, rotation) =>
         ValidBox(media) && ValidBox(crop) && (rotation == 0 || rotation == 90 || rotation == 180 || rotation == 270)
       case Jpeg(unit, width, height) =>
         unit.totalPages == 1 && unit.pageNo == 1 && width >= 1 && height >= 1
         && width * height <= MAX_PIXELS_PER_PAGE
  }

  // ---------- headers and JSON ----------

  const BOX_KEYS := ["bottom", "left", "right", "top"]

  const PDF_KEYS := [
    "crop_box", "document_type", "expected_total_pages", "media_box", "page_no",
    "rotation_degrees", "schema", "source_sha256", "source_size", "source_unit_id"]

  const JPEG_KEYS := [
    "document_type", "expected_total_pages", "image_height_px", "image_width_px", "page_no",
    "schema", "source_sha256", "source_size", "source_unit_id"]

  function BoxFields(b: Box): seq<Field> {
    [Field("bottom", Str(b.bottom)), Field("left", Str(b.left)),
     Field("right", Str(b.right)), Field("top", Str(b.top))]
  }

  /** The header dictionary, with its keys in the order that sort_keys=True gives them. */
  function HeaderFields(h: Header): seq<Field> {
    match h
    case Pdf(u, media, crop, rotation) =>
      [Field("crop_box", Obj(BoxFields(crop))),
       Field("document_type", Str("PDF")),
       Field("expected_total_pages", Int(u.totalPages)),
       Field("media_box", Obj(BoxFields(media))),
       Field("page_no", Int(u.pageNo)),
       Field("rotation_degrees", Int(rotation)),
       Field("schema", Str("f0e-envelope-v1")),
       Field("source_sha256", Str(u.sourceSha256)),
       Field("source_size", Int(u.sourceSize)),
       Field("source_unit_id", Str(u.unitId))]
    case Jpeg(u, width, height) =>
      [Field("document_type", Str("JPEG")),
       Field("expected_total_pages", Int(u.totalPages)),
       Field("image_height_px", Int(height)),
       Field("image_width_px", Int(width)),
       Field("page_no", Int(u.pageNo)),
       Field("schema", Str("f0e-envelope-v1")),
       Field("source_sha256", Str(u.sourceSha256)),
       Field("source_size", Int(u.sourceSize)),
       Field("source_unit_id", Str(u.unitId))]
  }

  function ReadBox(v: Value): Option<Box> {
    if !v.Obj? || !KeysAre(v.fields, BOX_KEYS) then None
    else
      var bottom :- GetStr(v.fields, "bottom");
      var left :- GetStr(v.fields, "left");
      var right :- GetStr(v.fields, "right");
      var top :- GetStr(v.fields, "top");
      Some(Box(bottom, left, right, top))
  }

  function GetBox(fields: seq<Field>, key: string): Option<Box> {
    var v :- Get(fields, key);
    ReadBox(v)
  }

  function ReadUnit(fields: seq<Field>): Option<Unit> {
    var schema :- GetStr(fields, "schema");
    if schema != "f0e-envelope-v1" then None
    else
      var sourceSha256 :- GetStr(fields, "source_sha256");
      var sourceSize :- GetInt(fields, "source_size");
      var totalPages :- GetInt(fields, "expected_total_pages");
      var pageNo :- GetInt(fields, "page_no");
      var unitId :- GetStr(fields, "source_unit_id");
      Some(Unit(sourceSha256, sourceSize, totalPages, pageNo, unitId))
  }

  function ReadFields(fields: seq<Field>): Option<Header> {
    var documentType :- GetStr(fields, "document_type");
    if documentType == "PDF" then
      if !KeysAre(fields, PDF_KEYS) then None
      else
        var unit :- ReadUnit(fields);
        var media :- GetBox(fields, "media_box");
        var crop :- GetBox(fields, "crop_box");
        var rotation :- GetInt(fields, "rotation_degrees");
        Some(Pdf(unit, media, crop, rotation))
    else if documentType == "JPEG" then
      if !KeysAre(fields, JPEG_KEYS) then None
      else
        var unit :- ReadUnit(fields);
        var width :- GetInt(fields, "image_width_px");
        var height :- GetInt(fields, "image_height_px");
        Some(Jpeg(unit, width, height))
    else None
  }

  /** _validate_header: every refusal carries the same code, so their order does not show. */
  function ReadHeader(v: Value): (r: Option<Header>)
    ensures r.Some? ==> ValidHeader(r.value)
  {
    if !v.Obj? then None
    else
      var h :- ReadFields(v.fields);
      if ValidHeader(h) then Some(h) else None
  }

  lemma {:induction false} BoxKeysDistinct(b: Box)
    ensures DistinctKeys(BoxFields(b))
  {
    HeaderKeysAscend();
    AscendingDistinct(BoxFields(b), BOX_KEYS);
  }

  lemma {:induction false} BoxRoundTrip(b: Box)
    ensures ReadBox(Obj(BoxFields(b))) == Some(b)
  {
    var fields := BoxFields(b);
    BoxKeysDistinct(b);
    KeysAreAt(fields, BOX_KEYS);
    GetAt(fields, 0);
    GetAt(fields, 1);
    GetAt(fields, 2);
    GetAt(fields, 3);
  }

  lemma {:induction false} PdfKeysDistinct(h: Header)
    requires h.Pdf?
    ensures DistinctKeys(HeaderFields(h))
  {
    HeaderKeysAscend();
    AscendingDistinct(HeaderFields(h), PDF_KEYS);
  }

  lemma {:induction false} JpegKeysDistinct(h: Header)
    requires h.Jpeg?
    ensures DistinctKeys(HeaderFields(h))
  {
    HeaderKeysAscend();
    AscendingDistinct(HeaderFields(h), JPEG_KEYS);
  }

  lemma {:induction false} HeaderKeysDistinct(h: Header)
    ensures DistinctKeys(HeaderFields(h))
  {
    if h.Pdf? {
      PdfKeysDistinct(h);
    } else {
      JpegKeysDistinct(h);
    }
  }

  lemma {:induction false} UnitRoundTrip(fields: seq<Field>, u: Unit)
    requires Get(fields, "schema") == Some(Str("f0e-envelope-v1"))
    requires Get(fields, "source_sha256") == Some(Str(u.sourceSha256))
    requires Get(fields, "source_size") == Some(Int(u.sourceSize))
    requires Get(fields, "expected_total_pages") == Some(Int(u.totalPages))
    requires Get(fields, "page_no") == Some(Int(u.pageNo))
    requires Get(fields, "source_unit_id") == Some(Str(u.unitId))
    ensures ReadUnit(fields) == Some(u)
  {
  }

  lemma {:induction false} PdfRoundTrip(h: Header)
    requires h.Pdf?
    ensures ReadFields(HeaderFields(h)) == Some(h)
  {
    var fields := HeaderFields(h);
    HeaderKeysDistinct(h);
    KeysAreAt(fields, PDF_KEYS);
    BoxRoundTrip(h.mediaBox);
    BoxRoundTrip(h.cropBox);
    GetAt(fields, 0);
    GetAt(fields, 1);
    GetAt(fields, 2);
    GetAt(fields, 3);
    GetAt(fields, 4);
    GetAt(fields, 5);
    GetAt(fields, 6);
    GetAt(fields, 7);
    GetAt(fields, 8);
    GetAt(fields, 9);
    UnitRoundTrip(fields, h.unit);
  }

  lemma {:induction false} JpegRoundTrip(h: Header)
    requires h.Jpeg?
    ensures ReadFields(HeaderFields(h)) == Some(h)
  {
    var fields := HeaderFields(h);
    HeaderKeysDistinct(h);
    KeysAreAt(fields, JPEG_KEYS);
    GetAt(fields, 0);
    GetAt(fields, 1);
    GetAt(fields, 2);
    GetAt(fields, 3);
    GetAt(fields, 4);
    GetAt(fields, 5);
    GetAt(fields, 6);
    GetAt(fields, 7);
    GetAt(fields, 8);
    UnitRoundTrip(fields, h.unit);
  }

  lemma {:induction false} HeaderRoundTrip(h: Header)
    requires ValidHeader(h)
    ensures ReadHeader(Obj(HeaderFields(h))) == Some(h)
  {
    if h.Pdf? {
      PdfRoundTrip(h);
    } else {
      JpegRoundTrip(h);
    }
  }

  // ---------- the canonical header ----------

  /** PDF_KEYS and JPEG_KEYS, which HeaderFields follows, are in the order sort_keys=True gives. */
  lemma {:induction false} HeaderKeysAscend()
    ensures Ascending(PDF_KEYS)
    ensures Ascending(JPEG_KEYS)
    ensures Ascending(BOX_KEYS)
  {
    TailKeysAscend();
    PdfKeysAscend(["schema", "source_sha256", "source_size", "source_unit_id"]);
    JpegKeysAscend(["schema", "source_sha256", "source_size", "source_unit_id"]);
    BoxKeysAscend();
  }

  lemma {:induction false} TailKeysAscend()
    ensures Ascending(["schema", "source_sha256", "source_size", "source_unit_id"])
  {
    AscendingCons("source_size", ["source_unit_id"], 7);
    var two := ["source_size"] + ["source_unit_id"];
    AscendingCons("source_sha256", two, 8);
    AscendingCons("schema", ["source_sha256"] + two, 1);
    assert ["schema"] + (["source_sha256"] + two) == ["schema", "source_sha256", "source_size", "source_unit_id"];
  }

  lemma {:induction false} BoxKeysAscend()
    ensures Ascending(BOX_KEYS)
  {
    AscendingCons("right", ["top"], 0);
    var two := ["right"] + ["top"];
    AscendingCons("left", two, 0);
    AscendingCons("bottom", ["left"] + two, 0);
    assert BOX_KEYS == ["bottom"] + (["left"] + two);
  }

  lemma {:induction false} PdfKeysAscend(tail: seq<string>)
    requires tail == ["schema", "source_sha256", "source_size", "source_unit_id"] && Ascending(tail)
    ensures Ascending(PDF_KEYS)
  {
    AscendingCons("rotation_degrees", tail, 0);
    AscendingCons("page_no", ["rotation_degrees"] + tail, 0);
    AscendingCons("media_box", ["page_no"] + (["rotation_degrees"] + tail), 0);
    var half := ["media_box"] + (["page_no"] + (["rotation_degrees"] + tail));
    AscendingCons("expected_total_pages", half, 0);
    AscendingCons("document_type", ["expected_total_pages"] + half, 0);
    AscendingCons("crop_box", ["document_type"] + (["expected_total_pages"] + half), 0);
    assert PDF_KEYS == ["crop_box"] + (["document_type"] + (["expected_total_pages"] + half));
  }

  lemma {:induction false} JpegKeysAscend(tail: seq<string>)
    requires tail == ["schema", "source_sha256", "source_size", "source_unit_id"] && Ascending(tail)
    ensures Ascending(JPEG_KEYS)
  {
    AscendingCons("page_no", tail, 0);
    AscendingCons("image_width_px", ["page_no"] + tail, 0);
    AscendingCons("image_height_px", ["image_width_px"] + (["page_no"] + tail), 6);
    var half := ["image_height_px"] + (["image_width_px"] + (["page_no"] + tail));
    AscendingCons("expected_total_pages", half, 0);
    AscendingCons("document_type", ["expected_total_pages"] + half, 0);
    assert JPEG_KEYS == ["document_type"] + (["expected_total_pages"] + half);
  }

  lemma {:induction false} CoordinatePlain(s: string)
    requires IsThreeDecimal(s)
    ensures Plain(s)
  {
    var t := Unsigned(s);
    forall i | 0 <= i < |t| ensures IsDigit(t[i]) || t[i] == '.' {
      if i < |t| - 4 {
        assert t[i] == t[..|t| - 4][i];
      } else if i > |t| - 4 {
        assert t[i] == t[|t| - 3..][i - (|t| - 3)];
      }
    }
    if s[0] == '-' {
      assert forall i :: 1 <= i < |s| ==> s[i] == t[i - 1];
    }
  }

  lemma {:induction false} DigitsValueLower(s: string)
    requires s != "" && AllDigits(s) && s[0] != '0'
    ensures DigitsValue(s) >= Pow10(|s| - 1)
  {
    assert IsDigit(s[0]);
    if |s| > 1 {
      var t := s[..|s| - 1];
      assert t[0] == s[0];
      DigitsValueLower(t);
    } else {
      assert s[..0] == "";
    }
  }

  lemma {:induction false} CoordinateLength(s: string)
    requires ValidCoordinate(s)
    ensures |s| <= 12
  {
    var t := Unsigned(s);
    var u := t[..|t| - 4];
    var n := DigitsValue(u);
    assert 1000 * n + DigitsValue(t[|t| - 3..]) <= 1_000_000_000;
    if |t| > 5 {
      assert u[0] == t[0];
      DigitsValueLower(u);
      if |u| >= 8 {
        Pow10Grows(7, |u| - 1);
        Pow10Values();
      }
    }
  }

  lemma {:induction false} BoxTextLength(b: Box)
    requires Plain(b.bottom) && Plain(b.left) && Plain(b.right) && Plain(b.top)
    requires |b.bottom| <= 12 && |b.left| <= 12 && |b.right| <= 12 && |b.top| <= 12
    ensures ShortValue(Obj(BoxFields(b)), 201)
  {
    BoxKeysDistinct(b);
    ShortStr(b.bottom, 14);
    ShortStr(b.left, 14);
    ShortStr(b.right, 14);
    ShortStr(b.top, 14);
    ObjectLength(BoxFields(b), 14);
  }

  lemma {:induction false} BoxPlain(b: Box)
    requires ValidBox(b)
    ensures Plain(b.bottom) && Plain(b.left) && Plain(b.right) && Plain(b.top)
  {
    CoordinatePlain(b.left);
    CoordinatePlain(b.bottom);
    CoordinatePlain(b.right);
    CoordinatePlain(b.top);
  }

  lemma {:induction false} BoxCoordinatesShort(b: Box)
    requires ValidBox(b)
    ensures |b.bottom| <= 12 && |b.left| <= 12 && |b.right| <= 12 && |b.top| <= 12
  {
    CoordinateLength(b.bottom);
    CoordinateLength(b.left);
    CoordinateLength(b.right);
    CoordinateLength(b.top);
  }

  lemma {:induction false} BoxLength(b: Box)
    requires ValidBox(b)
    ensures ShortValue(Obj(BoxFields(b)), 201)
  {
    BoxPlain(b);
    BoxCoordinatesShort(b);
    BoxTextLength(b);
  }

  /** What validation says about the parts that every header has. */
  predicate ShortUnit(u: Unit) {
    && Plain(u.sourceSha256) && |u.sourceSha256| == 64 && Plain(u.unitId) && |u.unitId| == 64
    && 0 <= u.sourceSize < 100_000_000 && 0 <= u.totalPages < 1000 && 0 <= u.pageNo < 1000
  }

  lemma {:induction false} ValidUnitShort(u: Unit)
    requires ValidUnit(u)
    ensures ShortUnit(u)
  {
    HexPlain(u.sourceSha256);
    HexPlain(u.unitId);
  }

  lemma {:induction false} AreaBoundsSides(width: int, height: int)
    requires width >= 1 && height >= 1 && width * height <= MAX_PIXELS_PER_PAGE
    ensures width <= MAX_PIXELS_PER_PAGE && height <= MAX_PIXELS_PER_PAGE
  {
    assert width <= width * height;
    assert height <= width * height;
  }

  lemma {:induction false} SchemaShort()
    ensures ShortValue(Str("f0e-envelope-v1"), 201)
  {
    ShortStr("f0e-envelope-v1", 201);
  }

  lemma {:induction false} PdfSchemaShort(h: Header)
    requires h.Pdf?
    ensures ShortValue(HeaderFields(h)[6].value, 201)
  {
    SchemaShort();
  }

  lemma {:induction false} JpegSchemaShort(h: Header)
    requires h.Jpeg?
    ensures ShortValue(HeaderFields(h)[5].value, 201)
  {
    SchemaShort();
  }

  lemma {:induction false} PdfFirstFieldsShort(h: Header, crop: Value, media: Value)
    requires h.Pdf? && ShortUnit(h.unit)
    requires crop == Obj(BoxFields(h.cropBox)) && media == Obj(BoxFields(h.mediaBox))
    requires ShortValue(crop, 201) && ShortValue(media, 201)
    ensures forall i :: 0 <= i < 5 ==> ShortValue(HeaderFields(h)[i].value, 201)
  {
    ShortStr("PDF", 201);
    ShortInt(h.unit.totalPages, 201);
    ShortInt(h.unit.pageNo, 201);
  }

  lemma {:induction false} PdfLastFieldsShort(h: Header)
    requires h.Pdf? && ShortUnit(h.unit) && 0 <= h.rotation < 1000
    ensures forall i :: 5 <= i < 10 && i != 6 ==> ShortValue(HeaderFields(h)[i].value, 201)
  {
    ShortInt(h.rotation, 201);
    ShortStr(h.unit.sourceSha256, 201);
    ShortInt(h.unit.sourceSize, 201);
    ShortStr(h.unit.unitId, 201);
  }

  lemma {:induction false} JpegFirstFieldsShort(h: Header)
    requires h.Jpeg? && ShortUnit(h.unit) && 0 <= h.width < 100_000_000 && 0 <= h.height < 100_000_000
    ensures forall i :: 0 <= i < 5 ==> ShortValue(HeaderFields(h)[i].value, 201)
  {
    ShortStr("JPEG", 201);
    ShortInt(h.unit.totalPages, 201);
    ShortInt(h.height, 201);
    ShortInt(h.width, 201);
    ShortInt(h.unit.pageNo, 201);
  }

  lemma {:induction false} JpegLastFieldsShort(h: Header)
    requires h.Jpeg? && ShortUnit(h.unit)
    ensures forall i :: 6 <= i < 9 ==> ShortValue(HeaderFields(h)[i].value, 201)
  {
    ShortStr(h.unit.sourceSha256, 201);
    ShortInt(h.unit.sourceSize, 201);
    ShortStr(h.unit.unitId, 201);
  }

  lemma {:induction false} PdfKeysShort(h: Header)
    requires h.Pdf?
    ensures forall i :: 0 <= i < |HeaderFields(h)| ==> ShortKey(HeaderFields(h)[i].key)
  {
    LettersPlain("crop_box");
    LettersPlain("document_type");
    LettersPlain("expected_total_pages");
    LettersPlain("media_box");
    LettersPlain("page_no");
    LettersPlain("rotation_degrees");
    LettersPlain("schema");
    LettersPlain("source_sha256");
    LettersPlain("source_size");
    LettersPlain("source_unit_id");
  }

  lemma {:induction false} JpegKeysShort(h: Header)
    requires h.Jpeg?
    ensures forall i :: 0 <= i < |HeaderFields(h)| ==> ShortKey(HeaderFields(h)[i].key)
  {
    LettersPlain("document_type");
    LettersPlain("expected_total_pages");
    LettersPlain("image_height_px");
    LettersPlain("image_width_px");
    LettersPlain("page_no");
    LettersPlain("schema");
    LettersPlain("source_sha256");
    LettersPlain("source_size");
    LettersPlain("source_unit_id");
  }

  lemma {:induction false} HeaderKeysShort(h: Header)
    ensures forall i :: 0 <= i < |HeaderFields(h)| ==> ShortKey(HeaderFields(h)[i].key)
  {
    if h.Pdf? {
      PdfKeysShort(h);
    } else {
      JpegKeysShort(h);
    }
  }

  lemma {:induction false} PdfValuesShort(h: Header)
    requires ValidHeader(h) && h.Pdf?
    ensures forall i :: 0 <= i < |HeaderFields(h)| ==> ShortValue(HeaderFields(h)[i].value, 201)
  {
    ValidUnitShort(h.unit);
    BoxLength(h.mediaBox);
    BoxLength(h.cropBox);
    PdfFirstFieldsShort(h, Obj(BoxFields(h.cropBox)), Obj(BoxFields(h.mediaBox)));
    PdfSchemaShort(h);
    PdfLastFieldsShort(h);
  }

  lemma {:induction false} JpegPartsShort(h: Header)
    requires ValidHeader(h) && h.Jpeg?
    ensures ShortUnit(h.unit) && 0 <= h.width < 100_000_000 && 0 <= h.height < 100_000_000
  {
    ValidUnitShort(h.unit);
    AreaBoundsSides(h.width, h.height);
  }

  lemma {:induction false} JpegValuesShort(h: Header)
    requires h.Jpeg? && ShortUnit(h.unit) && 0 <= h.width < 100_000_000 && 0 <= h.height < 100_000_000
    ensures forall i :: 0 <= i < |HeaderFields(h)| ==> ShortValue(HeaderFields(h)[i].value, 201)
  {
    var fields := HeaderFields(h);
    assert |fields| == 9;
    JpegFirstFieldsShort(h);
    JpegSchemaShort(h);
    JpegLastFieldsShort(h);
    forall i | 0 <= i < |fields| ensures ShortValue(fields[i].value, 201) {
      assert i < 5 || i == 5 || 6 <= i < 9;
    }
  }

  lemma {:induction false} HeaderFieldsShort(h: Header)
    requires ValidHeader(h)
    ensures ShortFields(HeaderFields(h), 201)
  {
    HeaderKeysShort(h);
    if h.Pdf? {
      PdfValuesShort(h);
    } else {
      JpegPartsShort(h);
      JpegValuesShort(h);
    }
  }

  /** A valid header prints, and within the reader's limit of 4096 bytes. */
  lemma {:induction false} HeaderPrints(h: Header)
    requires ValidHeader(h)
    ensures WellFormed(Obj(HeaderFields(h))) && |Print(Obj(HeaderFields(h)))| <= MAX_HEADER_BYTES
  {
    HeaderFieldsShort(h);
    HeaderKeysDistinct(h);
    ObjectLength(HeaderFields(h), 201);
  }

  lemma {:induction false} HeaderPrintsAscii(h: Header)
    requires ValidHeader(h)
    ensures WellFormed(Obj(HeaderFields(h)))
    ensures IsAscii(Print(Obj(HeaderFields(h)))) && 1 <= |Print(Obj(HeaderFields(h)))| <= MAX_HEADER_BYTES
  {
    HeaderPrints(h);
    PrintAscii(Obj(HeaderFields(h)));
    PrintStart(Obj(HeaderFields(h)));
  }

  /** _canonical_json of the validated header: it always fits the reader's limit. */
  function Canonical(h: Header): (s: string)
    requires ValidHeader(h)
    ensures IsAscii(s) && 1 <= |s| <= MAX_HEADER_BYTES
  {
    HeaderPrintsAscii(h);
    Print(Obj(HeaderFields(h)))
  }

  // ---------- the codec ----------

  /** A header text behind its length, then a body. */
  function Frame(text: string, body: bytes): bytes
    requires IsAscii(text) && |text| <= MAX_HEADER_BYTES
  {
    Pow256Values();
    BigEndian(|text|, 4) + FromAscii(text) + body
  }

  lemma {:induction false} FrameParts(text: string, body: bytes)
    requires IsAscii(text) && |text| <= MAX_HEADER_BYTES
    ensures |Frame(text, body)| == 4 + |text| + |body|
    ensures FromBigEndian(Frame(text, body)[..4]) == |text| && Frame(text, body)[4..] == FromAscii(text) + body
    ensures Frame(text, body)[4..][..|text|] == FromAscii(text) && Frame(text, body)[4..][|text|..] == body
  {
    Pow256Values();
    BigEndianRoundTrip(|text|, 4);
    assert Frame(text, body)[..4] == BigEndian(|text|, 4);
  }

  lemma {:induction false} FrameReassembles(input: bytes, text: string)
    requires IsAscii(text) && |text| <= MAX_HEADER_BYTES && |input| >= 4 + |text|
    requires FromBigEndian(input[..4]) == |text|
    requires input[4..4 + |text|] == FromAscii(text)
    ensures input == Frame(text, input[4 + |text|..])
  {
    FromBigEndianRoundTrip(input[..4]);
    assert input == input[..4] + input[4..4 + |text|] + input[4 + |text|..];
  }

  /** The printer: _envelope and the page framing build exactly this concatenation. */
  function Encode(h: Header, source: bytes): bytes
    requires ValidHeader(h)
  {
    Frame(Canonical(h), source)
  }

  /** What json.loads and _validate_header make of a header's bytes. */
  function ParseHeader(raw: bytes): (r: Option<Header>)
    ensures r.Some? ==> ValidHeader(r.value)
  {
    if !AllAscii(raw) then None
    else
      var parsed := Loads(ToAscii(raw));
      if parsed.Parsed? then ReadHeader(parsed.value) else None
  }

  /** _read_envelope as a function of everything that the stream will deliver. */
  function Decode(input: bytes, h: bytes -> Digest): (r: Result<(Header, bytes)>) {
    if |input| < 4 then Err(EnvelopeTruncated) else DecodeSized(FromBigEndian(input[..4]), input[4..], h)
  }

  function DecodeSized(size: nat, rest: bytes, h: bytes -> Digest): Result<(Header, bytes)> {
    if !(1 <= size <= MAX_HEADER_BYTES) then Err(EnvelopeHeaderLimit)
    else if |rest| < size then Err(EnvelopeTruncated)
    else DecodeBody(rest[..size], rest[size..], h)
  }

  function DecodeBody(raw: bytes, body: bytes, h: bytes -> Digest): Result<(Header, bytes)> {
    var header := ParseHeader(raw);
    if header.None? then Err(EnvelopeHeaderInvalid)
    else DecodeSource(header.value, raw, body, h)
  }

  function DecodeSource(header: Header, raw: bytes, body: bytes, h: bytes -> Digest): Result<(Header, bytes)>
    requires ValidHeader(header)
  {
    if FromAscii(Canonical(header)) != raw then Err(EnvelopeNotCanonical)
    else if |body| < header.unit.sourceSize then Err(EnvelopeTruncated)
    else if |body| > header.unit.sourceSize then Err(EnvelopeTrailingBytes)
    else if Hex(h(body)) != header.unit.sourceSha256 then Err(SourceHashMismatch)
    else Ok((header, body))
  }

  /** The pairs that a printer may be given: the header is valid and describes the source. */
  predicate Describes(header: Header, source: bytes, h: bytes -> Digest) {
    && ValidHeader(header)
    && header.unit.sourceSize == |source|
    && header.unit.sourceSha256 == Hex(h(source))
  }

  lemma {:induction false} ParseCanonical(header: Header)
    requires ValidHeader(header)
    ensures ParseHeader(FromAscii(Canonical(header))) == Some(header)
  {
    HeaderPrintsAscii(header);
    AsciiRoundTrip(Canonical(header));
    LoadsOfPrint(Obj(HeaderFields(header)));
    HeaderRoundTrip(header);
  }

  lemma {:induction false} DecodeFrame(text: string, body: bytes, header: Header, h: bytes -> Digest)
    requires IsAscii(text) && 1 <= |text| <= MAX_HEADER_BYTES
    requires ParseHeader(FromAscii(text)) == Some(header)
    ensures ValidHeader(header)
    ensures Decode(Frame(text, body), h) == DecodeSource(header, FromAscii(text), body, h)
  {
    FrameParts(text, body);
  }

  /** Reading an envelope whose header is valid, whatever its body. */
  lemma {:induction false} DecodePrinted(header: Header, body: bytes, h: bytes -> Digest)
    requires ValidHeader(header)
    ensures Decode(Encode(header, body), h) == DecodeSource(header, FromAscii(Canonical(header)), body, h)
  {
    ParseCanonical(header);
    DecodeFrame(Canonical(header), body, header, h);
  }

  lemma {:induction false} DecodeSourceAccepts(found: Header, raw: bytes, body: bytes, h: bytes -> Digest)
    requires ValidHeader(found)
    ensures DecodeSource(found, raw, body, h).Ok?
       <==> raw == FromAscii(Canonical(found)) && Describes(found, body, h)
    ensures DecodeSource(found, raw, body, h).Ok? ==> DecodeSource(found, raw, body, h) == Ok((found, body))
  {
  }

  lemma {:induction false} EncodeDecodes(header: Header, source: bytes, h: bytes -> Digest)
    requires Describes(header, source, h)
    ensures Decode(Encode(header, source), h) == Ok((header, source))
  {
    DecodePrinted(header, source, h);
    DecodeSourceAccepts(header, FromAscii(Canonical(header)), source, h);
  }

  lemma {:induction false} DecodeUnfolds(input: bytes, h: bytes -> Digest) returns (size: nat, found: Header)
    requires Decode(input, h).Ok?
    ensures |input| >= 4 + size && size == FromBigEndian(input[..4]) && ValidHeader(found)
    ensures Decode(input, h) == DecodeSource(found, input[4..][..size], input[4..][size..], h)
  {
    size := FromBigEndian(input[..4]);
    found := ParseHeader(input[4..][..size]).value;
  }

  lemma {:induction false} DecodedIsEncoded(input: bytes, header: Header, source: bytes, h: bytes -> Digest)
    requires Decode(input, h) == Ok((header, source))
    ensures Describes(header, source, h) && input == Encode(header, source)
  {
    var size, found := DecodeUnfolds(input, h);
    DecodeSourceAccepts(found, input[4..][..size], input[4..][size..], h);
    assert |FromAscii(Canonical(found))| == |Canonical(found)|;
    FrameReassembles(input, Canonical(found));
  }

  /** The reader accepts a stream exactly when it is the print of the pair it returns. */
  lemma {:induction false} DecodeIffEncode(input: bytes, header: Header, source: bytes, h: bytes -> Digest)
    ensures Decode(input, h) == Ok((header, source))
       <==> Describes(header, source, h) && input == Encode(header, source)
  {
    if Describes(header, source, h) && input == Encode(header, source) {
      EncodeDecodes(header, source, h);
    }
    if Decode(input, h) == Ok((header, source)) {
      DecodedIsEncoded(input, header, source, h);
    }
  }

  /** Two pairs never share a stream. */
  lemma {:induction false} EncodeInjective(header: Header, source: bytes, header': Header, source': bytes, h: bytes -> Digest)
    requires Describes(header, source, h) && Describes(header', source', h)
    requires Encode(header, source) == Encode(header', source')
    ensures header == header' && source == source'
  {
    DecodeIffEncode(Encode(header, source), header, source, h);
    DecodeIffEncode(Encode(header, source), header', source', h);
  }

  /** Every proper prefix of a printed envelope is refused as truncated. */
  lemma {:induction false} TruncationRefused(header: Header, source: bytes, cut: nat, h: bytes -> Digest)
    requires Describes(header, source, h) && cut < |Encode(header, source)|
    ensures Decode(Encode(header, source)[..cut], h) == Err(EnvelopeTruncated)
  {
    var text := Canonical(header);
    FrameParts(text, source);
    if cut >= 4 + |text| {
      var body := source[..cut - 4 - |text|];
      DecodePrinted(header, body, h);
      assert Frame(text, source)[..cut] == Frame(text, body);
    } else if cut >= 4 {
      assert Frame(text, source)[..cut][..4] == Frame(text, source)[..4];
    }
  }

  /** Every proper extension of a printed envelope is refused for its trailing bytes. */
  lemma {:induction false} ExtensionRefused(header: Header, source: bytes, more: bytes, h: bytes -> Digest)
    requires Describes(header, source, h) && more != []
    ensures Decode(Encode(header, source) + more, h) == Err(EnvelopeTrailingBytes)
  {
    DecodePrinted(header, source + more, h);
    FrameExtends(Canonical(header), source, more);
  }

  lemma {:induction false} FrameExtends(text: string, body: bytes, more: bytes)
    requires IsAscii(text) && |text| <= MAX_HEADER_BYTES
    ensures Frame(text, body) + more == Frame(text, body + more)
  {
  }

  // ---------- the reader over a stream ----------

  /** A blocking byte stream. Each read delivers at least one byte while any are left, and no
      more than it was asked for; how many is up to the stream. */
  class Stream {
    var unread: bytes

    constructor (input: bytes)
      ensures unread == input
    {
      unread := input;
    }

    method Read(size: nat) returns (chunk: bytes)
      modifies this
      ensures |chunk| <= size && chunk + unread == old(unread)
      ensures chunk == [] ==> size == 0 || old(unread) == []
    {
      if size == 0 || unread == [] {
        chunk := [];
        assert [] + unread == unread;
      } else {
        var n: nat :| 1 <= n <= size && n <= |unread|;
        chunk := unread[..n];
        unread := unread[n..];
      }
    }
  }

  method ReadExact(stream: Stream, size: nat) returns (r: Result<bytes>)
    modifies stream
    ensures r.Ok? <==> size <= |old(stream.unread)|
    ensures r.Ok? ==> r.value == old(stream.unread)[..size] && stream.unread == old(stream.unread)[size..]
    ensures r.Err? ==> r.code == EnvelopeTruncated
  {
    var chunks := [];
    var remaining := size;
    while remaining != 0
      invariant 0 <= remaining && |chunks| + remaining == size
      invariant chunks + stream.unread == old(stream.unread)
      decreases remaining
    {
      var chunk := stream.Read(remaining);
      if chunk == [] {
        assert |chunks| == |old(stream.unread)|;
        return Err(EnvelopeTruncated);
      }
      chunks := chunks + chunk;
      remaining := remaining - |chunk|;
    }
    assert chunks == old(stream.unread)[..size] && stream.unread == old(stream.unread)[size..];
    return Ok(chunks);
  }

  /** However the stream splits its reads, the reader computes Decode of what it delivers. */
  method ReadEnvelope(stream: Stream, h: bytes -> Digest) returns (r: Result<(Header, bytes)>)
    modifies stream
    ensures r == Decode(old(stream.unread), h)
  {
    var prefix := ReadExact(stream, 4);
    if prefix.Err? {
      return Err(prefix.code);
    }
    r := ReadSized(stream, FromBigEndian(prefix.value), h);
  }

  /** The part of _read_envelope after the header's size has been read. */
  method ReadSized(stream: Stream, size: nat, h: bytes -> Digest) returns (r: Result<(Header, bytes)>)
    modifies stream
    ensures r == DecodeSized(size, old(stream.unread), h)
  {
    if !(1 <= size <= MAX_HEADER_BYTES) {
      return Err(EnvelopeHeaderLimit);
    }
    var raw := ReadExact(stream, size);
    if raw.Err? {
      return Err(raw.code);
    }
    var header := ParseHeader(raw.value);
    if header.None? {
      return Err(EnvelopeHeaderInvalid);
    }
    r := ReadSource(stream, header.value, raw.value, h);
  }

  /** The part of _read_envelope after the header has been parsed and validated. */
  method ReadSource(stream: Stream, header: Header, raw: bytes, h: bytes -> Digest)
    returns (r: Result<(Header, bytes)>)
    requires ValidHeader(header)
    modifies stream
    ensures r == DecodeSource(header, raw, old(stream.unread), h)
  {
    ghost var body := stream.unread;
    if FromAscii(Canonical(header)) != raw {
      return Err(EnvelopeNotCanonical);
    }
    var source := ReadExact(stream, header.unit.sourceSize);
    if source.Err? {
      return Err(source.code);
    }
    var trailing := stream.Read(1);
    if trailing != [] {
      return Err(EnvelopeTrailingBytes);
    }
    assert source.value == body;
    if Hex(h(source.value)) != header.unit.sourceSha256 {
      return Err(SourceHashMismatch);
    }
    return Ok((header, source.value));
  }
}
