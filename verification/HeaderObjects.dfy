/** Which JSON objects the envelope reader takes as headers (_validate_header of infra/f0e/runner.py):
    those that hold the fields of a valid header, in any order, and nothing else. */
module HeaderObjects {
  import opened Wrappers
  import opened Json
  import opened Envelope

  function Keys(fields: seq<Field>): seq<string> {
    seq(|fields|, i requires 0 <= i < |fields| => fields[i].key)
  }

  /** The same value, where the order of an object's fields does not count. */
  ghost predicate SameValue(v: Value, w: Value)
    decreases w
  {
    if v.Obj? && w.Obj? then
      && KeysAre(v.fields, Keys(w.fields))
      && forall f :: f in w.fields ==> Get(v.fields, f.key).Some? && SameValue(Get(v.fields, f.key).value, f.value)
    else v == w
  }

  type Lookup = string -> Option<Value>

  type Same = (Value, Value) -> bool

  ghost function TheSame(): Same {
    (v, w) => SameValue(v, w)
  }

  function LookupIn(fields: seq<Field>): Lookup {
    key => Get(fields, key)
  }

  /** What is found under a field's key is the field's value. */
  predicate HoldsField(get: Lookup, same: Same, f: Field) {
    var v := get(f.key);
    if f.value.Obj? then v.Some? && same(v.value, f.value) else v == Some(f.value)
  }

  predicate HoldsFields(get: Lookup, same: Same, fields: seq<Field>) {
    forall i :: 0 <= i < |fields| ==> HoldsField(get, same, fields[i])
  }

  lemma {:induction false} SameObject(v: Value, fields: seq<Field>)
    requires v.Obj?
    ensures SameValue(v, Obj(fields)) <==> KeysAre(v.fields, Keys(fields)) && HoldsFields(LookupIn(v.fields), TheSame(), fields)
  {
    var get, same := LookupIn(v.fields), TheSame();
    assert Obj(fields).fields == fields;
    if SameValue(v, Obj(fields)) {
      forall i | 0 <= i < |fields| ensures HoldsField(get, same, fields[i]) {
        var f := fields[i];
        assert f in fields;
        assert Get(v.fields, f.key).Some? && SameValue(Get(v.fields, f.key).value, f.value);
      }
    }
    if HoldsFields(get, same, fields) {
      forall f | f in fields ensures Get(v.fields, f.key).Some? && SameValue(Get(v.fields, f.key).value, f.value) {
        assert HoldsField(get, same, f);
      }
    }
  }

  // ---------- boxes and units ----------

  lemma {:induction false} BoxHolds(get: Lookup, same: Same, b: Box)
    ensures HoldsFields(get, same, BoxFields(b)) <==>
      && get("bottom") == Some(Str(b.bottom)) && get("left") == Some(Str(b.left))
      && get("right") == Some(Str(b.right)) && get("top") == Some(Str(b.top))
  {
    var fields := BoxFields(b);
    assert HoldsFields(get, same, fields) <==>
      && HoldsField(get, same, fields[0]) && HoldsField(get, same, fields[1])
      && HoldsField(get, same, fields[2]) && HoldsField(get, same, fields[3]);
  }

  lemma {:induction false} BoxIffFields(v: Value, b: Box)
    ensures ReadBox(v) == Some(b) <==> SameValue(v, Obj(BoxFields(b)))
  {
    assert Keys(BoxFields(b)) == BOX_KEYS;
    if v.Obj? {
      SameObject(v, BoxFields(b));
      BoxHolds(LookupIn(v.fields), TheSame(), b);
    }
  }

  predicate HoldsBox(get: Lookup, same: Same, key: string, b: Box) {
    get(key).Some? && same(get(key).value, Obj(BoxFields(b)))
  }

  lemma {:induction false} GetBoxIffField(fields: seq<Field>, key: string, b: Box)
    ensures GetBox(fields, key) == Some(b) <==> HoldsBox(LookupIn(fields), TheSame(), key, b)
  {
    var v := Get(fields, key);
    if v.Some? {
      BoxIffFields(v.value, b);
    }
  }

  predicate HoldsUnit(get: Lookup, u: Unit) {
    && get("expected_total_pages") == Some(Int(u.totalPages))
    && get("page_no") == Some(Int(u.pageNo))
    && get("schema") == Some(Str("f0e-envelope-v1"))
    && get("source_sha256") == Some(Str(u.sourceSha256))
    && get("source_size") == Some(Int(u.sourceSize))
    && get("source_unit_id") == Some(Str(u.unitId))
  }

  lemma {:induction false} UnitIffFields(fields: seq<Field>, u: Unit)
    ensures ReadUnit(fields) == Some(u) <==> HoldsUnit(LookupIn(fields), u)
  {
  }

  // ---------- headers ----------

  lemma {:induction false} PdfHolds(get: Lookup, same: Same, h: Header)
    requires h.Pdf?
    ensures HoldsFields(get, same, HeaderFields(h)) <==>
      && HoldsUnit(get, h.unit) && get("document_type") == Some(Str("PDF")) && get("rotation_degrees") == Some(Int(h.rotation))
      && HoldsBox(get, same, "media_box", h.mediaBox) && HoldsBox(get, same, "crop_box", h.cropBox)
  {
    var fields := HeaderFields(h);
    assert HoldsFields(get, same, fields) <==>
      && HoldsField(get, same, fields[0]) && HoldsField(get, same, fields[1]) && HoldsField(get, same, fields[2])
      && HoldsField(get, same, fields[3]) && HoldsField(get, same, fields[4]) && HoldsField(get, same, fields[5])
      && HoldsField(get, same, fields[6]) && HoldsField(get, same, fields[7]) && HoldsField(get, same, fields[8])
      && HoldsField(get, same, fields[9]);
  }

  lemma {:induction false} JpegHolds(get: Lookup, same: Same, h: Header)
    requires h.Jpeg?
    ensures HoldsFields(get, same, HeaderFields(h)) <==>
      && HoldsUnit(get, h.unit) && get("document_type") == Some(Str("JPEG"))
      && get("image_height_px") == Some(Int(h.height)) && get("image_width_px") == Some(Int(h.width))
  {
    var fields := HeaderFields(h);
    assert HoldsFields(get, same, fields) <==>
      && HoldsField(get, same, fields[0]) && HoldsField(get, same, fields[1])
      && HoldsField(get, same, fields[2]) && HoldsField(get, same, fields[3])
      && HoldsField(get, same, fields[4]) && HoldsField(get, same, fields[5])
      && HoldsField(get, same, fields[6]) && HoldsField(get, same, fields[7])
      && HoldsField(get, same, fields[8]);
  }

  lemma {:induction false} PdfRead(fields: seq<Field>, h: Header)
    requires h.Pdf?
    ensures ReadFields(fields) == Some(h) <==>
      && GetStr(fields, "document_type") == Some("PDF") && KeysAre(fields, PDF_KEYS) && ReadUnit(fields) == Some(h.unit)
      && GetBox(fields, "media_box") == Some(h.mediaBox) && GetBox(fields, "crop_box") == Some(h.cropBox)
      && GetInt(fields, "rotation_degrees") == Some(h.rotation)
  {
  }

  lemma {:induction false} JpegRead(fields: seq<Field>, h: Header)
    requires h.Jpeg?
    ensures ReadFields(fields) == Some(h) <==>
      && GetStr(fields, "document_type") == Some("JPEG") && KeysAre(fields, JPEG_KEYS) && ReadUnit(fields) == Some(h.unit)
      && GetInt(fields, "image_width_px") == Some(h.width) && GetInt(fields, "image_height_px") == Some(h.height)
  {
  }

  lemma {:induction false} GetStrIs(fields: seq<Field>, key: string, s: string)
    ensures GetStr(fields, key) == Some(s) <==> LookupIn(fields)(key) == Some(Str(s))
  {
  }

  lemma {:induction false} GetIntIs(fields: seq<Field>, key: string, n: int)
    ensures GetInt(fields, key) == Some(n) <==> LookupIn(fields)(key) == Some(Int(n))
  {
  }

  lemma {:induction false} PdfIffFields(v: Value, h: Header)
    requires h.Pdf? && v.Obj?
    ensures ReadFields(v.fields) == Some(h) <==> SameValue(v, Obj(HeaderFields(h)))
  {
    assert Keys(HeaderFields(h)) == PDF_KEYS;
    PdfRead(v.fields, h);
    UnitIffFields(v.fields, h.unit);
    GetBoxIffField(v.fields, "crop_box", h.cropBox);
    GetBoxIffField(v.fields, "media_box", h.mediaBox);
    GetStrIs(v.fields, "document_type", "PDF");
    GetIntIs(v.fields, "rotation_degrees", h.rotation);
    SameObject(v, HeaderFields(h));
    PdfHolds(LookupIn(v.fields), TheSame(), h);
  }

  lemma {:induction false} JpegIffFields(v: Value, h: Header)
    requires h.Jpeg? && v.Obj?
    ensures ReadFields(v.fields) == Some(h) <==> SameValue(v, Obj(HeaderFields(h)))
  {
    assert Keys(HeaderFields(h)) == JPEG_KEYS;
    JpegRead(v.fields, h);
    UnitIffFields(v.fields, h.unit);
    GetStrIs(v.fields, "document_type", "JPEG");
    GetIntIs(v.fields, "image_width_px", h.width);
    GetIntIs(v.fields, "image_height_px", h.height);
    SameObject(v, HeaderFields(h));
    JpegHolds(LookupIn(v.fields), TheSame(), h);
  }

  /** A header is read from exactly the objects that hold its fields, in any order, and no others. */
  lemma {:induction false} HeaderIffFields(v: Value, h: Header)
    ensures ReadHeader(v) == Some(h) <==> ValidHeader(h) && SameValue(v, Obj(HeaderFields(h)))
  {
    if v.Obj? {
      if h.Pdf? {
        PdfIffFields(v, h);
      } else {
        JpegIffFields(v, h);
      }
    }
  }
}
