/** The shapes of names and texts, said by how they are put together: which objects a run may remove,
    which texts count as paths,
    and which scanner events are recorded. */
module Names {
  import L = Lifecycle
  import opened Wrappers
  import Material
  import S = ScannerBuffer

  /** A preview's name is two ids of 32 hexadecimal digits with a slash between and .json behind. */
  lemma {:induction false} PreviewIsTwoIds(s: string)
    ensures L.PreviewName(s) <==>
      exists a: string, b: string :: L.HexOf(a, 32) && L.HexOf(b, 32) && s == a + "/" + b + ".json"
  {
    if L.PreviewName(s) {
      assert s == s[..32] + "/" + s[33..65] + ".json";
    }
    if a: string, b: string :| L.HexOf(a, 32) && L.HexOf(b, 32) && s == a + "/" + b + ".json" {
      PreviewParts(a, b);
    }
  }

  lemma {:induction false} PreviewParts(a: string, b: string)
    requires L.HexOf(a, 32) && L.HexOf(b, 32)
    ensures L.PreviewName(a + "/" + b + ".json")
  {
    var s := a + "/" + b + ".json";
    assert s[..32] == a && s[33..65] == b && s[65..] == ".json";
  }

  const HEX := "0123456789abcdef"

  lemma {:induction false} HexDigit(c: char)
    ensures L.LowerHex(c) <==> c in HEX
  {
    assert forall i :: 0 <= i < 10 ==> HEX[i] == (48 + i) as char;
    assert forall i :: 10 <= i < 16 ==> HEX[i] == (87 + i) as char;
    if '0' <= c <= '9' {
      assert HEX[c as int - 48] == c;
    } else if 'a' <= c <= 'f' {
      assert HEX[c as int - 87] == c;
    }
  }

  /** What a run may remove: in the quarantine and among the released documents the objects of its own
      identities, among the previews those under one of its tasks, and in any other bucket nothing. */
  lemma {:induction false} RemovableObjects(r: L.BucketNames, bucket: string, name: string, ids: seq<L.Identity>)
    requires L.Distinct(r) && forall i :: 0 <= i < |ids| ==> L.HexOf(ids[i].task, 32)
    ensures bucket == r.quarantine || bucket == r.released ==>
      (L.ValidObject(r, bucket, name, ids) <==> exists id :: id in ids && id.objectKey == name)
    ensures bucket == r.preview ==>
      (L.ValidObject(r, bucket, name, ids) <==>
       exists id, b: string :: id in ids && L.HexOf(b, 32) && name == id.task + "/" + b + ".json")
    ensures bucket !in L.Buckets(r) ==> !L.ValidObject(r, bucket, name, ids)
  {
    if bucket == r.preview {
      L.PreviewOwner(r, name, ids);
      PreviewIsTwoIds(name);
      if L.ValidObject(r, bucket, name, ids) {
        var i :| 0 <= i < |ids| && ids[i].task == name[..32];
        assert ids[i] in ids && name == ids[i].task + "/" + name[33..65] + ".json";
      }
      if id, b: string :| id in ids && L.HexOf(b, 32) && name == id.task + "/" + b + ".json" {
        PreviewParts(id.task, b);
        assert name[..32] == id.task;
      }
    }
  }

  /** A text counts as a path when it starts at a root or a home, or names a Windows user directory
      anywhere. */
  lemma {:induction false} PathTextMeans(s: string)
    ensures Material.PathText(s) <==>
      || (exists b: string :: s == "/" + b) || (exists b: string :: s == "~/" + b)
      || (exists a: string, b: string :: s == a + "\\Users\\" + b)
  {
    if "/" <= s {
      assert s == "/" + s[1..];
    } else if "~/" <= s {
      assert s == "~/" + s[2..];
    } else if i :| 0 <= i <= |s| - 7 && Material.UsersAt(s, i) {
      assert s == s[..i] + "\\Users\\" + s[i + 7..];
    }
    if a: string, b: string :| s == a + "\\Users\\" + b {
      assert Material.UsersAt(s, |a|);
    }
  }

  /** The keys that evidence must not have. */
  lemma {:induction false} ForbiddenNames(key: string)
    ensures key in Material.FORBIDDEN <==>
      || key == "stdout" || key == "stderr" || key == "output" || key == "full" || key == "tail" || key == "command" || key == "cmd"
      || key == "cwd" || key == "path" || key == "paths" || key == "dsn" || key == "token" || key == "key" || key == "secret"
  {
  }

  /** Which payloads are recorded. */
  lemma {:induction false} RecordedPayloads(reasons: S.Reasons, e: S.Event)
    ensures S.Valid(reasons, Some(e)) <==>
      && e.attempts >= 1 && e.attempts <= 64 && e.code in reasons && (e.operation == "INSTREAM" || e.operation == "VERSION")
      && (e.phase == "CONNECT" || e.phase == "PARSE" || e.phase == "RECV" || e.phase == "RESOLVE" || e.phase == "SEND")
      && (e.response == "EMPTY" || e.response == "ENGINE_ERROR" || e.response == "FORMAT_MISMATCH"
          || e.response == "NOT_APPLICABLE" || e.response == "OVERSIZE")
    ensures !S.Valid(reasons, None)
  {
  }

  // ---------- bucket names ----------

  /** Whose bucket it is: the first digits of the database's name and of the nonce, and the role. */
  datatype Owner = Owner(digits: string, nonce: string, role: char)

  function ReadBucket(name: string): (owner: Owner)
    requires |name| == 45
  {
    Owner(name[14..26], name[27..43], name[44])
  }

  /** The name of each bucket tells the run that it belongs to and whether it holds quarantined, preview
      or released objects. */
  lemma {:induction false} BucketsTell(digits: string, nonce: string)
    requires L.HexOf(digits, 24) && L.HexOf(nonce, 32)
    ensures var r := L.ResourceNames(digits, nonce);
      && |r.quarantine| == 45 && |r.preview| == 45 && |r.released| == 45
      && ReadBucket(r.quarantine) == Owner(digits[..12], nonce[..16], 'q')
      && ReadBucket(r.preview) == Owner(digits[..12], nonce[..16], 'p')
      && ReadBucket(r.released) == Owner(digits[..12], nonce[..16], 'r')
  {
    var stem := L.Stem(digits, nonce);
    assert |"anhuan-ingest-"| == 14 && |stem| == 43;
    assert stem[14..26] == digits[..12] && stem[27..43] == nonce[..16];
    assert (stem + "-q")[14..26] == stem[14..26] && (stem + "-q")[27..43] == stem[27..43];
    assert (stem + "-p")[14..26] == stem[14..26] && (stem + "-p")[27..43] == stem[27..43];
    assert (stem + "-r")[14..26] == stem[14..26] && (stem + "-r")[27..43] == stem[27..43];
  }
}
