/** What a publisher puts into the shared directory (infra/f1/artifacts_v03.py and
    infra/f1/formal_acceptance.py): three candidate files, a manifest of their digests, and the
    pointer file that names the batch. The batch's name is the digest of its manifest. */
module Batches {
  import opened Bytes

  const ACCEPTANCE := "acceptance.json"
  const SBOM := "sbom.json"
  const STATUS := "status.html"
  const MANIFEST := "manifest.json"
  const CANDIDATE_FILES: set<string> := {ACCEPTANCE, SBOM, STATUS}
  const BATCH_FILES: set<string> := {ACCEPTANCE, SBOM, STATUS, MANIFEST}

  type Files = map<string, bytes>

  datatype Candidate = Candidate(files: Files, accepted: bool)

  const READY: bytes := [0x52, 0x45, 0x41, 0x44, 0x59]

  function TokenAt(data: bytes, i: nat): bool
    requires i + 5 <= |data|
  {
    data[i..i + 5] == READY
  }

  /** `b"READY" in data`. */
  predicate ContainsReady(data: bytes) {
    exists i | 0 <= i <= |data| - 5 :: TokenAt(data, i)
  }

  /** _pretty_bytes of the batch manifest. */
  function ManifestText(acceptance: string, sbom: string, status: string): string {
    "{\n  \"files\": {\n    \"acceptance.json\": \"" + acceptance
    + "\",\n    \"sbom.json\": \"" + sbom
    + "\",\n    \"status.html\": \"" + status
    + "\"\n  },\n  \"schema\": \"" + "f1.1.1-immutable-batch-v1" + "\"\n}\n"
  }

  function FilesText(acceptance: string, manifest: string, sbom: string, status: string): string {
    "{\n    \"acceptance.json\": \"" + acceptance
    + "\",\n    \"manifest.json\": \"" + manifest
    + "\",\n    \"sbom.json\": \"" + sbom
    + "\",\n    \"status.html\": \"" + status
    + "\"\n  }"
  }

  /** _pretty_bytes of current.json. */
  function CurrentText(batchId: string, accepted: bool, acceptance: string, manifest: string, sbom: string,
                       status: string): string {
    ("{\n  \"batch_id\": \"" + batchId + "\",\n  \"conclusion\": \"")
    + (if accepted then "F1_1_1_ACCEPTED_FIXTURE_ONLY" else "F1_1_1_REJECTED")
    + ("\",\n  \"files\": " + FilesText(acceptance, manifest, sbom, status) + ",\n  \"schema\": \"f1.1.1-current-batch-v1\"\n}\n")
  }

  function Sha(h: bytes -> Digest, data: bytes): string {
    Hex(h(data))
  }

  /** The bytes of a text all of whose characters are ASCII; the texts above are. */
  function TextBytes(s: string): bytes {
    seq(|s|, i requires 0 <= i < |s| => if s[i] as int < 128 then s[i] as int else 0)
  }

  function ManifestBytes(h: bytes -> Digest, files: Files): bytes
    requires CANDIDATE_FILES <= files.Keys
  {
    TextBytes(ManifestText(Sha(h, files[ACCEPTANCE]), Sha(h, files[SBOM]), Sha(h, files[STATUS])))
  }

  function PointerBytes(h: bytes -> Digest, id: string, accepted: bool, files: Files): bytes
    requires BATCH_FILES <= files.Keys
  {
    TextBytes(CurrentText(id, accepted, Sha(h, files[ACCEPTANCE]), Sha(h, files[MANIFEST]),
                          Sha(h, files[SBOM]), Sha(h, files[STATUS])))
  }

  /** All that a publisher will write, computed before it touches the directory. */
  datatype Plan = Plan(files: Files, id: string, pointer: bytes, accepted: bool)

  /** The checks a publisher makes before it touches the directory: the exact file set, and no
      success token in a rejected candidate. */
  predicate Screened(c: Candidate) {
    && c.files.Keys == CANDIDATE_FILES
    && (!c.accepted ==> forall name | name in c.files :: !ContainsReady(c.files[name]))
  }

  function PlanOf(h: bytes -> Digest, c: Candidate): (plan: Plan)
    requires c.files.Keys == CANDIDATE_FILES
    ensures plan.files.Keys == BATCH_FILES
  {
    var manifest := ManifestBytes(h, c.files);
    var files := c.files[MANIFEST := manifest];
    var id := Sha(h, manifest);
    Plan(files, id, PointerBytes(h, id, c.accepted, files), c.accepted)
  }

  /** A complete file set whose name is the hash of its manifest, and whose manifest names the
      hashes of the other three files. */
  ghost predicate CompleteBatch(h: bytes -> Digest, id: string, files: Files) {
    && files.Keys == BATCH_FILES
    && id == Sha(h, files[MANIFEST])
    && files[MANIFEST] == ManifestBytes(h, files - {MANIFEST})
  }

  lemma {:induction false} PlanComplete(h: bytes -> Digest, c: Candidate)
    requires c.files.Keys == CANDIDATE_FILES
    ensures CompleteBatch(h, PlanOf(h, c).id, PlanOf(h, c).files)
  {
    assert MANIFEST !in c.files;
    assert PlanOf(h, c).files - {MANIFEST} == c.files;
  }

  // ---------- the success token ----------

  /** No upper-case letter, so no success token. */
  predicate Quiet(s: string) {
    forall i :: 0 <= i < |s| ==> !('A' <= s[i] <= 'Z')
  }

  lemma {:induction false} QuietHasNoToken(s: string)
    requires Quiet(s)
    ensures !ContainsReady(TextBytes(s))
  {
    var data := TextBytes(s);
    forall i | 0 <= i <= |data| - 5 ensures !TokenAt(data, i) {
      assert !('A' <= s[i] <= 'Z');
      assert data[i..i + 5][0] == data[i] != 0x52;
    }
  }

  lemma {:induction false} QuietConcat(s: string, t: string)
    requires Quiet(s) && Quiet(t)
    ensures Quiet(s + t)
  {
  }

  lemma {:induction false} HexQuiet(b: bytes)
    ensures Quiet(Hex(b))
  {
    forall i | 0 <= i < |Hex(b)| ensures !('A' <= Hex(b)[i] <= 'Z') {
      assert IsLowerHexChar(Hex(b)[i]);
    }
  }

  lemma {:induction false} ManifestEndQuiet(text: string)
    requires Quiet(text)
    ensures Quiet(text + "\"\n  },\n  \"schema\": \"" + "f1.1.1-immutable-batch-v1" + "\"\n}\n")
  {
    QuietConcat(text, "\"\n  },\n  \"schema\": \"");
    QuietConcat(text + "\"\n  },\n  \"schema\": \"", "f1.1.1-immutable-batch-v1");
    QuietConcat(text + "\"\n  },\n  \"schema\": \"" + "f1.1.1-immutable-batch-v1", "\"\n}\n");
  }

  lemma {:induction false} ManifestTextQuiet(acceptance: string, sbom: string, status: string)
    requires Quiet(acceptance) && Quiet(sbom) && Quiet(status)
    ensures Quiet(ManifestText(acceptance, sbom, status))
  {
    ManifestHeadQuiet(acceptance, sbom);
    var head := "{\n  \"files\": {\n    \"acceptance.json\": \"" + acceptance + "\",\n    \"sbom.json\": \"" + sbom;
    QuietConcat(head, "\",\n    \"status.html\": \"");
    QuietConcat(head + "\",\n    \"status.html\": \"", status);
    ManifestEndQuiet(head + "\",\n    \"status.html\": \"" + status);
  }

  lemma {:induction false} ManifestHeadQuiet(acceptance: string, sbom: string)
    requires Quiet(acceptance) && Quiet(sbom)
    ensures Quiet("{\n  \"files\": {\n    \"acceptance.json\": \"" + acceptance + "\",\n    \"sbom.json\": \"" + sbom)
  {
    var head := "{\n  \"files\": {\n    \"acceptance.json\": \"";
    QuietConcat(head, acceptance);
    QuietConcat(head + acceptance, "\",\n    \"sbom.json\": \"");
    QuietConcat(head + acceptance + "\",\n    \"sbom.json\": \"", sbom);
  }

  /** The guards look at the three candidate files only; the manifest cannot hold the token. */
  lemma {:induction false} ManifestHasNoToken(h: bytes -> Digest, files: Files)
    requires CANDIDATE_FILES <= files.Keys
    ensures !ContainsReady(ManifestBytes(h, files))
  {
    HexQuiet(h(files[ACCEPTANCE]));
    HexQuiet(h(files[SBOM]));
    HexQuiet(h(files[STATUS]));
    ManifestTextQuiet(Sha(h, files[ACCEPTANCE]), Sha(h, files[SBOM]), Sha(h, files[STATUS]));
    QuietHasNoToken(ManifestText(Sha(h, files[ACCEPTANCE]), Sha(h, files[SBOM]), Sha(h, files[STATUS])));
  }
}
