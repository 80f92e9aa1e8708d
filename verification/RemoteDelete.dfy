/** The delete loop of `_process_jobs` in infra/f1/local_material_rag_verify.py: versions are deleted
    one by one, and after each the remote scope must be the one before it less that document. */
module RemoteDelete {
  import opened Wrappers
  import opened Bytes
  import opened Remote

  const UPLOADS := 4

  datatype Upload = Upload(version: Id, source: string)

  /** The documents whose names are not among those given, in their order. */
  function Others(docs: seq<DocumentSnapshot>, names: set<string>): seq<DocumentSnapshot> {
    if docs == [] then []
    else (if docs[0].name in names then [] else [docs[0]]) + Others(docs[1..], names)
  }

  function Without(s: ScopeSnapshot, names: set<string>): ScopeSnapshot {
    s.(documents := Others(s.documents, names))
  }

  /** The names of the documents of the first uploads. */
  function NamesOf(nameOf: string -> string, uploads: seq<Upload>): set<string> {
    set i | 0 <= i < |uploads| :: nameOf(uploads[i].source)
  }

  lemma {:induction false} OthersTwice(docs: seq<DocumentSnapshot>, a: set<string>, b: set<string>)
    ensures Others(Others(docs, a), b) == Others(docs, a + b)
  {
    if docs != [] {
      OthersTwice(docs[1..], a, b);
      var kept := Others(docs[1..], a);
      assert ([docs[0]] + kept)[1..] == kept && [] + kept == kept;
    }
  }

  lemma {:induction false} OthersNone(docs: seq<DocumentSnapshot>)
    ensures Others(docs, {}) == docs
  {
    if docs != [] {
      OthersNone(docs[1..]);
    }
  }

  /** A document stays with its physical identity, or goes because its name was deleted. */
  lemma {:induction false} OthersKeep(docs: seq<DocumentSnapshot>, names: set<string>, d: DocumentSnapshot)
    ensures d in Others(docs, names) <==> d in docs && d.name !in names
  {
    if docs != [] {
      OthersKeep(docs[1..], names, d);
    }
  }

  lemma {:induction false} NamesNext(nameOf: string -> string, uploads: seq<Upload>, u: Upload)
    ensures NamesOf(nameOf, uploads + [u]) == NamesOf(nameOf, uploads) + {nameOf(u.source)}
  {
    var all := uploads + [u];
    assert all[|uploads|] == u;
    forall n | n in NamesOf(nameOf, uploads) ensures n in NamesOf(nameOf, all) {
      var i :| 0 <= i < |uploads| && nameOf(uploads[i].source) == n;
      assert all[i] == uploads[i];
    }
  }

  lemma {:induction false} WithoutNext(nameOf: string -> string, start: ScopeSnapshot, uploads: seq<Upload>, u: Upload)
    ensures Without(Without(start, NamesOf(nameOf, uploads)), {nameOf(u.source)}) == Without(start, NamesOf(nameOf, uploads + [u]))
  {
    NamesNext(nameOf, uploads, u);
    OthersTwice(start.documents, NamesOf(nameOf, uploads), {nameOf(u.source)});
  }

  // ---------- versions still expected ----------

  predicate DistinctVersions(x: seq<Expectation>) {
    forall i, j :: 0 <= i < j < |x| ==> x[i].version != x[j].version
  }

  function Find(x: seq<Expectation>, version: Id): (k: int)
    ensures -1 <= k < |x|
    ensures k >= 0 ==> x[k].version == version
    ensures k < 0 ==> forall i :: 0 <= i < |x| ==> x[i].version != version
  {
    if x == [] then -1
    else if x[|x| - 1].version == version then |x| - 1
    else Find(x[..|x| - 1], version)
  }

  function RemoveAt(x: seq<Expectation>, k: nat): (r: seq<Expectation>)
    requires k < |x|
    ensures |r| == |x| - 1
  {
    x[..k] + x[k + 1..]
  }

  lemma {:induction false} CountConcat(a: seq<Expectation>, b: seq<Expectation>)
    ensures UnitCount(a + b) == UnitCount(a) + UnitCount(b)
  {
    if a == [] {
      assert a + b == b;
    } else {
      CountConcat(a[1..], b);
      assert (a + b)[1..] == a[1..] + b;
    }
  }

  /** The versions that are not among those given, in their order. */
  function Kept(x: seq<Expectation>, versions: set<Id>): seq<Expectation> {
    if x == [] then [] else (if x[0].version in versions then [] else [x[0]]) + Kept(x[1..], versions)
  }

  lemma {:induction false} KeptTwice(x: seq<Expectation>, a: set<Id>, b: set<Id>)
    ensures Kept(Kept(x, a), b) == Kept(x, a + b)
  {
    if x != [] {
      KeptTwice(x[1..], a, b);
      var kept := Kept(x[1..], a);
      assert ([x[0]] + kept)[1..] == kept && [] + kept == kept;
    }
  }

  lemma {:induction false} KeptAll(x: seq<Expectation>, versions: set<Id>)
    requires forall i :: 0 <= i < |x| ==> x[i].version !in versions
    ensures Kept(x, versions) == x
  {
    if x != [] {
      KeptAll(x[1..], versions);
    }
  }

  lemma {:induction false} RemovedIsKept(x: seq<Expectation>, k: nat)
    requires DistinctVersions(x) && k < |x|
    ensures RemoveAt(x, k) == Kept(x, {x[k].version})
  {
    if k == 0 {
      KeptAll(x[1..], {x[0].version});
    } else {
      RemovedIsKept(x[1..], k - 1);
      assert RemoveAt(x, k) == [x[0]] + RemoveAt(x[1..], k - 1);
    }
  }

  /** Removing a version takes away exactly its units. */
  lemma {:induction false} CountRemoved(x: seq<Expectation>, k: nat)
    requires k < |x|
    ensures UnitCount(RemoveAt(x, k)) == UnitCount(x) - |x[k].units|
  {
    CountConcat(x[..k], x[k + 1..]);
    CountConcat(x[..k], x[k..]);
    assert x[..k] + x[k..] == x && x[k..][1..] == x[k + 1..];
  }

  function Versions(x: seq<Expectation>): set<Id> {
    set i | 0 <= i < |x| :: x[i].version
  }

  lemma {:induction false} VersionsRemoved(x: seq<Expectation>, k: nat)
    requires DistinctVersions(x) && k < |x|
    ensures DistinctVersions(RemoveAt(x, k))
    ensures Versions(RemoveAt(x, k)) == Versions(x) - {x[k].version}
  {
    var r := RemoveAt(x, k);
    forall i | 0 <= i < |r| ensures r[i] == if i < k then x[i] else x[i + 1] {
    }
    forall v | v in Versions(x) - {x[k].version} ensures v in Versions(r) {
      var i :| 0 <= i < |x| && x[i].version == v;
      assert (if i < k then r[i] else r[i - 1]) == x[i];
    }
  }

  // ---------- the loop ----------

  /** What the caller fixed: hash, names, target dataset. */
  datatype Setting = Setting(h: bytes -> Digest, nameOf: string -> string, target: Target)

  /** What the surroundings answer: the datasets and documents listed after so many deletions, whether
      a deletion's job was done, whether the other scopes were as before and let go of their
      documents, what is left in the end, and whether the last queries find no candidate and the
      right number of jobs. */
  datatype Answers = Answers(
    datasets: nat -> seq<Dataset>, listed: nat -> seq<Document>, deleted: nat -> bool,
    siblingsIntact: bool, residual: nat, finalUnits: nat, settled: bool)

  predicate DistinctUploads(uploads: seq<Upload>) {
    forall i, j :: 0 <= i < j < |uploads| ==> uploads[i].version != uploads[j].version
  }

  function UploadVersions(uploads: seq<Upload>): set<Id> {
    set i | 0 <= i < |uploads| :: uploads[i].version
  }

  lemma {:induction false} UploadVersionsNext(uploads: seq<Upload>, u: Upload)
    ensures UploadVersions(uploads + [u]) == UploadVersions(uploads) + {u.version}
  {
    var all := uploads + [u];
    assert all[|uploads|] == u;
    forall v | v in UploadVersions(uploads) ensures v in UploadVersions(all) {
      var i :| 0 <= i < |uploads| && uploads[i].version == v;
      assert all[i] == uploads[i];
    }
  }

  /** The versions still expected after k deletions. */
  function Left(persisted: seq<Expectation>, uploads: seq<Upload>, k: nat): seq<Expectation>
    requires k <= |uploads|
  {
    Kept(persisted, UploadVersions(uploads[..k]))
  }

  /** The starting snapshot less the documents of the first k uploads. */
  function Expected(s: Setting, start: ScopeSnapshot, uploads: seq<Upload>, k: nat): ScopeSnapshot
    requires k <= |uploads|
  {
    Without(start, NamesOf(s.nameOf, uploads[..k]))
  }

  /** What the remote side lists after k deletions reconciles with those versions, as that snapshot. */
  ghost predicate Seen(s: Setting, a: Answers, k: nat, x: seq<Expectation>, snapshot: ScopeSnapshot) {
    && TargetOk(s.target, a.datasets(k)) && Reconciled(s.h, s.nameOf, x, a.listed(k))
    && snapshot == SnapScope(s.h, s.target, a.listed(k))
  }

  /** Whether after so many deletions these versions are listed, as that snapshot. */
  type Look = (nat, seq<Expectation>, ScopeSnapshot) -> bool

  ghost function Looks(s: Setting, a: Answers): Look {
    (k: nat, x: seq<Expectation>, snapshot: ScopeSnapshot) => Seen(s, a, k, x, snapshot)
  }

  /** The version of the deletion at k is still expected. */
  ghost predicate Known(persisted: seq<Expectation>, uploads: seq<Upload>, k: nat)
    requires k < |uploads|
  {
    uploads[k].version in Versions(Left(persisted, uploads, k))
  }

  /** After k deletions exactly these versions and units are listed, as the expected snapshot. */
  ghost predicate SnapshotPasses(look: Look, k: nat, left: seq<Expectation>, units: int, expected: ScopeSnapshot) {
    look(k, left, expected) && |left| == UPLOADS - k && UnitCount(left) == units
  }

  /** What must hold once the deletion at k is done, with these versions, units and documents left. */
  ghost predicate RestPasses(look: Look, a: Answers, k: nat, left: seq<Expectation>, units: int, expected: ScopeSnapshot) {
    if left == [] then expected.documents == []
    else SnapshotPasses(look, k + 1, left, units, expected) && (k == 0 ==> a.siblingsIntact)
  }

  /** The deletion at k passes: its version was still there, its job was done, and what is listed
      then is the starting snapshot less the documents deleted so far, with nothing else changed. */
  ghost predicate StepPasses(look: Look, s: Setting, a: Answers, start: ScopeSnapshot, uploads: seq<Upload>, persisted: seq<Expectation>,
                             unitCount: nat, k: nat)
    requires k < |uploads|
  {
    var left := Left(persisted, uploads, k + 1);
    && Known(persisted, uploads, k) && a.deleted(k)
    && RestPasses(look, a, k, left, unitCount - UnitCount(persisted) + UnitCount(left), Expected(s, start, uploads, k + 1))
  }

  /** All deletions pass, the first of them leaves some and the last none. */
  ghost predicate Passes(look: Look, s: Setting, a: Answers, start: ScopeSnapshot, uploads: seq<Upload>, persisted: seq<Expectation>,
                         unitCount: nat)
  {
    && (forall k :: 0 <= k < |uploads| ==> StepPasses(look, s, a, start, uploads, persisted, unitCount, k))
    && uploads != [] && Left(persisted, uploads, 1) != [] && Left(persisted, uploads, |uploads|) == []
    && a.residual == 0 && a.finalUnits == 0 && a.settled
  }

  /** The snapshot after a deletion, and the checks on it. */
  method CheckAfterDelete(s: Setting, a: Answers, index: nat, remaining: seq<Expectation>, remainingUnits: int, expected: ScopeSnapshot)
    returns (ok: bool)
    ensures ok <==> SnapshotPasses(Looks(s, a), index, remaining, remainingUnits, expected)
  {
    var seen := RemoteSnapshot(s.h, s.nameOf, s.target, a.datasets(index), remaining, a.listed(index));
    ok := false;
    if seen.Some? {
      SnapshotCounts(s.h, s.nameOf, s.target, remaining, a.listed(index));
      ok := |seen.value.documents| == UPLOADS - index && ChunkCount(seen.value.documents) == remainingUnits && seen.value == expected;
    }
  }

  /** The loop's variables. */
  datatype Progress = Progress(remaining: seq<Expectation>, units: int, prior: ScopeSnapshot, residual: int, proofs: nat)

  /** What the loop's variables are after k deletions. */
  ghost predicate At(s: Setting, a: Answers, start: ScopeSnapshot, uploads: seq<Upload>, persisted: seq<Expectation>, unitCount: nat,
                     k: nat, p: Progress)
    requires k <= |uploads|
  {
    && p.remaining == Left(persisted, uploads, k) && DistinctVersions(p.remaining)
    && p.units == unitCount - UnitCount(persisted) + UnitCount(p.remaining)
    && (p.remaining != [] ==> p.prior == Expected(s, start, uploads, k))
    && p.residual == (if k > 0 && p.remaining == [] then a.residual else -1)
    && p.proofs == (if k > 0 && Left(persisted, uploads, 1) != [] then 1 else 0)
  }

  lemma {:induction false} ExpectedNext(s: Setting, start: ScopeSnapshot, uploads: seq<Upload>, k: nat)
    requires k < |uploads|
    ensures Expected(s, start, uploads, k + 1) == Without(Expected(s, start, uploads, k), {s.nameOf(uploads[k].source)})
  {
    assert uploads[..k + 1] == uploads[..k] + [uploads[k]];
    WithoutNext(s.nameOf, start, uploads[..k], uploads[k]);
  }

  /** Deleting a version that is left takes away that version and its units. */
  lemma {:induction false} LeftNext(persisted: seq<Expectation>, uploads: seq<Upload>, k: nat, j: nat)
    requires k < |uploads| && DistinctVersions(Left(persisted, uploads, k))
    requires j < |Left(persisted, uploads, k)| && Left(persisted, uploads, k)[j].version == uploads[k].version
    ensures var left, next := Left(persisted, uploads, k), Left(persisted, uploads, k + 1);
      && next == RemoveAt(left, j) && DistinctVersions(next) && Versions(next) == Versions(left) - {uploads[k].version}
      && UnitCount(next) == UnitCount(left) - |left[j].units|
  {
    var left := Left(persisted, uploads, k);
    assert uploads[..k + 1] == uploads[..k] + [uploads[k]];
    UploadVersionsNext(uploads[..k], uploads[k]);
    KeptTwice(persisted, UploadVersions(uploads[..k]), {uploads[k].version});
    RemovedIsKept(left, j);
    VersionsRemoved(left, j);
    CountRemoved(left, j);
  }

  /** The loop's variables after one more deletion that passed. */
  function Next(a: Answers, index: nat, p: Progress, remaining: seq<Expectation>, units: int, expected: ScopeSnapshot): Progress {
    if remaining == [] then Progress(remaining, units, p.prior, a.residual, p.proofs)
    else Progress(remaining, units, expected, p.residual, if index == 0 then p.proofs + 1 else p.proofs)
  }

  function UnitsAfter(u: Upload, p: Progress): int {
    p.units - UnitCount(p.remaining) + UnitCount(Kept(p.remaining, {u.version}))
  }

  ghost predicate TurnPasses(look: Look, s: Setting, a: Answers, u: Upload, index: nat, p: Progress) {
    RestPasses(look, a, index, Kept(p.remaining, {u.version}), UnitsAfter(u, p), Without(p.prior, {s.nameOf(u.source)}))
  }

  function Turn(s: Setting, a: Answers, u: Upload, index: nat, p: Progress): Progress {
    Next(a, index, p, Kept(p.remaining, {u.version}), UnitsAfter(u, p), Without(p.prior, {s.nameOf(u.source)}))
  }

  method CheckRest(s: Setting, a: Answers, index: nat, left: seq<Expectation>, units: int, expected: ScopeSnapshot)
    returns (ok: bool)
    ensures ok <==> RestPasses(Looks(s, a), a, index, left, units, expected)
  {
    if left == [] {
      ok := expected.documents == [];
    } else {
      ok := CheckAfterDelete(s, a, index + 1, left, units, expected);
      ok := ok && (index != 0 || a.siblingsIntact);
    }
  }

  /** One turn of the loop. */
  method DeleteOne(s: Setting, a: Answers, u: Upload, index: nat, p: Progress) returns (r: Option<Progress>)
    requires DistinctVersions(p.remaining)
    ensures r.Some? <==> u.version in Versions(p.remaining) && a.deleted(index) && TurnPasses(Looks(s, a), s, a, u, index, p)
    ensures r.Some? ==> r.value == Turn(s, a, u, index, p)
  {
    var k := Find(p.remaining, u.version);
    if k < 0 || !a.deleted(index) {
      return None;
    }
    RemovedIsKept(p.remaining, k);
    CountRemoved(p.remaining, k);
    var units := p.units - |p.remaining[k].units|;
    var remaining := RemoveAt(p.remaining, k);
    var expected := Without(p.prior, {s.nameOf(u.source)});
    var ok := CheckRest(s, a, index, remaining, units, expected);
    r := if ok then Some(Next(a, index, p, remaining, units, expected)) else None;
  }

  /** A turn decides the step at its index, and leads to the variables after it. */
  lemma {:induction false} TurnIsStep(look: Look, s: Setting, a: Answers, start: ScopeSnapshot, uploads: seq<Upload>, persisted: seq<Expectation>,
                                      unitCount: nat, k: nat, p: Progress)
    requires k < |uploads| && At(s, a, start, uploads, persisted, unitCount, k, p) && Known(persisted, uploads, k)
    ensures TurnPasses(look, s, a, uploads[k], k, p) <==>
      RestPasses(look, a, k, Left(persisted, uploads, k + 1), unitCount - UnitCount(persisted) + UnitCount(Left(persisted, uploads, k + 1)),
                 Expected(s, start, uploads, k + 1))
    ensures At(s, a, start, uploads, persisted, unitCount, k + 1, Turn(s, a, uploads[k], k, p))
  {
    var j := KnownAt(persisted, uploads, k);
    LeftNext(persisted, uploads, k, j);
    RemovedIsKept(p.remaining, j);
    ExpectedNext(s, start, uploads, k);
    if k > 0 && Left(persisted, uploads, 1) == [] {
      NothingAfterNothing(persisted, uploads, k);
    }
  }

  lemma {:induction false} TurnDecides(look: Look, s: Setting, a: Answers, start: ScopeSnapshot, uploads: seq<Upload>, persisted: seq<Expectation>,
                                       unitCount: nat, k: nat, p: Progress)
    requires k < |uploads| && At(s, a, start, uploads, persisted, unitCount, k, p)
    ensures StepPasses(look, s, a, start, uploads, persisted, unitCount, k)
      <==> uploads[k].version in Versions(p.remaining) && a.deleted(k) && TurnPasses(look, s, a, uploads[k], k, p)
    ensures StepPasses(look, s, a, start, uploads, persisted, unitCount, k) ==>
      At(s, a, start, uploads, persisted, unitCount, k + 1, Turn(s, a, uploads[k], k, p))
  {
    if Known(persisted, uploads, k) {
      TurnIsStep(look, s, a, start, uploads, persisted, unitCount, k, p);
    }
  }

  lemma {:induction false} EndDecides(look: Look, s: Setting, a: Answers, start: ScopeSnapshot, uploads: seq<Upload>, persisted: seq<Expectation>,
                                      unitCount: nat, p: Progress)
    requires At(s, a, start, uploads, persisted, unitCount, |uploads|, p)
    requires forall k :: 0 <= k < |uploads| ==> StepPasses(look, s, a, start, uploads, persisted, unitCount, k)
    ensures Passes(look, s, a, start, uploads, persisted, unitCount)
      <==> a.finalUnits == 0 && p.residual == 0 && a.settled && p.proofs == 1
  {
  }

  lemma {:induction false} KnownAt(persisted: seq<Expectation>, uploads: seq<Upload>, k: nat) returns (j: nat)
    requires k < |uploads| && Known(persisted, uploads, k)
    ensures j < |Left(persisted, uploads, k)| && Left(persisted, uploads, k)[j].version == uploads[k].version
  {
    var left := Left(persisted, uploads, k);
    j :| 0 <= j < |left| && left[j].version == uploads[k].version;
  }

  /** Once nothing is left, no version is expected any more. */
  lemma {:induction false} NothingAfterNothing(persisted: seq<Expectation>, uploads: seq<Upload>, k: nat)
    requires 0 < k <= |uploads| && Left(persisted, uploads, 1) == []
    ensures Left(persisted, uploads, k) == []
  {
    if k > 1 {
      NothingAfterNothing(persisted, uploads, k - 1);
      assert uploads[..k] == uploads[..k - 1] + [uploads[k - 1]];
      UploadVersionsNext(uploads[..k - 1], uploads[k - 1]);
      KeptTwice(persisted, UploadVersions(uploads[..k - 1]), {uploads[k - 1].version});
    }
  }

  lemma {:induction false} StartsAt(s: Setting, a: Answers, start: ScopeSnapshot, uploads: seq<Upload>, persisted: seq<Expectation>,
                                    unitCount: nat)
    requires DistinctVersions(persisted)
    ensures At(s, a, start, uploads, persisted, unitCount, 0, Progress(persisted, unitCount, start, -1, 0))
  {
    assert uploads[..0] == [];
    assert NamesOf(s.nameOf, []) == {} && UploadVersions([]) == {};
    OthersNone(start.documents);
    KeptAll(persisted, {});
  }

  /** The deletions and the checks on what they left: they pass exactly when every step does, on what
      the surroundings answer. */
  method DeleteAll(s: Setting, a: Answers, start: ScopeSnapshot, uploads: seq<Upload>, persisted: seq<Expectation>, unitCount: nat)
    returns (ok: bool)
    requires DistinctVersions(persisted)
    ensures ok <==> Passes(Looks(s, a), s, a, start, uploads, persisted, unitCount)
  {
    var p := Progress(persisted, unitCount, start, -1, 0);
    StartsAt(s, a, start, uploads, persisted, unitCount);
    var index := 0;
    while index < |uploads|
      invariant 0 <= index <= |uploads|
      invariant At(s, a, start, uploads, persisted, unitCount, index, p)
      invariant forall k :: 0 <= k < index ==> StepPasses(Looks(s, a), s, a, start, uploads, persisted, unitCount, k)
    {
      var next := DeleteOne(s, a, uploads[index], index, p);
      TurnDecides(Looks(s, a), s, a, start, uploads, persisted, unitCount, index, p);
      if next.None? {
        return false;
      }
      p := next.value;
      index := index + 1;
    }
    EndDecides(Looks(s, a), s, a, start, uploads, persisted, unitCount, p);
    ok := a.finalUnits == 0 && p.residual == 0 && a.settled && p.proofs == 1;
  }

  // ---------- what a loop that passed has shown ----------

  /** What is left of the persisted versions after distinct deletions of some of them. */
  ghost predicate Remains(persisted: seq<Expectation>, done: seq<Upload>, left: seq<Expectation>) {
    && DistinctVersions(left) && |left| + |done| == |persisted| && DistinctUploads(done)
    && Versions(left) !! UploadVersions(done) && Versions(left) + UploadVersions(done) == Versions(persisted)
  }

  lemma {:induction false} RemainsNext(persisted: seq<Expectation>, done: seq<Upload>, left: seq<Expectation>, u: Upload, j: nat)
    requires Remains(persisted, done, left) && j < |left| && left[j].version == u.version
    ensures Remains(persisted, done + [u], RemoveAt(left, j))
  {
    VersionsRemoved(left, j);
    UploadVersionsNext(done, u);
    assert u.version in Versions(left);
    forall i | 0 <= i < |done| ensures done[i].version != u.version {
      assert done[i].version in UploadVersions(done);
    }
  }

  lemma {:induction false} LeftAfterNext(uploads: seq<Upload>, persisted: seq<Expectation>, k: nat)
    requires k < |uploads| && Remains(persisted, uploads[..k], Left(persisted, uploads, k)) && Known(persisted, uploads, k)
    ensures Remains(persisted, uploads[..k + 1], Left(persisted, uploads, k + 1))
  {
    var j := KnownAt(persisted, uploads, k);
    LeftNext(persisted, uploads, k, j);
    RemainsNext(persisted, uploads[..k], Left(persisted, uploads, k), uploads[k], j);
    assert uploads[..k + 1] == uploads[..k] + [uploads[k]];
  }

  /** The versions left after k deletions that passed. */
  lemma {:induction false} LeftAfter(uploads: seq<Upload>, persisted: seq<Expectation>, k: nat)
    requires DistinctVersions(persisted) && k <= |uploads|
    requires forall i :: 0 <= i < k ==> Known(persisted, uploads, i)
    ensures Remains(persisted, uploads[..k], Left(persisted, uploads, k))
  {
    if k == 0 {
      assert uploads[..0] == [] && UploadVersions([]) == {};
      KeptAll(persisted, {});
    } else {
      LeftAfter(uploads, persisted, k - 1);
      LeftAfterNext(uploads, persisted, k - 1);
    }
  }

  /** After k deletions the remote side listed the starting snapshot less the k documents, with the
      very same physical identities, and as many documents and chunks as versions and units were left. */
  ghost predicate ListedRest(look: Look, s: Setting, a: Answers, start: ScopeSnapshot, uploads: seq<Upload>, persisted: seq<Expectation>, k: nat)
    requires k <= |uploads|
  {
    var left, seen := Left(persisted, uploads, k), Expected(s, start, uploads, k);
    && look(k, left, seen)
    && |left| == UPLOADS - k
  }

  lemma {:induction false} StepAt(look: Look, s: Setting, a: Answers, start: ScopeSnapshot, uploads: seq<Upload>, persisted: seq<Expectation>,
                                  unitCount: nat, k: nat)
    requires Passes(look, s, a, start, uploads, persisted, unitCount) && k < |uploads|
    ensures Known(persisted, uploads, k) && Left(persisted, uploads, k) != []
    ensures var left, expected := Left(persisted, uploads, k + 1), Expected(s, start, uploads, k + 1);
      if left == [] then expected.documents == []
      else look(k + 1, left, expected) && |left| == UPLOADS - (k + 1) && unitCount == UnitCount(persisted)
  {
    assert StepPasses(look, s, a, start, uploads, persisted, unitCount, k);
    assert Versions([]) == {};
  }

  lemma {:induction false} AllDeleted(uploads: seq<Upload>, persisted: seq<Expectation>)
    requires DistinctVersions(persisted) && forall k :: 0 <= k < |uploads| ==> Known(persisted, uploads, k)
    requires Left(persisted, uploads, |uploads|) == []
    ensures |uploads| == |persisted| && DistinctUploads(uploads) && UploadVersions(uploads) == Versions(persisted)
  {
    LeftAfter(uploads, persisted, |uploads|);
    assert uploads[..|uploads|] == uploads && Versions([]) == {};
  }

  lemma {:induction false} ListedAfter(look: Look, s: Setting, a: Answers, start: ScopeSnapshot, uploads: seq<Upload>, persisted: seq<Expectation>,
                                       unitCount: nat, k: nat)
    requires Passes(look, s, a, start, uploads, persisted, unitCount) && 0 < k < |uploads|
    ensures ListedRest(look, s, a, start, uploads, persisted, k)
  {
    StepAt(look, s, a, start, uploads, persisted, unitCount, k - 1);
    StepAt(look, s, a, start, uploads, persisted, unitCount, k);
  }

  /** What a loop that passed has shown: every version was deleted exactly once; after each deletion
      but the last the remote side listed exactly the rest; and the deletions named every document. */
  lemma {:induction false} PassedLoop(look: Look, s: Setting, a: Answers, start: ScopeSnapshot, uploads: seq<Upload>, persisted: seq<Expectation>,
                                      unitCount: nat)
    requires DistinctVersions(persisted) && Passes(look, s, a, start, uploads, persisted, unitCount)
    ensures |uploads| == |persisted| == UPLOADS && unitCount == UnitCount(persisted)
    ensures DistinctUploads(uploads) && UploadVersions(uploads) == Versions(persisted)
    ensures forall k :: 0 < k < |uploads| ==> ListedRest(look, s, a, start, uploads, persisted, k)
    ensures Expected(s, start, uploads, |uploads|).documents == []
  {
    forall k | 0 <= k < |uploads| ensures Known(persisted, uploads, k) {
      StepAt(look, s, a, start, uploads, persisted, unitCount, k);
    }
    AllDeleted(uploads, persisted);
    LeftAfter(uploads, persisted, 1);
    StepAt(look, s, a, start, uploads, persisted, unitCount, 0);
    StepAt(look, s, a, start, uploads, persisted, unitCount, |uploads| - 1);
    forall k | 0 < k < |uploads| ensures ListedRest(look, s, a, start, uploads, persisted, k) {
      ListedAfter(look, s, a, start, uploads, persisted, unitCount, k);
    }
  }

  /** What was listed then: as many documents and chunks as versions and units were left. */
  lemma {:induction false} ListedCounts(s: Setting, a: Answers, start: ScopeSnapshot, uploads: seq<Upload>, persisted: seq<Expectation>,
                                        k: nat)
    requires k <= |uploads| && ListedRest(Looks(s, a), s, a, start, uploads, persisted, k)
    ensures var left, seen := Left(persisted, uploads, k), Expected(s, start, uploads, k);
      && Reconciled(s.h, s.nameOf, left, a.listed(k)) && SnapScope(s.h, s.target, a.listed(k)) == seen
      && |seen.documents| == UPLOADS - k && ChunkCount(seen.documents) == UnitCount(left)
  {
    SnapshotCounts(s.h, s.nameOf, s.target, Left(persisted, uploads, k), a.listed(k));
  }
}
