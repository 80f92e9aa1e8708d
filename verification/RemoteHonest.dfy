/** A remote side that takes out exactly the documents it is told to: the delete loop passes on it.
    So the checks of RemoteDelete ask for no more than that. */
module RemoteHonest {
  import opened Wrappers
  import opened Bytes
  import opened Sorting
  import opened Remote
  import opened RemoteDelete

  function DropAt(docs: seq<Document>, i: nat): (r: seq<Document>)
    requires i < |docs|
    ensures |r| == |docs| - 1
  {
    docs[..i] + docs[i + 1..]
  }

  /** Where the document at k of the shorter list stood. */
  function Before(i: nat, k: nat): nat {
    if k < i then k else k + 1
  }

  lemma {:induction false} DroppedAt(docs: seq<Document>, i: nat)
    requires i < |docs|
    ensures forall k :: 0 <= k < |docs| - 1 ==> DropAt(docs, i)[k] == docs[Before(i, k)]
  {
  }

  lemma {:induction false} DroppedIn(docs: seq<Document>, i: nat, d: Document)
    requires i < |docs| && DistinctDocuments(docs)
    ensures d in DropAt(docs, i) <==> d in docs && d.name != docs[i].name
  {
    DroppedAt(docs, i);
    if d in docs && d.name != docs[i].name {
      var k :| 0 <= k < |docs| && docs[k] == d;
      assert DropAt(docs, i)[if k < i then k else k - 1] == d;
    }
  }

  // ---------- identifiers ----------

  lemma {:induction false} InAll(docs: seq<Document>, k: nat)
    requires k < |docs|
    ensures ChunkIds(docs[k].chunks) <= AllChunkIds(docs) && TaggedUnits(docs[k].chunks) <= AllTaggedUnits(docs)
  {
    if k < |docs| - 1 {
      InAll(docs[..|docs| - 1], k);
      assert docs[..|docs| - 1][k] == docs[k];
    }
  }

  /** Two documents share no chunk and no unit. */
  predicate Disjoint(a: Document, b: Document) {
    ChunkIds(a.chunks) !! ChunkIds(b.chunks) && TaggedUnits(a.chunks) !! TaggedUnits(b.chunks)
  }

  lemma {:induction false} ApartPair(docs: seq<Document>, i: nat, j: nat)
    requires Apart(docs) && i < j < |docs|
    ensures Disjoint(docs[j], docs[i])
  {
    InAll(docs[..j], i);
    assert docs[..j][i] == docs[i];
  }

  lemma {:induction false} DisjointFromAll(docs: seq<Document>, d: Document)
    requires forall i :: 0 <= i < |docs| ==> Disjoint(d, docs[i])
    ensures ChunkIds(d.chunks) !! AllChunkIds(docs) && TaggedUnits(d.chunks) !! AllTaggedUnits(docs)
  {
    if docs != [] {
      DisjointFromAll(docs[..|docs| - 1], d);
    }
  }

  lemma {:induction false} DropApart(docs: seq<Document>, i: nat)
    requires Apart(docs) && i < |docs|
    ensures Apart(DropAt(docs, i))
  {
    var rest := DropAt(docs, i);
    DroppedAt(docs, i);
    forall k | 0 <= k < |rest|
      ensures ChunkIds(rest[k].chunks) !! AllChunkIds(rest[..k]) && TaggedUnits(rest[k].chunks) !! AllTaggedUnits(rest[..k])
    {
      forall j | 0 <= j < k ensures Disjoint(rest[k], rest[..k][j]) {
        ApartPair(docs, Before(i, j), Before(i, k));
      }
      DisjointFromAll(rest[..k], rest[k]);
    }
  }

  // ---------- what stays reconciled ----------

  lemma {:induction false} RemovedOk(nameOf: string -> string, x: seq<Expectation>, j: nat)
    requires ExpectationsOk(nameOf, x) && j < |x|
    ensures ExpectationsOk(nameOf, RemoveAt(x, j))
    ensures forall e :: e in RemoveAt(x, j) <==> e in x && NameFor(nameOf, e) != NameFor(nameOf, x[j])
  {
    var r := RemoveAt(x, j);
    forall k | 0 <= k < |r| ensures r[k] == x[Before(j, k)] {
    }
    forall e | e in x && NameFor(nameOf, e) != NameFor(nameOf, x[j]) ensures e in r {
      var k :| 0 <= k < |x| && x[k] == e;
      assert r[if k < j then k else k - 1] == e;
    }
  }

  lemma {:induction false} NamesAre(nameOf: string -> string, x: seq<Expectation>, docs: seq<Document>)
    ensures ExpectedNames(nameOf, x, Names(docs)) <==>
      && (forall e :: e in x ==> exists d :: d in docs && d.name == NameFor(nameOf, e))
      && (forall d :: d in docs ==> exists e :: e in x && NameFor(nameOf, e) == d.name)
  {
    if ExpectedNames(nameOf, x, Names(docs)) {
      forall e | e in x ensures exists d :: d in docs && d.name == NameFor(nameOf, e) {
        var i :| 0 <= i < |x| && x[i] == e;
        var k :| 0 <= k < |docs| && docs[k].name == NameFor(nameOf, e);
        assert docs[k] in docs;
      }
      forall d | d in docs ensures exists e :: e in x && NameFor(nameOf, e) == d.name {
        assert d.name in Names(docs);
        var i :| 0 <= i < |x| && NameFor(nameOf, x[i]) == d.name;
        assert x[i] in x;
      }
    }
  }

  lemma {:induction false} DropNames(nameOf: string -> string, x: seq<Expectation>, docs: seq<Document>, j: nat, i: nat)
    requires ExpectationsOk(nameOf, x) && ExpectedNames(nameOf, x, Names(docs)) && DistinctDocuments(docs)
    requires j < |x| && i < |docs| && docs[i].name == NameFor(nameOf, x[j])
    ensures ExpectedNames(nameOf, RemoveAt(x, j), Names(DropAt(docs, i)))
  {
    var r, rest := RemoveAt(x, j), DropAt(docs, i);
    RemovedOk(nameOf, x, j);
    NamesAre(nameOf, x, docs);
    forall e | e in r ensures exists d :: d in rest && d.name == NameFor(nameOf, e) {
      var d :| d in docs && d.name == NameFor(nameOf, e);
      DroppedIn(docs, i, d);
    }
    forall d | d in rest ensures exists e :: e in r && NameFor(nameOf, e) == d.name {
      DroppedIn(docs, i, d);
      var e :| e in x && NameFor(nameOf, e) == d.name;
    }
    NamesAre(nameOf, r, rest);
  }

  lemma {:induction false} DropServes(h: bytes -> Digest, nameOf: string -> string, x: seq<Expectation>, j: nat, d: Document)
    requires ExpectationsOk(nameOf, x) && j < |x| && Serves(h, nameOf, x, d) && d.name != NameFor(nameOf, x[j])
    ensures Serves(h, nameOf, RemoveAt(x, j), d)
  {
    RemovedOk(nameOf, x, j);
    var e :| e in x && NameFor(nameOf, e) == d.name && DocumentOk(h, e, d.chunks);
    assert e in RemoveAt(x, j);
  }

  lemma {:induction false} DropDistinct(docs: seq<Document>, i: nat)
    requires DistinctDocuments(docs) && i < |docs|
    ensures DistinctDocuments(DropAt(docs, i))
    ensures forall k :: 0 <= k < |docs| - 1 ==> DropAt(docs, i)[k].name != docs[i].name
  {
    DroppedAt(docs, i);
  }

  lemma {:induction false} DropDocumentsOk(h: bytes -> Digest, nameOf: string -> string, x: seq<Expectation>, docs: seq<Document>,
                                           j: nat, i: nat)
    requires ExpectationsOk(nameOf, x) && DocumentsOk(h, nameOf, x, docs)
    requires j < |x| && i < |docs| && docs[i].name == NameFor(nameOf, x[j])
    ensures DocumentsOk(h, nameOf, RemoveAt(x, j), DropAt(docs, i))
  {
    var rest := DropAt(docs, i);
    DropDistinct(docs, i);
    DropApart(docs, i);
    DroppedAt(docs, i);
    forall k | 0 <= k < |rest| ensures rest[k].id != "" && Serves(h, nameOf, RemoveAt(x, j), rest[k]) {
      DropServes(h, nameOf, x, j, docs[Before(i, k)]);
    }
  }

  /** Without a version and its document, the rest still reconciles. */
  lemma {:induction false} DropReconciled(h: bytes -> Digest, nameOf: string -> string, x: seq<Expectation>, docs: seq<Document>,
                                          j: nat, i: nat)
    requires Reconciled(h, nameOf, x, docs) && j < |x| && i < |docs| && docs[i].name == NameFor(nameOf, x[j])
    ensures Reconciled(h, nameOf, RemoveAt(x, j), DropAt(docs, i))
  {
    RemovedOk(nameOf, x, j);
    DropNames(nameOf, x, docs, j, i);
    DropDocumentsOk(h, nameOf, x, docs, j, i);
  }

  // ---------- the snapshot of the rest ----------

  lemma {:induction false} OthersOrdered(docs: seq<DocumentSnapshot>, names: set<string>)
    requires Ordered(NameKey, docs) && NoDuplicates(docs)
    ensures Ordered(NameKey, Others(docs, names)) && NoDuplicates(Others(docs, names))
  {
    if docs != [] {
      var rest := Others(docs[1..], names);
      OthersOrdered(docs[1..], names);
      if docs[0].name !in names {
        forall k | 0 <= k < |rest| ensures StrLe(NameKey(docs[0]), NameKey(rest[k])) && docs[0] != rest[k] {
          OthersKeep(docs[1..], names, rest[k]);
          var m :| 0 <= m < |docs[1..]| && docs[1..][m] == rest[k];
          assert docs[m + 1] == rest[k];
        }
      }
    }
  }

  lemma {:induction false} SnapIn(h: bytes -> Digest, docs: seq<Document>, x: DocumentSnapshot)
    ensures x in SnapAll(h, docs) <==> exists d :: d in docs && SnapDocument(h, d) == x
  {
    if x in SnapAll(h, docs) {
      var k :| 0 <= k < |docs| && SnapAll(h, docs)[k] == x;
      assert docs[k] in docs && SnapDocument(h, docs[k]) == x;
    }
    if exists d :: d in docs && SnapDocument(h, d) == x {
      var d :| d in docs && SnapDocument(h, d) == x;
      var k :| 0 <= k < |docs| && docs[k] == d;
      assert SnapAll(h, docs)[k] == x;
    }
  }

  lemma {:induction false} SnapDistinct(h: bytes -> Digest, docs: seq<Document>)
    requires DistinctDocuments(docs)
    ensures NoDuplicates(SnapAll(h, docs)) && KeyedBy(NameKey, SnapAll(h, docs))
  {
    var all := SnapAll(h, docs);
    forall i, j | 0 <= i < j < |all| ensures all[i].name != all[j].name {
      assert all[i] == SnapDocument(h, docs[i]) && all[j] == SnapDocument(h, docs[j]);
    }
  }

  lemma {:induction false} DropSnapIn(h: bytes -> Digest, docs: seq<Document>, i: nat, x: DocumentSnapshot)
    requires DistinctDocuments(docs) && i < |docs|
    ensures x in SnapAll(h, DropAt(docs, i)) <==> x in SnapAll(h, docs) && x.name != docs[i].name
  {
    SnapIn(h, docs, x);
    SnapIn(h, DropAt(docs, i), x);
    if x in SnapAll(h, docs) && x.name != docs[i].name {
      var d :| d in docs && SnapDocument(h, d) == x;
      DroppedIn(docs, i, d);
    }
    if x in SnapAll(h, DropAt(docs, i)) {
      var d :| d in DropAt(docs, i) && SnapDocument(h, d) == x;
      DroppedIn(docs, i, d);
    }
  }

  /** The snapshot of the rest is the snapshot without that document. */
  lemma {:induction false} DropSnapshot(h: bytes -> Digest, docs: seq<Document>, i: nat)
    requires DistinctDocuments(docs) && i < |docs|
    ensures SortBy(NameKey, SnapAll(h, DropAt(docs, i))) == Others(SortBy(NameKey, SnapAll(h, docs)), {docs[i].name})
  {
    var rest := DropAt(docs, i);
    var sorted := SortBy(NameKey, SnapAll(h, docs));
    var left, right := SortBy(NameKey, SnapAll(h, rest)), Others(sorted, {docs[i].name});
    DroppedAt(docs, i);
    SnapDistinct(h, docs);
    SnapDistinct(h, rest);
    SortByCorrect(NameKey, SnapAll(h, docs));
    SortByElements(NameKey, SnapAll(h, docs));
    SortByCorrect(NameKey, SnapAll(h, rest));
    SortByElements(NameKey, SnapAll(h, rest));
    OthersOrdered(sorted, {docs[i].name});
    forall x ensures x in left <==> x in right {
      DropSnapIn(h, docs, i, x);
      OthersKeep(sorted, {docs[i].name}, x);
    }
    OrderedUnique(NameKey, left, right);
  }

  // ---------- an honest remote side ----------

  /** A deletion takes the one document of that name out of what is listed. */
  predicate TakesOut(before: seq<Document>, name: string, after: seq<Document>) {
    exists i | 0 <= i < |before| :: before[i].name == name && after == DropAt(before, i)
  }

  /** The deletions are of the persisted versions, each once, under their own sources. */
  predicate Deletes(s: Setting, uploads: seq<Upload>, persisted: seq<Expectation>) {
    && |uploads| == |persisted| == UPLOADS && DistinctVersions(persisted) && DistinctUploads(uploads)
    && (forall k | 0 <= k < |uploads| :: exists j | 0 <= j < |persisted| ::
          persisted[j].version == uploads[k].version && NameFor(s.nameOf, persisted[j]) == s.nameOf(uploads[k].source))
  }

  /** The remote side starts as it should be, its datasets stay, and each deletion takes out just its
      document; the other scopes are intact, and nothing is left in the end. */
  ghost predicate Honest(s: Setting, a: Answers, start: ScopeSnapshot, uploads: seq<Upload>, persisted: seq<Expectation>) {
    && s.target.name in s.target.bindings && Reconciled(s.h, s.nameOf, persisted, a.listed(0)) && (forall k: nat :: TargetOk(s.target, a.datasets(k)))
    && start == SnapScope(s.h, s.target, a.listed(0))
    && (forall k | 0 <= k < |uploads| :: a.deleted(k) && TakesOut(a.listed(k), s.nameOf(uploads[k].source), a.listed(k + 1)))
    && a.siblingsIntact && a.residual == 0 && a.finalUnits == 0 && a.settled
  }

  /** What holds after k deletions on an honest remote side. */
  ghost predicate Follows(s: Setting, a: Answers, start: ScopeSnapshot, uploads: seq<Upload>, persisted: seq<Expectation>, k: nat)
    requires k <= |uploads|
  {
    && s.target.name in s.target.bindings && Reconciled(s.h, s.nameOf, Left(persisted, uploads, k), a.listed(k))
    && SnapScope(s.h, s.target, a.listed(k)) == Expected(s, start, uploads, k)
    && Remains(persisted, uploads[..k], Left(persisted, uploads, k))
  }

  /** The version of the next deletion is left, with its own document's name. */
  lemma {:induction false} NextLeft(s: Setting, uploads: seq<Upload>, persisted: seq<Expectation>, k: nat) returns (j: nat)
    requires Deletes(s, uploads, persisted) && k < |uploads| && Remains(persisted, uploads[..k], Left(persisted, uploads, k))
    ensures var left := Left(persisted, uploads, k);
      j < |left| && left[j].version == uploads[k].version && NameFor(s.nameOf, left[j]) == s.nameOf(uploads[k].source)
  {
    var m :| 0 <= m < |persisted| && persisted[m].version == uploads[k].version
             && NameFor(s.nameOf, persisted[m]) == s.nameOf(uploads[k].source);
    forall i | 0 <= i < k ensures uploads[..k][i].version != persisted[m].version {
    }
    KeptIn(persisted, UploadVersions(uploads[..k]), persisted[m]);
    var left := Left(persisted, uploads, k);
    j :| 0 <= j < |left| && left[j] == persisted[m];
  }

  lemma {:induction false} KeptIn(x: seq<Expectation>, versions: set<Id>, e: Expectation)
    ensures e in Kept(x, versions) <==> e in x && e.version !in versions
  {
    if x != [] {
      KeptIn(x[1..], versions, e);
    }
  }

  lemma {:induction false} FollowsNext(s: Setting, a: Answers, start: ScopeSnapshot, uploads: seq<Upload>, persisted: seq<Expectation>,
                                       k: nat)
    requires Deletes(s, uploads, persisted) && Honest(s, a, start, uploads, persisted) && k < |uploads|
    requires Follows(s, a, start, uploads, persisted, k)
    ensures Follows(s, a, start, uploads, persisted, k + 1) && Known(persisted, uploads, k)
  {
    var left, docs, name := Left(persisted, uploads, k), a.listed(k), s.nameOf(uploads[k].source);
    var j := NextLeft(s, uploads, persisted, k);
    assert TakesOut(docs, name, a.listed(k + 1));
    var i :| 0 <= i < |docs| && docs[i].name == name && a.listed(k + 1) == DropAt(docs, i);
    LeftNext(persisted, uploads, k, j);
    DropReconciled(s.h, s.nameOf, left, docs, j, i);
    DropSnapshot(s.h, docs, i);
    ExpectedNext(s, start, uploads, k);
    LeftAfterNext(uploads, persisted, k);
  }

  lemma {:induction false} NothingDeleted(s: Setting, start: ScopeSnapshot, uploads: seq<Upload>, persisted: seq<Expectation>)
    requires DistinctVersions(persisted)
    ensures Left(persisted, uploads, 0) == persisted && Expected(s, start, uploads, 0) == start
    ensures Remains(persisted, uploads[..0], persisted)
  {
    assert uploads[..0] == [] && NamesOf(s.nameOf, []) == {} && UploadVersions([]) == {};
    KeptAll(persisted, {});
    OthersNone(start.documents);
  }

  lemma {:induction false} FollowsFirst(s: Setting, a: Answers, start: ScopeSnapshot, uploads: seq<Upload>, persisted: seq<Expectation>)
    requires Deletes(s, uploads, persisted) && Honest(s, a, start, uploads, persisted)
    ensures Follows(s, a, start, uploads, persisted, 0)
  {
    NothingDeleted(s, start, uploads, persisted);
  }

  lemma {:induction false} FollowsAll(s: Setting, a: Answers, start: ScopeSnapshot, uploads: seq<Upload>, persisted: seq<Expectation>,
                                      k: nat)
    requires Deletes(s, uploads, persisted) && Honest(s, a, start, uploads, persisted) && k <= |uploads|
    ensures Follows(s, a, start, uploads, persisted, k)
  {
    if k == 0 {
      FollowsFirst(s, a, start, uploads, persisted);
    } else {
      FollowsAll(s, a, start, uploads, persisted, k - 1);
      FollowsNext(s, a, start, uploads, persisted, k - 1);
    }
  }

  /** The rest is listed as it should be, after k deletions. */
  ghost predicate TrackedAt(look: Look, s: Setting, start: ScopeSnapshot, uploads: seq<Upload>, persisted: seq<Expectation>, k: nat)
    requires k <= |uploads|
  {
    var left := Left(persisted, uploads, k);
    && look(k, left, Expected(s, start, uploads, k)) && |left| == UPLOADS - k && (k < |uploads| ==> Known(persisted, uploads, k))
    && (left == [] ==> Expected(s, start, uploads, k).documents == [])
  }

  lemma {:induction false} FollowsTracked(s: Setting, a: Answers, start: ScopeSnapshot, uploads: seq<Upload>, persisted: seq<Expectation>,
                                          k: nat)
    requires k <= |uploads| && Follows(s, a, start, uploads, persisted, k) && TargetOk(s.target, a.datasets(k))
    requires |persisted| == UPLOADS && (k < |uploads| ==> Known(persisted, uploads, k))
    ensures TrackedAt(Looks(s, a), s, start, uploads, persisted, k)
  {
    SnapshotCounts(s.h, s.nameOf, s.target, Left(persisted, uploads, k), a.listed(k));
  }

  lemma {:induction false} HonestTracked(s: Setting, a: Answers, start: ScopeSnapshot, uploads: seq<Upload>, persisted: seq<Expectation>,
                                         k: nat)
    requires Deletes(s, uploads, persisted) && Honest(s, a, start, uploads, persisted) && k <= |uploads|
    ensures TrackedAt(Looks(s, a), s, start, uploads, persisted, k)
  {
    FollowsAll(s, a, start, uploads, persisted, k);
    if k < |uploads| {
      FollowsNext(s, a, start, uploads, persisted, k);
    }
    FollowsTracked(s, a, start, uploads, persisted, k);
  }

  lemma {:induction false} TrackedStep(look: Look, s: Setting, a: Answers, start: ScopeSnapshot, uploads: seq<Upload>,
                                       persisted: seq<Expectation>, k: nat)
    requires k < |uploads| && a.deleted(k) && a.siblingsIntact
    requires TrackedAt(look, s, start, uploads, persisted, k) && TrackedAt(look, s, start, uploads, persisted, k + 1)
    ensures StepPasses(look, s, a, start, uploads, persisted, UnitCount(persisted), k)
  {
  }

  lemma {:induction false} TrackedPasses(look: Look, s: Setting, a: Answers, start: ScopeSnapshot, uploads: seq<Upload>,
                                         persisted: seq<Expectation>)
    requires |uploads| == UPLOADS && forall k | 0 <= k <= |uploads| :: TrackedAt(look, s, start, uploads, persisted, k)
    requires forall k | 0 <= k < |uploads| :: a.deleted(k)
    requires a.siblingsIntact && a.residual == 0 && a.finalUnits == 0 && a.settled
    ensures Passes(look, s, a, start, uploads, persisted, UnitCount(persisted))
  {
    forall k | 0 <= k < |uploads| ensures StepPasses(look, s, a, start, uploads, persisted, UnitCount(persisted), k) {
      TrackedStep(look, s, a, start, uploads, persisted, k);
    }
    assert TrackedAt(look, s, start, uploads, persisted, 1);
    assert TrackedAt(look, s, start, uploads, persisted, |uploads|);
  }

  /** The delete loop passes on an honest remote side. */
  lemma {:induction false} HonestPasses(s: Setting, a: Answers, start: ScopeSnapshot, uploads: seq<Upload>, persisted: seq<Expectation>)
    requires Deletes(s, uploads, persisted) && Honest(s, a, start, uploads, persisted)
    ensures Passes(Looks(s, a), s, a, start, uploads, persisted, UnitCount(persisted))
  {
    forall k | 0 <= k <= |uploads| ensures TrackedAt(Looks(s, a), s, start, uploads, persisted, k) {
      HonestTracked(s, a, start, uploads, persisted, k);
    }
    TrackedPasses(Looks(s, a), s, a, start, uploads, persisted);
  }
}
