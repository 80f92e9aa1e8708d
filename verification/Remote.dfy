/** Reconciliation of a remote index with the expected units, and the delete loop, of
    infra/f1/local_material_rag_verify.py.

    Identifiers are strings: a UUID stands as its hexadecimal form. The remote listings are
    arbitrary; the name of a source's remote document is given by `nameOf`. */
module Remote {
  import opened Wrappers
  import opened Bytes
  import opened Sorting

  type Id = string

  // ---------- what is expected ----------

  datatype Unit = Unit(id: Id, scope: Id, record: Id, version: Id, source: string, page: int, body: string)

  /** One entry of expected_by_version. */
  datatype Expectation = Expectation(version: Id, units: seq<Unit>)

  predicate OneSource(e: Expectation) {
    e.units != [] && forall i :: 0 <= i < |e.units| ==> e.units[i].source == e.units[0].source
  }

  function NameFor(nameOf: string -> string, e: Expectation): string {
    if e.units == [] then "" else nameOf(e.units[0].source)
  }

  /** Every version has one source, and no two versions share a document name. */
  predicate ExpectationsOk(nameOf: string -> string, x: seq<Expectation>) {
    && (forall i :: 0 <= i < |x| ==> OneSource(x[i]))
    && (forall i, j :: 0 <= i < j < |x| ==> NameFor(nameOf, x[i]) != NameFor(nameOf, x[j]))
  }

  // ---------- what is listed ----------

  datatype Tags = Tags(unit: Id, scope: Id, record: Id, version: Id, source: string, page: int, body: string)

  /** A listed chunk and its detail: tags is None where they do not parse, content "" where there is none. */
  datatype Listed = Listed(chunkId: Id, outerId: Id, innerId: Option<Id>, tags: Option<Tags>, content: string)

  datatype Document = Document(id: Id, name: string, chunks: seq<Listed>)

  // ---------- snapshots ----------

  /** A chunk without its physical identity. */
  datatype Facts = Facts(unit: Id, scope: Id, record: Id, version: Id, source: string, page: int, body: string,
                         content: string)

  datatype ChunkSnapshot = ChunkSnapshot(chunkId: Id, facts: Facts)

  datatype DocumentSnapshot = DocumentSnapshot(documentId: Id, name: string, chunks: seq<ChunkSnapshot>)

  datatype ScopeSnapshot = ScopeSnapshot(datasetRef: Id, datasetName: string, documents: seq<DocumentSnapshot>)

  datatype DocumentPrint = DocumentPrint(name: string, facts: seq<Facts>)

  datatype ScopePrint = ScopePrint(datasetRef: Id, datasetName: string, documents: seq<DocumentPrint>)

  function Map<A, B>(f: A -> B, xs: seq<A>): (ys: seq<B>)
    ensures |ys| == |xs| && forall i :: 0 <= i < |xs| ==> ys[i] == f(xs[i])
  {
    seq(|xs|, i requires 0 <= i < |xs| => f(xs[i]))
  }

  function FactsOf(c: ChunkSnapshot): Facts {
    c.facts
  }

  /** The semantic_fingerprint methods. */
  function PrintOf(d: DocumentSnapshot): DocumentPrint {
    DocumentPrint(d.name, Map(FactsOf, d.chunks))
  }

  function Fingerprint(s: ScopeSnapshot): ScopePrint {
    ScopePrint(s.datasetRef, s.datasetName, Map(PrintOf, s.documents))
  }

  // ---------- matching ----------

  /** The identity that a chunk's detail resolves to agrees with the listing. */
  predicate DetailOk(c: Listed) {
    || c.outerId == "" || c.outerId == c.chunkId
    || (c.innerId.Some? && (c.innerId.value == "" || c.innerId.value == c.chunkId))
  }

  predicate Readable(c: Listed) {
    c.chunkId != "" && DetailOk(c) && c.tags.Some? && c.content != ""
  }

  function ListedFacts(h: bytes -> Digest, c: Listed): Facts
    requires c.tags.Some?
  {
    var t := c.tags.value;
    Facts(t.unit, t.scope, t.record, t.version, t.source, t.page, t.body, Hex(h(Utf8(c.content))))
  }

  /** What a unit looks like when it is indexed faithfully. */
  function UnitFacts(u: Unit): Facts {
    Facts(u.id, u.scope, u.record, u.version, u.source, u.page, u.body, u.body)
  }

  predicate DistinctUnits(units: seq<Unit>) {
    forall i, j :: 0 <= i < j < |units| ==> units[i].id != units[j].id
  }

  /** The chunk is the unit at k, in every recorded respect. */
  predicate Is(h: bytes -> Digest, e: Expectation, k: int, c: Listed) {
    0 <= k < |e.units| && Readable(c) && ListedFacts(h, c) == UnitFacts(e.units[k]) && e.units[k].version == e.version
  }

  ghost predicate Matches(h: bytes -> Digest, e: Expectation, c: Listed) {
    exists k :: Is(h, e, k, c)
  }

  function TagUnit(c: Listed): Id {
    if c.tags.Some? then c.tags.value.unit else ""
  }

  function ChunkIds(chunks: seq<Listed>): set<Id> {
    set i | 0 <= i < |chunks| :: chunks[i].chunkId
  }

  function TaggedUnits(chunks: seq<Listed>): set<Id> {
    set i | 0 <= i < |chunks| :: TagUnit(chunks[i])
  }

  function UnitIds(units: seq<Unit>): set<Id> {
    set i | 0 <= i < |units| :: units[i].id
  }

  predicate DistinctChunks(chunks: seq<Listed>) {
    forall i, j :: 0 <= i < j < |chunks| ==> chunks[i].chunkId != chunks[j].chunkId && TagUnit(chunks[i]) != TagUnit(chunks[j])
  }

  /** The document's chunks and the version's units match one to one. */
  ghost predicate DocumentOk(h: bytes -> Digest, e: Expectation, chunks: seq<Listed>) {
    && DistinctUnits(e.units) && Fit(h, e, chunks, {}, {})
    && TaggedUnits(chunks) == UnitIds(e.units)
  }

  /** Every chunk is a unit of the version, and no chunk id or unit is repeated or used already. */
  ghost predicate Fit(h: bytes -> Digest, e: Expectation, chunks: seq<Listed>, chunkIds: set<Id>, seen: set<Id>) {
    && DistinctChunks(chunks) && ChunkIds(chunks) !! chunkIds && TaggedUnits(chunks) !! seen
    && (forall i :: 0 <= i < |chunks| ==> Matches(h, e, chunks[i]))
  }

  lemma {:induction false} IdsNext(chunks: seq<Listed>, c: Listed)
    ensures ChunkIds(chunks + [c]) == ChunkIds(chunks) + {c.chunkId}
    ensures TaggedUnits(chunks + [c]) == TaggedUnits(chunks) + {TagUnit(c)}
  {
    var all := chunks + [c];
    assert all[|chunks|] == c && forall i :: 0 <= i < |chunks| ==> all[i] == chunks[i];
    forall id | id in ChunkIds(chunks) ensures id in ChunkIds(all) {
      var i :| 0 <= i < |chunks| && chunks[i].chunkId == id;
      assert all[i].chunkId == id;
    }
    forall id | id in TaggedUnits(chunks) ensures id in TaggedUnits(all) {
      var i :| 0 <= i < |chunks| && TagUnit(chunks[i]) == id;
      assert TagUnit(all[i]) == id;
    }
  }

  lemma {:induction false} FitNext(h: bytes -> Digest, e: Expectation, chunks: seq<Listed>, c: Listed, chunkIds: set<Id>,
                                   seen: set<Id>)
    requires Fit(h, e, chunks, chunkIds, seen)
    requires Matches(h, e, c) && c.chunkId !in chunkIds + ChunkIds(chunks) && TagUnit(c) !in seen + TaggedUnits(chunks)
    ensures Fit(h, e, chunks + [c], chunkIds, seen)
  {
    IdsNext(chunks, c);
    var all := chunks + [c];
    assert all[|chunks|] == c && forall i :: 0 <= i < |chunks| ==> all[i] == chunks[i];
    forall i, j | 0 <= i < j < |all| ensures all[i].chunkId != all[j].chunkId && TagUnit(all[i]) != TagUnit(all[j]) {
      assert all[i].chunkId in ChunkIds(chunks) && TagUnit(all[i]) in TaggedUnits(chunks);
    }
  }

  lemma {:induction false} FitAt(h: bytes -> Digest, e: Expectation, chunks: seq<Listed>, i: nat, chunkIds: set<Id>, seen: set<Id>)
    requires i < |chunks| && Fit(h, e, chunks, chunkIds, seen)
    ensures Matches(h, e, chunks[i])
    ensures chunks[i].chunkId !in chunkIds + ChunkIds(chunks[..i]) && TagUnit(chunks[i]) !in seen + TaggedUnits(chunks[..i])
  {
    assert chunks[i].chunkId in ChunkIds(chunks) && TagUnit(chunks[i]) in TaggedUnits(chunks);
  }

  /** Fitting after what others used up is fitting alone, with nothing in common. */
  lemma {:induction false} FitAlone(h: bytes -> Digest, e: Expectation, chunks: seq<Listed>, chunkIds: set<Id>, seen: set<Id>)
    ensures Fit(h, e, chunks, chunkIds, seen)
      <==> Fit(h, e, chunks, {}, {}) && ChunkIds(chunks) !! chunkIds && TaggedUnits(chunks) !! seen
  {
  }

  function Snap(h: bytes -> Digest, c: Listed): ChunkSnapshot {
    ChunkSnapshot(c.chunkId, if c.tags.Some? then ListedFacts(h, c) else Facts("", "", "", "", "", 0, "", ""))
  }

  function SnapChunks(h: bytes -> Digest, chunks: seq<Listed>): (snaps: seq<ChunkSnapshot>)
    ensures |snaps| == |chunks|
  {
    seq(|chunks|, i requires 0 <= i < |chunks| => Snap(h, chunks[i]))
  }

  lemma {:induction false} SnapChunksNext(h: bytes -> Digest, chunks: seq<Listed>, c: Listed)
    ensures SnapChunks(h, chunks + [c]) == SnapChunks(h, chunks) + [Snap(h, c)]
  {
  }

  function FindUnit(units: seq<Unit>, id: Id): (k: int)
    ensures -1 <= k < |units|
    ensures k >= 0 ==> units[k].id == id
    ensures k < 0 ==> forall i :: 0 <= i < |units| ==> units[i].id != id
  {
    if units == [] then -1
    else if units[|units| - 1].id == id then |units| - 1
    else FindUnit(units[..|units| - 1], id)
  }

  /** One listed chunk: it fits when it is a unit of the version that nothing before it was. */
  method ReadChunk(h: bytes -> Digest, e: Expectation, c: Listed, chunkIds: set<Id>, seen: set<Id>)
    returns (r: Option<ChunkSnapshot>)
    requires DistinctUnits(e.units)
    ensures r.Some? <==> Matches(h, e, c) && c.chunkId !in chunkIds && TagUnit(c) !in seen
    ensures r.Some? ==> r.value == Snap(h, c) && r.value.facts.unit == TagUnit(c)
  {
    if c.chunkId == "" || c.chunkId in chunkIds || !DetailOk(c) || c.tags.None? || c.content == "" {
      return None;
    }
    var snapshot := ChunkSnapshot(c.chunkId, ListedFacts(h, c));
    var k := FindUnit(e.units, snapshot.facts.unit);
    if k < 0 || snapshot.facts.unit in seen || snapshot.facts != UnitFacts(e.units[k]) || e.units[k].version != e.version {
      return None;
    }
    assert Is(h, e, k, c);
    r := Some(snapshot);
  }

  /** The chunk loop of one document, after what earlier documents used up. */
  method ReadChunks(h: bytes -> Digest, e: Expectation, chunks: seq<Listed>, chunkIds: set<Id>, seen: set<Id>)
    returns (r: Option<seq<ChunkSnapshot>>, chunkIds': set<Id>, seen': set<Id>)
    ensures r.Some? <==> DocumentOk(h, e, chunks) && ChunkIds(chunks) !! chunkIds && TaggedUnits(chunks) !! seen
    ensures r.Some? ==> r.value == SnapChunks(h, chunks)
    ensures r.Some? ==> chunkIds' == chunkIds + ChunkIds(chunks) && seen' == seen + TaggedUnits(chunks)
  {
    chunkIds', seen' := chunkIds, seen;
    r := None;
    if !DistinctUnits(e.units) {
      return;
    }
    FitAlone(h, e, chunks, chunkIds, seen);
    var snapshots: seq<ChunkSnapshot> := [];
    var i := 0;
    while i < |chunks|
      invariant 0 <= i <= |chunks|
      invariant chunkIds' == chunkIds + ChunkIds(chunks[..i]) && seen' == seen + TaggedUnits(chunks[..i])
      invariant Fit(h, e, chunks[..i], chunkIds, seen)
      invariant snapshots == SnapChunks(h, chunks[..i])
    {
      var c := chunks[i];
      var snapshot := ReadChunk(h, e, c, chunkIds', seen');
      if snapshot.None? {
        if Fit(h, e, chunks, chunkIds, seen) {
          FitAt(h, e, chunks, i, chunkIds, seen);
        }
        return;
      }
      assert chunks[..i + 1] == chunks[..i] + [c];
      FitNext(h, e, chunks[..i], c, chunkIds, seen);
      IdsNext(chunks[..i], c);
      SnapChunksNext(h, chunks[..i], c);
      chunkIds', seen' := chunkIds' + {c.chunkId}, seen' + {snapshot.value.facts.unit};
      snapshots := snapshots + [snapshot.value];
      i := i + 1;
    }
    assert chunks[..i] == chunks;
    if TaggedUnits(chunks) == UnitIds(e.units) {
      r := Some(snapshots);
    }
  }

  // ---------- the whole snapshot ----------

  /** Maps each expected document name to its version's entry. */
  ghost predicate IsIndex(nameOf: string -> string, x: seq<Expectation>, m: map<string, Expectation>) {
    && (forall i :: 0 <= i < |x| ==> NameFor(nameOf, x[i]) in m && m[NameFor(nameOf, x[i])] == x[i])
    && (forall n :: n in m ==> m[n] in x && NameFor(nameOf, m[n]) == n)
  }

  method ExpectedDocuments(nameOf: string -> string, x: seq<Expectation>) returns (r: Option<map<string, Expectation>>)
    ensures r.Some? <==> ExpectationsOk(nameOf, x)
    ensures r.Some? ==> IsIndex(nameOf, x, r.value)
  {
    var m: map<string, Expectation> := map[];
    var i := 0;
    while i < |x|
      invariant 0 <= i <= |x|
      invariant ExpectationsOk(nameOf, x[..i]) && IsIndex(nameOf, x[..i], m)
    {
      var name := NameFor(nameOf, x[i]);
      if !OneSource(x[i]) {
        return None;
      }
      if name in m {
        var j :| 0 <= j < i && x[..i][j] == m[name];
        assert NameFor(nameOf, x[j]) == NameFor(nameOf, x[i]);
        return None;
      }
      assert x[..i + 1] == x[..i] + [x[i]];
      m := m[name := x[i]];
      i := i + 1;
    }
    assert x[..i] == x;
    r := Some(m);
  }

  function Names(docs: seq<Document>): set<string> {
    set i | 0 <= i < |docs| :: docs[i].name
  }

  predicate DistinctDocuments(docs: seq<Document>) {
    forall i, j :: 0 <= i < j < |docs| ==> docs[i].name != docs[j].name && docs[i].id != docs[j].id
  }

  function AllChunkIds(docs: seq<Document>): set<Id> {
    if docs == [] then {} else AllChunkIds(docs[..|docs| - 1]) + ChunkIds(docs[|docs| - 1].chunks)
  }

  function AllTaggedUnits(docs: seq<Document>): set<Id> {
    if docs == [] then {} else AllTaggedUnits(docs[..|docs| - 1]) + TaggedUnits(docs[|docs| - 1].chunks)
  }

  /** No chunk id and no unit appears in two documents. */
  predicate Apart(docs: seq<Document>) {
    forall i :: 0 <= i < |docs| ==>
      ChunkIds(docs[i].chunks) !! AllChunkIds(docs[..i]) && TaggedUnits(docs[i].chunks) !! AllTaggedUnits(docs[..i])
  }

  /** The document belongs to a version, and its chunks are that version's units. */
  ghost predicate Serves(h: bytes -> Digest, nameOf: string -> string, x: seq<Expectation>, d: Document) {
    exists e :: e in x && NameFor(nameOf, e) == d.name && DocumentOk(h, e, d.chunks)
  }

  ghost predicate ExpectedNames(nameOf: string -> string, x: seq<Expectation>, names: set<string>) {
    && (forall i :: 0 <= i < |x| ==> NameFor(nameOf, x[i]) in names)
    && (forall n :: n in names ==> exists i :: 0 <= i < |x| && NameFor(nameOf, x[i]) == n)
  }

  /** The remote documents are the expected versions, one to one, and so are their chunks and units. */
  ghost predicate Reconciled(h: bytes -> Digest, nameOf: string -> string, x: seq<Expectation>, docs: seq<Document>) {
    ExpectationsOk(nameOf, x) && ExpectedNames(nameOf, x, Names(docs)) && DocumentsOk(h, nameOf, x, docs)
  }

  function UnitKey(c: ChunkSnapshot): string {
    c.facts.unit
  }

  function NameKey(d: DocumentSnapshot): string {
    d.name
  }

  function SnapDocument(h: bytes -> Digest, d: Document): DocumentSnapshot {
    DocumentSnapshot(d.id, d.name, SortBy(UnitKey, SnapChunks(h, d.chunks)))
  }

  function SnapAll(h: bytes -> Digest, docs: seq<Document>): (r: seq<DocumentSnapshot>)
    ensures |r| == |docs|
  {
    seq(|docs|, i requires 0 <= i < |docs| => SnapDocument(h, docs[i]))
  }

  /** The entry of a document's name is the only one that can serve it. */
  lemma {:induction false} ServedBy(h: bytes -> Digest, nameOf: string -> string, x: seq<Expectation>, m: map<string, Expectation>,
                                    d: Document)
    requires IsIndex(nameOf, x, m) && d.name in m
    ensures Serves(h, nameOf, x, d) <==> DocumentOk(h, m[d.name], d.chunks)
  {
    if Serves(h, nameOf, x, d) {
      var e :| e in x && NameFor(nameOf, e) == d.name && DocumentOk(h, e, d.chunks);
      var i :| 0 <= i < |x| && x[i] == e;
      assert m[NameFor(nameOf, x[i])] == x[i];
    }
  }

  function DocumentIds(docs: seq<Document>): set<Id> {
    set i | 0 <= i < |docs| :: docs[i].id
  }

  /** The documents read so far pass every check. */
  ghost predicate DocumentsOk(h: bytes -> Digest, nameOf: string -> string, x: seq<Expectation>, docs: seq<Document>) {
    && DistinctDocuments(docs) && Apart(docs)
    && (forall i :: 0 <= i < |docs| ==> docs[i].id != "" && Serves(h, nameOf, x, docs[i]))
  }

  /** The document passes every check after the ones before it. */
  ghost predicate NextOk(h: bytes -> Digest, nameOf: string -> string, x: seq<Expectation>, docs: seq<Document>, d: Document) {
    && d.id != "" && d.id !in DocumentIds(docs) && d.name !in Names(docs) && Serves(h, nameOf, x, d)
    && ChunkIds(d.chunks) !! AllChunkIds(docs) && TaggedUnits(d.chunks) !! AllTaggedUnits(docs)
  }

  lemma {:induction false} AllIdsNext(docs: seq<Document>, d: Document)
    ensures AllChunkIds(docs + [d]) == AllChunkIds(docs) + ChunkIds(d.chunks)
    ensures AllTaggedUnits(docs + [d]) == AllTaggedUnits(docs) + TaggedUnits(d.chunks)
    ensures DocumentIds(docs + [d]) == DocumentIds(docs) + {d.id} && Names(docs + [d]) == Names(docs) + {d.name}
  {
    var all := docs + [d];
    assert all[..|docs|] == docs && all[|docs|] == d;
    forall id | id in DocumentIds(docs) ensures id in DocumentIds(all) {
      var i :| 0 <= i < |docs| && docs[i].id == id;
      assert all[i].id == id;
    }
    forall name | name in Names(docs) ensures name in Names(all) {
      var i :| 0 <= i < |docs| && docs[i].name == name;
      assert all[i].name == name;
    }
  }

  lemma {:induction false} DocumentsNext(h: bytes -> Digest, nameOf: string -> string, x: seq<Expectation>, docs: seq<Document>,
                                         d: Document)
    requires DocumentsOk(h, nameOf, x, docs) && NextOk(h, nameOf, x, docs, d)
    ensures DocumentsOk(h, nameOf, x, docs + [d])
  {
    var all := docs + [d];
    forall i | 0 <= i < |all|
      ensures ChunkIds(all[i].chunks) !! AllChunkIds(all[..i]) && TaggedUnits(all[i].chunks) !! AllTaggedUnits(all[..i])
      ensures all[i].id != "" && Serves(h, nameOf, x, all[i])
    {
      if i < |docs| {
        assert all[..i] == docs[..i] && all[i] == docs[i];
      } else {
        assert all[..i] == docs && all[i] == d;
      }
    }
    forall i, j | 0 <= i < j < |all| ensures all[i].name != all[j].name && all[i].id != all[j].id {
      assert all[i].id in DocumentIds(docs) && all[i].name in Names(docs);
    }
  }

  lemma {:induction false} DocumentAt(h: bytes -> Digest, nameOf: string -> string, x: seq<Expectation>, docs: seq<Document>, i: nat)
    requires i < |docs| && DocumentsOk(h, nameOf, x, docs)
    ensures NextOk(h, nameOf, x, docs[..i], docs[i])
  {
  }

  method ReadDocument(h: bytes -> Digest, nameOf: string -> string, ghost x: seq<Expectation>, m: map<string, Expectation>,
                      ghost docs: seq<Document>, d: Document, documentIds: set<Id>, chunkIds: set<Id>, seen: set<Id>)
    returns (r: Option<DocumentSnapshot>, chunkIds': set<Id>, seen': set<Id>)
    requires IsIndex(nameOf, x, m) && d.name in m && d.name !in Names(docs)
    requires documentIds == DocumentIds(docs) && chunkIds == AllChunkIds(docs) && seen == AllTaggedUnits(docs)
    ensures r.Some? <==> NextOk(h, nameOf, x, docs, d)
    ensures r.Some? ==> r.value == SnapDocument(h, d)
    ensures r.Some? ==> chunkIds' == chunkIds + ChunkIds(d.chunks) && seen' == seen + TaggedUnits(d.chunks)
  {
    r, chunkIds', seen' := None, chunkIds, seen;
    if d.id == "" || d.id in documentIds {
      return;
    }
    ServedBy(h, nameOf, x, m, d);
    var chunks;
    chunks, chunkIds', seen' := ReadChunks(h, m[d.name], d.chunks, chunkIds, seen);
    if chunks.Some? {
      r := Some(DocumentSnapshot(d.id, d.name, SortBy(UnitKey, chunks.value)));
    }
  }

  /** The document loop. */
  method ReadDocuments(h: bytes -> Digest, nameOf: string -> string, ghost x: seq<Expectation>, m: map<string, Expectation>,
                       docs: seq<Document>)
    returns (r: Option<seq<DocumentSnapshot>>, seen: set<Id>)
    requires IsIndex(nameOf, x, m)
    requires forall i :: 0 <= i < |docs| ==> docs[i].name in m
    requires forall i, j :: 0 <= i < j < |docs| ==> docs[i].name != docs[j].name
    ensures r.Some? <==> DocumentsOk(h, nameOf, x, docs)
    ensures r.Some? ==> r.value == SnapAll(h, docs) && seen == AllTaggedUnits(docs)
  {
    var documentIds: set<Id> := {};
    var chunkIds: set<Id> := {};
    seen := {};
    var snapshots: seq<DocumentSnapshot> := [];
    var i := 0;
    while i < |docs|
      invariant 0 <= i <= |docs|
      invariant documentIds == DocumentIds(docs[..i])
      invariant chunkIds == AllChunkIds(docs[..i]) && seen == AllTaggedUnits(docs[..i])
      invariant DocumentsOk(h, nameOf, x, docs[..i])
      invariant snapshots == SnapAll(h, docs[..i])
    {
      var d := docs[i];
      assert d.name !in Names(docs[..i]);
      var next;
      next, chunkIds, seen := ReadDocument(h, nameOf, x, m, docs[..i], d, documentIds, chunkIds, seen);
      if next.None? {
        if DocumentsOk(h, nameOf, x, docs) {
          DocumentAt(h, nameOf, x, docs, i);
        }
        return None, seen;
      }
      assert docs[..i + 1] == docs[..i] + [d];
      DocumentsNext(h, nameOf, x, docs[..i], d);
      AllIdsNext(docs[..i], d);
      documentIds := documentIds + {d.id};
      snapshots := snapshots + [next.value];
      i := i + 1;
    }
    assert docs[..i] == docs;
    r := Some(snapshots);
  }

  // ---------- datasets ----------

  datatype Dataset = Dataset(name: string, id: Id)

  /** {item["name"]: item["id"] for item in datasets}. */
  function Listing(datasets: seq<Dataset>): map<string, Id> {
    if datasets == [] then map[]
    else Listing(datasets[..|datasets| - 1])[datasets[|datasets| - 1].name := datasets[|datasets| - 1].id]
  }

  predicate DistinctDatasets(datasets: seq<Dataset>) {
    forall i, j :: 0 <= i < j < |datasets| ==> datasets[i].name != datasets[j].name
  }

  lemma {:induction false} ListingKeys(datasets: seq<Dataset>, name: string)
    ensures name in Listing(datasets) <==> exists i :: 0 <= i < |datasets| && datasets[i].name == name
  {
    if datasets != [] {
      var n := |datasets| - 1;
      ListingKeys(datasets[..n], name);
      if i :| 0 <= i < n && datasets[i].name == name {
        assert datasets[..n][i].name == name;
      }
    }
  }

  lemma {:induction false} KeysSize(before: map<string, Id>, name: string, id: Id)
    ensures |before[name := id]| == (if name in before then |before| else |before| + 1)
  {
    assert before[name := id].Keys == before.Keys + {name};
  }

  lemma {:induction false} ListingSize(datasets: seq<Dataset>)
    ensures |Listing(datasets)| <= |datasets|
    ensures |Listing(datasets)| == |datasets| <==> DistinctDatasets(datasets)
  {
    if datasets != [] {
      var n := |datasets| - 1;
      var name := datasets[n].name;
      ListingSize(datasets[..n]);
      ListingKeys(datasets[..n], name);
      KeysSize(Listing(datasets[..n]), name, datasets[n].id);
      if DistinctDatasets(datasets) {
        assert DistinctDatasets(datasets[..n]);
      } else if DistinctDatasets(datasets[..n]) {
        var i, j :| 0 <= i < j < |datasets| && datasets[i].name == datasets[j].name;
        assert j == n && datasets[..n][i].name == name;
      }
    }
  }

  // ---------- _remote_snapshot ----------

  function AllUnits(x: seq<Expectation>): set<Id> {
    set i, k | 0 <= i < |x| && 0 <= k < |x[i].units| :: x[i].units[k].id
  }

  lemma {:induction false} TaggedOf(docs: seq<Document>, id: Id)
    ensures id in AllTaggedUnits(docs) <==> exists i :: 0 <= i < |docs| && id in TaggedUnits(docs[i].chunks)
  {
    if docs != [] {
      var n := |docs| - 1;
      TaggedOf(docs[..n], id);
      if id in TaggedUnits(docs[n].chunks) {
      } else if i :| 0 <= i < |docs| && id in TaggedUnits(docs[i].chunks) {
        assert docs[..n][i] == docs[i];
      }
    }
  }

  /** Each version has its document. */
  lemma {:induction false} VersionServed(h: bytes -> Digest, nameOf: string -> string, x: seq<Expectation>, docs: seq<Document>,
                                         i: nat)
    returns (j: nat)
    requires Reconciled(h, nameOf, x, docs) && i < |x|
    ensures j < |docs| && docs[j].name == NameFor(nameOf, x[i]) && DocumentOk(h, x[i], docs[j].chunks)
  {
    assert NameFor(nameOf, x[i]) in Names(docs);
    j :| 0 <= j < |docs| && docs[j].name == NameFor(nameOf, x[i]);
    assert Serves(h, nameOf, x, docs[j]);
    var e :| e in x && NameFor(nameOf, e) == docs[j].name && DocumentOk(h, e, docs[j].chunks);
    var k :| 0 <= k < |x| && x[k] == e;
    assert k == i;
  }

  /** The last check of the snapshot cannot fail: the document checks already cover every unit. */
  lemma {:induction false} EveryUnitSeen(h: bytes -> Digest, nameOf: string -> string, x: seq<Expectation>, docs: seq<Document>)
    requires Reconciled(h, nameOf, x, docs)
    ensures AllTaggedUnits(docs) == AllUnits(x)
  {
    forall id | id in AllTaggedUnits(docs) ensures id in AllUnits(x) {
      TaggedOf(docs, id);
      var j :| 0 <= j < |docs| && id in TaggedUnits(docs[j].chunks);
      assert Serves(h, nameOf, x, docs[j]);
      var e :| e in x && NameFor(nameOf, e) == docs[j].name && DocumentOk(h, e, docs[j].chunks);
      assert id in UnitIds(e.units);
    }
    forall id | id in AllUnits(x) ensures id in AllTaggedUnits(docs) {
      var i, k :| 0 <= i < |x| && 0 <= k < |x[i].units| && x[i].units[k].id == id;
      var j := VersionServed(h, nameOf, x, docs, i);
      assert id in UnitIds(x[i].units);
      TaggedOf(docs, id);
    }
  }

  /** The datasets that must exist, the one to look at, and whether it must be the only one. */
  datatype Target = Target(bindings: map<string, Id>, name: string, only: Option<string>)

  predicate TargetOk(t: Target, datasets: seq<Dataset>) {
    && t.name in t.bindings && DistinctDatasets(datasets) && Listing(datasets) == t.bindings
    && (t.only.Some? ==> t.bindings.Keys == {t.only.value})
  }

  function SnapScope(h: bytes -> Digest, t: Target, docs: seq<Document>): ScopeSnapshot
    requires t.name in t.bindings
  {
    ScopeSnapshot(t.bindings[t.name], t.name, SortBy(NameKey, SnapAll(h, docs)))
  }

  /** _remote_snapshot: it succeeds exactly when the remote side reconciles, in any listing order. */
  method RemoteSnapshot(h: bytes -> Digest, nameOf: string -> string, t: Target, datasets: seq<Dataset>,
                        x: seq<Expectation>, docs: seq<Document>) returns (r: Option<ScopeSnapshot>)
    ensures r.Some? <==> TargetOk(t, datasets) && Reconciled(h, nameOf, x, docs)
    ensures r.Some? ==> r.value == SnapScope(h, t, docs)
  {
    ListingSize(datasets);
    if t.name !in t.bindings || (t.only.Some? && t.bindings.Keys != {t.only.value})
       || |Listing(datasets)| != |datasets| || Listing(datasets) != t.bindings {
      return None;
    }
    var m := ExpectedDocuments(nameOf, x);
    if m.None? {
      return None;
    }
    IndexNames(nameOf, x, m.value);
    var distinct := DistinctNames(docs);
    if !distinct || Names(docs) != m.value.Keys {
      assert !Reconciled(h, nameOf, x, docs);
      return None;
    }
    var snapshots, seen := ReadDocuments(h, nameOf, x, m.value, docs);
    if snapshots.None? {
      return None;
    }
    EveryUnitSeen(h, nameOf, x, docs);
    if seen != AllUnits(x) {
      return None;
    }
    r := Some(ScopeSnapshot(t.bindings[t.name], t.name, SortBy(NameKey, snapshots.value)));
  }

  /** len(set(names)) == len(documents). */
  method DistinctNames(docs: seq<Document>) returns (r: bool)
    ensures r <==> forall i, j :: 0 <= i < j < |docs| ==> docs[i].name != docs[j].name
  {
    r := forall i, j :: 0 <= i < j < |docs| ==> docs[i].name != docs[j].name;
  }

  lemma {:induction false} IndexNames(nameOf: string -> string, x: seq<Expectation>, m: map<string, Expectation>)
    requires IsIndex(nameOf, x, m)
    ensures forall names: set<string> :: ExpectedNames(nameOf, x, names) <==> names == m.Keys
  {
    forall names: set<string> ensures ExpectedNames(nameOf, x, names) <==> names == m.Keys {
      forall n | n in m.Keys ensures exists i :: 0 <= i < |x| && NameFor(nameOf, x[i]) == n {
        var i :| 0 <= i < |x| && x[i] == m[n];
      }
    }
  }

  // ---------- the fingerprint is canonical ----------

  function FactsKey(f: Facts): string {
    f.unit
  }

  function PrintKey(d: DocumentPrint): string {
    d.name
  }

  /** What a faithful index of a version prints. */
  function ExpectedPrint(nameOf: string -> string, e: Expectation): DocumentPrint {
    DocumentPrint(NameFor(nameOf, e), SortBy(FactsKey, Map(UnitFacts, e.units)))
  }

  lemma {:induction false} InsertMapped<A, B>(f: A -> B, before: A -> string, after: B -> string, x: A, xs: seq<A>)
    requires forall a :: after(f(a)) == before(a)
    ensures Map(f, Insert(before, x, xs)) == Insert(after, f(x), Map(f, xs))
  {
    if xs == [] {
      assert Map(f, [x]) == [f(x)];
    } else if StrLe(before(x), before(xs[0])) {
      assert Map(f, [x] + xs) == [f(x)] + Map(f, xs);
    } else {
      InsertMapped(f, before, after, x, xs[1..]);
      assert Map(f, xs)[1..] == Map(f, xs[1..]);
      assert Map(f, [xs[0]] + Insert(before, x, xs[1..])) == [f(xs[0])] + Map(f, Insert(before, x, xs[1..]));
    }
  }

  /** Sorting and then forgetting what the key ignores is forgetting and then sorting. */
  lemma {:induction false} SortMapped<A, B>(f: A -> B, before: A -> string, after: B -> string, xs: seq<A>)
    requires forall a :: after(f(a)) == before(a)
    ensures Map(f, SortBy(before, xs)) == SortBy(after, Map(f, xs))
  {
    if xs != [] {
      SortMapped(f, before, after, xs[1..]);
      InsertMapped(f, before, after, xs[0], SortBy(before, xs[1..]));
      assert Map(f, xs)[1..] == Map(f, xs[1..]);
    }
  }

  function ChunkFacts(h: bytes -> Digest, c: Listed): Facts {
    Snap(h, c).facts
  }

  lemma {:induction false} DistinctKeys<T>(key: T -> string, xs: seq<T>)
    requires forall i, j :: 0 <= i < j < |xs| ==> key(xs[i]) != key(xs[j])
    ensures NoDuplicates(xs) && KeyedBy(key, xs)
  {
  }

  function ListedAll(h: bytes -> Digest, chunks: seq<Listed>): (facts: seq<Facts>)
    ensures |facts| == |chunks|
  {
    seq(|chunks|, i requires 0 <= i < |chunks| => ChunkFacts(h, chunks[i]))
  }

  lemma {:induction false} ListedAt(h: bytes -> Digest, e: Expectation, chunks: seq<Listed>, i: nat) returns (k: nat)
    requires DocumentOk(h, e, chunks) && i < |chunks|
    ensures k < |e.units| && ListedAll(h, chunks)[i] == UnitFacts(e.units[k]) && ListedAll(h, chunks)[i].unit == TagUnit(chunks[i])
  {
    assert Matches(h, e, chunks[i]);
    k :| Is(h, e, k, chunks[i]);
  }

  lemma {:induction false} SameUnit(units: seq<Unit>, j: int, k: int)
    requires DistinctUnits(units) && 0 <= j < |units| && 0 <= k < |units| && units[j].id == units[k].id
    ensures j == k
  {
  }

  lemma {:induction false} UnitListed(h: bytes -> Digest, e: Expectation, chunks: seq<Listed>, k: nat) returns (i: nat)
    requires DocumentOk(h, e, chunks) && k < |e.units|
    ensures i < |chunks| && ListedAll(h, chunks)[i] == UnitFacts(e.units[k])
  {
    assert e.units[k].id in UnitIds(e.units);
    i :| 0 <= i < |chunks| && TagUnit(chunks[i]) == e.units[k].id;
    var k' := ListedAt(h, e, chunks, i);
    SameUnit(e.units, k, k');
  }

  lemma {:induction false} FactsListsAgree(h: bytes -> Digest, e: Expectation, chunks: seq<Listed>)
    requires DocumentOk(h, e, chunks)
    ensures SortBy(FactsKey, ListedAll(h, chunks)) == SortBy(FactsKey, Map(UnitFacts, e.units))
  {
    var listed, expected := ListedAll(h, chunks), Map(UnitFacts, e.units);
    forall i | 0 <= i < |chunks| ensures listed[i] in expected && listed[i].unit == TagUnit(chunks[i]) {
      var k := ListedAt(h, e, chunks, i);
      assert expected[k] == listed[i];
    }
    forall k | 0 <= k < |expected| ensures expected[k] in listed {
      var i := UnitListed(h, e, chunks, k);
    }
    DistinctKeys(FactsKey, listed);
    DistinctKeys(FactsKey, expected);
    SortedIsCanonical(FactsKey, listed, expected);
  }

  lemma {:induction false} DocumentPrintExpected(h: bytes -> Digest, nameOf: string -> string, e: Expectation, d: Document)
    requires DocumentOk(h, e, d.chunks) && d.name == NameFor(nameOf, e)
    ensures PrintOf(SnapDocument(h, d)) == ExpectedPrint(nameOf, e)
  {
    var snaps := SnapChunks(h, d.chunks);
    SortMapped(FactsOf, UnitKey, FactsKey, snaps);
    assert Map(FactsOf, snaps) == ListedAll(h, d.chunks);
    FactsListsAgree(h, e, d.chunks);
  }

  function ExpectedPrints(nameOf: string -> string, x: seq<Expectation>): (prints: seq<DocumentPrint>)
    ensures |prints| == |x|
  {
    seq(|x|, i requires 0 <= i < |x| => ExpectedPrint(nameOf, x[i]))
  }

  lemma {:induction false} ActualExpected(h: bytes -> Digest, nameOf: string -> string, x: seq<Expectation>, docs: seq<Document>,
                                          j: nat) returns (i: nat)
    requires Reconciled(h, nameOf, x, docs) && j < |docs|
    ensures i < |x| && ExpectedPrints(nameOf, x)[i] == PrintOf(SnapDocument(h, docs[j]))
  {
    assert Serves(h, nameOf, x, docs[j]);
    var e :| e in x && NameFor(nameOf, e) == docs[j].name && DocumentOk(h, e, docs[j].chunks);
    DocumentPrintExpected(h, nameOf, e, docs[j]);
    i :| 0 <= i < |x| && x[i] == e;
  }

  lemma {:induction false} ExpectedActual(h: bytes -> Digest, nameOf: string -> string, x: seq<Expectation>, docs: seq<Document>,
                                          i: nat) returns (j: nat)
    requires Reconciled(h, nameOf, x, docs) && i < |x|
    ensures j < |docs| && PrintOf(SnapDocument(h, docs[j])) == ExpectedPrints(nameOf, x)[i]
  {
    j := VersionServed(h, nameOf, x, docs, i);
    DocumentPrintExpected(h, nameOf, x[i], docs[j]);
  }

  lemma {:induction false} PrintListsAgree(h: bytes -> Digest, nameOf: string -> string, x: seq<Expectation>, docs: seq<Document>)
    requires Reconciled(h, nameOf, x, docs)
    ensures SortBy(PrintKey, Map(PrintOf, SnapAll(h, docs))) == SortBy(PrintKey, ExpectedPrints(nameOf, x))
  {
    var actual, expected := Map(PrintOf, SnapAll(h, docs)), ExpectedPrints(nameOf, x);
    forall j | 0 <= j < |docs| ensures actual[j] in expected {
      var i := ActualExpected(h, nameOf, x, docs, j);
    }
    forall i | 0 <= i < |x| ensures expected[i] in actual {
      var j := ExpectedActual(h, nameOf, x, docs, i);
      assert actual[j] == expected[i];
    }
    DistinctKeys(PrintKey, actual);
    DistinctKeys(PrintKey, expected);
    SortedIsCanonical(PrintKey, actual, expected);
  }

  /** A successful snapshot's fingerprint is fixed by the dataset and the expectations: neither the
      listing order nor any physical identity shows in it. */
  lemma {:induction false} FingerprintCanonical(h: bytes -> Digest, nameOf: string -> string, t: Target, x: seq<Expectation>,
                                                docs: seq<Document>)
    requires t.name in t.bindings && Reconciled(h, nameOf, x, docs)
    ensures Fingerprint(SnapScope(h, t, docs))
         == ScopePrint(t.bindings[t.name], t.name, SortBy(PrintKey, ExpectedPrints(nameOf, x)))
  {
    SortMapped(PrintOf, NameKey, PrintKey, SnapAll(h, docs));
    PrintListsAgree(h, nameOf, x, docs);
  }

  lemma {:induction false} PrintsDistinct(nameOf: string -> string, x: seq<Expectation>)
    requires ExpectationsOk(nameOf, x)
    ensures NoDuplicates(ExpectedPrints(nameOf, x)) && KeyedBy(PrintKey, ExpectedPrints(nameOf, x))
  {
    var a := ExpectedPrints(nameOf, x);
    forall i, j | 0 <= i < j < |a| ensures PrintKey(a[i]) != PrintKey(a[j]) {
      assert NameFor(nameOf, x[i]) != NameFor(nameOf, x[j]);
    }
    DistinctKeys(PrintKey, a);
  }

  lemma {:induction false} PrintsIncluded(nameOf: string -> string, x: seq<Expectation>, y: seq<Expectation>, p: DocumentPrint)
    requires SameElements(x, y) && p in ExpectedPrints(nameOf, x)
    ensures p in ExpectedPrints(nameOf, y)
  {
    var i :| 0 <= i < |x| && ExpectedPrints(nameOf, x)[i] == p;
    assert x[i] in y;
    var j :| 0 <= j < |y| && y[j] == x[i];
    assert ExpectedPrints(nameOf, y)[j] == p;
  }

  lemma {:induction false} PrintsOrder(nameOf: string -> string, x: seq<Expectation>, y: seq<Expectation>)
    requires ExpectationsOk(nameOf, x) && ExpectationsOk(nameOf, y) && SameElements(x, y)
    ensures SortBy(PrintKey, ExpectedPrints(nameOf, x)) == SortBy(PrintKey, ExpectedPrints(nameOf, y))
  {
    PrintsDistinct(nameOf, x);
    PrintsDistinct(nameOf, y);
    forall p | p in ExpectedPrints(nameOf, x) ensures p in ExpectedPrints(nameOf, y) {
      PrintsIncluded(nameOf, x, y, p);
    }
    forall p | p in ExpectedPrints(nameOf, y) ensures p in ExpectedPrints(nameOf, x) {
      PrintsIncluded(nameOf, y, x, p);
    }
    SortedIsCanonical(PrintKey, ExpectedPrints(nameOf, x), ExpectedPrints(nameOf, y));
  }

  /** Two successful snapshots for the same expectations, whatever order the versions, documents and
      chunks come in and whatever physical identities they carry, have the same fingerprint. */
  lemma {:induction false} SnapshotsAgree(h: bytes -> Digest, nameOf: string -> string, t: Target,
                                          x: seq<Expectation>, docs: seq<Document>, y: seq<Expectation>, others: seq<Document>)
    requires t.name in t.bindings && Reconciled(h, nameOf, x, docs) && Reconciled(h, nameOf, y, others)
    requires SameElements(x, y)
    ensures Fingerprint(SnapScope(h, t, docs)) == Fingerprint(SnapScope(h, t, others))
  {
    FingerprintCanonical(h, nameOf, t, x, docs);
    FingerprintCanonical(h, nameOf, t, y, others);
    PrintsOrder(nameOf, x, y);
  }

  // ---------- the bijection ----------

  /** The chunk at (i, j) is the unit at (v, k). */
  ghost predicate Holds(h: bytes -> Digest, nameOf: string -> string, x: seq<Expectation>, docs: seq<Document>,
                        i: int, j: int, v: int, k: int)
  {
    && 0 <= i < |docs| && 0 <= j < |docs[i].chunks| && 0 <= v < |x| && docs[i].name == NameFor(nameOf, x[v])
    && Is(h, x[v], k, docs[i].chunks[j])
  }

  /** Every unit is held by one chunk: it exists, */
  lemma {:induction false} UnitHeld(h: bytes -> Digest, nameOf: string -> string, x: seq<Expectation>, docs: seq<Document>,
                                    v: nat, k: nat) returns (i: nat, j: nat)
    requires Reconciled(h, nameOf, x, docs) && v < |x| && k < |x[v].units|
    ensures Holds(h, nameOf, x, docs, i, j, v, k)
  {
    i := VersionServed(h, nameOf, x, docs, v);
    j := UnitListed(h, x[v], docs[i].chunks, k);
    assert Matches(h, x[v], docs[i].chunks[j]);
    var k' :| Is(h, x[v], k', docs[i].chunks[j]);
    SameUnit(x[v].units, k, k');
  }

  /** every chunk holds a unit, */
  lemma {:induction false} ChunkHolds(h: bytes -> Digest, nameOf: string -> string, x: seq<Expectation>, docs: seq<Document>,
                                      i: nat, j: nat) returns (v: nat, k: nat)
    requires Reconciled(h, nameOf, x, docs) && i < |docs| && j < |docs[i].chunks|
    ensures Holds(h, nameOf, x, docs, i, j, v, k)
  {
    assert Serves(h, nameOf, x, docs[i]);
    var e :| e in x && NameFor(nameOf, e) == docs[i].name && DocumentOk(h, e, docs[i].chunks);
    v :| 0 <= v < |x| && x[v] == e;
    assert Matches(h, e, docs[i].chunks[j]);
    k :| Is(h, e, k, docs[i].chunks[j]);
  }

  /** and neither is shared. */
  lemma {:induction false} HoldsOneToOne(h: bytes -> Digest, nameOf: string -> string, x: seq<Expectation>, docs: seq<Document>,
                                         i: int, j: int, v: int, k: int, i': int, j': int, v': int, k': int)
    requires Reconciled(h, nameOf, x, docs)
    requires Holds(h, nameOf, x, docs, i, j, v, k) && Holds(h, nameOf, x, docs, i', j', v', k')
    ensures i == i' && j == j' <==> v == v' && k == k'
  {
    var a := VersionServed(h, nameOf, x, docs, v);
    var b := VersionServed(h, nameOf, x, docs, v');
    assert a == i && b == i';
  }

  // ---------- counts ----------

  function ChunkCount(docs: seq<DocumentSnapshot>): nat {
    if docs == [] then 0 else |docs[0].chunks| + ChunkCount(docs[1..])
  }

  function FactCount(prints: seq<DocumentPrint>): nat {
    if prints == [] then 0 else |prints[0].facts| + FactCount(prints[1..])
  }

  function UnitCount(x: seq<Expectation>): nat {
    if x == [] then 0 else |x[0].units| + UnitCount(x[1..])
  }

  lemma {:induction false} CountOfPrints(docs: seq<DocumentSnapshot>)
    ensures ChunkCount(docs) == FactCount(Map(PrintOf, docs))
  {
    if docs != [] {
      CountOfPrints(docs[1..]);
      assert Map(PrintOf, docs)[1..] == Map(PrintOf, docs[1..]);
    }
  }

  lemma {:induction false} CountInserted(d: DocumentPrint, prints: seq<DocumentPrint>)
    ensures FactCount(Insert(PrintKey, d, prints)) == |d.facts| + FactCount(prints)
  {
    if prints != [] && !StrLe(PrintKey(d), PrintKey(prints[0])) {
      CountInserted(d, prints[1..]);
    }
  }

  lemma {:induction false} CountSorted(prints: seq<DocumentPrint>)
    ensures FactCount(SortBy(PrintKey, prints)) == FactCount(prints)
  {
    if prints != [] {
      CountSorted(prints[1..]);
      CountInserted(prints[0], SortBy(PrintKey, prints[1..]));
    }
  }

  lemma {:induction false} CountExpected(nameOf: string -> string, x: seq<Expectation>)
    ensures FactCount(ExpectedPrints(nameOf, x)) == UnitCount(x)
  {
    if x != [] {
      CountExpected(nameOf, x[1..]);
      assert ExpectedPrints(nameOf, x)[1..] == ExpectedPrints(nameOf, x[1..]);
    }
  }

  /** A successful snapshot counts one document a version and one chunk a unit. */
  lemma {:induction false} SnapshotCounts(h: bytes -> Digest, nameOf: string -> string, t: Target, x: seq<Expectation>,
                                          docs: seq<Document>)
    requires t.name in t.bindings && Reconciled(h, nameOf, x, docs)
    ensures |SnapScope(h, t, docs).documents| == |x|
    ensures ChunkCount(SnapScope(h, t, docs).documents) == UnitCount(x)
  {
    FingerprintCanonical(h, nameOf, t, x, docs);
    var s := SnapScope(h, t, docs);
    CountOfPrints(s.documents);
    assert Map(PrintOf, s.documents) == SortBy(PrintKey, ExpectedPrints(nameOf, x));
    CountSorted(ExpectedPrints(nameOf, x));
    CountExpected(nameOf, x);
  }
}
