/** What a remote chunk must hold, field by field: an index with altered content does not reconcile,
    and one that holds every unit as it is does. */
module RemoteContent {
  import opened Wrappers
  import opened Bytes
  import opened Remote
  import opened RemoteHonest

  /** The chunk says of itself what the unit is, and its content is the unit's body. */
  ghost predicate Describes(h: bytes -> Digest, c: Listed, u: Unit) {
    && c.tags.Some?
    && c.tags.value.unit == u.id && c.tags.value.scope == u.scope && c.tags.value.record == u.record
    && c.tags.value.version == u.version && c.tags.value.source == u.source && c.tags.value.page == u.page
    && c.tags.value.body == u.body
    && Hex(h(Utf8(c.content))) == u.body
  }

  /** The identity of a chunk's detail: its own, or that of the chunk nested in it where its own is another. */
  function ResolvedId(c: Listed): Id {
    if c.outerId != "" && c.outerId != c.chunkId && c.innerId.Some? then c.innerId.value else c.outerId
  }

  predicate Identified(c: Listed) {
    c.chunkId != "" && (ResolvedId(c) == "" || ResolvedId(c) == c.chunkId)
  }

  /** A chunk fits a version exactly when it can be read and describes one of the version's units. */
  lemma {:induction false} MatchesMeans(h: bytes -> Digest, e: Expectation, c: Listed)
    ensures Matches(h, e, c) <==>
      && Identified(c) && c.content != ""
      && exists k :: 0 <= k < |e.units| && Describes(h, c, e.units[k]) && e.units[k].version == e.version
  {
    if Matches(h, e, c) {
      var k :| Is(h, e, k, c);
      assert Describes(h, c, e.units[k]);
    }
    if Identified(c) && c.content != ""
       && exists k :: 0 <= k < |e.units| && Describes(h, c, e.units[k]) && e.units[k].version == e.version
    {
      var k :| 0 <= k < |e.units| && Describes(h, c, e.units[k]) && e.units[k].version == e.version;
      assert Is(h, e, k, c);
    }
  }

  /** What a snapshot records of a chunk. */
  lemma {:induction false} SnapMeans(h: bytes -> Digest, c: Listed)
    requires c.tags.Some?
    ensures var s, t := Snap(h, c), c.tags.value;
      && s.chunkId == c.chunkId && s.facts.unit == t.unit && s.facts.scope == t.scope && s.facts.record == t.record
      && s.facts.version == t.version && s.facts.source == t.source && s.facts.page == t.page && s.facts.body == t.body
      && s.facts.content == Hex(h(Utf8(c.content)))
  {
  }

  // ---------- altered content ----------

  /** The same index with another content in one chunk. */
  function Altered(docs: seq<Document>, i: nat, j: nat, content: string): seq<Document>
    requires i < |docs| && j < |docs[i].chunks|
  {
    docs[i := docs[i].(chunks := docs[i].chunks[j := docs[i].chunks[j].(content := content)])]
  }

  /** The unit that a chunk of a reconciled index describes. */
  lemma {:induction false} DescribedUnit(h: bytes -> Digest, nameOf: string -> string, x: seq<Expectation>, docs: seq<Document>,
                                         i: nat, j: nat)
    returns (e: Expectation, k: nat)
    requires Reconciled(h, nameOf, x, docs) && i < |docs| && j < |docs[i].chunks|
    ensures e in x && NameFor(nameOf, e) == docs[i].name && DistinctUnits(e.units)
    ensures k < |e.units| && Describes(h, docs[i].chunks[j], e.units[k])
  {
    assert Serves(h, nameOf, x, docs[i]);
    e :| e in x && NameFor(nameOf, e) == docs[i].name && DocumentOk(h, e, docs[i].chunks);
    assert Matches(h, e, docs[i].chunks[j]);
    MatchesMeans(h, e, docs[i].chunks[j]);
    k :| 0 <= k < |e.units| && Describes(h, docs[i].chunks[j], e.units[k]) && e.units[k].version == e.version;
  }

  lemma {:induction false} SameVersion(nameOf: string -> string, x: seq<Expectation>, a: Expectation, b: Expectation)
    requires ExpectationsOk(nameOf, x) && a in x && b in x && NameFor(nameOf, a) == NameFor(nameOf, b)
    ensures a == b
  {
    var i :| 0 <= i < |x| && x[i] == a;
    var j :| 0 <= j < |x| && x[j] == b;
    assert i == j;
  }

  /** Altering the content of one chunk breaks reconciliation, unless old and new content collide. */
  lemma {:induction false} AlteredContentRefused(h: bytes -> Digest, nameOf: string -> string, x: seq<Expectation>,
                                                 docs: seq<Document>, i: nat, j: nat, content: string)
    requires Reconciled(h, nameOf, x, docs) && i < |docs| && j < |docs[i].chunks|
    requires content != docs[i].chunks[j].content && Separates(h, Utf8(content), Utf8(docs[i].chunks[j].content))
    ensures !Reconciled(h, nameOf, x, Altered(docs, i, j, content))
  {
    var after := Altered(docs, i, j, content);
    if Reconciled(h, nameOf, x, after) {
      var e, k := DescribedUnit(h, nameOf, x, docs, i, j);
      var e', k' := DescribedUnit(h, nameOf, x, after, i, j);
      SameVersion(nameOf, x, e, e');
      assert after[i].chunks[j].tags == docs[i].chunks[j].tags && after[i].chunks[j].content == content;
      assert e.units[k].id == e.units[k'].id;
      assert k == k';
      HexInjective(h(Utf8(content)), h(Utf8(docs[i].chunks[j].content)));
      Utf8Injective(content, docs[i].chunks[j].content);
    }
  }

  // ---------- a faithful index ----------

  /** A readable chunk of a faithful index. */
  ghost predicate Faithful(h: bytes -> Digest, c: Listed, u: Unit) {
    Describes(h, c, u) && c.chunkId != "" && c.content != "" && (c.outerId == c.chunkId || c.outerId == "")
  }

  /** One document a version, under its name, and one chunk a unit, in order. */
  ghost predicate FaithfulIndex(h: bytes -> Digest, nameOf: string -> string, x: seq<Expectation>, docs: seq<Document>) {
    && |docs| == |x|
    && (forall i :: 0 <= i < |x| ==>
          && x[i].units != [] && docs[i].name == nameOf(x[i].units[0].source)
          && docs[i].id != "" && |docs[i].chunks| == |x[i].units|)
    && (forall i, k :: 0 <= i < |x| && 0 <= k < |x[i].units| ==> Faithful(h, docs[i].chunks[k], x[i].units[k]))
  }

  /** Versions with one source each, under different names, whose units belong to them. */
  ghost predicate Expected(nameOf: string -> string, x: seq<Expectation>) {
    && (forall i :: 0 <= i < |x| ==> x[i].units != [])
    && (forall i, k :: 0 <= i < |x| && 0 <= k < |x[i].units| ==>
          x[i].units[k].source == x[i].units[0].source && x[i].units[k].version == x[i].version)
    && (forall i, j :: 0 <= i < j < |x| ==> nameOf(x[i].units[0].source) != nameOf(x[j].units[0].source))
  }

  /** No identifier of a unit, of a document or of a chunk is used twice. */
  ghost predicate AllDistinct(x: seq<Expectation>, docs: seq<Document>) {
    && (forall i, j :: 0 <= i < j < |docs| ==> docs[i].id != docs[j].id)
    && (forall i, j, k, l :: 0 <= i < |x| && 0 <= j < |x| && 0 <= k < |x[i].units| && 0 <= l < |x[j].units| && (i, k) != (j, l) ==>
          x[i].units[k].id != x[j].units[l].id)
    && (forall i, j, k, l :: 0 <= i < |docs| && 0 <= j < |docs| && 0 <= k < |docs[i].chunks| && 0 <= l < |docs[j].chunks| ==>
          (i, k) != (j, l) ==> docs[i].chunks[k].chunkId != docs[j].chunks[l].chunkId)
  }

  lemma {:induction false} FaithfulDocument(h: bytes -> Digest, nameOf: string -> string, x: seq<Expectation>, docs: seq<Document>, i: nat)
    requires Expected(nameOf, x) && FaithfulIndex(h, nameOf, x, docs) && AllDistinct(x, docs) && i < |x|
    ensures DocumentOk(h, x[i], docs[i].chunks)
  {
    var e, chunks := x[i], docs[i].chunks;
    forall k, l | 0 <= k < l < |e.units| ensures e.units[k].id != e.units[l].id {
      assert (i, k) != (i, l);
    }
    forall k | 0 <= k < |chunks| ensures Matches(h, e, chunks[k]) && TagUnit(chunks[k]) == e.units[k].id {
      assert Faithful(h, chunks[k], e.units[k]);
      MatchesMeans(h, e, chunks[k]);
    }
    forall k, l | 0 <= k < l < |chunks| ensures chunks[k].chunkId != chunks[l].chunkId && TagUnit(chunks[k]) != TagUnit(chunks[l]) {
      assert (i, k) != (i, l);
    }
    forall id | id in UnitIds(e.units) ensures id in TaggedUnits(chunks) {
      var k :| 0 <= k < |e.units| && e.units[k].id == id;
      assert TagUnit(chunks[k]) == id;
    }
  }

  lemma {:induction false} FaithfulApart(h: bytes -> Digest, nameOf: string -> string, x: seq<Expectation>, docs: seq<Document>,
                                         i: nat, j: nat)
    requires FaithfulIndex(h, nameOf, x, docs) && AllDistinct(x, docs) && i < |docs| && j < |docs| && i != j
    ensures Disjoint(docs[i], docs[j])
  {
    forall k, l | 0 <= k < |docs[i].chunks| && 0 <= l < |docs[j].chunks|
      ensures docs[i].chunks[k].chunkId != docs[j].chunks[l].chunkId && TagUnit(docs[i].chunks[k]) != TagUnit(docs[j].chunks[l])
    {
      assert (i, k) != (j, l);
      assert Faithful(h, docs[i].chunks[k], x[i].units[k]) && Faithful(h, docs[j].chunks[l], x[j].units[l]);
    }
  }

  lemma {:induction false} FaithfulDocumentsApart(h: bytes -> Digest, nameOf: string -> string, x: seq<Expectation>, docs: seq<Document>)
    requires FaithfulIndex(h, nameOf, x, docs) && AllDistinct(x, docs)
    ensures Apart(docs)
  {
    forall i | 0 <= i < |docs|
      ensures ChunkIds(docs[i].chunks) !! AllChunkIds(docs[..i]) && TaggedUnits(docs[i].chunks) !! AllTaggedUnits(docs[..i])
    {
      forall j | 0 <= j < i ensures Disjoint(docs[i], docs[..i][j]) {
        FaithfulApart(h, nameOf, x, docs, i, j);
      }
      DisjointFromAll(docs[..i], docs[i]);
    }
  }

  lemma {:induction false} FaithfulNames(h: bytes -> Digest, nameOf: string -> string, x: seq<Expectation>, docs: seq<Document>)
    requires Expected(nameOf, x) && FaithfulIndex(h, nameOf, x, docs)
    ensures ExpectationsOk(nameOf, x) && ExpectedNames(nameOf, x, Names(docs))
    ensures forall i :: 0 <= i < |docs| ==> docs[i].name == NameFor(nameOf, x[i])
  {
    forall n | n in Names(docs) ensures exists i :: 0 <= i < |x| && NameFor(nameOf, x[i]) == n {
      var i :| 0 <= i < |docs| && docs[i].name == n;
      assert NameFor(nameOf, x[i]) == n;
    }
    forall i | 0 <= i < |x| ensures NameFor(nameOf, x[i]) in Names(docs) {
      assert docs[i].name == NameFor(nameOf, x[i]);
    }
  }

  lemma {:induction false} FaithfulServes(h: bytes -> Digest, nameOf: string -> string, x: seq<Expectation>, docs: seq<Document>, i: nat)
    requires Expected(nameOf, x) && FaithfulIndex(h, nameOf, x, docs) && AllDistinct(x, docs) && i < |docs|
    ensures Serves(h, nameOf, x, docs[i])
  {
    FaithfulDocument(h, nameOf, x, docs, i);
    assert x[i] in x && NameFor(nameOf, x[i]) == docs[i].name;
  }

  /** An index that holds every unit as it is, under its version's name, reconciles. */
  lemma {:induction false} FaithfulReconciles(h: bytes -> Digest, nameOf: string -> string, x: seq<Expectation>, docs: seq<Document>)
    requires Expected(nameOf, x) && FaithfulIndex(h, nameOf, x, docs) && AllDistinct(x, docs)
    ensures Reconciled(h, nameOf, x, docs)
  {
    FaithfulNames(h, nameOf, x, docs);
    FaithfulDocumentsApart(h, nameOf, x, docs);
    forall i | 0 <= i < |docs| ensures Serves(h, nameOf, x, docs[i]) {
      FaithfulServes(h, nameOf, x, docs, i);
    }
    FaithfulDistinct(nameOf, x, docs);
  }

  lemma {:induction false} FaithfulDistinct(nameOf: string -> string, x: seq<Expectation>, docs: seq<Document>)
    requires ExpectationsOk(nameOf, x) && AllDistinct(x, docs) && |docs| == |x|
    requires forall i :: 0 <= i < |docs| ==> docs[i].name == NameFor(nameOf, x[i])
    ensures DistinctDocuments(docs)
  {
  }
}
