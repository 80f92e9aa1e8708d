/** The stream of a tree commitment as a reader takes it apart, path by path and field by field, and what
    a created backup manifest says of the dump and the tree on its stage. */
module TreeReader {
  import opened Wrappers
  import opened Bytes
  import opened Tree
  import TreeCounts
  import B = Backup

  // ---------- paths ----------

  /** The names between the slashes. */
  function Split(s: string): seq<string>
    decreases |s|
  {
    var k := FirstSlash(s);
    NameEnds(s);
    if k == |s| then [s] else [s[..k]] + Split(s[k + 1..])
  }

  lemma {:induction false} NameEnds(s: string)
    ensures FirstSlash(s) <= |s| && (FirstSlash(s) < |s| ==> s[FirstSlash(s)] == '/')
  {
    if s != "" && s[0] != '/' {
      NameEnds(s[1..]);
    }
  }

  lemma {:induction false} SplitFirst(name: string, rest: string)
    requires '/' !in name
    ensures Split(name + "/" + rest) == [name] + Split(rest)
  {
    var s := name + "/" + rest;
    assert s == name + ("/" + rest);
    FirstSlashEndsName(name, "/" + rest);
    assert s[..|name|] == name && s[|name| + 1..] == rest;
  }

  /** A spelled path is taken apart into its names, outermost first. */
  lemma {:induction false} SplitOfPosix(path: Path)
    requires ValidPath(path)
    ensures Split(Posix(path)) == path
  {
    if |path| == 1 {
      FirstSlashEndsName(path[0], "");
      assert path[0] + "" == path[0] && path == [path[0]];
    } else {
      SplitFirst(path[0], Posix(path[1..]));
      SplitOfPosix(path[1..]);
      assert path == [path[0]] + path[1..];
    }
  }

  /** What may name an entry: one part of a path, and neither of the two names for directories themselves. */
  lemma {:induction false} NameIsPart(name: string)
    ensures ValidName(name) <==> Split(name) == [name] && name != "" && name != "." && name != ".."
  {
    NameEnds(name);
    SlashFound(name);
    var k := FirstSlash(name);
    if k < |name| {
      assert Split(name)[0] == name[..k] && name[..k] != name;
    }
  }

  lemma {:induction false} SlashFound(s: string)
    ensures '/' in s <==> FirstSlash(s) < |s|
  {
    if s != "" {
      if s[0] != '/' {
        SlashFound(s[1..]);
        assert s == [s[0]] + s[1..];
      }
    }
  }

  // ---------- records ----------

  /** A record as it stands in the stream: D or F, the path, and for a file its size and its digest. */
  datatype Entry = Entry(tag: byte, path: bytes, size: nat, digest: bytes)

  /** Reads one record and what follows it. */
  function ReadEntry(data: bytes): Option<(Entry, bytes)> {
    if |data| < 9 then None
    else
      var n := FromBigEndian(data[1..9]);
      if |data| < 9 + n then None
      else
        var path, rest := data[9..9 + n], data[9 + n..];
        if data[0] == 'D' as int then Some((Entry(data[0], path, 0, []), rest))
        else if data[0] != 'F' as int || |rest| < 40 then None
        else Some((Entry(data[0], path, FromBigEndian(rest[..8]), rest[8..40]), rest[40..]))
  }

  function ReadStream(data: bytes): Option<seq<Entry>>
    decreases |data|
  {
    if data == [] then Some([])
    else
      var (entry, rest) :- ReadEntry(data);
      if |rest| >= |data| then None
      else
        var more :- ReadStream(rest);
        Some([entry] + more)
  }

  /** What the reader should find of a record. */
  function EntryFor(r: Record): Entry {
    match r.kind
    case Directory => Entry(0x44, Utf8(Posix(r.path)), 0, [])
    case Regular(size, digest) => Entry(0x46, Utf8(Posix(r.path)), size, digest)
  }

  lemma {:induction false} DirectoryCut(path: bytes, rest: bytes)
    requires |path| < Pow256(8)
    ensures var data := [0x44] + (BigEndian(|path|, 8) + path) + rest;
      && |data| >= 9 + |path| && data[0] == 0x44 && data[1..9] == BigEndian(|path|, 8)
      && data[9..9 + |path|] == path && data[9 + |path|..] == rest
  {
  }

  lemma {:induction false} FileCut(path: bytes, size: bytes, digest: bytes, rest: bytes)
    requires |path| < Pow256(8) && |size| == 8 && |digest| == 32
    ensures var data := [0x46] + (BigEndian(|path|, 8) + (path + (size + digest))) + rest;
      && |data| >= 9 + |path| && data[0] == 0x46 && data[1..9] == BigEndian(|path|, 8)
      && data[9..9 + |path|] == path && data[9 + |path|..] == size + digest + rest
  {
  }

  lemma {:induction false} DigestCut(size: bytes, digest: bytes, rest: bytes)
    requires |size| == 8 && |digest| == 32
    ensures var data := size + digest + rest; |data| >= 40 && data[..8] == size && data[8..40] == digest && data[40..] == rest
  {
  }

  lemma {:induction false} ReadRecord(r: Record, rest: bytes)
    requires Fits(r)
    ensures ReadEntry(RecordBytes(r) + rest) == Some((EntryFor(r), rest))
  {
    var path := PathBytes(r);
    BigEndianRoundTrip(|path|, 8);
    match r.kind {
      case Directory => DirectoryCut(path, rest);
      case Regular(size, digest) =>
        BigEndianRoundTrip(size, 8);
        FileCut(path, BigEndian(size, 8), digest, rest);
        DigestCut(BigEndian(size, 8), digest, rest);
    }
  }

  /** The stream is read back, record by record, in its order. */
  lemma {:induction false} ReadOfStream(records: seq<Record>)
    requires AllFit(records)
    ensures ReadStream(TreeStream(records)) == Some(seq(|records|, i requires 0 <= i < |records| => EntryFor(records[i])))
  {
    if records == [] {
      assert seq(|records|, i requires 0 <= i < |records| => EntryFor(records[i])) == [];
    } else {
      var rest := TreeStream(records[1..]);
      ReadRecord(records[0], rest);
      ReadOfStream(records[1..]);
      var all := seq(|records|, i requires 0 <= i < |records| => EntryFor(records[i]));
      var tail := seq(|records[1..]|, i requires 0 <= i < |records[1..]| => EntryFor(records[1..][i]));
      assert all == [EntryFor(records[0])] + tail;
    }
  }

  /** The stream is hashed behind a fixed label. */
  lemma {:induction false} DomainText()
    ensures TREE_DOMAIN == FromAscii("ANHUAN_MINIO_TREE_V1") + [0]
  {
  }

  // ---------- what a manifest says of its stage ----------

  /** The commitment to a tree: the digest of the label and of a stream that reads back as the records of
      its one sorted list. */
  ghost predicate Commits(h: bytes -> Digest, root: Node, digest: string) {
    exists stream, records ::
      && SortedList(root, h, records)
      && ReadStream(stream) == Some(seq(|records|, i requires 0 <= i < |records| => EntryFor(records[i])))
      && digest == Hex(h(FromAscii("ANHUAN_MINIO_TREE_V1") + [0] + stream))
  }

  /** Field by field, the manifest of a stage. */
  ghost predicate Tells(m: B.Manifest, projectId: string, database: string, business: B.Business, now: string, dump: bytes, root: Node,
                        h: bytes -> Digest)
  {
    && m.projectId == projectId && m.database == database && m.createdAt == now
    && m.business.tableCount == business.tableCount && m.business.totalRows == business.totalRows
    && m.business.nonemptyTables == business.nonemptyTables && m.business.countSha256 == business.countSha256
    && m.dumpSize == |dump| && m.dumpSha256 == Hex(h(dump))
    && m.fileCount == |TreeCounts.FilePaths(root)| && m.totalSize == TreeCounts.SumSizes(root, TreeCounts.FilePaths(root))
    && Commits(h, root, m.treeSha256)
  }

  lemma {:induction false} DescribedTells(m: B.Manifest, projectId: string, database: string, business: B.Business, now: string,
                                          dump: bytes, root: Node, h: bytes -> Digest, records: seq<Record>)
    requires SortedList(root, h, records) && AllFit(records)
    requires m == B.Describe(projectId, database, business, dump, Summarize(h, records).summary, now, h)
    ensures Tells(m, projectId, database, business, now, dump, root, h)
  {
    TreeCounts.CountsOfTree(root, h, records);
    ReadOfStream(records);
    DomainText();
    assert ReadStream(TreeStream(records)) == Some(seq(|records|, i requires 0 <= i < |records| => EntryFor(records[i])));
  }

  /** Creation on a stage, in terms of what is there: wherever a manifest can be made and no call fails,
      the stage ends with the text of one that tells the dump's size and digest, the number of files
      and their total size, and commits to the tree; and verification returns it. */
  method CreateAndTell(stage: B.Stage, projectId: string, database: string, business: B.Business, now: string,
                       name: string, disk: B.Disk, h: bytes -> Digest)
    returns (created: B.Result<B.Manifest>, crashed: bool, verified: B.Result<B.Manifest>)
    requires stage.Valid() && B.IsTimestamp(now)
    modifies stage`manifest, stage`temporaries
    ensures old(stage.Creatable(projectId, database, business, now, h)) && B.NoFault(disk) ==>
      created.Ok? && !crashed && verified == created
    ensures created.Ok? && !crashed ==>
      && stage.dump.Some? && stage.tree.Some? && B.Writable(created.value)
      && stage.manifest == Some(FromAscii(B.ManifestText(created.value)))
      && Tells(created.value, projectId, database, business, now, stage.dump.value, stage.tree.value, h)
  {
    ghost var records;
    created, crashed, verified, records := stage.CreateThenVerify(projectId, database, business, now, name, disk, h);
    if created.Ok? && !crashed {
      DescribedTells(created.value, projectId, database, business, now, stage.dump.value, stage.tree.value, h, records);
    }
  }
}
