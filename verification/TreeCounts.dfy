/** The counts of _tree_summary in infra/f1/local_backup.py against the tree itself: the number of
    its regular files and the sum of their sizes. */
module TreeCounts {
  import opened Bytes
  import opened Tree

  function FilePaths(root: Node): set<Path> {
    set p | p in Paths(root) && Lookup(root, p).Some? && Lookup(root, p).value.File?
  }

  function SizeAt(root: Node, p: Path): nat {
    var n := Lookup(root, p);
    if n.Some? && n.value.File? then |n.value.content| else 0
  }

  /** The sizes at the given paths, added up in any order. */
  ghost function SumSizes(root: Node, paths: set<Path>): nat {
    if paths == {} then 0
    else
      var p :| p in paths;
      SizeAt(root, p) + SumSizes(root, paths - {p})
  }

  /** Any path may be taken first. */
  lemma {:induction false} SumSizesRemove(root: Node, paths: set<Path>, q: Path)
    requires q in paths
    ensures SumSizes(root, paths) == SizeAt(root, q) + SumSizes(root, paths - {q})
    decreases |paths|
  {
    var p :| p in paths && SumSizes(root, paths) == SizeAt(root, p) + SumSizes(root, paths - {p});
    if p != q {
      SumSizesRemove(root, paths - {p}, q);
      SumSizesRemove(root, paths - {q}, p);
      assert paths - {p} - {q} == paths - {q} - {p};
    }
  }

  function RegularPaths(records: seq<Record>): set<Path> {
    set i | 0 <= i < |records| && records[i].kind.Regular? :: records[i].path
  }

  predicate DistinctPaths(records: seq<Record>) {
    forall i, j :: 0 <= i < j < |records| ==> records[i].path != records[j].path
  }

  lemma {:induction false} RegularPathsFirst(records: seq<Record>)
    requires records != [] && DistinctPaths(records)
    ensures RegularPaths(records)
         == RegularPaths(records[1..]) + (if records[0].kind.Regular? then {records[0].path} else {})
    ensures records[0].path !in RegularPaths(records[1..])
  {
    var rest := records[1..];
    assert forall i :: 0 <= i < |rest| ==> rest[i] == records[i + 1];
    forall p | p in RegularPaths(records)
      ensures p in RegularPaths(rest) || (records[0].kind.Regular? && p == records[0].path)
    {
      var i :| 0 <= i < |records| && records[i].kind.Regular? && records[i].path == p;
      assert i > 0 ==> rest[i - 1] == records[i];
    }
    forall p | p in RegularPaths(rest) ensures p in RegularPaths(records) && p != records[0].path {
      var i :| 0 <= i < |rest| && rest[i].kind.Regular? && rest[i].path == p;
      assert records[i + 1] == rest[i];
    }
  }

  ghost predicate SizesRight(root: Node, records: seq<Record>) {
    forall i :: 0 <= i < |records| && records[i].kind.Regular? ==> records[i].kind.size == SizeAt(root, records[i].path)
  }

  lemma {:induction false} CountsOfRecords(root: Node, records: seq<Record>)
    requires DistinctPaths(records) && SizesRight(root, records)
    ensures FileCount(records) == |RegularPaths(records)|
    ensures TotalSize(records) == SumSizes(root, RegularPaths(records))
  {
    if records != [] {
      var rest := records[1..];
      assert forall i :: 0 <= i < |rest| ==> rest[i] == records[i + 1];
      RegularPathsFirst(records);
      CountsOfRecords(root, rest);
      if records[0].kind.Regular? {
        SumSizesRemove(root, RegularPaths(records), records[0].path);
        assert RegularPaths(records) - {records[0].path} == RegularPaths(rest);
      }
    }
  }

  lemma {:induction false} RegularPathsAreFiles(root: Node, h: bytes -> Digest, records: seq<Record>)
    requires Lists(root, h, records)
    ensures RegularPaths(records) == FilePaths(root) && SizesRight(root, records)
  {
    forall i | 0 <= i < |records| ensures RecordsNode(root, h, records[i]) && records[i].path in Paths(root) {
      assert records[i] in records;
      PathsAreLookups(root, records[i].path);
    }
    forall p | p in FilePaths(root) ensures p in RegularPaths(records) {
      var i :| 0 <= i < |records| && records[i].path == p;
      assert RecordsNode(root, h, records[i]);
    }
  }

  /** The counts of a listing are those of the tree: its number of regular files, and the sum of
      their sizes. */
  lemma {:induction false} CountsOfTree(root: Node, h: bytes -> Digest, records: seq<Record>)
    requires Lists(root, h, records)
    ensures FileCount(records) == |FilePaths(root)|
    ensures TotalSize(records) == SumSizes(root, FilePaths(root))
  {
    RegularPathsAreFiles(root, h, records);
    CountsOfRecords(root, records);
  }
}
