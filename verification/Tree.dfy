/** The directory-tree commitment of infra/f1/local_backup.py: a worklist walk over the tree,
    the records sorted by path, and a length-prefixed byte stream over them that is hashed.

    Lookup says what a tree holds without walking it. TreeSummary is the walk, with scandir
    free to list entries in any order; its contract says that the sorted records are the one
    list that names every descendant once. SummaryIffSameTree says what equal summaries mean. */
module Tree {
  import opened Wrappers
  import opened Bytes
  import opened Sorting

  // ---------- trees ----------

  datatype Node = File(content: bytes) | Dir(entries: map<string, Node>)

  type Path = seq<string>

  function Lookup(n: Node, path: Path): Option<Node>
    decreases path
  {
    if path == [] then Some(n)
    else if n.Dir? && path[0] in n.entries then Lookup(n.entries[path[0]], path[1..])
    else None
  }

  /** What a file system guarantees about an entry's name, and _safe_relative_posix checks. */
  predicate ValidName(name: string) {
    name != "" && name != "." && name != ".." && '/' !in name
  }

  predicate ValidTree(n: Node) {
    n.Dir? ==> forall name :: name in n.entries ==> ValidName(name) && ValidTree(n.entries[name])
  }

  predicate ValidPath(path: Path) {
    path != [] && forall i :: 0 <= i < |path| ==> ValidName(path[i])
  }

  /** The path below the root, as Path.as_posix spells it. */
  function Posix(path: Path): string {
    if path == [] then "" else if |path| == 1 then path[0] else path[0] + "/" + Posix(path[1..])
  }

  datatype Kind = Directory | Regular(size: nat, digest: Digest)

  datatype Record = Record(path: Path, kind: Kind)

  function KindOf(h: bytes -> Digest, n: Node): Kind {
    match n
    case File(content) => Regular(|content|, h(content))
    case Dir(_) => Directory
  }

  /** The paths of all descendants. */
  function Paths(n: Node): set<Path>
    decreases n
  {
    if n.File? then {}
    else
      (set name | name in n.entries :: [name])
      + (set name, p | name in n.entries && p in Paths(n.entries[name]) :: [name] + p)
  }

  lemma {:induction false} PathsAreLookups(n: Node, path: Path)
    ensures path in Paths(n) <==> path != [] && Lookup(n, path).Some?
    decreases path
  {
    if path != [] && n.Dir? && path[0] in n.entries {
      PathsAreLookups(n.entries[path[0]], path[1..]);
      assert path == [path[0]] + path[1..];
      if |path| == 1 {
        assert path == [path[0]];
      }
    }
  }

  lemma {:induction false} LookupAppend(n: Node, p: Path, q: Path)
    requires Lookup(n, p).Some?
    ensures Lookup(n, p + q) == Lookup(Lookup(n, p).value, q)
    decreases p
  {
    if p == [] {
      assert p + q == q;
    } else {
      assert (p + q)[1..] == p[1..] + q;
      LookupAppend(n.entries[p[0]], p[1..], q);
    }
  }

  lemma {:induction false} LookupChild(n: Node, p: Path, name: string)
    requires Lookup(n, p).Some?
    ensures Lookup(n, p + [name]) ==
      (var d := Lookup(n, p).value; if d.Dir? && name in d.entries then Some(d.entries[name]) else None)
  {
    LookupAppend(n, p, [name]);
  }

  lemma {:induction false} LookupValid(n: Node, path: Path)
    requires ValidTree(n) && Lookup(n, path).Some?
    ensures forall i :: 0 <= i < |path| ==> ValidName(path[i])
    ensures ValidTree(Lookup(n, path).value)
    decreases path
  {
    if path != [] {
      LookupValid(n.entries[path[0]], path[1..]);
    }
  }

  // ---------- paths are recovered from their spelling ----------

  predicate SlashOrEnd(s: string) {
    s == "" || s[0] == '/'
  }

  function FirstSlash(s: string): nat {
    if s == "" || s[0] == '/' then 0 else 1 + FirstSlash(s[1..])
  }

  lemma {:induction false} FirstSlashEndsName(a: string, x: string)
    requires '/' !in a && SlashOrEnd(x)
    ensures FirstSlash(a + x) == |a|
  {
    if a == "" {
      assert a + x == x;
    } else {
      assert (a + x)[1..] == a[1..] + x;
      FirstSlashEndsName(a[1..], x);
    }
  }

  lemma {:induction false} FirstNameUnique(a: string, x: string, b: string, y: string)
    requires '/' !in a && '/' !in b && SlashOrEnd(x) && SlashOrEnd(y)
    requires a + x == b + y
    ensures a == b && x == y
  {
    FirstSlashEndsName(a, x);
    FirstSlashEndsName(b, y);
    CancelPrefix(a, x, b, y);
  }

  lemma {:induction false} PosixInjective(p: Path, q: Path)
    requires ValidPath(p) && ValidPath(q) && Posix(p) == Posix(q)
    ensures p == q
  {
    var x := if |p| == 1 then "" else "/" + Posix(p[1..]);
    var y := if |q| == 1 then "" else "/" + Posix(q[1..]);
    assert Posix(p) == p[0] + x && Posix(q) == q[0] + y;
    FirstNameUnique(p[0], x, q[0], y);
    if |p| == 1 {
      assert p == [p[0]] && q == [q[0]];
    } else {
      assert Posix(p[1..]) == x[1..] == y[1..] == Posix(q[1..]);
      PosixInjective(p[1..], q[1..]);
      assert p == [p[0]] + p[1..] && q == [q[0]] + q[1..];
    }
  }

  // ---------- the list of records that a tree determines ----------

  ghost predicate RecordsNode(root: Node, h: bytes -> Digest, r: Record) {
    r.path != [] && Lookup(root, r.path).Some? && r.kind == KindOf(h, Lookup(root, r.path).value)
  }

  /** The list names every descendant, each once, with its kind, size and content digest. */
  ghost predicate Lists(root: Node, h: bytes -> Digest, records: seq<Record>) {
    && (forall r :: r in records ==> RecordsNode(root, h, r))
    && (forall path :: path in Paths(root) ==> exists i :: 0 <= i < |records| && records[i].path == path)
    && (forall i, j :: 0 <= i < j < |records| ==> records[i].path != records[j].path)
  }

  function SortKey(r: Record): string {
    Posix(r.path)
  }

  ghost predicate SortedList(root: Node, h: bytes -> Digest, records: seq<Record>) {
    Lists(root, h, records) && Ordered(SortKey, records)
  }

  lemma {:induction false} ListedRecords(root: Node, h: bytes -> Digest, records: seq<Record>, r: Record)
    requires Lists(root, h, records)
    ensures r in records <==> RecordsNode(root, h, r)
  {
    if RecordsNode(root, h, r) {
      PathsAreLookups(root, r.path);
      var i :| 0 <= i < |records| && records[i].path == r.path;
      assert records[i] in records;
      assert records[i] == r;
    }
  }

  lemma {:induction false} ListKeyed(root: Node, h: bytes -> Digest, records: seq<Record>)
    requires ValidTree(root) && Lists(root, h, records)
    ensures KeyedBy(SortKey, records) && NoDuplicates(records)
  {
    forall r, s | r in records && s in records && SortKey(r) == SortKey(s) ensures r == s {
      LookupValid(root, r.path);
      LookupValid(root, s.path);
      PosixInjective(r.path, s.path);
    }
  }

  /** Listing order never shows: a tree has one sorted list. */
  lemma {:induction false} SortedListUnique(root: Node, h: bytes -> Digest, a: seq<Record>, b: seq<Record>)
    requires ValidTree(root) && SortedList(root, h, a) && SortedList(root, h, b)
    ensures a == b
  {
    ListKeyed(root, h, a);
    ListKeyed(root, h, b);
    forall r | r in a || r in b ensures r in a && r in b {
      ListedRecords(root, h, a, r);
      ListedRecords(root, h, b, r);
    }
    OrderedUnique(SortKey, a, b);
  }

  lemma {:induction false} SortLists(root: Node, h: bytes -> Digest, records: seq<Record>)
    requires Lists(root, h, records)
    ensures SortedList(root, h, SortBy(SortKey, records))
  {
    var sorted := SortBy(SortKey, records);
    SortByCorrect(SortKey, records);
    SortByElements(SortKey, records);
    forall path | path in Paths(root) ensures exists i :: 0 <= i < |sorted| && sorted[i].path == path {
      var i :| 0 <= i < |records| && records[i].path == path;
      assert records[i] in sorted;
    }
    assert NoDuplicates(records);
    forall i, j | 0 <= i < j < |sorted| ensures sorted[i].path != sorted[j].path {
      var r, s := sorted[i], sorted[j];
      assert r in records && s in records && r != s;
    }
  }

  // ---------- the worklist ----------

  /** A directory of which the entries named in `left` are still to be looked at. */
  datatype Task = Task(path: Path, dir: Node, left: set<string>)

  predicate Covers(t: Task, path: Path) {
    |t.path| < |path| && path[..|t.path|] == t.path && path[|t.path|] in t.left
  }

  ghost predicate ValidTasks(root: Node, tasks: seq<Task>) {
    forall k :: 0 <= k < |tasks| ==>
      Lookup(root, tasks[k].path) == Some(tasks[k].dir) && tasks[k].dir.Dir? && tasks[k].left <= tasks[k].dir.entries.Keys
  }

  ghost predicate TrueRecords(root: Node, h: bytes -> Digest, records: seq<Record>) {
    forall i :: 0 <= i < |records| ==> RecordsNode(root, h, records[i])
  }

  ghost predicate DistinctPaths(records: seq<Record>) {
    forall i, j :: 0 <= i < j < |records| ==> records[i].path != records[j].path
  }

  ghost predicate Recorded(records: seq<Record>, path: Path) {
    exists i :: 0 <= i < |records| && records[i].path == path
  }

  ghost predicate Pending(tasks: seq<Task>, path: Path) {
    exists k :: 0 <= k < |tasks| && Covers(tasks[k], path)
  }

  ghost predicate Exclusive(tasks: seq<Task>) {
    forall k, l, path :: 0 <= k < l < |tasks| && Covers(tasks[k], path) ==> !Covers(tasks[l], path)
  }

  /** Every descendant has been recorded, or lies under exactly one task; never both. */
  ghost predicate Progress(root: Node, h: bytes -> Digest, records: seq<Record>, tasks: seq<Task>) {
    && ValidTasks(root, tasks) && TrueRecords(root, h, records) && DistinctPaths(records) && Exclusive(tasks)
    && (forall path :: path in Paths(root) ==> Recorded(records, path) || Pending(tasks, path))
    && (forall path :: Recorded(records, path) ==> !Pending(tasks, path))
  }

  /** The walk's next move: the last task gives up one name, which is recorded, and pushed as a
      task of its own below it when it is a directory. */
  function ChildTasks(path: Path, child: Node): seq<Task> {
    if child.Dir? then [Task(path, child, child.entries.Keys)] else []
  }

  lemma {:induction false} TaskSplits(t: Task, name: string, path: Path)
    requires name in t.left
    ensures Covers(t, path) <==>
      || Covers(t.(left := t.left - {name}), path)
      || path == t.path + [name]
      || (|path| > |t.path| + 1 && path[..|t.path| + 1] == t.path + [name])
    ensures !(path == t.path + [name] && Covers(t.(left := t.left - {name}), path))
    ensures |path| > |t.path| + 1 && path[..|t.path| + 1] == t.path + [name]
      ==> !Covers(t.(left := t.left - {name}), path)
  {
    var n := |t.path|;
    if |path| > n {
      assert path[..n + 1] == path[..n] + [path[n]];
      if |path| == n + 1 {
        assert path == path[..n + 1];
      }
    }
  }

  lemma {:induction false} ChildCovers(root: Node, child: Node, path: Path, p: Path)
    requires Lookup(root, path) == Some(child)
    requires p in Paths(root) && |p| > |path| && p[..|path|] == path
    ensures child.Dir? && Covers(Task(path, child, child.entries.Keys), p)
  {
    PathsAreLookups(root, p);
    LookupAppend(root, path, p[|path|..]);
    assert p == path + p[|path|..];
  }

  /** One entry of the directory in hand: it is recorded, and queued when it is a directory. */
  function AfterEntry(t: Task, pending: seq<Task>, name: string): seq<Task>
    requires t.dir.Dir? && name in t.dir.entries
  {
    [t.(left := t.left - {name})] + pending + ChildTasks(t.path + [name], t.dir.entries[name])
  }

  /** What the tasks cover after an entry: what they covered before, less the entry itself. */
  lemma {:induction false} AfterEntryPending(root: Node, t: Task, pending: seq<Task>, name: string, path: Path)
    requires ValidTasks(root, [t] + pending) && Exclusive([t] + pending)
    requires t.dir.Dir? && name in t.dir.entries && name in t.left
    ensures path in Paths(root) && Pending([t] + pending, path)
      ==> path == t.path + [name] || Pending(AfterEntry(t, pending, name), path)
    ensures Pending(AfterEntry(t, pending, name), path)
      ==> Pending([t] + pending, path) && path != t.path + [name]
  {
    var before, after := [t] + pending, AfterEntry(t, pending, name);
    assert before[0] == t;
    var child := t.dir.entries[name];
    var childPath := t.path + [name];
    LookupChild(root, t.path, name);
    TaskSplits(t, name, path);
    TaskSplits(t, name, childPath);
    if path in Paths(root) && Pending(before, path) && path != childPath {
      var k :| 0 <= k < |before| && Covers(before[k], path);
      if k > 0 {
        assert after[k] == before[k];
      } else if Covers(t.(left := t.left - {name}), path) {
        assert Covers(after[0], path);
      } else {
        ChildCovers(root, child, childPath, path);
        assert Covers(after[|after| - 1], path);
      }
    }
    if Pending(after, path) {
      var k :| 0 <= k < |after| && Covers(after[k], path);
      if 0 < k < |before| {
        assert after[k] == before[k];
        assert Covers(before[k], path);
        assert Covers(before[0], childPath);
      } else {
        assert Covers(before[0], path);
      }
    }
  }

  lemma {:induction false} AfterEntryExclusive(root: Node, t: Task, pending: seq<Task>, name: string)
    requires ValidTasks(root, [t] + pending) && Exclusive([t] + pending)
    requires t.dir.Dir? && name in t.dir.entries && name in t.left
    ensures Exclusive(AfterEntry(t, pending, name))
  {
    var before, after := [t] + pending, AfterEntry(t, pending, name);
    assert before[0] == t;
    forall k, l, path | 0 <= k < l < |after| && Covers(after[k], path) ensures !Covers(after[l], path) {
      TaskSplits(t, name, path);
      if l < |before| {
        assert after[l] == before[l];
        assert Covers(before[k], path);
      } else if k > 0 {
        assert after[k] == before[k];
        assert Covers(before[k], path);
        assert !Covers(before[0], path);
      }
    }
  }

  lemma {:induction false} AfterEntryValid(root: Node, t: Task, pending: seq<Task>, name: string)
    requires ValidTasks(root, [t] + pending)
    requires t.dir.Dir? && name in t.dir.entries && name in t.left
    ensures ValidTasks(root, AfterEntry(t, pending, name))
  {
    var before, after := [t] + pending, AfterEntry(t, pending, name);
    assert before[0] == t;
    LookupChild(root, t.path, name);
    forall k | 0 <= k < |after|
      ensures Lookup(root, after[k].path) == Some(after[k].dir) && after[k].dir.Dir?
      ensures after[k].left <= after[k].dir.entries.Keys
    {
      if 0 < k < |before| {
        assert after[k] == before[k];
      }
    }
  }

  lemma {:induction false} RecordedAppend(records: seq<Record>, r: Record, path: Path)
    ensures Recorded(records + [r], path) <==> Recorded(records, path) || path == r.path
  {
    if Recorded(records, path) {
      var i :| 0 <= i < |records| && records[i].path == path;
      assert (records + [r])[i].path == path;
    }
    if path == r.path {
      assert (records + [r])[|records|].path == path;
    }
  }

  lemma {:induction false} VisitEntry(root: Node, h: bytes -> Digest, records: seq<Record>, t: Task, pending: seq<Task>, name: string)
    requires Progress(root, h, records, [t] + pending)
    requires t.dir.Dir? && name in t.dir.entries && name in t.left
    ensures Progress(root, h, records + [Record(t.path + [name], KindOf(h, t.dir.entries[name]))],
                     AfterEntry(t, pending, name))
  {
    assert ([t] + pending)[0] == t;
    var r := Record(t.path + [name], KindOf(h, t.dir.entries[name]));
    var tasks, tasks' := [t] + pending, AfterEntry(t, pending, name);
    LookupChild(root, t.path, name);
    TaskSplits(t, name, r.path);
    assert Pending(tasks, r.path);
    assert !Recorded(records, r.path);
    AfterEntryValid(root, t, pending, name);
    AfterEntryExclusive(root, t, pending, name);
    forall path
      ensures path in Paths(root) ==> Recorded(records + [r], path) || Pending(tasks', path)
      ensures Recorded(records + [r], path) ==> !Pending(tasks', path)
    {
      RecordedAppend(records, r, path);
      AfterEntryPending(root, t, pending, name, path);
    }
    assert forall i :: 0 <= i < |records| ==> records[i].path != r.path;
  }

  /** A task with nothing left can be dropped. */
  lemma {:induction false} DropFinished(root: Node, h: bytes -> Digest, records: seq<Record>, t: Task, pending: seq<Task>)
    requires Progress(root, h, records, [t] + pending) && t.left == {}
    ensures Progress(root, h, records, pending)
  {
    var tasks := [t] + pending;
    forall k | 0 <= k < |pending| ensures pending[k] == tasks[k + 1] {}
    assert ValidTasks(root, pending);
    forall path ensures Pending(pending, path) <==> Pending(tasks, path) {
      if Pending(tasks, path) {
        var k :| 0 <= k < |tasks| && Covers(tasks[k], path);
        assert pending[k - 1] == tasks[k];
      }
    }
  }

  function LastFirst(pending: seq<Task>): seq<Task>
    requires pending != []
  {
    [pending[|pending| - 1]] + pending[..|pending| - 1]
  }

  lemma {:induction false} LastFirstPending(pending: seq<Task>, path: Path)
    requires pending != []
    ensures Pending(LastFirst(pending), path) <==> Pending(pending, path)
  {
    var n := |pending|;
    var tasks := LastFirst(pending);
    if Pending(pending, path) {
      var k :| 0 <= k < n && Covers(pending[k], path);
      assert tasks[if k == n - 1 then 0 else k + 1] == pending[k];
    }
    if Pending(tasks, path) {
      var k :| 0 <= k < n && Covers(tasks[k], path);
      assert tasks[k] == pending[if k == 0 then n - 1 else k - 1];
    }
  }

  lemma {:induction false} LastFirstExclusive(pending: seq<Task>)
    requires pending != [] && Exclusive(pending)
    ensures Exclusive(LastFirst(pending))
  {
    var n := |pending|;
    var tasks := LastFirst(pending);
    forall k, l, path | 0 <= k < l < n && Covers(tasks[k], path) ensures !Covers(tasks[l], path) {
      assert tasks[l] == pending[l - 1];
      assert tasks[k] == pending[if k == 0 then n - 1 else k - 1];
    }
  }

  /** The order of the tasks does not matter. */
  lemma {:induction false} TakeLast(root: Node, h: bytes -> Digest, records: seq<Record>, pending: seq<Task>)
    requires pending != [] && Progress(root, h, records, pending)
    ensures Progress(root, h, records, LastFirst(pending))
  {
    LastFirstExclusive(pending);
    forall path ensures Pending(LastFirst(pending), path) <==> Pending(pending, path) {
      LastFirstPending(pending, path);
    }
  }

  lemma {:induction false} WalkDone(root: Node, h: bytes -> Digest, records: seq<Record>)
    requires Progress(root, h, records, [])
    ensures Lists(root, h, records)
  {
    forall path | path in Paths(root) ensures exists i :: 0 <= i < |records| && records[i].path == path {
      assert Recorded(records, path);
    }
  }

  // ---------- the byte stream over the sorted records ----------

  const TREE_DOMAIN: bytes := [
    0x41, 0x4E, 0x48, 0x55, 0x41, 0x4E, 0x5F, 0x4D, 0x49, 0x4E, 0x49, 0x4F,
    0x5F, 0x54, 0x52, 0x45, 0x45, 0x5F, 0x56, 0x31, 0x00]

  function PathBytes(r: Record): bytes {
    Utf8(Posix(r.path))
  }

  /** int.to_bytes(8, "big") raises OverflowError on anything else. */
  predicate Fits(r: Record) {
    |PathBytes(r)| < Pow256(8) && (r.kind.Regular? ==> r.kind.size < Pow256(8))
  }

  predicate AllFit(records: seq<Record>) {
    forall i :: 0 <= i < |records| ==> Fits(records[i])
  }

  function RecordBytes(r: Record): (b: bytes)
    requires Fits(r)
    ensures b != []
  {
    var path := PathBytes(r);
    match r.kind
    case Directory => [0x44] + (BigEndian(|path|, 8) + path)
    case Regular(size, digest) => [0x46] + (BigEndian(|path|, 8) + (path + (BigEndian(size, 8) + digest)))
  }

  function TreeStream(records: seq<Record>): bytes
    requires AllFit(records)
  {
    if records == [] then [] else RecordBytes(records[0]) + TreeStream(records[1..])
  }

  function FileCount(records: seq<Record>): nat {
    if records == [] then 0 else (if records[0].kind.Regular? then 1 else 0) + FileCount(records[1..])
  }

  function TotalSize(records: seq<Record>): nat {
    if records == [] then 0
    else (if records[0].kind.Regular? then records[0].kind.size else 0) + TotalSize(records[1..])
  }

  /** A length-prefixed block at the front of a stream is determined by the stream. */
  lemma {:induction false} BlockUnique(a: bytes, x: bytes, b: bytes, y: bytes)
    requires |a| < Pow256(8) && |b| < Pow256(8)
    requires BigEndian(|a|, 8) + (a + x) == BigEndian(|b|, 8) + (b + y)
    ensures a == b && x == y
  {
    CancelPrefix(BigEndian(|a|, 8), a + x, BigEndian(|b|, 8), b + y);
    BigEndianInjective(|a|, |b|, 8);
    CancelPrefix(a, x, b, y);
  }

  lemma {:induction false} SizeAndDigestUnique(m: nat, d: Digest, x: bytes, n: nat, e: Digest, y: bytes)
    requires m < Pow256(8) && n < Pow256(8)
    requires BigEndian(m, 8) + d + x == BigEndian(n, 8) + e + y
    ensures m == n && d == e && x == y
  {
    assert BigEndian(m, 8) + d + x == BigEndian(m, 8) + (d + x);
    assert BigEndian(n, 8) + e + y == BigEndian(n, 8) + (e + y);
    CancelPrefix(BigEndian(m, 8), d + x, BigEndian(n, 8), e + y);
    BigEndianInjective(m, n, 8);
    CancelPrefix(d, x, e, y);
  }

  /** What follows the kind byte and the path. */
  function KindBytes(k: Kind): bytes
    requires k.Regular? ==> k.size < Pow256(8)
  {
    if k.Directory? then [] else BigEndian(k.size, 8) + k.digest
  }

  lemma {:induction false} RecordBytesParts(r: Record, x: bytes)
    requires Fits(r)
    ensures RecordBytes(r) + x ==
      [if r.kind.Directory? then 0x44 else 0x46]
      + (BigEndian(|PathBytes(r)|, 8) + (PathBytes(r) + (KindBytes(r.kind) + x)))
  {
  }

  lemma {:induction false} RecordUnique(r: Record, x: bytes, s: Record, y: bytes)
    requires Fits(r) && Fits(s) && ValidPath(r.path) && ValidPath(s.path)
    requires RecordBytes(r) + x == RecordBytes(s) + y
    ensures r == s && x == y
  {
    RecordBytesParts(r, x);
    RecordBytesParts(s, y);
    var p, q := KindBytes(r.kind) + x, KindBytes(s.kind) + y;
    CancelPrefix([if r.kind.Directory? then 0x44 else 0x46], BigEndian(|PathBytes(r)|, 8) + (PathBytes(r) + p),
                 [if s.kind.Directory? then 0x44 else 0x46], BigEndian(|PathBytes(s)|, 8) + (PathBytes(s) + q));
    BlockUnique(PathBytes(r), p, PathBytes(s), q);
    Utf8Injective(Posix(r.path), Posix(s.path));
    PosixInjective(r.path, s.path);
    if r.kind.Regular? {
      SizeAndDigestUnique(r.kind.size, r.kind.digest, x, s.kind.size, s.kind.digest, y);
    } else {
      assert [] + x == x && [] + y == y;
    }
  }

  /** The stream is uniquely decodable. */
  lemma {:induction false} TreeStreamInjective(a: seq<Record>, b: seq<Record>)
    requires AllFit(a) && AllFit(b)
    requires forall r :: r in a || r in b ==> ValidPath(r.path)
    requires TreeStream(a) == TreeStream(b)
    ensures a == b
  {
    if a != [] && b != [] {
      RecordUnique(a[0], TreeStream(a[1..]), b[0], TreeStream(b[1..]));
      TreeStreamInjective(a[1..], b[1..]);
      assert a == [a[0]] + a[1..] && b == [b[0]] + b[1..];
    }
  }

  // ---------- _tree_summary ----------

  datatype Summary = Summary(digest: Digest, fileCount: nat, totalSize: nat)

  datatype Outcome = Summarized(summary: Summary) | OverflowError

  function Summarize(h: bytes -> Digest, records: seq<Record>): Outcome {
    if AllFit(records) then
      Summarized(Summary(h(TREE_DOMAIN + TreeStream(records)), FileCount(records), TotalSize(records)))
    else OverflowError
  }

  function RecordedPaths(records: seq<Record>): set<Path> {
    set i | 0 <= i < |records| :: records[i].path
  }

  lemma {:induction false} InitialProgress(root: Node, h: bytes -> Digest)
    requires root.Dir?
    ensures Progress(root, h, [], [Task([], root, root.entries.Keys)])
  {
    var tasks := [Task([], root, root.entries.Keys)];
    forall path | path in Paths(root) ensures Pending(tasks, path) {
      PathsAreLookups(root, path);
      assert Covers(tasks[0], path);
    }
  }

  lemma {:induction false} RecordsInside(root: Node, h: bytes -> Digest, records: seq<Record>)
    requires TrueRecords(root, h, records)
    ensures RecordedPaths(records) <= Paths(root)
  {
    forall path | path in RecordedPaths(records) ensures path in Paths(root) {
      var i :| 0 <= i < |records| && records[i].path == path;
      assert RecordsNode(root, h, records[i]);
      PathsAreLookups(root, path);
    }
  }

  lemma {:induction false} NewRecordGrows(records: seq<Record>, r: Record)
    requires DistinctPaths(records + [r])
    ensures RecordedPaths(records) < RecordedPaths(records + [r])
  {
    var records' := records + [r];
    forall path | path in RecordedPaths(records) ensures path in RecordedPaths(records') {
      var i :| 0 <= i < |records| && records[i].path == path;
      assert records'[i].path == path;
    }
    assert forall i :: 0 <= i < |records| ==> records[i].path == records'[i].path && records'[i].path != records'[|records|].path;
    assert r.path !in RecordedPaths(records);
    assert records'[|records|].path == r.path;
    assert r.path in RecordedPaths(records');
  }

  /** The walk. scandir may list a directory in any order: the next name is an arbitrary one. */
  method ListTree(root: Node, h: bytes -> Digest) returns (records: seq<Record>)
    requires root.Dir?
    ensures Lists(root, h, records)
  {
    records := [];
    var pending := [Task([], root, root.entries.Keys)];
    InitialProgress(root, h);
    while pending != []
      invariant Progress(root, h, records, pending)
      invariant RecordedPaths(records) <= Paths(root)
      decreases Paths(root) - RecordedPaths(records), |pending|
    {
      TakeLast(root, h, records, pending);
      var task := pending[|pending| - 1];
      ghost var before := RecordedPaths(records);
      ghost var queued := |pending|;
      pending := pending[..|pending| - 1];
      assert ([task] + pending)[0] == task;
      while task.left != {}
        invariant task.dir.Dir? && task.left <= task.dir.entries.Keys
        invariant Progress(root, h, records, [task] + pending)
        invariant before <= RecordedPaths(records)
        invariant |pending| < queued || before < RecordedPaths(records)
        decreases task.left
      {
        var name :| name in task.left;
        var child := task.dir.entries[name];
        var record := Record(task.path + [name], KindOf(h, child));
        VisitEntry(root, h, records, task, pending, name);
        NewRecordGrows(records, record);
        ghost var next := AfterEntry(task, pending, name);
        records := records + [record];
        pending := pending + ChildTasks(record.path, child);
        task := task.(left := task.left - {name});
        assert [task] + pending == next;
      }
      DropFinished(root, h, records, task, pending);
      RecordsInside(root, h, records);
    }
    WalkDone(root, h, records);
  }

  lemma {:induction false} PrefixGrows(records: seq<Record>, i: nat)
    requires i < |records| && AllFit(records[..i]) && Fits(records[i])
    ensures AllFit(records[..i + 1])
    ensures TreeStream(records[..i + 1]) == TreeStream(records[..i]) + RecordBytes(records[i])
    ensures FileCount(records[..i + 1]) == FileCount(records[..i]) + (if records[i].kind.Regular? then 1 else 0)
    ensures TotalSize(records[..i + 1])
         == TotalSize(records[..i]) + (if records[i].kind.Regular? then records[i].kind.size else 0)
  {
    assert records[..i + 1] == records[..i] + [records[i]];
    StreamAppend(records[..i], records[i]);
    CountsAppend(records[..i], records[i]);
  }

  /** The loop over the sorted records that feeds the digest and counts. */
  method HashRecords(records: seq<Record>, h: bytes -> Digest) returns (outcome: Outcome)
    ensures outcome == Summarize(h, records)
  {
    var stream := [];
    var fileCount, totalSize := 0, 0;
    var i := 0;
    while i < |records|
      invariant 0 <= i <= |records|
      invariant AllFit(records[..i])
      invariant stream == TreeStream(records[..i])
      invariant fileCount == FileCount(records[..i]) && totalSize == TotalSize(records[..i])
    {
      var r := records[i];
      if !Fits(r) {
        return OverflowError;
      }
      PrefixGrows(records, i);
      stream := stream + RecordBytes(r);
      if r.kind.Regular? {
        fileCount := fileCount + 1;
        totalSize := totalSize + r.kind.size;
      }
      i := i + 1;
    }
    assert records[..i] == records;
    outcome := Summarized(Summary(h(TREE_DOMAIN + stream), fileCount, totalSize));
  }

  lemma {:induction false} StreamAppend(records: seq<Record>, r: Record)
    requires AllFit(records) && Fits(r)
    ensures AllFit(records + [r]) && TreeStream(records + [r]) == TreeStream(records) + RecordBytes(r)
  {
    var all := records + [r];
    if records == [] {
      assert all == [r] && all[1..] == [];
      assert RecordBytes(r) + [] == RecordBytes(r);
    } else {
      assert all[0] == records[0] && all[1..] == records[1..] + [r];
      StreamAppend(records[1..], r);
      Associate(RecordBytes(records[0]), TreeStream(records[1..]), RecordBytes(r));
    }
  }

  lemma {:induction false} Associate<T>(a: seq<T>, b: seq<T>, c: seq<T>)
    ensures a + b + c == a + (b + c)
  {
  }

  lemma {:induction false} CountsAppend(records: seq<Record>, r: Record)
    ensures FileCount(records + [r]) == FileCount(records) + (if r.kind.Regular? then 1 else 0)
    ensures TotalSize(records + [r]) == TotalSize(records) + (if r.kind.Regular? then r.kind.size else 0)
  {
    if records == [] {
      assert records + [r] == [r];
    } else {
      assert (records + [r])[1..] == records[1..] + [r];
      CountsAppend(records[1..], r);
    }
  }

  /** _tree_summary: the walk, the sort, and the digest over the sorted records. */
  method TreeSummary(root: Node, h: bytes -> Digest) returns (outcome: Outcome, ghost records: seq<Record>)
    requires root.Dir?
    ensures SortedList(root, h, records) && outcome == Summarize(h, records)
    ensures ValidTree(root) ==> forall other :: SortedList(root, h, other) ==> outcome == Summarize(h, other)
  {
    var listed := ListTree(root, h);
    SortLists(root, h, listed);
    records := SortBy(SortKey, listed);
    outcome := HashRecords(SortBy(SortKey, listed), h);
    if ValidTree(root) {
      forall other | SortedList(root, h, other) ensures outcome == Summarize(h, other) {
        SortedListUnique(root, h, records, other);
      }
    }
  }

  // ---------- what a summary commits to ----------

  /** Same paths, and at each path the same kind, size and content digest. */
  ghost predicate SameTree(a: Node, b: Node, h: bytes -> Digest) {
    forall path: Path :: path != [] ==>
      && (Lookup(a, path).Some? <==> Lookup(b, path).Some?)
      && (Lookup(a, path).Some? ==> KindOf(h, Lookup(a, path).value) == KindOf(h, Lookup(b, path).value))
  }

  lemma {:induction false} SameTreeSameList(a: Node, b: Node, h: bytes -> Digest, ra: seq<Record>, rb: seq<Record>)
    requires ValidTree(a) && ValidTree(b)
    requires SortedList(a, h, ra) && SortedList(b, h, rb)
    ensures SameTree(a, b, h) <==> ra == rb
  {
    if SameTree(a, b, h) {
      forall path | path in Paths(a) ensures path in Paths(b) {
        PathsAreLookups(a, path);
        PathsAreLookups(b, path);
      }
      forall path | path in Paths(b) ensures path in Paths(a) {
        PathsAreLookups(a, path);
        PathsAreLookups(b, path);
      }
      forall r | r in rb ensures RecordsNode(a, h, r) {
        assert RecordsNode(b, h, r);
      }
      assert SortedList(a, h, rb);
      SortedListUnique(a, h, ra, rb);
    }
    if ra == rb {
      forall path: Path | path != []
        ensures Lookup(a, path).Some? <==> Lookup(b, path).Some?
        ensures Lookup(a, path).Some? ==> KindOf(h, Lookup(a, path).value) == KindOf(h, Lookup(b, path).value)
      {
        PathsAreLookups(a, path);
        PathsAreLookups(b, path);
        if Lookup(a, path).Some? || Lookup(b, path).Some? {
          var i :| 0 <= i < |ra| && ra[i].path == path;
          assert ra[i] in ra && ra[i] in rb;
          assert RecordsNode(a, h, ra[i]) && RecordsNode(b, h, ra[i]);
        }
      }
    }
  }

  lemma {:induction false} ListedPathsValid(root: Node, h: bytes -> Digest, records: seq<Record>)
    requires ValidTree(root) && Lists(root, h, records)
    ensures forall r :: r in records ==> ValidPath(r.path)
  {
    forall r | r in records ensures ValidPath(r.path) {
      LookupValid(root, r.path);
    }
  }

  /** Two trees have equal summaries exactly when they are the same tree, unless the two streams
      are a collision of the hash. */
  lemma {:induction false} SummaryIffSameTree(a: Node, b: Node, h: bytes -> Digest, ra: seq<Record>, rb: seq<Record>)
    requires ValidTree(a) && ValidTree(b)
    requires SortedList(a, h, ra) && SortedList(b, h, rb)
    requires AllFit(ra) && AllFit(rb)
    requires Separates(h, TREE_DOMAIN + TreeStream(ra), TREE_DOMAIN + TreeStream(rb))
    ensures Summarize(h, ra) == Summarize(h, rb) <==> SameTree(a, b, h)
  {
    SameTreeSameList(a, b, h, ra, rb);
    if Summarize(h, ra) == Summarize(h, rb) {
      CancelPrefix(TREE_DOMAIN, TreeStream(ra), TREE_DOMAIN, TreeStream(rb));
      ListedPathsValid(a, h, ra);
      ListedPathsValid(b, h, rb);
      TreeStreamInjective(ra, rb);
    }
  }

  /** What comparing two summaries decides, when the trees can be summarised at all. */
  lemma {:induction false} ComparisonDecides(a: Node, b: Node, h: bytes -> Digest, ra: seq<Record>, rb: seq<Record>)
    requires ValidTree(a) && ValidTree(b)
    requires SortedList(a, h, ra) && SortedList(b, h, rb)
    ensures SameTree(a, b, h) ==> Summarize(h, ra) == Summarize(h, rb)
    ensures (&& AllFit(ra) && AllFit(rb) && Summarize(h, ra) == Summarize(h, rb)
             && Separates(h, TREE_DOMAIN + TreeStream(ra), TREE_DOMAIN + TreeStream(rb)))
            ==> SameTree(a, b, h)
  {
    SameTreeSameList(a, b, h, ra, rb);
    if AllFit(ra) && AllFit(rb) && Separates(h, TREE_DOMAIN + TreeStream(ra), TREE_DOMAIN + TreeStream(rb)) {
      SummaryIffSameTree(a, b, h, ra, rb);
    }
  }

  /** The same tree means the same contents, unless two files collide. */
  lemma {:induction false} SameTreeEqual(a: Node, b: Node, h: bytes -> Digest)
    requires a.Dir? <==> b.Dir?
    requires a.File? ==> a.content == b.content
    requires SameTree(a, b, h)
    requires forall path: Path ::
      (&& Lookup(a, path).Some? && Lookup(b, path).Some?
       && Lookup(a, path).value.File? && Lookup(b, path).value.File?)
      ==> Separates(h, Lookup(a, path).value.content, Lookup(b, path).value.content)
    ensures a == b
    decreases a
  {
    if a.Dir? {
      forall name | name in a.entries || name in b.entries
        ensures name in a.entries && name in b.entries && a.entries[name] == b.entries[name]
      {
        LookupOne(a, name);
        LookupOne(b, name);
        assert Lookup(a, [name]).Some? <==> Lookup(b, [name]).Some?;
        var x, y := a.entries[name], b.entries[name];
        assert KindOf(h, x) == KindOf(h, y);
        forall path: Path
          ensures Lookup(x, path) == Lookup(a, [name] + path) && Lookup(y, path) == Lookup(b, [name] + path)
        {
          LookupAppend(a, [name], path);
          LookupAppend(b, [name], path);
        }
        SameTreeEqual(x, y, h);
      }
      assert a.entries == b.entries;
    }
  }

  lemma {:induction false} LookupOne(n: Node, name: string)
    requires n.Dir?
    ensures Lookup(n, [name]) == if name in n.entries then Some(n.entries[name]) else None
  {
  }
}
