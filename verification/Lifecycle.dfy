/** The scratch resources of a run of infra/f1/local_ingestion_verify.py: a database, a directory of
    secrets, three buckets and the storage module's bucket names, acquired, used and released under
    arbitrary failures.

    A step of an external system either takes effect or does not, and either returns or raises. */
module Lifecycle {
  import opened Wrappers

  /** The reasons that matter here; every other one is Other. */
  datatype Reason = ObjectCleanupFailed | ScratchCleanupFailed | InternalError | SourceMutation | NamespaceFailed
    | CreateFailed | Other(code: string)

  datatype BucketNames = BucketNames(quarantine: string, preview: string, released: string)

  const STANDARD := BucketNames("anhuan-f1-quarantine", "anhuan-f1-previews", "anhuan-f1-documents")

  function Buckets(r: BucketNames): seq<string> {
    [r.quarantine, r.preview, r.released]
  }

  // ---------- names ----------

  predicate LowerHex(c: char) {
    '0' <= c <= '9' || 'a' <= c <= 'f'
  }

  predicate HexOf(s: string, n: nat) {
    |s| == n && forall i :: 0 <= i < n ==> LowerHex(s[i])
  }

  /** The 24 hexadecimal digits of a source database's name. */
  function Stem(digits: string, nonce: string): string
    requires HexOf(digits, 24) && HexOf(nonce, 32)
  {
    "anhuan-ingest-" + digits[..12] + "-" + nonce[..16]
  }

  function ResourceNames(digits: string, nonce: string): BucketNames
    requires HexOf(digits, 24) && HexOf(nonce, 32)
  {
    var stem := Stem(digits, nonce);
    BucketNames(stem + "-q", stem + "-p", stem + "-r")
  }

  lemma {:induction false} StemInjective(d: string, n: string, d': string, n': string)
    requires HexOf(d, 24) && HexOf(n, 32) && HexOf(d', 24) && HexOf(n', 32)
    requires Stem(d, n) == Stem(d', n')
    ensures d[..12] == d'[..12] && n[..16] == n'[..16]
  {
    var s, t := Stem(d, n), Stem(d', n');
    assert |"anhuan-ingest-"| == 14;
    assert s[14..26] == d[..12] && t[14..26] == d'[..12];
    assert s[27..43] == n[..16] && t[27..43] == n'[..16];
  }

  /** The three names of a run differ from each other, and from every name of a run whose project or
      nonce starts differently. */
  lemma {:induction false} NamesApart(d: string, n: string, d': string, n': string, i: nat, j: nat)
    requires HexOf(d, 24) && HexOf(n, 32) && HexOf(d', 24) && HexOf(n', 32) && i < 3 && j < 3
    requires Buckets(ResourceNames(d, n))[i] == Buckets(ResourceNames(d', n'))[j]
    ensures i == j && d[..12] == d'[..12] && n[..16] == n'[..16]
  {
    var s, t := Stem(d, n), Stem(d', n');
    var a, b := Buckets(ResourceNames(d, n))[i], Buckets(ResourceNames(d', n'))[j];
    assert |a| == |s| + 2 && |b| == |t| + 2;
    assert s == a[..|s|] == b[..|t|] == t;
    assert a[|s| + 1] == b[|t| + 1];
    StemInjective(d, n, d', n');
  }

  // ---------- object names ----------

  datatype Identity = Identity(task: string, objectKey: string)

  /** [0-9a-f]{32}/[0-9a-f]{32}\.json */
  predicate PreviewName(s: string) {
    |s| == 70 && HexOf(s[..32], 32) && s[32] == '/' && HexOf(s[33..65], 32) && s[65..] == ".json"
  }

  /** _validate_bucket_object. */
  predicate ValidObject(r: BucketNames, bucket: string, name: string, ids: seq<Identity>) {
    if bucket == r.quarantine || bucket == r.released then exists i :: 0 <= i < |ids| && ids[i].objectKey == name
    else bucket == r.preview && PreviewName(name) && exists i :: 0 <= i < |ids| && ids[i].task + "/" <= name
  }

  predicate Distinct(r: BucketNames) {
    r.quarantine != r.preview && r.quarantine != r.released && r.preview != r.released
  }

  /** A preview object that may be removed belongs to one task: the one its name starts with. */
  lemma {:induction false} PreviewOwner(r: BucketNames, name: string, ids: seq<Identity>)
    requires Distinct(r) && forall i :: 0 <= i < |ids| ==> HexOf(ids[i].task, 32)
    ensures ValidObject(r, r.preview, name, ids)
      <==> PreviewName(name) && exists i :: 0 <= i < |ids| && ids[i].task == name[..32]
  {
    if PreviewName(name) {
      forall i | 0 <= i < |ids| ensures ids[i].task + "/" <= name <==> ids[i].task == name[..32] {
        var prefix := ids[i].task + "/";
        assert |prefix| == 33 && prefix[..32] == ids[i].task && prefix[32] == '/';
        assert name[..33] == name[..32] + [name[32]];
        if prefix <= name {
          assert name[..33] == prefix;
          assert name[..32] == name[..33][..32];
        }
      }
    }
  }

  // ---------- the world ----------

  class World {
    var databases: set<string>
    var directories: set<string>
    var buckets: map<string, set<string>>
    var names: BucketNames
  }

  /** How a removal goes: it is done, it raises without effect, or it raises after its effect. */
  datatype Removal = Done | Refused | Lost

  /** Creating the database may be refused, or its answer lost: closing the connection can still
      raise after the effect. */
  method CreateScratchDatabase(w: World, name: string, refused: bool, lost: bool) returns (error: Option<Reason>)
    modifies w`databases
    ensures refused || name in old(w.databases) ==> error.Some? && w.databases == old(w.databases)
    ensures !refused && name !in old(w.databases) ==> w.databases == old(w.databases) + {name} && (error.Some? <==> lost)
    ensures error.Some? ==> error == Some(CreateFailed)
  {
    if refused || name in w.databases {
      return Some(CreateFailed);
    }
    w.databases := w.databases + {name};
    error := if lost then Some(CreateFailed) else None;
  }

  method DropScratchDatabase(w: World, name: string, removal: Removal) returns (error: Option<Reason>)
    modifies w`databases
    ensures w.databases == (if removal.Refused? then old(w.databases) else old(w.databases) - {name})
    ensures error == (if removal.Done? then None else Some(ScratchCleanupFailed))
  {
    if !removal.Refused? {
      w.databases := w.databases - {name};
    }
    error := if removal.Done? then None else Some(ScratchCleanupFailed);
  }

  method RemoveDirectory(w: World, path: string, removal: Removal) returns (error: Option<Reason>)
    modifies w`directories
    ensures w.directories == (if removal.Refused? then old(w.directories) else old(w.directories) - {path})
    ensures error == (if removal.Done? then None else Some(ScratchCleanupFailed))
  {
    if !removal.Refused? {
      w.directories := w.directories - {path};
    }
    error := if removal.Done? then None else Some(ScratchCleanupFailed);
  }

  lemma {:induction false} Longest(paths: set<string>) returns (path: string)
    ensures forall p :: p in paths ==> |p| <= |path|
  {
    path := "";
    var rest := paths;
    while rest != {}
      invariant rest <= paths
      invariant forall p :: p in paths && p !in rest ==> |p| <= |path|
    {
      var p :| p in rest;
      if |p| > |path| {
        path := p;
      }
      rest := rest - {p};
    }
  }

  /** tempfile.mkdtemp names a directory that does not exist yet. */
  method NewDirectory(w: World) returns (path: string)
    modifies w`directories
    ensures path !in old(w.directories) && w.directories == old(w.directories) + {path}
  {
    ghost var longest := Longest(w.directories);
    assert longest + "x" !in w.directories;
    path :| path !in w.directories;
    w.directories := w.directories + {path};
  }

  /** _scratch_secret_directory. Its first chmod comes after the directory exists and before the
      handler that would remove it. */
  method SecretDirectory(w: World, mkdtempRaises: bool, chmodRaises: bool, work: Option<Reason>, removal: Removal)
    returns (error: Option<Reason>, path: Option<string>)
    modifies w`directories
    ensures error == DirectoryError(mkdtempRaises, chmodRaises, work, removal)
    ensures error.None? <==> path.Some?
    ensures error.None? ==> path.value !in old(w.directories) && w.directories == old(w.directories) + {path.value}
    ensures error.Some? && error.value != ScratchCleanupFailed ==>
      (w.directories == old(w.directories) <==> mkdtempRaises || !chmodRaises)
  {
    path := None;
    if mkdtempRaises {
      return Some(InternalError), None;
    }
    var directory := NewDirectory(w);
    if chmodRaises {
      return Some(InternalError), None;
    }
    error := work;
    if error.Some? {
      var failed := RemoveDirectory(w, directory, removal);
      if failed.Some? {
        error := failed;
      }
    } else {
      path := Some(directory);
    }
  }

  /** What making the directory of secrets ends with. */
  function DirectoryError(mkdtempRaises: bool, chmodRaises: bool, work: Option<Reason>, removal: Removal): Option<Reason> {
    if mkdtempRaises || chmodRaises then Some(InternalError)
    else if work.Some? && !removal.Done? then Some(ScratchCleanupFailed)
    else work
  }

  /** The directory of secrets stays behind, and the error does not say so. */
  method ChmodLeak(w: World) returns (error: Option<Reason>)
    modifies w`directories
    ensures error == Some(InternalError) && w.directories != old(w.directories)
  {
    var path;
    error, path := SecretDirectory(w, false, true, None, Done);
  }

  // ---------- buckets ----------

  ghost predicate OthersUntouched(r: BucketNames, before: map<string, set<string>>, after: map<string, set<string>>) {
    forall b :: b !in Buckets(r) ==> (b in after <==> b in before) && (b in before ==> after[b] == before[b])
  }

  ghost predicate NoneLeft(r: BucketNames, after: map<string, set<string>>) {
    forall b :: b in Buckets(r) ==> b !in after
  }

  /** What the API run leaves in the run's own buckets, next to what is in the others. */
  function Used(r: BucketNames, before: map<string, set<string>>, left: map<string, set<string>>): map<string, set<string>> {
    map b | b in before.Keys + left.Keys && (if b in Buckets(r) then b in left else b in before)
      :: if b in Buckets(r) then left[b] else before[b]
  }

  /** The API run: whatever it does, it does to the run's own buckets. */
  method UseBuckets(w: World, r: BucketNames, left: map<string, set<string>>, work: Option<Reason>) returns (error: Option<Reason>)
    modifies w`buckets
    ensures w.buckets == Used(r, old(w.buckets), left) && error == work
  {
    w.buckets := Used(r, w.buckets, left);
    error := work;
  }

  method AssertBucketsAbsent(w: World, r: BucketNames, look: Option<Reason>) returns (error: Option<Reason>)
    ensures error == if look.Some? then look else if NoneLeft(r, w.buckets) then None else Some(NamespaceFailed)
  {
    error := look;
    if error.None? && (r.quarantine in w.buckets || r.preview in w.buckets || r.released in w.buckets) {
      error := Some(NamespaceFailed);
    }
  }

  /** Whatever was there and is gone had passed validation. */
  ghost predicate GoneValid(r: BucketNames, ids: seq<Identity>, before: map<string, set<string>>, after: map<string, set<string>>) {
    forall b, o :: b in before && o in before[b] && !(b in after && o in after[b]) ==> ValidObject(r, b, o, ids)
  }

  /** All objects in the run's buckets pass validation. */
  ghost predicate AllValid(r: BucketNames, ids: seq<Identity>, buckets: map<string, set<string>>) {
    forall b, o :: b in Buckets(r) && b in buckets && o in buckets[b] ==> ValidObject(r, b, o, ids)
  }

  /** How the calls on one bucket go: looking at it and into it, removing each object, and removing
      the bucket. */
  datatype BucketCalls = BucketCalls(look: bool, remove: string -> bool, drop: Removal)

  /** Removing a bucket's objects one by one. */
  method RemoveObjects(w: World, r: BucketNames, ids: seq<Identity>, bucket: string, calls: BucketCalls) returns (ok: bool)
    requires bucket in w.buckets && forall o :: o in w.buckets[bucket] ==> ValidObject(r, bucket, o, ids)
    modifies w`buckets
    ensures w.buckets.Keys == old(w.buckets.Keys)
    ensures forall b :: b in w.buckets && b != bucket ==> w.buckets[b] == old(w.buckets)[b]
    ensures w.buckets[bucket] <= old(w.buckets)[bucket]
    ensures GoneValid(r, ids, old(w.buckets), w.buckets)
    ensures ok <==> forall o :: o in old(w.buckets)[bucket] ==> calls.remove(o)
    ensures ok ==> w.buckets[bucket] == {}
  {
    var rest := w.buckets[bucket];
    while rest != {}
      invariant w.buckets.Keys == old(w.buckets.Keys)
      invariant w.buckets[bucket] == rest <= old(w.buckets)[bucket]
      invariant forall b :: b in w.buckets && b != bucket ==> w.buckets[b] == old(w.buckets)[b]
      invariant forall o :: o in old(w.buckets)[bucket] && o !in rest ==> calls.remove(o)
    {
      var o :| o in rest;
      if !calls.remove(o) {
        return false;
      }
      rest := rest - {o};
      w.buckets := w.buckets[bucket := rest];
    }
    ok := true;
  }

  /** The clean-up of one bucket goes through: every call succeeds and every object is valid. */
  ghost predicate Cleans(r: BucketNames, ids: seq<Identity>, bucket: string, calls: BucketCalls, buckets: map<string, set<string>>) {
    && calls.look
    && (bucket in buckets ==>
          calls.drop.Done? && forall o :: o in buckets[bucket] ==> ValidObject(r, bucket, o, ids) && calls.remove(o))
  }

  /** One bucket of _cleanup_buckets: an object that fails validation stops it before anything of
      that bucket is removed. */
  method CleanupBucket(w: World, r: BucketNames, ids: seq<Identity>, bucket: string, calls: BucketCalls) returns (ok: bool)
    modifies w`buckets
    ensures forall b :: b != bucket ==> (b in w.buckets <==> b in old(w.buckets)) && (b in w.buckets ==> w.buckets[b] == old(w.buckets)[b])
    ensures GoneValid(r, ids, old(w.buckets), w.buckets)
    ensures ok <==> Cleans(r, ids, bucket, calls, old(w.buckets))
    ensures ok ==> bucket !in w.buckets
    ensures bucket in old(w.buckets) && (exists o :: o in old(w.buckets)[bucket] && !ValidObject(r, bucket, o, ids)) ==>
      !ok && w.buckets == old(w.buckets)
  {
    if !calls.look || bucket !in w.buckets {
      return calls.look;
    }
    if exists o :: o in w.buckets[bucket] && !ValidObject(r, bucket, o, ids) {
      return false;
    }
    ok := RemoveObjects(w, r, ids, bucket, calls);
    if ok {
      if !calls.drop.Refused? {
        w.buckets := w.buckets - {bucket};
      }
      ok := calls.drop.Done?;
    }
  }

  ghost predicate CleansAll(r: BucketNames, ids: seq<Identity>, calls: string -> BucketCalls, buckets: map<string, set<string>>) {
    forall b :: b in Buckets(r) ==> Cleans(r, ids, b, calls(b), buckets)
  }

  method CleanupBuckets(w: World, r: BucketNames, ids: seq<Identity>, calls: string -> BucketCalls) returns (ok: bool)
    modifies w`buckets
    ensures OthersUntouched(r, old(w.buckets), w.buckets)
    ensures GoneValid(r, ids, old(w.buckets), w.buckets)
    ensures ok <==> CleansAll(r, ids, calls, old(w.buckets))
    ensures ok ==> NoneLeft(r, w.buckets) && AllValid(r, ids, old(w.buckets))
  {
    assert r.quarantine in Buckets(r) && r.preview in Buckets(r) && r.released in Buckets(r);
    ok := CleanupBucket(w, r, ids, r.quarantine, calls(r.quarantine));
    if ok {
      ok := CleanupBucket(w, r, ids, r.preview, calls(r.preview));
    }
    if ok {
      ok := CleanupBucket(w, r, ids, r.released, calls(r.released));
    }
  }

  // ---------- the probe ----------

  /** What the surroundings answer to the probe's steps: migrations, seeds and endpoint checks, building
      the client, looking for the buckets, what the API run leaves in them, and how it ends; whether
      the source database turns out changed; and how the clean-up's calls go. */
  datatype Use = Use(setup: Option<Reason>, client: Option<Reason>, look: Option<Reason>,
                     left: map<string, set<string>>, work: Option<Reason>, mutated: Option<Reason>,
                     dispose: bool, collect: bool, calls: string -> BucketCalls)

  /** The probe takes the run's buckets for its own: it could move the storage module to them, and
      they did not exist. */
  ghost predicate Owns(use: Use, r: BucketNames, names: BucketNames, buckets: map<string, set<string>>) {
    use.setup.None? && names == STANDARD && use.client.None? && use.look.None? && NoneLeft(r, buckets)
  }

  /** The error that the probe holds back. */
  ghost function ProbeError(use: Use, r: BucketNames, names: BucketNames, buckets: map<string, set<string>>): Option<Reason> {
    if use.setup.Some? then use.setup
    else if names != STANDARD then Some(NamespaceFailed)
    else if use.client.Some? then use.client
    else if use.look.Some? then use.look
    else if !NoneLeft(r, buckets) then Some(NamespaceFailed)
    else use.work
  }

  /** The part of the probe whose errors are held back: it moves the storage module to the run's
      buckets, claims them if they do not exist yet, and uses them. */
  method Probe(w: World, r: BucketNames, use: Use) returns (error: Option<Reason>, activated: bool, owned: bool)
    modifies w`buckets, w`names
    ensures activated ==> old(w.names) == STANDARD && w.names == r
    ensures !activated ==> w.names == old(w.names)
    ensures owned <==> Owns(use, r, old(w.names), old(w.buckets))
    ensures error == ProbeError(use, r, old(w.names), old(w.buckets))
    ensures owned ==> activated && w.buckets == Used(r, old(w.buckets), use.left)
    ensures !owned ==> error.Some? && w.buckets == old(w.buckets)
  {
    activated, owned := false, false;
    error := use.setup;
    if error.Some? {
      return;
    }
    if w.names != STANDARD {
      error := Some(NamespaceFailed);
      return;
    }
    w.names := r;
    activated := true;
    error := use.client;
    if error.Some? {
      return;
    }
    error := AssertBucketsAbsent(w, r, use.look);
    if error.Some? {
      return;
    }
    owned := true;
    error := UseBuckets(w, r, use.left, use.work);
  }

  lemma {:induction false} BucketsRestored(r: BucketNames, before: map<string, set<string>>, after: map<string, set<string>>)
    requires NoneLeft(r, before) && NoneLeft(r, after) && OthersUntouched(r, before, after)
    ensures before == after
  {
    forall b | b in before ensures b in after && after[b] == before[b] {
      assert b !in Buckets(r);
    }
    forall b | b in after ensures b in before {
      assert b !in Buckets(r);
    }
  }

  /** Everything that went had passed validation, and with several tasks nothing went. */
  ghost predicate CleanedUp(r: BucketNames, tasks: seq<Identity>, before: map<string, set<string>>,
                            after: map<string, set<string>>)
  {
    GoneValid(r, tasks, before, after) && (|tasks| > 1 ==> after == before)
  }

  /** The clean-up of the probe goes through: no call of it fails, and where the buckets are owned the
      database names one task at most and every object belongs to it. */
  ghost predicate ScratchCleans(use: Use, r: BucketNames, tasks: seq<Identity>, names: BucketNames, buckets: map<string, set<string>>) {
    && use.dispose
    && (Owns(use, r, names, buckets) ==>
          use.collect && |tasks| <= 1 && CleansAll(r, tasks, use.calls, Used(r, buckets, use.left)))
  }

  /** What the probe ends with: a failed clean-up, else a change of the source database, else its own error. */
  ghost function ScratchError(use: Use, r: BucketNames, tasks: seq<Identity>, names: BucketNames,
                              buckets: map<string, set<string>>): Option<Reason>
  {
    if !ScratchCleans(use, r, tasks, names, buckets) then Some(ObjectCleanupFailed)
    else if use.mutated.Some? then use.mutated
    else ProbeError(use, r, names, buckets)
  }

  /** _execute_scratch_probe. The bucket names are always put back and foreign buckets are never
      touched. Where the run's buckets are owned, everything removed from what the API run left in
      them had passed validation, and nothing was removed if the database names several tasks; unless
      the error is a failed cleanup, all that was left had passed validation and is gone. */
  method ExecuteScratchProbe(w: World, r: BucketNames, tasks: seq<Identity>, use: Use) returns (error: Option<Reason>)
    modifies w`buckets, w`names
    ensures error == ScratchError(use, r, tasks, old(w.names), old(w.buckets))
    ensures w.names == old(w.names)
    ensures OthersUntouched(r, old(w.buckets), w.buckets)
    ensures !Owns(use, r, old(w.names), old(w.buckets)) ==> w.buckets == old(w.buckets)
    ensures Owns(use, r, old(w.names), old(w.buckets)) ==> CleanedUp(r, tasks, Used(r, old(w.buckets), use.left), w.buckets)
    ensures error != Some(ObjectCleanupFailed) ==> w.buckets == old(w.buckets)
    ensures error != Some(ObjectCleanupFailed) && Owns(use, r, old(w.names), old(w.buckets)) ==> AllValid(r, tasks, use.left)
    ensures error.None? ==> Owns(use, r, old(w.names), old(w.buckets)) && use.work.None?
  {
    var pending, activated, owned := Probe(w, r, use);
    // The source database must hold no row of this run.
    if use.mutated.Some? {
      pending := use.mutated;
    }
    var cleanupFailed := !use.dispose;
    if owned {
      // _collect_task_objects refuses more than one task.
      var ok := use.collect && |tasks| <= 1;
      if ok {
        ok := CleanupBuckets(w, r, tasks, use.calls);
      }
      if ok {
        BucketsRestored(r, old(w.buckets), w.buckets);
      } else {
        cleanupFailed := true;
      }
    }
    if activated {
      w.names := STANDARD;
    }
    error := if cleanupFailed then Some(ObjectCleanupFailed) else pending;
  }

  // ---------- the run ----------

  /** What the surroundings answer: whether the steps before the database fail, how the creation of
      database and directory go, whether filling the directory and hardening the database fail, how
      the probe goes, and how database and directory are removed. */
  datatype Answers = Answers(before: Option<Reason>, createRefused: bool, createLost: bool, mkdtempRaises: bool, chmodRaises: bool,
                             fill: Option<Reason>, harden: Option<Reason>, use: Use, drop: Removal, rmdir: Removal)

  /** The database was created but its answer lost, or the directory was created but not made private:
      the two resources that no handler knows about. */
  predicate Unowned(a: Answers, nameFree: bool) {
    a.before.None? && !a.createRefused && nameFree && (a.createLost || (!a.mkdtempRaises && a.chmodRaises))
  }

  /** The run gets as far as the probe. */
  predicate Probes(a: Answers, nameFree: bool) {
    && a.before.None? && !a.createRefused && nameFree && !a.createLost
    && !a.mkdtempRaises && !a.chmodRaises && a.fill.None? && a.harden.None?
  }

  /** The run takes its buckets for its own. */
  ghost predicate RunOwns(a: Answers, nameFree: bool, r: BucketNames, names: BucketNames, buckets: map<string, set<string>>) {
    Probes(a, nameFree) && Owns(a.use, r, names, buckets)
  }

  predicate Created(a: Answers, nameFree: bool) {
    a.before.None? && !a.createRefused && nameFree && !a.createLost
  }

  /** The directory is handed to the run, which then has to remove it. */
  predicate Filled(a: Answers, nameFree: bool) {
    Created(a, nameFree) && DirectoryError(a.mkdtempRaises, a.chmodRaises, a.fill, a.rmdir).None?
  }

  /** The error that the run holds back. */
  ghost function PendingError(a: Answers, nameFree: bool, r: BucketNames, tasks: seq<Identity>, names: BucketNames,
                              buckets: map<string, set<string>>): Option<Reason>
  {
    if a.before.Some? then a.before
    else if !Created(a, nameFree) then Some(CreateFailed)
    else if !Filled(a, nameFree) then DirectoryError(a.mkdtempRaises, a.chmodRaises, a.fill, a.rmdir)
    else if a.harden.Some? then a.harden
    else ScratchError(a.use, r, tasks, names, buckets)
  }

  ghost function RunError(a: Answers, nameFree: bool, r: BucketNames, tasks: seq<Identity>, names: BucketNames,
                          buckets: map<string, set<string>>): Option<Reason>
  {
    if Created(a, nameFree) && (!a.drop.Done? || (Filled(a, nameFree) && !a.rmdir.Done?)) then Some(ScratchCleanupFailed)
    else PendingError(a, nameFree, r, tasks, names, buckets)
  }

  predicate CleanupReason(error: Option<Reason>) {
    error == Some(ObjectCleanupFailed) || error == Some(ScratchCleanupFailed)
  }

  /** No step other than a clean-up announces a failed clean-up. */
  predicate Plain(a: Answers) {
    && !CleanupReason(a.before) && !CleanupReason(a.fill) && !CleanupReason(a.harden) && !CleanupReason(a.use.setup)
    && !CleanupReason(a.use.client) && !CleanupReason(a.use.look) && !CleanupReason(a.use.work) && !CleanupReason(a.use.mutated)
  }

  /** A clean-up that the run comes to does not go through: dropping its database, removing its
      directory, or cleaning up after the probe. */
  ghost predicate CleanupFails(a: Answers, nameFree: bool, r: BucketNames, tasks: seq<Identity>, names: BucketNames,
                               buckets: map<string, set<string>>)
  {
    Created(a, nameFree) &&
      (|| !a.drop.Done?
       || (!a.mkdtempRaises && !a.chmodRaises && !a.rmdir.Done?)
       || (Probes(a, nameFree) && !ScratchCleans(a.use, r, tasks, names, buckets)))
  }

  /** The error of a run announces a failed clean-up exactly when one failed. */
  lemma {:induction false} CleanupErrors(a: Answers, nameFree: bool, r: BucketNames, tasks: seq<Identity>, names: BucketNames,
                                         buckets: map<string, set<string>>)
    requires Plain(a)
    ensures CleanupReason(RunError(a, nameFree, r, tasks, names, buckets)) <==> CleanupFails(a, nameFree, r, tasks, names, buckets)
  {
    assert !CleanupReason(Some(CreateFailed)) && !CleanupReason(Some(InternalError)) && !CleanupReason(Some(NamespaceFailed));
    assert !CleanupReason(ProbeError(a.use, r, names, buckets));
  }

  /** run, where `tasks` is what the scratch database holds under the run's key. Whatever fails, the
      bucket names are restored, foreign buckets are untouched, only objects of the run's one task
      are removed, and the run adds at most its own database. A normal return, and every error but
      the two that announce a failed cleanup, leaves the world exactly as it was, if and only if no
      resource was created behind the handlers' back. */
  method Run(w: World, r: BucketNames, database: string, tasks: seq<Identity>, a: Answers) returns (error: Option<Reason>)
    modifies w
    ensures error == RunError(a, database !in old(w.databases), r, tasks, old(w.names), old(w.buckets))
    ensures w.names == old(w.names) && OthersUntouched(r, old(w.buckets), w.buckets)
    ensures !RunOwns(a, database !in old(w.databases), r, old(w.names), old(w.buckets)) ==> w.buckets == old(w.buckets)
    ensures RunOwns(a, database !in old(w.databases), r, old(w.names), old(w.buckets)) ==>
      CleanedUp(r, tasks, Used(r, old(w.buckets), a.use.left), w.buckets)
    ensures w.databases <= old(w.databases) + {database}
    ensures error != Some(ObjectCleanupFailed) && error != Some(ScratchCleanupFailed) ==>
      w.buckets == old(w.buckets)
      && (w.databases == old(w.databases) && w.directories == old(w.directories) <==> !Unowned(a, database !in old(w.databases)))
    ensures error != Some(ObjectCleanupFailed) && error != Some(ScratchCleanupFailed) ==>
      (RunOwns(a, database !in old(w.databases), r, old(w.names), old(w.buckets)) ==> AllValid(r, tasks, a.use.left))
    ensures error.None? ==> RunOwns(a, database !in old(w.databases), r, old(w.names), old(w.buckets)) && a.use.work.None?
    ensures a.before.None? && !a.createRefused && database !in old(w.databases) && a.createLost ==>
      error == Some(CreateFailed) && w.databases == old(w.databases) + {database}
  {
    var created := false;
    var directory: Option<string> := None;
    var pending := a.before;
    if pending.None? {
      pending := CreateScratchDatabase(w, database, a.createRefused, a.createLost);
      if pending.None? {
        created := true;
        pending, directory := SecretDirectory(w, a.mkdtempRaises, a.chmodRaises, a.fill, a.rmdir);
        if pending.None? {
          pending := a.harden;
          if pending.None? {
            pending := ExecuteScratchProbe(w, r, tasks, a.use);
          }
        }
      }
    }
    var cleanupFailed := false;
    if created {
      var failed := DropScratchDatabase(w, database, a.drop);
      cleanupFailed := failed.Some?;
    }
    if directory.Some? {
      var failed := RemoveDirectory(w, directory.value, a.rmdir);
      cleanupFailed := cleanupFailed || failed.Some?;
    }
    error := if cleanupFailed then Some(ScratchCleanupFailed) else pending;
  }

  /** A database whose creation took effect but whose answer was lost stays behind. */
  method LostCreation(w: World, name: string) returns (error: Option<Reason>)
    requires name !in w.databases
    modifies w
    ensures error == Some(CreateFailed) && name in w.databases
  {
    var use := Use(None, None, None, map[], None, None, true, true, b => BucketCalls(true, o => true, Done));
    var given := Answers(None, false, true, false, false, None, None, use, Done, Done);
    error := Run(w, STANDARD, name, [], given);
  }
}
