/** Publication makes progress: a publisher whose calls succeed installs its batch, or finds it
    installed, and makes it current, whatever state others left the directory in. */
module PublicationProgress {
  import opened Wrappers
  import opened Bytes
  import opened Batches
  import opened Publication
  import Rejection

  /** One publisher's calls, one after the other. */
  function Solo(h: bytes -> Digest, plan: Plan, m: Moved, choices: seq<Choice>): Moved
    decreases |choices|
  {
    if choices == [] then m else Solo(h, plan, Advance(h, m.dir, plan, m.pc, choices[0]), choices[1..])
  }

  lemma {:induction false} SoloThen(h: bytes -> Digest, plan: Plan, m: Moved, a: seq<Choice>, b: seq<Choice>)
    ensures Solo(h, plan, m, a + b) == Solo(h, plan, Solo(h, plan, m, a), b)
    decreases |a|
  {
    if a == [] {
      assert a + b == b;
    } else {
      assert (a + b)[0] == a[0] && (a + b)[1..] == a[1..] + b;
      SoloThen(h, plan, Advance(h, m.dir, plan, m.pc, a[0]), a[1..], b);
    }
  }

  lemma {:induction false} SoloFirst(h: bytes -> Digest, plan: Plan, m: Moved, c: Choice, rest: seq<Choice>)
    ensures Solo(h, plan, m, [c] + rest) == Solo(h, plan, Advance(h, m.dir, plan, m.pc, c), rest)
  {
    assert ([c] + rest)[0] == c && ([c] + rest)[1..] == rest;
  }

  lemma {:induction false} SoloTwo(h: bytes -> Digest, plan: Plan, m: Moved, a: Choice, b: Choice)
    ensures var n := Advance(h, m.dir, plan, m.pc, a);
      Solo(h, plan, m, [a, b]) == Advance(h, n.dir, plan, n.pc, b)
  {
    SoloFirst(h, plan, m, a, [b]);
    assert [a] + [b] == [a, b];
    SoloFirst(h, plan, Advance(h, m.dir, plan, m.pc, a), b, []);
    assert [b] + [] == [b];
  }

  lemma {:induction false} SoloThree(h: bytes -> Digest, plan: Plan, m: Moved, a: Choice, b: Choice, c: Choice)
    ensures var n := Advance(h, m.dir, plan, m.pc, a);
      var o := Advance(h, n.dir, plan, n.pc, b);
      Solo(h, plan, m, [a, b, c]) == Advance(h, o.dir, plan, o.pc, c)
  {
    SoloFirst(h, plan, m, a, [b, c]);
    assert [a] + [b, c] == [a, b, c];
    SoloTwo(h, plan, Advance(h, m.dir, plan, m.pc, a), b, c);
  }

  function Steps(pid: nat, choices: seq<Choice>): (actions: seq<Action>)
    ensures |actions| == |choices|
  {
    seq(|choices|, i requires 0 <= i < |choices| => Step(pid, choices[i]))
  }

  /** Scheduling only one publisher is running it alone. */
  lemma {:induction false} RunSolo(h: bytes -> Digest, s: State, pid: nat, choices: seq<Choice>)
    requires pid in s.publishers
    ensures var p := s.publishers[pid];
      var m := Solo(h, p.plan, Moved(s.dir, p.pc), choices);
      Run(h, s, Steps(pid, choices)) == State(m.dir, s.publishers[pid := p.(pc := m.pc)])
    decreases |choices|
  {
    var p := s.publishers[pid];
    var actions := Steps(pid, choices);
    if choices == [] {
      assert actions == [];
      assert s.publishers[pid := p.(pc := p.pc)] == s.publishers;
    } else {
      var moved := Advance(h, s.dir, p.plan, p.pc, choices[0]);
      var next := Apply(h, s, actions[0]);
      assert next == State(moved.dir, s.publishers[pid := p.(pc := moved.pc)]);
      assert actions[1..] == Steps(pid, choices[1..]);
      RunSolo(h, next, pid, choices[1..]);
      var m := Solo(h, p.plan, Moved(s.dir, p.pc), choices);
      assert next.publishers[pid := p.(pc := m.pc)] == s.publishers[pid := p.(pc := m.pc)];
    }
  }

  function Pick(name: string, id: nat, count: nat): Choice {
    Choice(false, false, name, id, count)
  }

  lemma {:induction false} Unused(used: set<nat>) returns (id: nat)
    ensures id !in used
  {
    id := 0;
    var rest := used;
    while rest != {}
      invariant rest <= used
      invariant forall x :: x in used && x !in rest ==> x < id
    {
      var x :| x in rest;
      id := if x < id then id else x + 1;
      rest := rest - {x};
    }
  }

  // ---------- writing the stage ----------

  function Create(d: Directory, stage: nat, name: string): Directory
    requires stage in d.stages
  {
    d.(stages := d.stages[stage := d.stages[stage][name := []]])
  }

  function Put(d: Directory, stage: nat, name: string, data: bytes): Directory
    requires stage in d.stages
  {
    d.(stages := d.stages[stage := d.stages[stage][name := data]])
  }

  /** Creating, writing and closing one file. */
  lemma {:induction false} WriteOne(h: bytes -> Digest, plan: Plan, d: Directory, stage: nat, todo: set<string>, name: string)
    returns (choices: seq<Choice>)
    requires stage in d.stages && name in todo && name in plan.files && name !in d.stages[stage]
    ensures Solo(h, plan, Moved(d, CreateFile(stage, todo)), choices)
         == Moved(Put(d, stage, name, plan.files[name]), CreateFile(stage, todo - {name}))
  {
    var data := plan.files[name];
    var made := Create(d, stage, name);
    var start := Moved(d, CreateFile(stage, todo));
    var c0, c1, c2 := Pick(name, 0, 0), Pick("", 0, |data|), Pick("", 0, 0);
    var created := Moved(made, WriteFile(stage, todo - {name}, name, 0));
    assert Advance(h, d, plan, start.pc, c0) == created;
    if data == [] {
      assert Put(d, stage, name, data) == made;
      var closed := Moved(made, CreateFile(stage, todo - {name}));
      assert Advance(h, made, plan, created.pc, c2) == closed;
      SoloTwo(h, plan, start, c0, c2);
      choices := [c0, c2];
    } else {
      var filled := Put(d, stage, name, data);
      var written := Moved(filled, WriteFile(stage, todo - {name}, name, |data|));
      assert data[..|data|] == data;
      assert made.stages[stage][name := data] == d.stages[stage][name := data];
      assert made.stages[stage := d.stages[stage][name := data]] == d.stages[stage := d.stages[stage][name := data]];
      assert Advance(h, made, plan, created.pc, c1) == written;
      assert Advance(h, filled, plan, written.pc, c2) == Moved(filled, CreateFile(stage, todo - {name}));
      SoloThree(h, plan, start, c0, c1, c2);
      choices := [c0, c1, c2];
    }
  }

  ghost predicate StageHas(d: Directory, plan: Plan, stage: nat, todo: set<string>) {
    && stage in d.stages && todo <= plan.files.Keys && d.stages[stage].Keys == plan.files.Keys - todo
    && forall name :: name in d.stages[stage] ==> d.stages[stage][name] == plan.files[name]
  }

  /** Filling a stage, file after file. */
  lemma {:induction false} WriteAll(h: bytes -> Digest, plan: Plan, d: Directory, stage: nat, todo: set<string>)
    returns (choices: seq<Choice>)
    requires StageHas(d, plan, stage, todo)
    ensures Solo(h, plan, Moved(d, CreateFile(stage, todo)), choices)
         == Moved(d.(stages := d.stages[stage := plan.files]), Rename(stage))
    decreases |todo|
  {
    if todo == {} {
      assert d.stages[stage] == plan.files;
      assert d.stages[stage := plan.files] == d.stages;
      choices := [Pick("", 0, 0)];
      assert choices[1..] == [];
    } else {
      var name :| name in todo;
      var first := WriteOne(h, plan, d, stage, todo, name);
      var next := Put(d, stage, name, plan.files[name]);
      var rest := WriteAll(h, plan, next, stage, todo - {name});
      SoloThen(h, plan, Moved(d, CreateFile(stage, todo)), first, rest);
      assert next.stages[stage := plan.files] == d.stages[stage := plan.files];
      choices := first + rest;
    }
  }

  // ---------- from an installed batch on ----------

  /** Making the batch current and retiring the old files. */
  lemma {:induction false} MakeCurrent(h: bytes -> Digest, plan: Plan, d: Directory) returns (choices: seq<Choice>, m: Moved)
    requires plan.accepted || !ContainsReady(plan.pointer)
    ensures m == Solo(h, plan, Moved(d, CreateCurrent), choices)
    ensures m.pc == Done && m.dir.current == Some(plan.pointer)
    ensures m.dir.batches == d.batches && m.dir.stages == d.stages
    ensures m.dir.legacy == d.legacy - CANDIDATE_FILES
  {
    var id := Unused(d.used + d.temps.Keys);
    var data := plan.pointer;
    var d1 := d.(temps := d.temps[id := []], used := d.used + {id});
    var c0 := Pick("", id, 0);
    assert Advance(h, d, plan, CreateCurrent, c0) == Moved(d1, WriteCurrent(id, 0));
    var d2 := d.(temps := d.temps[id := data], used := d.used + {id});
    var filled := FillTemp(h, plan, d, d1, d2, id);
    var d3 := d2.(current := Some(data), temps := d2.temps - {id});
    assert Advance(h, d2, plan, ReplaceCurrent(id), Pick("", 0, 0)) == Moved(d3, RemoveLegacy(CANDIDATE_FILES));
    var retire;
    retire, m := Retire(h, plan, d3, CANDIDATE_FILES);
    var tail := [Pick("", 0, 0)] + retire;
    assert tail[1..] == retire;
    SoloThen(h, plan, Moved(d1, WriteCurrent(id, 0)), filled, tail);
    choices := [c0] + (filled + tail);
    assert choices[1..] == filled + tail;
  }

  lemma {:induction false} FillTemp(h: bytes -> Digest, plan: Plan, d: Directory, d1: Directory, d2: Directory, id: nat)
    returns (choices: seq<Choice>)
    requires d1 == d.(temps := d.temps[id := []], used := d.used + {id})
    requires d2 == d.(temps := d.temps[id := plan.pointer], used := d.used + {id})
    ensures Solo(h, plan, Moved(d1, WriteCurrent(id, 0)), choices) == Moved(d2, ReplaceCurrent(id))
  {
    var data := plan.pointer;
    var c1, c2 := Pick("", 0, |data|), Pick("", 0, 0);
    if data == [] {
      choices := [c2];
      assert choices[1..] == [];
    } else {
      assert data[..|data|] == data && d1.temps[id := data] == d2.temps;
      assert Advance(h, d1, plan, WriteCurrent(id, 0), c1) == Moved(d2, WriteCurrent(id, |data|));
      SoloTwo(h, plan, Moved(d1, WriteCurrent(id, 0)), c1, c2);
      choices := [c1, c2];
    }
  }

  lemma {:induction false} Retire(h: bytes -> Digest, plan: Plan, d: Directory, todo: set<string>)
    returns (choices: seq<Choice>, m: Moved)
    ensures m == Moved(d.(legacy := d.legacy - todo), Done)
    ensures Solo(h, plan, Moved(d, RemoveLegacy(todo)), choices) == m
    decreases |todo|
  {
    m := Moved(d.(legacy := d.legacy - todo), Done);
    if todo == {} {
      assert d.legacy - todo == d.legacy;
      choices := [Pick("", 0, 0)];
      assert choices[1..] == [];
    } else {
      var name :| name in todo;
      var next := d.(legacy := d.legacy - {name});
      var rest, last := Retire(h, plan, next, todo - {name});
      choices := [Pick(name, 0, 0)] + rest;
      assert choices[1..] == rest;
      assert d.legacy - {name} - (todo - {name}) == d.legacy - todo;
    }
  }

  lemma {:induction false} VerifyAll(h: bytes -> Digest, plan: Plan, d: Directory, todo: set<string>) returns (choices: seq<Choice>)
    requires Installed(h, d, plan) && todo <= plan.files.Keys
    ensures Solo(h, plan, Moved(d, VerifyFile(None, todo)), choices) == Moved(d, CreateCurrent)
    decreases |todo|
  {
    if todo == {} {
      choices := [Pick("", 0, 0)];
      assert choices[1..] == [];
    } else {
      var name :| name in todo;
      var rest := VerifyAll(h, plan, d, todo - {name});
      choices := [Pick(name, 0, 0)] + rest;
      assert choices[1..] == rest;
    }
  }

  // ---------- a whole publication ----------

  /** A batch that is already installed is verified and reused. */
  lemma {:induction false} ReuseInstalled(h: bytes -> Digest, plan: Plan, d: Directory) returns (choices: seq<Choice>)
    requires Installed(h, d, plan)
    ensures Solo(h, plan, Moved(d, Look), choices) == Moved(d, CreateCurrent)
  {
    var rest := VerifyAll(h, plan, d, plan.files.Keys);
    var c := Pick("", 0, 0);
    choices := [c, c] + rest;
    assert choices[1..] == [c] + rest && ([c] + rest)[1..] == rest;
    assert Advance(h, d, plan, Look, c) == Moved(d, VerifyNames(None));
    assert Advance(h, d, plan, VerifyNames(None), c) == Moved(d, VerifyFile(None, plan.files.Keys));
  }

  /** A new batch is staged and renamed into place; the stage is gone afterwards. */
  lemma {:induction false} InstallNew(h: bytes -> Digest, plan: Plan, d: Directory) returns (choices: seq<Choice>, id: nat)
    requires plan.id !in d.batches && d.stages.Keys <= d.used
    ensures Solo(h, plan, Moved(d, Look), choices)
         == Moved(d.(batches := d.batches[plan.id := plan.files], used := d.used + {id}), CreateCurrent)
  {
    id := Unused(d.used);
    var c := Pick("", 0, 0);
    var d1 := d.(stages := d.stages[id := map[]], used := d.used + {id});
    assert Advance(h, d, plan, Look, c) == Moved(d, MakeStage);
    assert Advance(h, d, plan, MakeStage, Pick("", id, 0)) == Moved(d1, CreateFile(id, plan.files.Keys));
    var fill := WriteAll(h, plan, d1, id, plan.files.Keys);
    var d2 := d.(stages := d.stages[id := plan.files], used := d.used + {id});
    assert d1.stages[id := plan.files] == d2.stages;
    var d3 := d.(batches := d.batches[plan.id := plan.files], used := d.used + {id});
    assert d2.stages - {id} == d.stages;
    assert Advance(h, d2, plan, Rename(id), c) == Moved(d3, CleanStage(id, true));
    assert Advance(h, d3, plan, CleanStage(id, true), c) == Moved(d3, CreateCurrent);
    SoloTwo(h, plan, Moved(d2, Rename(id)), c, c);
    SoloThen(h, plan, Moved(d1, CreateFile(id, plan.files.Keys)), fill, [c, c]);
    var start := [c, Pick("", id, 0)];
    SoloTwo(h, plan, Moved(d, Look), c, Pick("", id, 0));
    SoloThen(h, plan, Moved(d, Look), start, fill + [c, c]);
    choices := start + (fill + [c, c]);
  }

  /** Scheduled alone, with calls that succeed, a publisher at its start installs its batch or reuses
      the installed one, makes it current and retires the superseded files, in any directory. */
  lemma {:induction false} PublisherFinishes(h: bytes -> Digest, s: State, pid: nat) returns (actions: seq<Action>)
    requires pid in s.publishers && s.publishers[pid].pc == Look && s.dir.stages.Keys <= s.dir.used
    requires var plan := s.publishers[pid].plan;
      && (plan.accepted || !ContainsReady(plan.pointer))
      && (plan.id in s.dir.batches ==> Installed(h, s.dir, plan))
    ensures var s' := Run(h, s, actions);
      var plan := s.publishers[pid].plan;
      && pid in s'.publishers && s'.publishers[pid].pc == Done
      && s'.dir.current == Some(plan.pointer)
      && s'.dir.batches == (if plan.id in s.dir.batches then s.dir.batches else s.dir.batches[plan.id := plan.files])
      && s'.dir.stages == s.dir.stages && s'.dir.legacy == s.dir.legacy - CANDIDATE_FILES
  {
    var plan := s.publishers[pid].plan;
    var first: seq<Choice>;
    var d := s.dir;
    if plan.id in d.batches {
      first := ReuseInstalled(h, plan, d);
    } else {
      var id;
      first, id := InstallNew(h, plan, d);
      d := d.(batches := d.batches[plan.id := plan.files], used := d.used + {id});
    }
    var rest, m := MakeCurrent(h, plan, d);
    SoloThen(h, plan, Moved(s.dir, Look), first, rest);
    RunSolo(h, s, pid, first + rest);
    actions := Steps(pid, first + rest);
  }

  // ---------- in a sound directory ----------

  lemma {:induction false} TextBytesSlice(s: string, i: nat, j: nat)
    requires i <= j <= |s|
    ensures TextBytes(s)[i..j] == TextBytes(s[i..j])
  {
  }

  lemma {:induction false} ShaOfBytes(h: bytes -> Digest, a: bytes, b: bytes)
    requires TextBytes(Sha(h, a)) == TextBytes(Sha(h, b))
    ensures h(a) == h(b)
  {
    var s, t := Sha(h, a), Sha(h, b);
    assert |TextBytes(s)| == |s| && |TextBytes(t)| == |t|;
    forall i | 0 <= i < |s| ensures s[i] == t[i] {
      assert IsLowerHexChar(s[i]) && IsLowerHexChar(t[i]);
      assert TextBytes(s)[i] == TextBytes(t)[i];
    }
    HexInjective(h(a), h(b));
  }

  lemma {:induction false} Parts(x1: string, a: string, x2: string, b: string, x3: string, c: string,
                                 x4: string, x5: string, x6: string)
    ensures var s := x1 + a + x2 + b + x3 + c + x4 + x5 + x6;
      var i, j := |x1|, |x1| + |a| + |x2|;
      var k := j + |b| + |x3|;
      k + |c| <= |s| && s[i..i + |a|] == a && s[j..j + |b|] == b && s[k..k + |c|] == c
  {
    var s := x1 + a + x2 + b + x3 + c + x4 + x5 + x6;
    assert s[..|x1| + |a|] == x1 + a;
    assert s[..|x1| + |a| + |x2| + |b|] == x1 + a + x2 + b;
    assert s[..|x1| + |a| + |x2| + |b| + |x3| + |c|] == x1 + a + x2 + b + x3 + c;
  }

  /** Where the three digests stand in a manifest. */
  lemma {:induction false} ManifestParts(a: string, b: string, c: string) returns (i: nat, j: nat, k: nat)
    requires |a| == |b| == |c| == 64
    ensures i == 39 && j == 124 && k == 211
    ensures k + 64 <= |ManifestText(a, b, c)| && ManifestText(a, b, c)[i..i + 64] == a
    ensures ManifestText(a, b, c)[j..j + 64] == b && ManifestText(a, b, c)[k..k + 64] == c
  {
    Parts("{\n  \"files\": {\n    \"acceptance.json\": \"", a, "\",\n    \"sbom.json\": \"", b,
          "\",\n    \"status.html\": \"", c, "\"\n  },\n  \"schema\": \"", "f1.1.1-immutable-batch-v1", "\"\n}\n");
    i := |"{\n  \"files\": {\n    \"acceptance.json\": \""|;
    j := i + 64 + |"\",\n    \"sbom.json\": \""|;
    k := j + 64 + |"\",\n    \"status.html\": \""|;
  }

  lemma {:induction false} SameTexts(h: bytes -> Digest, a: bytes, b: bytes, c: bytes, a': bytes, b': bytes, c': bytes)
    requires TextBytes(ManifestText(Sha(h, a), Sha(h, b), Sha(h, c))) == TextBytes(ManifestText(Sha(h, a'), Sha(h, b'), Sha(h, c')))
    ensures h(a) == h(a') && h(b) == h(b') && h(c) == h(c')
  {
    var s := ManifestText(Sha(h, a), Sha(h, b), Sha(h, c));
    var t := ManifestText(Sha(h, a'), Sha(h, b'), Sha(h, c'));
    var i, j, k := ManifestParts(Sha(h, a), Sha(h, b), Sha(h, c));
    var i', j', k' := ManifestParts(Sha(h, a'), Sha(h, b'), Sha(h, c'));
    SamePart(h, s, t, i, a, a');
    SamePart(h, s, t, j, b, b');
    SamePart(h, s, t, k, c, c');
  }

  lemma {:induction false} SamePart(h: bytes -> Digest, s: string, t: string, i: nat, x: bytes, y: bytes)
    requires TextBytes(s) == TextBytes(t) && i + 64 <= |s| && i + 64 <= |t|
    requires s[i..i + 64] == Sha(h, x) && t[i..i + 64] == Sha(h, y)
    ensures h(x) == h(y)
  {
    TextBytesSlice(s, i, i + 64);
    TextBytesSlice(t, i, i + 64);
    ShaOfBytes(h, x, y);
  }

  /** In a sound directory the batch under a plan's name is the planned one, unless the two manifests
      are a collision of the hash. */
  lemma {:induction false} SameNameInstalled(h: bytes -> Digest, d: Directory, c: Candidate)
    requires Sound(h, d) && c.files.Keys == CANDIDATE_FILES && PlanOf(h, c).id in d.batches
    requires MANIFEST in d.batches[PlanOf(h, c).id] ==>
      Separates(h, d.batches[PlanOf(h, c).id][MANIFEST], ManifestBytes(h, c.files))
    ensures Installed(h, d, PlanOf(h, c))
  {
    SoundBatch(h, d, PlanOf(h, c).id);
    CompleteIsPlanned(h, d, c);
  }

  lemma {:induction false} SoundBatch(h: bytes -> Digest, d: Directory, id: string)
    requires Sound(h, d) && id in d.batches
    ensures CompleteBatch(h, id, d.batches[id])
  {
  }

  lemma {:induction false} CompleteIsPlanned(h: bytes -> Digest, d: Directory, c: Candidate)
    requires c.files.Keys == CANDIDATE_FILES && PlanOf(h, c).id in d.batches
    requires CompleteBatch(h, PlanOf(h, c).id, d.batches[PlanOf(h, c).id])
    requires Separates(h, d.batches[PlanOf(h, c).id][MANIFEST], ManifestBytes(h, c.files))
    ensures Installed(h, d, PlanOf(h, c))
  {
    var plan := PlanOf(h, c);
    SameManifest(h, plan.id, d.batches[plan.id], c.files);
    SameDigests(h, d.batches[plan.id] - {MANIFEST}, c.files);
  }

  /** Two complete sets under one name have one manifest, unless the manifests collide. */
  lemma {:induction false} SameManifest(h: bytes -> Digest, id: string, files: Files, planned: Files)
    requires CompleteBatch(h, id, files) && planned.Keys == CANDIDATE_FILES && id == Sha(h, ManifestBytes(h, planned))
    requires Separates(h, files[MANIFEST], ManifestBytes(h, planned))
    ensures files[MANIFEST] == ManifestBytes(h, planned) == ManifestBytes(h, files - {MANIFEST})
  {
    HexInjective(h(files[MANIFEST]), h(ManifestBytes(h, planned)));
  }

  /** Equal manifests name equal digests. */
  lemma {:induction false} SameDigests(h: bytes -> Digest, a: Files, b: Files)
    requires a.Keys == b.Keys == CANDIDATE_FILES && ManifestBytes(h, a) == ManifestBytes(h, b)
    ensures forall name :: name in a ==> h(a[name]) == h(b[name])
  {
    SameTexts(h, a[ACCEPTANCE], a[SBOM], a[STATUS], b[ACCEPTANCE], b[SBOM], b[STATUS]);
  }

  /** How a publisher ends that nothing got in the way of. */
  ghost predicate Finished(h: bytes -> Digest, d: Directory, s': State, pid: nat, plan: Plan) {
    && pid in s'.publishers && s'.publishers[pid].pc == Done
    && s'.dir.current == Some(plan.pointer) && Installed(h, s'.dir, plan) && BatchesKept(d, s'.dir)
    && s'.dir.stages == d.stages && s'.dir.legacy == d.legacy - CANDIDATE_FILES
  }

  lemma {:induction false} PlanFinishes(h: bytes -> Digest, s: State, pid: nat, plan: Plan) returns (actions: seq<Action>)
    requires pid in s.publishers && s.publishers[pid].pc == Look && s.publishers[pid].plan == plan
    requires s.dir.stages.Keys <= s.dir.used && (plan.accepted || !ContainsReady(plan.pointer))
    requires plan.id in s.dir.batches ==> Installed(h, s.dir, plan)
    ensures Finished(h, s.dir, Run(h, s, actions), pid, plan)
  {
    actions := PublisherFinishes(h, s, pid);
  }

  lemma {:induction false} PlanPointerPasses(h: bytes -> Digest, c: Candidate)
    requires c.files.Keys == CANDIDATE_FILES
    ensures PlanOf(h, c).accepted || !ContainsReady(PlanOf(h, c).pointer)
  {
    if !c.accepted {
      Rejection.RejectedPointerHasNoToken(h, c);
    }
  }

  /** The batch under the plan's name, if there is one, has the planned manifest or one that differs
      in its digest. */
  ghost predicate NoCollision(h: bytes -> Digest, d: Directory, c: Candidate)
    requires c.files.Keys == CANDIDATE_FILES
  {
    var id := PlanOf(h, c).id;
    id in d.batches && MANIFEST in d.batches[id] ==> Separates(h, d.batches[id][MANIFEST], ManifestBytes(h, c.files))
  }

  /** A publisher of a screened candidate that is scheduled alone, with calls that succeed, finishes
      from any sound directory; the one thing it needs is that its manifest does not collide with
      that of another batch. */
  lemma {:induction false} PublisherFinishesInSound(h: bytes -> Digest, s: State, pid: nat, c: Candidate) returns (actions: seq<Action>)
    requires Sound(h, s.dir) && s.dir.stages.Keys <= s.dir.used && Screened(c) && NoCollision(h, s.dir, c)
    requires pid in s.publishers && s.publishers[pid] == Publisher(c, PlanOf(h, c), Look)
    ensures Finished(h, s.dir, Run(h, s, actions), pid, PlanOf(h, c))
  {
    if PlanOf(h, c).id in s.dir.batches {
      SameNameInstalled(h, s.dir, c);
    }
    PlanPointerPasses(h, c);
    actions := PlanFinishes(h, s, pid, PlanOf(h, c));
  }
}
