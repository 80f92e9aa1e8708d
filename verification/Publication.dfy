/** Content-addressed publication into one shared directory (infra/f1/artifacts_v03.py `publish`,
    and `_publish` of infra/f1/formal_acceptance.py, which runs the same protocol).

    Any number of publishers run interleaved; each file-system call is one atomic step, any
    call may fail, and a publisher may stop for ever between two steps. The scheduler's choices
    are the `Action`s, so "for every interleaving" is "for every list of actions". */
module Publication {
  import opened Wrappers
  import opened Bytes
  import opened Batches
  import Pointers

  // ---------- the shared directory ----------

  /** .staging/, batches/, the temporary current files, current.json, and the superseded
      top-level snapshots. Names made by mkdtemp and uuid4 are numbers here; `used` holds the
      ones given out so far, because they do not come back. */
  datatype Directory = Directory(
    stages: map<nat, Files>, batches: map<string, Files>, temps: map<nat, bytes>,
    current: Option<bytes>, legacy: set<string>, used: set<nat>)

  /** A publisher's next file-system call. */
  datatype Pc =
    | Look
    | MakeStage
    | CreateFile(stage: nat, todo: set<string>)
    | WriteFile(stage: nat, todo: set<string>, name: string, written: nat)
    | Rename(stage: nat)
    | VerifyNames(staged: Option<nat>)
    | VerifyFile(staged: Option<nat>, todo: set<string>)
    | CleanStage(stage: nat, ok: bool)
    | CreateCurrent
    | WriteCurrent(temp: nat, written: nat)
    | ReplaceCurrent(temp: nat)
    | RemoveLegacy(todo: set<string>)
    | Done
    | Failed
    | Crashed

  datatype Publisher = Publisher(candidate: Candidate, plan: Plan, pc: Pc)

  datatype State = State(dir: Directory, publishers: map<nat, Publisher>)

  /** What the scheduler and the file system decide about one call: whether it fails (`fail`),
      fails after having had its effect (`late`), which name, fresh id or chunk it uses. */
  datatype Choice = Choice(fail: bool, late: bool, name: string, id: nat, count: nat)

  datatype Action = Arrive(pid: nat, candidate: Candidate) | Crash(pid: nat) | Step(pid: nat, choice: Choice)

  datatype Moved = Moved(dir: Directory, pc: Pc)

  /** Where a failure or a completed verification leads: through the stage's finally block when
      there is a stage. */
  function Leave(staged: Option<nat>, ok: bool): Pc {
    match staged
    case Some(stage) => CleanStage(stage, ok)
    case None => if ok then CreateCurrent else Failed
  }

  function AdvanceMakeStage(d: Directory, plan: Plan, choice: Choice): Moved {
    if choice.fail || choice.id in d.used then Moved(d, Failed)
    else
      Moved(d.(stages := d.stages[choice.id := map[]], used := d.used + {choice.id}),
            CreateFile(choice.id, plan.files.Keys))
  }

  function AdvanceCreateFile(d: Directory, stage: nat, todo: set<string>, choice: Choice): Moved {
    if todo == {} then Moved(d, Rename(stage))
    else if choice.name !in todo then Moved(d, CreateFile(stage, todo))
    else if choice.fail || stage !in d.stages || choice.name in d.stages[stage] then
      Moved(d, CleanStage(stage, false))
    else
      Moved(d.(stages := d.stages[stage := d.stages[stage][choice.name := []]]),
            WriteFile(stage, todo - {choice.name}, choice.name, 0))
  }

  function AdvanceWriteFile(d: Directory, plan: Plan, stage: nat, todo: set<string>, name: string, written: nat,
                            choice: Choice): Moved {
    if stage !in d.stages || name !in d.stages[stage] || name !in plan.files then
      Moved(d, CleanStage(stage, false))
    else if choice.fail then
      // _write_private unlinks the file it could not finish, unless that fails too.
      var files := if choice.late then d.stages[stage] else d.stages[stage] - {name};
      Moved(d.(stages := d.stages[stage := files]), CleanStage(stage, false))
    else if written >= |plan.files[name]| then Moved(d, CreateFile(stage, todo))
    else if choice.count == 0 || written + choice.count > |plan.files[name]| then
      Moved(d, WriteFile(stage, todo, name, written))
    else
      var n := written + choice.count;
      Moved(d.(stages := d.stages[stage := d.stages[stage][name := plan.files[name][..n]]]),
            WriteFile(stage, todo, name, n))
  }

  /** os.replace(stage, batch): a rename over a directory that has files in it fails. */
  function AdvanceRename(d: Directory, plan: Plan, stage: nat, choice: Choice): Moved {
    if choice.fail || stage !in d.stages || (plan.id in d.batches && d.batches[plan.id] != map[]) then
      Moved(d, if plan.id in d.batches then VerifyNames(Some(stage)) else CleanStage(stage, false))
    else
      // A chmod that fails after the rename sends the publisher to verify its own batch.
      Moved(d.(stages := d.stages - {stage}, batches := d.batches[plan.id := d.stages[stage]]),
            if choice.late then VerifyNames(Some(stage)) else CleanStage(stage, true))
  }

  function AdvanceVerifyNames(d: Directory, plan: Plan, staged: Option<nat>, choice: Choice): Moved {
    if choice.fail || plan.id !in d.batches || d.batches[plan.id].Keys != plan.files.Keys then
      Moved(d, Leave(staged, false))
    else Moved(d, VerifyFile(staged, plan.files.Keys))
  }

  function AdvanceVerifyFile(h: bytes -> Digest, d: Directory, plan: Plan, staged: Option<nat>, todo: set<string>,
                             choice: Choice): Moved {
    if todo == {} then Moved(d, Leave(staged, true))
    else if choice.name !in todo then Moved(d, VerifyFile(staged, todo))
    else if choice.fail || plan.id !in d.batches || choice.name !in d.batches[plan.id] || choice.name !in plan.files
            || h(d.batches[plan.id][choice.name]) != h(plan.files[choice.name]) then
      Moved(d, Leave(staged, false))
    else Moved(d, VerifyFile(staged, todo - {choice.name}))
  }

  /** The finally block: unlink the stage's files one by one, then remove it, if it still exists. */
  function AdvanceCleanStage(d: Directory, stage: nat, ok: bool, choice: Choice): Moved {
    if choice.fail then Moved(d, Failed)
    else if stage !in d.stages then Moved(d, if ok then CreateCurrent else Failed)
    else if d.stages[stage] == map[] then
      Moved(d.(stages := d.stages - {stage}), if ok then CreateCurrent else Failed)
    else if choice.name !in d.stages[stage] then Moved(d, CleanStage(stage, ok))
    else Moved(d.(stages := d.stages[stage := d.stages[stage] - {choice.name}]), CleanStage(stage, ok))
  }

  function AdvanceCreateCurrent(d: Directory, plan: Plan, choice: Choice): Moved {
    if choice.fail || choice.id in d.used || (!plan.accepted && ContainsReady(plan.pointer)) then Moved(d, Failed)
    else Moved(d.(temps := d.temps[choice.id := []], used := d.used + {choice.id}), WriteCurrent(choice.id, 0))
  }

  function AdvanceWriteCurrent(d: Directory, plan: Plan, temp: nat, written: nat, choice: Choice): Moved {
    if temp !in d.temps then Moved(d, Failed)
    else if choice.fail then Moved(if choice.late then d else d.(temps := d.temps - {temp}), Failed)
    else if written >= |plan.pointer| then Moved(d, ReplaceCurrent(temp))
    else if choice.count == 0 || written + choice.count > |plan.pointer| then Moved(d, WriteCurrent(temp, written))
    else
      var n := written + choice.count;
      Moved(d.(temps := d.temps[temp := plan.pointer[..n]]), WriteCurrent(temp, n))
  }

  function AdvanceReplaceCurrent(d: Directory, temp: nat, choice: Choice): Moved {
    if choice.fail || temp !in d.temps then Moved(d, Failed)
    else
      Moved(d.(current := Some(d.temps[temp]), temps := d.temps - {temp}),
            if choice.late then Failed else RemoveLegacy(CANDIDATE_FILES))
  }

  function AdvanceRemoveLegacy(d: Directory, todo: set<string>, choice: Choice): Moved {
    if choice.fail then Moved(d, Failed)
    else if todo == {} then Moved(d, Done)
    else if choice.name !in todo then Moved(d, RemoveLegacy(todo))
    else Moved(d.(legacy := d.legacy - {choice.name}), RemoveLegacy(todo - {choice.name}))
  }

  function Advance(h: bytes -> Digest, d: Directory, plan: Plan, pc: Pc, choice: Choice): Moved {
    match pc
    case Look => Moved(d, if plan.id in d.batches then VerifyNames(None) else MakeStage)
    case MakeStage => AdvanceMakeStage(d, plan, choice)
    case CreateFile(stage, todo) => AdvanceCreateFile(d, stage, todo, choice)
    case WriteFile(stage, todo, name, written) => AdvanceWriteFile(d, plan, stage, todo, name, written, choice)
    case Rename(stage) => AdvanceRename(d, plan, stage, choice)
    case VerifyNames(staged) => AdvanceVerifyNames(d, plan, staged, choice)
    case VerifyFile(staged, todo) => AdvanceVerifyFile(h, d, plan, staged, todo, choice)
    case CleanStage(stage, ok) => AdvanceCleanStage(d, stage, ok, choice)
    case CreateCurrent => AdvanceCreateCurrent(d, plan, choice)
    case WriteCurrent(temp, written) => AdvanceWriteCurrent(d, plan, temp, written, choice)
    case ReplaceCurrent(temp) => AdvanceReplaceCurrent(d, temp, choice)
    case RemoveLegacy(todo) => AdvanceRemoveLegacy(d, todo, choice)
    case Done => Moved(d, Done)
    case Failed => Moved(d, Failed)
    case Crashed => Moved(d, Crashed)
  }

  predicate Halted(pc: Pc) {
    pc.Done? || pc.Failed? || pc.Crashed?
  }

  /** One action; an action that is not possible changes nothing. A candidate that does not pass
      the screening ends its publisher before it touches the directory. */
  function Apply(h: bytes -> Digest, s: State, a: Action): State {
    match a
    case Arrive(pid, candidate) =>
      if pid in s.publishers || !Screened(candidate) then s
      else s.(publishers := s.publishers[pid := Publisher(candidate, PlanOf(h, candidate), Look)])
    case Crash(pid) =>
      if pid !in s.publishers || Halted(s.publishers[pid].pc) then s
      else s.(publishers := s.publishers[pid := s.publishers[pid].(pc := Crashed)])
    case Step(pid, choice) =>
      if pid !in s.publishers then s
      else
        var p := s.publishers[pid];
        var moved := Advance(h, s.dir, p.plan, p.pc, choice);
        State(moved.dir, s.publishers[pid := p.(pc := moved.pc)])
  }

  function Run(h: bytes -> Digest, s: State, actions: seq<Action>): State
    decreases |actions|
  {
    if actions == [] then s else Run(h, Apply(h, s, actions[0]), actions[1..])
  }

  // ---------- what a publisher has achieved ----------

  /** The plan's batch is in place: every file has the digest that the plan expects. */
  ghost predicate Installed(h: bytes -> Digest, d: Directory, plan: Plan) {
    && plan.id in d.batches && d.batches[plan.id].Keys == plan.files.Keys
    && forall name :: name in plan.files ==> h(d.batches[plan.id][name]) == h(plan.files[name])
  }

  /** No installed batch goes away or changes. */
  ghost predicate BatchesKept(d: Directory, d': Directory) {
    forall id :: id in d.batches ==> id in d'.batches && d'.batches[id] == d.batches[id]
  }

  function Owned(pc: Pc): set<nat> {
    match pc
    case CreateFile(stage, _) => {stage}
    case WriteFile(stage, _, _, _) => {stage}
    case Rename(stage) => {stage}
    case VerifyNames(Some(stage)) => {stage}
    case VerifyFile(Some(stage), _) => {stage}
    case CleanStage(stage, _) => {stage}
    case WriteCurrent(temp, _) => {temp}
    case ReplaceCurrent(temp) => {temp}
    case _ => {}
  }

  ghost predicate StageHolds(d: Directory, plan: Plan, stage: nat, done: set<string>) {
    && stage in d.stages && d.stages[stage].Keys == done <= plan.files.Keys
    && forall name :: name in done ==> d.stages[stage][name] == plan.files[name]
  }

  ghost predicate StageWriting(d: Directory, plan: Plan, stage: nat, todo: set<string>, name: string, written: nat) {
    && stage in d.stages && d.stages[stage].Keys == plan.files.Keys - todo
    && name in plan.files && name !in todo
    && (forall n :: n in plan.files && n !in todo && n != name ==> d.stages[stage][n] == plan.files[n])
    && written <= |plan.files[name]|
    && d.stages[stage][name] == plan.files[name][..written]
  }

  ghost predicate VerifiedBut(h: bytes -> Digest, d: Directory, plan: Plan, todo: set<string>) {
    && plan.id in d.batches && d.batches[plan.id].Keys == plan.files.Keys
    && forall name :: name in plan.files && name !in todo ==> h(d.batches[plan.id][name]) == h(plan.files[name])
  }

  ghost predicate TempHolds(d: Directory, plan: Plan, temp: nat, written: nat) {
    temp in d.temps && written <= |plan.pointer| && d.temps[temp] == plan.pointer[..written]
  }

  /** What a publisher can rely on when it is about to make its next call. */
  ghost predicate Achieved(h: bytes -> Digest, d: Directory, plan: Plan, pc: Pc) {
    match pc
    case CreateFile(stage, todo) => todo <= plan.files.Keys && StageHolds(d, plan, stage, plan.files.Keys - todo)
    case WriteFile(stage, todo, name, written) => todo <= plan.files.Keys && StageWriting(d, plan, stage, todo, name, written)
    case Rename(stage) => StageHolds(d, plan, stage, plan.files.Keys)
    case VerifyFile(_, todo) => VerifiedBut(h, d, plan, todo)
    case CleanStage(_, ok) => ok ==> Installed(h, d, plan)
    case CreateCurrent => Installed(h, d, plan)
    case WriteCurrent(temp, written) => Installed(h, d, plan) && TempHolds(d, plan, temp, written)
    case ReplaceCurrent(temp) => Installed(h, d, plan) && TempHolds(d, plan, temp, |plan.pointer|)
    case RemoveLegacy(todo) => Installed(h, d, plan) && d.current.Some? && OnlyCandidates(todo)
    case Done => Installed(h, d, plan) && d.current.Some?
    case _ => true
  }

  ghost predicate DirectoryOk(d: Directory) {
    && (forall id :: id in d.batches ==> d.batches[id] != map[])
    && d.stages.Keys <= d.used && d.temps.Keys <= d.used
  }

  ghost predicate PublisherOk(h: bytes -> Digest, d: Directory, plan: Plan, pc: Pc) {
    plan.files != map[] && Achieved(h, d, plan, pc) && Owned(pc) <= d.used
  }

  // ---------- one call of one publisher ----------

  /** Names given out earlier to others still name what they named. */
  ghost predicate OthersKept(d: Directory, d': Directory, own: set<nat>) {
    forall i :: i in d.used && i !in own ==>
      && (i in d.stages <==> i in d'.stages) && (i in d.stages ==> d'.stages[i] == d.stages[i])
      && (i in d.temps <==> i in d'.temps) && (i in d.temps ==> d'.temps[i] == d.temps[i])
  }

  predicate OnlyCandidates(names: set<string>) {
    names <= CANDIDATE_FILES
  }

  /** All that one call may do to the directory. */
  ghost predicate LocalChange(h: bytes -> Digest, d: Directory, plan: Plan, pc: Pc, m: Moved) {
    && BatchesKept(d, m.dir) && d.used <= m.dir.used
    && Owned(m.pc) <= Owned(pc) + (m.dir.used - d.used)
    && OthersKept(d, m.dir, Owned(pc))
    && (d.current.Some? ==> m.dir.current.Some?)
    && (m.dir.current == d.current || (Installed(h, m.dir, plan) && m.dir.current == Some(plan.pointer)))
    && (forall id :: id in m.dir.batches && id !in d.batches ==> id == plan.id && m.dir.batches[id] == plan.files)
    && (m.dir.legacy == d.legacy || (m.dir.legacy <= d.legacy && OnlyCandidates(d.legacy - m.dir.legacy) && m.dir.current.Some?))
  }

  ghost predicate GoodMove(h: bytes -> Digest, d: Directory, plan: Plan, pc: Pc, m: Moved) {
    DirectoryOk(m.dir) && PublisherOk(h, m.dir, plan, m.pc) && LocalChange(h, d, plan, pc, m)
  }

  lemma {:induction false} StayGood(h: bytes -> Digest, d: Directory, plan: Plan, pc: Pc, pc': Pc)
    requires DirectoryOk(d) && PublisherOk(h, d, plan, pc)
    requires Achieved(h, d, plan, pc') && Owned(pc') <= Owned(pc)
    ensures GoodMove(h, d, plan, pc, Moved(d, pc'))
  {
  }

  /** A call that changes nothing but the caller's own stage. */
  lemma {:induction false} StageGood(h: bytes -> Digest, d: Directory, plan: Plan, pc: Pc, stages: map<nat, Files>, pc': Pc)
    requires DirectoryOk(d) && PublisherOk(h, d, plan, pc)
    requires stages.Keys <= d.used
    requires forall i :: i in d.used && i !in Owned(pc) ==>
      (i in stages <==> i in d.stages) && (i in d.stages ==> stages[i] == d.stages[i])
    requires Achieved(h, d.(stages := stages), plan, pc') && Owned(pc') <= Owned(pc)
    ensures GoodMove(h, d, plan, pc, Moved(d.(stages := stages), pc'))
  {
  }

  /** A call that changes nothing but the caller's own temporary file. */
  lemma {:induction false} TempGood(h: bytes -> Digest, d: Directory, plan: Plan, pc: Pc, temps: map<nat, bytes>, pc': Pc)
    requires DirectoryOk(d) && PublisherOk(h, d, plan, pc)
    requires temps.Keys <= d.used
    requires forall i :: i in d.used && i !in Owned(pc) ==>
      (i in temps <==> i in d.temps) && (i in d.temps ==> temps[i] == d.temps[i])
    requires Achieved(h, d.(temps := temps), plan, pc') && Owned(pc') <= Owned(pc)
    ensures GoodMove(h, d, plan, pc, Moved(d.(temps := temps), pc'))
  {
  }

  lemma {:induction false} MakeStageGood(h: bytes -> Digest, d: Directory, plan: Plan, choice: Choice)
    requires DirectoryOk(d) && PublisherOk(h, d, plan, MakeStage)
    ensures GoodMove(h, d, plan, MakeStage, AdvanceMakeStage(d, plan, choice))
  {
  }

  lemma {:induction false} CreateFileGood(h: bytes -> Digest, d: Directory, plan: Plan, stage: nat, todo: set<string>, choice: Choice)
    requires DirectoryOk(d) && PublisherOk(h, d, plan, CreateFile(stage, todo))
    ensures GoodMove(h, d, plan, CreateFile(stage, todo), AdvanceCreateFile(d, stage, todo, choice))
  {
    var pc := CreateFile(stage, todo);
    var m := AdvanceCreateFile(d, stage, todo, choice);
    if m.dir == d {
      StayGood(h, d, plan, pc, m.pc);
    } else {
      StageGood(h, d, plan, pc, m.dir.stages, m.pc);
    }
  }

  lemma {:induction false} WriteFileGood(h: bytes -> Digest, d: Directory, plan: Plan, stage: nat, todo: set<string>, name: string,
                      written: nat, choice: Choice)
    requires DirectoryOk(d) && PublisherOk(h, d, plan, WriteFile(stage, todo, name, written))
    ensures GoodMove(h, d, plan, WriteFile(stage, todo, name, written),
                     AdvanceWriteFile(d, plan, stage, todo, name, written, choice))
  {
    var pc := WriteFile(stage, todo, name, written);
    var m := AdvanceWriteFile(d, plan, stage, todo, name, written, choice);
    if m.pc.CreateFile? {
      WrittenOut(d, plan, stage, todo, name, written);
      StayGood(h, d, plan, pc, m.pc);
    } else if m.dir == d {
      StayGood(h, d, plan, pc, m.pc);
    } else {
      StageGood(h, d, plan, pc, m.dir.stages, m.pc);
    }
  }

  lemma {:induction false} WrittenOut(d: Directory, plan: Plan, stage: nat, todo: set<string>, name: string, written: nat)
    requires StageWriting(d, plan, stage, todo, name, written) && written >= |plan.files[name]|
    ensures StageHolds(d, plan, stage, plan.files.Keys - todo)
  {
    assert plan.files[name][..written] == plan.files[name];
  }

  lemma {:induction false} RenameGood(h: bytes -> Digest, d: Directory, plan: Plan, stage: nat, choice: Choice)
    requires DirectoryOk(d) && PublisherOk(h, d, plan, Rename(stage))
    ensures GoodMove(h, d, plan, Rename(stage), AdvanceRename(d, plan, stage, choice))
    ensures plan.id in d.batches ==> AdvanceRename(d, plan, stage, choice) == Moved(d, VerifyNames(Some(stage)))
    ensures plan.id !in d.batches && !choice.fail ==>
      var m := AdvanceRename(d, plan, stage, choice);
      && m.dir.batches == d.batches[plan.id := plan.files] && stage !in m.dir.stages
      && m.dir.current == d.current && m.dir.legacy == d.legacy
  {
    var m := AdvanceRename(d, plan, stage, choice);
    if m.dir == d {
      StayGood(h, d, plan, Rename(stage), m.pc);
    } else {
      assert d.stages[stage] == plan.files;
      assert Installed(h, m.dir, plan);
    }
  }

  lemma {:induction false} VerifyFileGood(h: bytes -> Digest, d: Directory, plan: Plan, staged: Option<nat>, todo: set<string>, choice: Choice)
    requires DirectoryOk(d) && PublisherOk(h, d, plan, VerifyFile(staged, todo))
    ensures GoodMove(h, d, plan, VerifyFile(staged, todo), AdvanceVerifyFile(h, d, plan, staged, todo, choice))
  {
    var m := AdvanceVerifyFile(h, d, plan, staged, todo, choice);
    if m.pc.VerifyFile? {
      assert VerifiedBut(h, d, plan, m.pc.todo);
    } else {
      LeaveAchieved(h, d, plan, staged, todo, todo == {});
      assert m.pc == Leave(staged, todo == {});
    }
    StayGood(h, d, plan, VerifyFile(staged, todo), m.pc);
  }

  lemma {:induction false} LeaveAchieved(h: bytes -> Digest, d: Directory, plan: Plan, staged: Option<nat>, todo: set<string>, ok: bool)
    requires ok ==> Installed(h, d, plan)
    ensures Achieved(h, d, plan, Leave(staged, ok)) && Owned(Leave(staged, ok)) <= Owned(VerifyFile(staged, todo))
  {
  }

  lemma {:induction false} CleanStageGood(h: bytes -> Digest, d: Directory, plan: Plan, stage: nat, ok: bool, choice: Choice)
    requires DirectoryOk(d) && PublisherOk(h, d, plan, CleanStage(stage, ok))
    ensures GoodMove(h, d, plan, CleanStage(stage, ok), AdvanceCleanStage(d, stage, ok, choice))
  {
    var m := AdvanceCleanStage(d, stage, ok, choice);
    if m.dir == d {
      StayGood(h, d, plan, CleanStage(stage, ok), m.pc);
    } else {
      StageGood(h, d, plan, CleanStage(stage, ok), m.dir.stages, m.pc);
    }
  }

  lemma {:induction false} CreateCurrentGood(h: bytes -> Digest, d: Directory, plan: Plan, choice: Choice)
    requires DirectoryOk(d) && PublisherOk(h, d, plan, CreateCurrent)
    ensures GoodMove(h, d, plan, CreateCurrent, AdvanceCreateCurrent(d, plan, choice))
  {
  }

  lemma {:induction false} WriteCurrentGood(h: bytes -> Digest, d: Directory, plan: Plan, temp: nat, written: nat, choice: Choice)
    requires DirectoryOk(d) && PublisherOk(h, d, plan, WriteCurrent(temp, written))
    ensures GoodMove(h, d, plan, WriteCurrent(temp, written), AdvanceWriteCurrent(d, plan, temp, written, choice))
  {
    var m := AdvanceWriteCurrent(d, plan, temp, written, choice);
    if m.dir == d {
      StayGood(h, d, plan, WriteCurrent(temp, written), m.pc);
    } else {
      TempGood(h, d, plan, WriteCurrent(temp, written), m.dir.temps, m.pc);
    }
  }

  lemma {:induction false} ReplaceCurrentGood(h: bytes -> Digest, d: Directory, plan: Plan, temp: nat, choice: Choice)
    requires DirectoryOk(d) && PublisherOk(h, d, plan, ReplaceCurrent(temp))
    ensures GoodMove(h, d, plan, ReplaceCurrent(temp), AdvanceReplaceCurrent(d, temp, choice))
  {
    assert plan.pointer[..|plan.pointer|] == plan.pointer;
  }

  /** A call that changes nothing but the superseded files. */
  lemma {:induction false} LegacyGood(h: bytes -> Digest, d: Directory, plan: Plan, pc: Pc, legacy: set<string>, pc': Pc)
    requires DirectoryOk(d) && PublisherOk(h, d, plan, pc) && d.current.Some?
    requires legacy <= d.legacy && OnlyCandidates(d.legacy - legacy)
    requires Achieved(h, d.(legacy := legacy), plan, pc') && Owned(pc') <= Owned(pc)
    ensures GoodMove(h, d, plan, pc, Moved(d.(legacy := legacy), pc'))
  {
  }

  lemma {:induction false} RemoveLegacyGood(h: bytes -> Digest, d: Directory, plan: Plan, todo: set<string>, choice: Choice)
    requires DirectoryOk(d) && PublisherOk(h, d, plan, RemoveLegacy(todo))
    ensures GoodMove(h, d, plan, RemoveLegacy(todo), AdvanceRemoveLegacy(d, todo, choice))
  {
    var m := AdvanceRemoveLegacy(d, todo, choice);
    if m.dir == d {
      StayGood(h, d, plan, RemoveLegacy(todo), m.pc);
    } else {
      RetireOne(d.legacy, todo, choice.name);
      LegacyGood(h, d, plan, RemoveLegacy(todo), d.legacy - {choice.name}, RemoveLegacy(todo - {choice.name}));
    }
  }

  lemma {:induction false} RetireOne(legacy: set<string>, todo: set<string>, name: string)
    requires OnlyCandidates(todo) && name in todo
    ensures OnlyCandidates(legacy - (legacy - {name})) && OnlyCandidates(todo - {name})
  {
  }

  lemma {:induction false} AdvanceGood(h: bytes -> Digest, d: Directory, plan: Plan, pc: Pc, choice: Choice)
    requires DirectoryOk(d) && PublisherOk(h, d, plan, pc)
    ensures GoodMove(h, d, plan, pc, Advance(h, d, plan, pc, choice))
  {
    if OnStage(pc) {
      AdvanceStageGood(h, d, plan, pc, choice);
    } else if OnPointer(pc) {
      AdvancePointerGood(h, d, plan, pc, choice);
    } else if pc.VerifyFile? {
      VerifyFileGood(h, d, plan, pc.staged, pc.todo, choice);
    } else {
      StayGood(h, d, plan, pc, Advance(h, d, plan, pc, choice).pc);
    }
  }

  predicate OnStage(pc: Pc) {
    pc.MakeStage? || pc.CreateFile? || pc.WriteFile? || pc.Rename? || pc.CleanStage?
  }

  predicate OnPointer(pc: Pc) {
    pc.CreateCurrent? || pc.WriteCurrent? || pc.ReplaceCurrent? || pc.RemoveLegacy?
  }

  lemma {:induction false} AdvanceStageGood(h: bytes -> Digest, d: Directory, plan: Plan, pc: Pc, choice: Choice)
    requires DirectoryOk(d) && PublisherOk(h, d, plan, pc) && OnStage(pc)
    ensures GoodMove(h, d, plan, pc, Advance(h, d, plan, pc, choice))
  {
    match pc {
      case MakeStage => MakeStageGood(h, d, plan, choice);
      case CreateFile(stage, todo) => CreateFileGood(h, d, plan, stage, todo, choice);
      case WriteFile(stage, todo, name, written) => WriteFileGood(h, d, plan, stage, todo, name, written, choice);
      case Rename(stage) => RenameGood(h, d, plan, stage, choice);
      case CleanStage(stage, ok) => CleanStageGood(h, d, plan, stage, ok, choice);
    }
  }

  lemma {:induction false} AdvancePointerGood(h: bytes -> Digest, d: Directory, plan: Plan, pc: Pc, choice: Choice)
    requires DirectoryOk(d) && PublisherOk(h, d, plan, pc) && OnPointer(pc)
    ensures GoodMove(h, d, plan, pc, Advance(h, d, plan, pc, choice))
  {
    match pc {
      case CreateCurrent => CreateCurrentGood(h, d, plan, choice);
      case WriteCurrent(temp, written) => WriteCurrentGood(h, d, plan, temp, written, choice);
      case ReplaceCurrent(temp) => ReplaceCurrentGood(h, d, plan, temp, choice);
      case RemoveLegacy(todo) => RemoveLegacyGood(h, d, plan, todo, choice);
    }
  }

  // ---------- the invariant of a run ----------

  type Publishers = map<nat, Publisher>

  ghost predicate InstalledBy(ps: Publishers, id: string, files: Files) {
    exists q :: q in ps && ps[q].plan.id == id && ps[q].plan.files == files
  }

  ghost predicate PointedBy(h: bytes -> Digest, d: Directory, ps: Publishers, pointer: bytes) {
    exists q :: q in ps && Installed(h, d, ps[q].plan) && pointer == ps[q].plan.pointer
  }

  /** Every batch was there at the beginning, or is the batch of a publisher that took part. */
  ghost predicate BatchesOk(initial: Directory, d: Directory, ps: Publishers) {
    forall id :: id in d.batches ==>
      (id in initial.batches && initial.batches[id] == d.batches[id]) || InstalledBy(ps, id, d.batches[id])
  }

  /** current.json is still the one the run began with, or is the pointer of a publisher that
      took part and whose batch is installed. */
  ghost predicate CurrentOk(h: bytes -> Digest, initial: Directory, d: Directory, ps: Publishers) {
    d.current == initial.current || (d.current.Some? && PointedBy(h, d, ps, d.current.value))
  }

  ghost predicate PublishersOk(h: bytes -> Digest, d: Directory, ps: Publishers) {
    forall q :: q in ps ==> PublisherOk(h, d, ps[q].plan, ps[q].pc)
  }

  ghost predicate OwnersApart(ps: Publishers) {
    forall q, r :: q in ps && r in ps && q != r ==> Owned(ps[q].pc) !! Owned(ps[r].pc)
  }

  ghost predicate LegacyOk(initial: Directory, d: Directory) {
    && d.legacy <= initial.legacy && OnlyCandidates(initial.legacy - d.legacy)
    && (d.legacy != initial.legacy ==> d.current.Some?)
  }

  ghost predicate Inv(h: bytes -> Digest, initial: Directory, d: Directory, ps: Publishers) {
    && DirectoryOk(d) && BatchesKept(initial, d) && LegacyOk(initial, d)
    && PublishersOk(h, d, ps) && OwnersApart(ps)
    && CurrentOk(h, initial, d, ps) && BatchesOk(initial, d, ps)
  }

  /** Publishers come and move on; nobody's plan is forgotten. */
  ghost predicate PlansKept(ps: Publishers, ps': Publishers) {
    forall q :: q in ps ==> q in ps' && ps'[q].plan == ps[q].plan
  }

  lemma {:induction false} InstalledByKept(ps: Publishers, ps': Publishers, id: string, files: Files)
    requires InstalledBy(ps, id, files) && PlansKept(ps, ps')
    ensures InstalledBy(ps', id, files)
  {
    var q :| q in ps && ps[q].plan.id == id && ps[q].plan.files == files;
    assert q in ps' && ps'[q].plan.id == id;
  }

  lemma {:induction false} InstalledKept(h: bytes -> Digest, d: Directory, d': Directory, plan: Plan)
    requires Installed(h, d, plan) && BatchesKept(d, d')
    ensures Installed(h, d', plan)
  {
  }

  lemma {:induction false} PointedByKept(h: bytes -> Digest, d: Directory, d': Directory, ps: Publishers, ps': Publishers, pointer: bytes)
    requires PointedBy(h, d, ps, pointer) && PlansKept(ps, ps') && BatchesKept(d, d')
    ensures PointedBy(h, d', ps', pointer)
  {
    var q :| q in ps && Installed(h, d, ps[q].plan) && pointer == ps[q].plan.pointer;
    InstalledKept(h, d, d', ps[q].plan);
    assert q in ps' && Installed(h, d', ps'[q].plan);
  }

  /** An action that leaves the directory alone. */
  lemma {:induction false} SameDirectoryKeeps(h: bytes -> Digest, initial: Directory, d: Directory, ps: Publishers, ps': Publishers)
    requires Inv(h, initial, d, ps) && PlansKept(ps, ps')
    requires PublishersOk(h, d, ps') && OwnersApart(ps')
    ensures Inv(h, initial, d, ps')
  {
    if d.current != initial.current {
      PointedByKept(h, d, d, ps, ps', d.current.value);
    }
    forall id | id in d.batches && InstalledBy(ps, id, d.batches[id]) ensures InstalledBy(ps', id, d.batches[id]) {
      InstalledByKept(ps, ps', id, d.batches[id]);
    }
  }

  lemma {:induction false} ArriveKeeps(h: bytes -> Digest, initial: Directory, d: Directory, ps: Publishers, pid: nat, p: Publisher)
    requires Inv(h, initial, d, ps) && pid !in ps && p.pc == Look && p.plan.files != map[]
    ensures Inv(h, initial, d, ps[pid := p])
  {
    SameDirectoryKeeps(h, initial, d, ps, ps[pid := p]);
  }

  lemma {:induction false} CrashKeeps(h: bytes -> Digest, initial: Directory, d: Directory, ps: Publishers, pid: nat)
    requires Inv(h, initial, d, ps) && pid in ps
    ensures Inv(h, initial, d, ps[pid := ps[pid].(pc := Crashed)])
  {
    var ps' := ps[pid := ps[pid].(pc := Crashed)];
    assert PublisherOk(h, d, ps[pid].plan, ps[pid].pc);
    assert PublishersOk(h, d, ps');
    assert OwnersApart(ps');
    SameDirectoryKeeps(h, initial, d, ps, ps');
  }

  /** What one publisher's call means for another one. */
  lemma {:induction false} OtherKept(h: bytes -> Digest, d: Directory, plan: Plan, pc: Pc, m: Moved, plan': Plan, pc': Pc)
    requires LocalChange(h, d, plan, pc, m) && PublisherOk(h, d, plan', pc')
    requires Owned(pc) !! Owned(pc')
    ensures PublisherOk(h, m.dir, plan', pc') && Owned(m.pc) !! Owned(pc')
  {
    match pc'
    case CreateFile(stage, _) => assert stage in Owned(pc');
    case WriteFile(stage, _, _, _) => assert stage in Owned(pc');
    case Rename(stage) => assert stage in Owned(pc');
    case WriteCurrent(temp, _) => assert temp in Owned(pc');
    case ReplaceCurrent(temp) => assert temp in Owned(pc');
    case _ =>
  }

  lemma {:induction false} MoveKeepsPublishers(h: bytes -> Digest, d: Directory, ps: Publishers, pid: nat, m: Moved)
    requires PublishersOk(h, d, ps) && OwnersApart(ps) && pid in ps
    requires GoodMove(h, d, ps[pid].plan, ps[pid].pc, m)
    ensures PublishersOk(h, m.dir, ps[pid := ps[pid].(pc := m.pc)])
    ensures OwnersApart(ps[pid := ps[pid].(pc := m.pc)])
  {
    forall q | q in ps && q != pid
      ensures PublisherOk(h, m.dir, ps[q].plan, ps[q].pc) && Owned(m.pc) !! Owned(ps[q].pc)
    {
      OtherKept(h, d, ps[pid].plan, ps[pid].pc, m, ps[q].plan, ps[q].pc);
    }
  }

  lemma {:induction false} MoveKeepsCurrent(h: bytes -> Digest, initial: Directory, d: Directory, ps: Publishers, pid: nat, m: Moved)
    requires CurrentOk(h, initial, d, ps) && pid in ps
    requires LocalChange(h, d, ps[pid].plan, ps[pid].pc, m)
    ensures CurrentOk(h, initial, m.dir, ps[pid := ps[pid].(pc := m.pc)])
  {
    var ps' := ps[pid := ps[pid].(pc := m.pc)];
    if m.dir.current == d.current {
      if d.current != initial.current {
        PointedByKept(h, d, m.dir, ps, ps', d.current.value);
      }
    } else {
      assert pid in ps' && Installed(h, m.dir, ps'[pid].plan);
    }
  }

  lemma {:induction false} MoveKeepsBatches(h: bytes -> Digest, initial: Directory, d: Directory, ps: Publishers, pid: nat, m: Moved)
    requires BatchesOk(initial, d, ps) && pid in ps
    requires LocalChange(h, d, ps[pid].plan, ps[pid].pc, m)
    ensures BatchesOk(initial, m.dir, ps[pid := ps[pid].(pc := m.pc)])
  {
    var ps' := ps[pid := ps[pid].(pc := m.pc)];
    forall id | id in m.dir.batches
      ensures (id in initial.batches && initial.batches[id] == m.dir.batches[id])
        || InstalledBy(ps', id, m.dir.batches[id])
    {
      if id !in d.batches {
        assert pid in ps' && ps'[pid].plan.id == id;
      } else if InstalledBy(ps, id, d.batches[id]) {
        InstalledByKept(ps, ps', id, d.batches[id]);
      }
    }
  }

  lemma {:induction false} MoveKeeps(h: bytes -> Digest, initial: Directory, d: Directory, ps: Publishers, pid: nat, m: Moved)
    requires Inv(h, initial, d, ps) && pid in ps
    requires GoodMove(h, d, ps[pid].plan, ps[pid].pc, m)
    ensures Inv(h, initial, m.dir, ps[pid := ps[pid].(pc := m.pc)])
  {
    MoveKeepsPublishers(h, d, ps, pid, m);
    MoveKeepsCurrent(h, initial, d, ps, pid, m);
    MoveKeepsBatches(h, initial, d, ps, pid, m);
  }

  /** No action of anyone breaks the invariant, and none touches an installed batch. */
  lemma {:induction false} ApplyKeeps(h: bytes -> Digest, initial: Directory, s: State, a: Action)
    requires Inv(h, initial, s.dir, s.publishers)
    ensures Inv(h, initial, Apply(h, s, a).dir, Apply(h, s, a).publishers)
    ensures BatchesKept(s.dir, Apply(h, s, a).dir)
  {
    match a {
      case Arrive(pid, candidate) =>
        if pid !in s.publishers && Screened(candidate) {
          assert ACCEPTANCE in PlanOf(h, candidate).files;
          ArriveKeeps(h, initial, s.dir, s.publishers, pid, Publisher(candidate, PlanOf(h, candidate), Look));
        }
      case Crash(pid) =>
        if pid in s.publishers {
          CrashKeeps(h, initial, s.dir, s.publishers, pid);
        }
      case Step(pid, choice) =>
        if pid in s.publishers {
          var p := s.publishers[pid];
          assert PublisherOk(h, s.dir, p.plan, p.pc);
          AdvanceGood(h, s.dir, p.plan, p.pc, choice);
          MoveKeeps(h, initial, s.dir, s.publishers, pid, Advance(h, s.dir, p.plan, p.pc, choice));
        }
    }
  }

  lemma {:induction false} RunKeeps(h: bytes -> Digest, initial: Directory, s: State, actions: seq<Action>)
    requires Inv(h, initial, s.dir, s.publishers)
    ensures Inv(h, initial, Run(h, s, actions).dir, Run(h, s, actions).publishers)
    ensures BatchesKept(s.dir, Run(h, s, actions).dir)
    decreases |actions|
  {
    if actions != [] {
      ApplyKeeps(h, initial, s, actions[0]);
      RunKeeps(h, initial, Apply(h, s, actions[0]), actions[1..]);
    }
  }

  /** Everybody follows the plan of a screened candidate. */
  ghost predicate PlansOk(h: bytes -> Digest, ps: Publishers) {
    forall q :: q in ps ==> Screened(ps[q].candidate) && ps[q].plan == PlanOf(h, ps[q].candidate)
  }

  lemma {:induction false} RunKeepsPlans(h: bytes -> Digest, s: State, actions: seq<Action>)
    requires PlansOk(h, s.publishers)
    ensures PlansOk(h, Run(h, s, actions).publishers)
    decreases |actions|
  {
    if actions != [] {
      ApplyKeepsPlans(h, s, actions[0]);
      RunKeepsPlans(h, Apply(h, s, actions[0]), actions[1..]);
    }
  }

  ghost predicate Each(ok: (Candidate, Plan) -> bool, ps: Publishers) {
    forall q :: q in ps ==> ok(ps[q].candidate, ps[q].plan)
  }

  lemma {:induction false} MovingKeepsEach(ok: (Candidate, Plan) -> bool, ps: Publishers, pid: nat, pc: Pc)
    requires Each(ok, ps) && pid in ps
    ensures Each(ok, ps[pid := ps[pid].(pc := pc)])
  {
  }

  lemma {:induction false} ArrivingKeepsEach(ok: (Candidate, Plan) -> bool, ps: Publishers, pid: nat, p: Publisher)
    requires Each(ok, ps) && pid !in ps && ok(p.candidate, p.plan)
    ensures Each(ok, ps[pid := p])
  {
  }

  lemma {:induction false} StepKeepsEach(h: bytes -> Digest, ok: (Candidate, Plan) -> bool, s: State, pid: nat, choice: Choice)
    requires Each(ok, s.publishers) && pid in s.publishers
    ensures Each(ok, Apply(h, s, Step(pid, choice)).publishers)
  {
    var p := s.publishers[pid];
    MovingKeepsEach(ok, s.publishers, pid, Advance(h, s.dir, p.plan, p.pc, choice).pc);
  }

  /** No action changes what a publisher publishes. */
  lemma {:induction false} ApplyKeepsEach(h: bytes -> Digest, ok: (Candidate, Plan) -> bool, s: State, a: Action)
    requires Each(ok, s.publishers)
    requires a.Arrive? && Screened(a.candidate) ==> ok(a.candidate, PlanOf(h, a.candidate))
    ensures Each(ok, Apply(h, s, a).publishers)
  {
    match a {
      case Arrive(pid, candidate) =>
        if pid !in s.publishers && Screened(candidate) {
          ArrivingKeepsEach(ok, s.publishers, pid, Publisher(candidate, PlanOf(h, candidate), Look));
        }
      case Crash(pid) =>
        if pid in s.publishers {
          MovingKeepsEach(ok, s.publishers, pid, Crashed);
        }
      case Step(pid, choice) =>
        if pid in s.publishers {
          StepKeepsEach(h, ok, s, pid, choice);
        }
    }
  }

  lemma {:induction false} ApplyKeepsPlans(h: bytes -> Digest, s: State, a: Action)
    requires PlansOk(h, s.publishers)
    ensures PlansOk(h, Apply(h, s, a).publishers)
  {
    ApplyKeepsEach(h, (c, plan) => Screened(c) && plan == PlanOf(h, c), s, a);
  }

  // ---------- safety of every run ----------

  /** Installed batches are complete and list their own digests, and whoever reads current.json, if
      there is one, finds the name of an installed batch and the digests of its files. */
  ghost predicate Sound(h: bytes -> Digest, d: Directory) {
    && (forall id :: id in d.batches ==> CompleteBatch(h, id, d.batches[id]) && Pointers.ManifestLists(h, d.batches[id]))
    && (d.current.Some? ==> Pointers.PointsAt(h, d.batches, d.current.value))
  }

  /** A directory in which a run may begin. */
  ghost predicate Initial(h: bytes -> Digest, d: Directory) {
    Sound(h, d) && d.stages.Keys <= d.used && d.temps.Keys <= d.used
  }

  function Start(d: Directory): State {
    State(d, map[])
  }

  lemma {:induction false} CompleteNotEmpty(h: bytes -> Digest, id: string, files: Files)
    requires CompleteBatch(h, id, files)
    ensures files != map[]
  {
    assert MANIFEST in files;
  }

  lemma {:induction false} StartInv(h: bytes -> Digest, d: Directory)
    requires Initial(h, d)
    ensures Inv(h, d, d, map[])
  {
    forall id | id in d.batches ensures d.batches[id] != map[] {
      CompleteNotEmpty(h, id, d.batches[id]);
    }
  }

  lemma {:induction false} PointerOfInstalled(h: bytes -> Digest, d: Directory, c: Candidate)
    requires c.files.Keys == CANDIDATE_FILES && Installed(h, d, PlanOf(h, c))
    ensures Pointers.PointsAt(h, d.batches, PlanOf(h, c).pointer)
  {
    var plan := PlanOf(h, c);
    assert plan.id == Sha(h, plan.files[MANIFEST]);
    Pointers.PointsAtSame(h, plan.files[MANIFEST], c.accepted, plan.files, d.batches);
  }

  lemma {:induction false} InstalledComplete(h: bytes -> Digest, ps: Publishers, id: string, files: Files)
    requires PlansOk(h, ps) && InstalledBy(ps, id, files)
    ensures CompleteBatch(h, id, files)
  {
    var q :| q in ps && ps[q].plan.id == id && ps[q].plan.files == files;
    PlanComplete(h, ps[q].candidate);
  }

  lemma {:induction false} PointedSound(h: bytes -> Digest, d: Directory, ps: Publishers, pointer: bytes)
    requires PlansOk(h, ps) && PointedBy(h, d, ps, pointer)
    ensures Pointers.PointsAt(h, d.batches, pointer)
  {
    var q :| q in ps && Installed(h, d, ps[q].plan) && pointer == ps[q].plan.pointer;
    PointerOfInstalled(h, d, ps[q].candidate);
  }

  lemma {:induction false} InvSound(h: bytes -> Digest, initial: Directory, d: Directory, ps: Publishers)
    requires Sound(h, initial) && Inv(h, initial, d, ps) && PlansOk(h, ps)
    ensures Sound(h, d)
  {
    forall id | id in d.batches ensures CompleteBatch(h, id, d.batches[id]) && Pointers.ManifestLists(h, d.batches[id]) {
      if InstalledBy(ps, id, d.batches[id]) {
        InstalledComplete(h, ps, id, d.batches[id]);
      }
      Pointers.CompleteManifest(h, id, d.batches[id]);
    }
    if d.current.Some? {
      if d.current == initial.current {
        Pointers.PointsKept(h, initial.batches, d.batches, d.current.value);
      } else {
        PointedSound(h, d, ps, d.current.value);
      }
    }
  }

  /** Everything the invariant gives about a run from an initial directory. */
  lemma {:induction false} RunFromStart(h: bytes -> Digest, initial: Directory, actions: seq<Action>)
    requires Initial(h, initial)
    ensures var end := Run(h, Start(initial), actions);
      Inv(h, initial, end.dir, end.publishers) && PlansOk(h, end.publishers) && Sound(h, end.dir)
  {
    StartInv(h, initial);
    RunKeeps(h, initial, Start(initial), actions);
    RunKeepsPlans(h, Start(initial), actions);
    var end := Run(h, Start(initial), actions);
    InvSound(h, initial, end.dir, end.publishers);
  }

  lemma {:induction false} RunSplits(h: bytes -> Digest, s: State, first: seq<Action>, later: seq<Action>)
    ensures Run(h, s, first + later) == Run(h, Run(h, s, first), later)
    decreases |first|
  {
    if first == [] {
      assert first + later == later;
    } else {
      assert (first + later)[1..] == first[1..] + later;
      RunSplits(h, Apply(h, s, first[0]), first[1..], later);
    }
  }

  /** For every interleaving of any number of publishers, with failures and crashes anywhere:
      at each moment every batch is complete and named by the hash of its manifest, and
      current.json, if present, names an installed batch and the hashes of its files; and from
      each moment to every later one no installed batch is removed or changed. */
  lemma {:induction false} EveryRunIsSafe(h: bytes -> Digest, initial: Directory, first: seq<Action>, later: seq<Action>)
    requires Initial(h, initial)
    ensures Sound(h, Run(h, Start(initial), first).dir)
    ensures Sound(h, Run(h, Start(initial), first + later).dir)
    ensures BatchesKept(Run(h, Start(initial), first).dir, Run(h, Start(initial), first + later).dir)
  {
    RunFromStart(h, initial, first);
    RunFromStart(h, initial, first + later);
    RunSplits(h, Start(initial), first, later);
    RunKeeps(h, initial, Run(h, Start(initial), first), later);
  }

  /** A publisher that returned has its batch in place then and ever after, and there is a
      current.json. */
  lemma {:induction false} DoneMeansInstalled(h: bytes -> Digest, initial: Directory, first: seq<Action>, later: seq<Action>,
                           pid: nat, p: Publisher)
    requires Initial(h, initial)
    requires pid in Run(h, Start(initial), first).publishers
    requires p == Run(h, Start(initial), first).publishers[pid] && p.pc.Done?
    ensures Screened(p.candidate) && p.plan == PlanOf(h, p.candidate)
    ensures Run(h, Start(initial), first).dir.current.Some?
    ensures Installed(h, Run(h, Start(initial), first + later).dir, p.plan)
  {
    RunFromStart(h, initial, first);
    EveryRunIsSafe(h, initial, first, later);
    var now, end := Run(h, Start(initial), first), Run(h, Start(initial), first + later);
    DoneInstalled(h, now.dir, now.publishers, pid);
    InstalledKept(h, now.dir, end.dir, p.plan);
  }

  lemma {:induction false} DoneInstalled(h: bytes -> Digest, d: Directory, ps: Publishers, pid: nat)
    requires PublishersOk(h, d, ps) && pid in ps && ps[pid].pc.Done?
    ensures Installed(h, d, ps[pid].plan) && d.current.Some?
  {
    assert PublisherOk(h, d, ps[pid].plan, ps[pid].pc);
  }

  lemma {:induction false} RejectedBatchQuiet(h: bytes -> Digest, c: Candidate, name: string)
    requires Screened(c) && !c.accepted && name in PlanOf(h, c).files
    ensures !ContainsReady(PlanOf(h, c).files[name])
  {
    ManifestHasNoToken(h, c.files);
  }

  ghost predicate AllRejected(ps: Publishers) {
    forall pid :: pid in ps ==> !ps[pid].candidate.accepted
  }

  ghost predicate NewBatchesQuiet(initial: Directory, d: Directory) {
    forall id, name :: id in d.batches && id !in initial.batches && name in d.batches[id] ==> !ContainsReady(d.batches[id][name])
  }

  ghost predicate PointerRejected(h: bytes -> Digest, pointer: Option<bytes>) {
    exists c: Candidate :: Screened(c) && !c.accepted && pointer == Some(PlanOf(h, c).pointer)
  }

  lemma {:induction false} RejectedBatchesQuiet(h: bytes -> Digest, initial: Directory, d: Directory, ps: Publishers)
    requires BatchesOk(initial, d, ps) && PlansOk(h, ps) && AllRejected(ps)
    ensures NewBatchesQuiet(initial, d)
  {
    forall id, name | id in d.batches && id !in initial.batches && name in d.batches[id]
      ensures !ContainsReady(d.batches[id][name])
    {
      RejectedInstalledQuiet(h, ps, id, d.batches[id], name);
    }
  }

  lemma {:induction false} RejectedInstalledQuiet(h: bytes -> Digest, ps: Publishers, id: string, files: Files, name: string)
    requires InstalledBy(ps, id, files) && PlansOk(h, ps) && AllRejected(ps) && name in files
    ensures !ContainsReady(files[name])
  {
    var q :| q in ps && ps[q].plan.id == id && ps[q].plan.files == files;
    RejectedBatchQuiet(h, ps[q].candidate, name);
  }

  lemma {:induction false} RejectedPointer(h: bytes -> Digest, d: Directory, ps: Publishers, pointer: bytes)
    requires PointedBy(h, d, ps, pointer) && PlansOk(h, ps) && AllRejected(ps)
    ensures PointerRejected(h, Some(pointer))
  {
    var q :| q in ps && Installed(h, d, ps[q].plan) && pointer == ps[q].plan.pointer;
    assert Screened(ps[q].candidate) && !ps[q].candidate.accepted;
  }

  /** If only rejected candidates take part, no file that the run installs holds the success
      token, and current.json is as it was or says that its batch is rejected. */
  lemma {:induction false} RejectedRunsShowNoToken(h: bytes -> Digest, initial: Directory, actions: seq<Action>)
    requires Initial(h, initial) && AllRejected(Run(h, Start(initial), actions).publishers)
    ensures NewBatchesQuiet(initial, Run(h, Start(initial), actions).dir)
    ensures var current := Run(h, Start(initial), actions).dir.current;
      current == initial.current || PointerRejected(h, current)
  {
    RunFromStart(h, initial, actions);
    var end := Run(h, Start(initial), actions);
    RejectedBatchesQuiet(h, initial, end.dir, end.publishers);
    if end.dir.current != initial.current {
      RejectedPointer(h, end.dir, end.publishers, end.dir.current.value);
    }
  }

  ghost predicate NewlyAccepted(before: Option<bytes>, after: Option<bytes>) {
    after != before && after.Some? && Pointers.SaysAccepted(after.value)
  }

  /** Whoever reads the pointer of a candidate finds acceptance exactly where it is accepted. */
  lemma {:induction false} AcceptedPointer(h: bytes -> Digest, c: Candidate)
    requires c.files.Keys == CANDIDATE_FILES
    ensures Pointers.SaysAccepted(PlanOf(h, c).pointer) <==> c.accepted
  {
    var plan := PlanOf(h, c);
    Pointers.ConclusionTells(h, plan.files[MANIFEST], c.accepted, plan.files);
  }

  ghost predicate AcceptedBy(h: bytes -> Digest, d: Directory, p: Publisher) {
    && p.candidate.accepted && Screened(p.candidate) && p.plan == PlanOf(h, p.candidate)
    && Installed(h, d, p.plan) && d.current == Some(p.plan.pointer)
  }

  ghost predicate AcceptedBySome(h: bytes -> Digest, s: State) {
    exists pid :: pid in s.publishers && AcceptedBy(h, s.dir, s.publishers[pid])
  }

  /** Whoever else publishes: if a run leaves a new current.json that concludes with acceptance, it is
      the pointer of an accepted candidate whose batch is installed. */
  lemma {:induction false} AcceptedPointerIsEarned(h: bytes -> Digest, initial: Directory, actions: seq<Action>)
    requires Initial(h, initial)
    ensures var end := Run(h, Start(initial), actions);
      NewlyAccepted(initial.current, end.dir.current) ==> AcceptedBySome(h, end)
  {
    RunFromStart(h, initial, actions);
    var end := Run(h, Start(initial), actions);
    if NewlyAccepted(initial.current, end.dir.current) {
      var q := PointedFrom(h, end.dir, end.publishers, end.dir.current.value);
      AcceptedPointer(h, end.publishers[q].candidate);
      assert AcceptedBy(h, end.dir, end.publishers[q]);
    }
  }

  lemma {:induction false} PointedFrom(h: bytes -> Digest, d: Directory, ps: Publishers, pointer: bytes) returns (q: nat)
    requires PointedBy(h, d, ps, pointer) && PlansOk(h, ps)
    ensures q in ps && Installed(h, d, ps[q].plan) && pointer == ps[q].plan.pointer
    ensures Screened(ps[q].candidate) && ps[q].plan == PlanOf(h, ps[q].candidate)
  {
    q :| q in ps && Installed(h, d, ps[q].plan) && pointer == ps[q].plan.pointer;
  }

  /** The superseded top-level snapshots are retired only once there is a current.json, and nothing
      else is. */
  lemma {:induction false} LegacyRetiredAfterCurrent(h: bytes -> Digest, initial: Directory, actions: seq<Action>)
    requires Initial(h, initial)
    ensures Run(h, Start(initial), actions).dir.legacy <= initial.legacy
    ensures initial.legacy - Run(h, Start(initial), actions).dir.legacy <= CANDIDATE_FILES
    ensures Run(h, Start(initial), actions).dir.legacy != initial.legacy
      ==> Run(h, Start(initial), actions).dir.current.Some?
  {
    RunFromStart(h, initial, actions);
  }
}
