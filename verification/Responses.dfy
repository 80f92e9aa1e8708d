/** The last step of the F0-F and F0-H runners (infra/f0f/runner.py, infra/f0h/runner.py): one response
    on standard output, whatever fails before and however writes fall short. */
module Responses {
  import opened Wrappers
  import opened Bytes

  const MAX_OUTPUT := 8 * 1024 * 1024

  /** How many bytes each call takes, of those it is offered; below zero it raises. */
  type Takes = nat -> int

  function Least(a: int, b: int): int {
    if a < b then a else b
  }

  /** Standard output: each write takes a beginning of what it is offered, or raises. */
  class Stdout {
    const takes: Takes
    var calls: nat
    var written: bytes

    constructor (takes: Takes)
      ensures this.takes == takes && calls == 0 && written == []
    {
      this.takes, calls, written := takes, 0, [];
    }

    /** os.write: the count, or -1 for an OSError. */
    method Write(data: bytes) returns (n: int)
      modifies this
      ensures calls == old(calls) + 1
      ensures n == if takes(old(calls)) < 0 then -1 else Least(takes(old(calls)), |data|)
      ensures written == old(written) + data[..if n < 0 then 0 else n]
    {
      n := if takes(calls) < 0 then -1 else Least(takes(calls), |data|);
      calls := calls + 1;
      if n > 0 {
        written := written + data[..n];
      }
    }
  }

  // ---------- short writes ----------

  /** How much of n bytes goes out, in writes that go on from call k until one takes nothing. */
  function Sent(takes: Takes, k: nat, n: nat): (sent: nat)
    ensures sent <= n
    decreases n
  {
    if n == 0 || takes(k) < 1 then 0
    else Least(takes(k), n) + Sent(takes, k + 1, n - Least(takes(k), n))
  }

  /** How many calls that makes. */
  function Calls(takes: Takes, k: nat, n: nat): nat
    decreases n
  {
    if n == 0 then 0
    else if takes(k) < 1 then 1
    else 1 + Calls(takes, k + 1, n - Least(takes(k), n))
  }

  /** Whatever the writes take, all goes out if and only if each of them takes something. */
  lemma {:induction false} AllSent(takes: Takes, k: nat, n: nat)
    ensures Sent(takes, k, n) == n <==> forall j :: k <= j < k + Calls(takes, k, n) ==> takes(j) >= 1
    ensures (forall j: nat :: j >= k ==> takes(j) >= 1) ==> Sent(takes, k, n) == n
    decreases n
  {
    if n != 0 && takes(k) >= 1 {
      AllSent(takes, k + 1, n - Least(takes(k), n));
    }
  }

  /** The response line of an error code; the one that replaces an oversized response fits. */
  ghost predicate ErrorsFit(error: string -> bytes) {
    |error("PRIVATE_OUTPUT_LIMIT_EXCEEDED")| <= MAX_OUTPUT
  }

  function Limited(error: string -> bytes, line: bytes): bytes {
    if |line| > MAX_OUTPUT then error("PRIVATE_OUTPUT_LIMIT_EXCEEDED") else line
  }

  /** One write takes the next bytes, or is the last. */
  lemma {:induction false} SentNext(takes: Takes, k: nat, n: nat)
    requires n > 0
    ensures takes(k) < 1 ==> Sent(takes, k, n) == 0 && Calls(takes, k, n) == 1
    ensures takes(k) >= 1 ==>
      var t := Least(takes(k), n);
      Sent(takes, k, n) == t + Sent(takes, k + 1, n - t) && Calls(takes, k, n) == 1 + Calls(takes, k + 1, n - t)
  {
  }

  lemma {:induction false} Appended(before: bytes, line: bytes, offset: nat, n: nat)
    requires offset + n <= |line|
    ensures before + line[..offset] + line[offset..][..n] == before + line[..offset + n]
  {
    assert line[..offset + n] == line[..offset] + line[offset..][..n];
  }

  /** The loop of _emit. */
  method WriteAll(out: Stdout, line: bytes) returns (all: bool)
    modifies out
    ensures out.written == old(out.written) + line[..Sent(out.takes, old(out.calls), |line|)]
    ensures out.calls == old(out.calls) + Calls(out.takes, old(out.calls), |line|)
    ensures all <==> Sent(out.takes, old(out.calls), |line|) == |line|
  {
    ghost var takes, first, total, before := out.takes, out.calls, |line|, out.written;
    var offset := 0;
    while offset < |line|
      invariant 0 <= offset <= |line| == total
      invariant out.written == before + line[..offset]
      invariant Sent(takes, first, total) == offset + Sent(takes, out.calls, total - offset)
      invariant first + Calls(takes, first, total) == out.calls + Calls(takes, out.calls, total - offset)
      decreases |line| - offset
    {
      SentNext(takes, out.calls, total - offset);
      var n := out.Write(line[offset..]);
      if n < 1 {
        return false;
      }
      Appended(before, line, offset, n);
      offset := offset + n;
    }
    all := true;
  }

  /** _emit: one response within the limit goes out, however short its writes fall. All of it does
      if and only if each write takes something, and then the exit is as asked, unless the response
      had to be replaced. */
  method Emit(out: Stdout, error: string -> bytes, encoded: bytes, exit: nat) returns (code: nat)
    requires ErrorsFit(error)
    modifies out
    ensures var line := Limited(error, encoded);
      var sent := Sent(out.takes, old(out.calls), |line|);
      && |line| <= MAX_OUTPUT && out.written == old(out.written) + line[..sent]
      && out.calls == old(out.calls) + Calls(out.takes, old(out.calls), |line|)
      && code == (if sent == |line| && |encoded| <= MAX_OUTPUT then exit else 2)
      && (sent == |line| <==> forall k :: old(out.calls) <= k < out.calls ==> out.takes(k) >= 1)
  {
    var line := Limited(error, encoded);
    AllSent(out.takes, out.calls, |line|);
    var all := WriteAll(out, line);
    code := if |encoded| > MAX_OUTPUT || !all then 2 else exit;
  }

  // ---------- main ----------

  datatype Failure = Public(code: string) | Internal

  /** How one cleaning goes, and whether files are left where it does not settle that. */
  datatype Cleaning = Cleaning(raises: bool, dirty: bool)

  /** How the worker's run goes, whether the process still runs then, and whether it left files. */
  datatype Work = Work(error: Option<Failure>, running: bool, dirty: bool)

  /** What the surroundings answer, step by step: loading the runner's base, verifying the runtime,
      cleaning, reading the envelope, the worker, cleaning again, loading the lock, encoding the
      success, and the cleaning that a handler attempts. */
  datatype Answers = Answers(
    load: Option<Failure>, verify: Option<Failure>, clean: Cleaning, read: Option<Failure>, work: Work, cleanAgain: Cleaning,
    lock: Option<Failure>, encode: Option<Failure>, response: bytes, lastClean: Cleaning)

  const CLEANUP := "TEMP_CLEANUP_FAILED"
  const INTERNAL := "INTERNAL_ERROR"

  /** Files under the temporary roots, and whether the worker still runs and may add some. */
  class Workspace {
    var dirty: bool
    var running: bool

    /** _clean_temp_roots. */
    method CleanTempRoots(c: Cleaning) returns (error: Option<Failure>)
      modifies this`dirty
      ensures dirty == ((c.raises || running) && c.dirty)
      ensures error == CleaningFailure(c)
    {
      dirty := c.dirty;
      if c.raises {
        return Some(Public(CLEANUP));
      }
      if !running {
        dirty := false;
      }
      error := None;
    }

    /** _run_worker: an answer is only returned once the process has ended with exit code zero. */
    method RunWorker(work: Work) returns (error: Option<Failure>)
      modifies this
      ensures running == work.running && dirty == work.dirty
      ensures error == WorkFailure(work)
    {
      running, dirty, error := work.running, work.dirty, work.error;
      if error.None? && running {
        error := Some(Public("OCR_WORKER_FAILED"));
      }
    }
  }

  function CleaningFailure(c: Cleaning): Option<Failure> {
    if c.raises then Some(Public(CLEANUP)) else None
  }

  function WorkFailure(work: Work): Option<Failure> {
    if work.error.None? && work.running then Some(Public("OCR_WORKER_FAILED")) else work.error
  }

  function First(failures: seq<Option<Failure>>): Option<Failure> {
    if failures == [] then None else if failures[0].Some? then failures[0] else First(failures[1..])
  }

  function EarlyFailures(a: Answers): seq<Option<Failure>> {
    [a.load, a.verify, CleaningFailure(a.clean), a.read]
  }

  function LateFailures(a: Answers): seq<Option<Failure>> {
    [WorkFailure(a.work), CleaningFailure(a.cleanAgain), a.lock, a.encode]
  }

  /** What ends a run before its response is ready: the first failure of its steps in order. */
  function FailureOf(a: Answers): Option<Failure> {
    First(EarlyFailures(a) + LateFailures(a))
  }

  lemma {:induction false} FirstOfTwo(a: seq<Option<Failure>>, b: seq<Option<Failure>>)
    ensures First(a + b) == if First(a).Some? then First(a) else First(b)
  {
    if a == [] {
      assert a + b == b;
    } else {
      FirstOfTwo(a[1..], b);
      assert (a + b)[1..] == a[1..] + b;
    }
  }

  lemma {:induction false} FirstOfFour(a: Option<Failure>, b: Option<Failure>, c: Option<Failure>, d: Option<Failure>)
    ensures First([a, b, c, d]) == if a.Some? then a else if b.Some? then b else if c.Some? then c else d
  {
    assert [a, b, c, d] == [a] + ([b] + ([c] + [d]));
    FirstOfTwo([a], [b] + ([c] + [d]));
    FirstOfTwo([b], [c] + [d]);
    FirstOfTwo([c], [d]);
  }

  datatype Step = Verified | Cleaned | Read | Worked | Loaded | Encoded

  const STEPS := [Verified, Cleaned, Read, Worked, Cleaned, Loaded, Encoded]

  /** The steps up to the worker's. */
  method Begin(w: Workspace, a: Answers) returns (error: Option<Failure>, log: seq<Step>)
    modifies w`dirty
    ensures error == First(EarlyFailures(a))
    ensures error.None? ==> log == STEPS[..3]
    ensures a.load.Some? ==> w.dirty == old(w.dirty)
  {
    FirstOfFour(a.load, a.verify, CleaningFailure(a.clean), a.read);
    error, log := a.load, [];
    if error.Some? {
      return;
    }
    error := a.verify;
    if error.Some? {
      return;
    }
    log := log + [Verified];
    error := w.CleanTempRoots(a.clean);
    if error.Some? {
      return;
    }
    log := log + [Cleaned];
    error := a.read;
    if error.None? {
      log := log + [Read];
    }
  }

  /** The worker's step and the steps after it, up to the encoded success. */
  method Finish(w: Workspace, a: Answers) returns (error: Option<Failure>, log: seq<Step>)
    modifies w
    ensures error == First(LateFailures(a)) && w.running == a.work.running
    ensures error.None? ==> log == STEPS[3..] && !w.dirty && !w.running
  {
    FirstOfFour(WorkFailure(a.work), CleaningFailure(a.cleanAgain), a.lock, a.encode);
    log := [];
    error := w.RunWorker(a.work);
    if error.Some? {
      return;
    }
    log := log + [Worked];
    error := w.CleanTempRoots(a.cleanAgain);
    if error.Some? {
      return;
    }
    log := log + [Cleaned];
    error := a.lock;
    if error.Some? {
      return;
    }
    log := log + [Loaded];
    // Encoding the success raises on values that JSON cannot hold.
    error := a.encode;
    if error.None? {
      log := log + [Encoded];
    }
  }

  /** Everything before the response is emitted. */
  method Prepare(w: Workspace, a: Answers) returns (error: Option<Failure>, log: seq<Step>)
    modifies w
    ensures error == FailureOf(a)
    ensures error.None? ==> log == STEPS && !w.dirty && !w.running
    ensures w.running == if First(EarlyFailures(a)).None? then a.work.running else old(w.running)
  {
    FirstOfTwo(EarlyFailures(a), LateFailures(a));
    error, log := Begin(w, a);
    if error.None? {
      var rest;
      error, rest := Finish(w, a);
      log := log + rest;
    }
  }

  datatype Runner = F0F | F0H

  /** The code that is reported for a failure: that of a clean-up which the handler attempts in vain,
      except that F0-F reports an internal error as just that. */
  function CodeFor(runner: Runner, failure: Failure, a: Answers): string {
    if a.load.None? && a.lastClean.raises && (failure.Public? || runner == F0H) then CLEANUP
    else if failure.Public? then failure.code
    else INTERNAL
  }

  /** The handlers: the code that is reported, after one more attempt to clean up. With files left
      behind by a worker that has ended, the code says so, except that F0-F reports an internal error
      as just that. */
  method Report(runner: Runner, w: Workspace, failure: Failure, a: Answers) returns (code: string)
    modifies w`dirty
    ensures code == CodeFor(runner, failure, a)
    ensures a.load.Some? ==> w.dirty == old(w.dirty)
    ensures a.load.None? && !w.running && w.dirty ==>
      code == (if runner == F0F && failure.Internal? then INTERNAL else CLEANUP)
    ensures a.load.None? ==> w.dirty == ((a.lastClean.raises || w.running) && a.lastClean.dirty)
  {
    code := if failure.Public? then failure.code else INTERNAL;
    if a.load.None? {
      var error := w.CleanTempRoots(a.lastClean);
      if error.Some? && (failure.Public? || runner == F0H) {
        code := CLEANUP;
      }
    }
  }

  /** How a run ended: a prepared success, or the failure and the code that was reported for it. */
  datatype Ending = Success | Failed(failure: Failure, code: string)

  function LineOf(error: string -> bytes, a: Answers, e: Ending): bytes {
    if e.Success? then a.response else error(e.code)
  }

  /** main. Exactly one response goes out, within the limit: the prepared success, exactly when all
      went well, or the error that is reported. All of it does, however short the writes fall, if and
      only if each of them takes something. Exit zero means that every step ran in order, the
      temporary roots were cleaned after the worker had finished, and the whole success went out; and
      a success that fits and whose writes all take something exits so. Files that an ended worker
      left behind are reported, except that F0-F reports an internal error as just that. */
  method Run(runner: Runner, w: Workspace, out: Stdout, error: string -> bytes, a: Answers)
    returns (exit: nat, ending: Ending, log: seq<Step>)
    requires ErrorsFit(error) && w as object != out as object
    modifies w, out
    ensures FailureOf(a) == (if ending.Success? then None else Some(ending.failure))
    ensures ending.Success? ==> log == STEPS && !w.dirty && !w.running
    ensures var line := Limited(error, LineOf(error, a, ending));
      var sent := Sent(out.takes, old(out.calls), |line|);
      && |line| <= MAX_OUTPUT && out.written == old(out.written) + line[..sent]
      && (sent == |line| <==> forall k :: old(out.calls) <= k < out.calls ==> out.takes(k) >= 1)
    ensures exit == 0 || exit == 2
    ensures exit == 0 <==>
      && ending.Success? && |a.response| <= MAX_OUTPUT
      && forall k :: old(out.calls) <= k < out.calls ==> out.takes(k) >= 1
    ensures exit == 0 ==> out.written == old(out.written) + a.response
    ensures ending.Failed? && a.load.None? && !w.running && w.dirty ==>
      ending.code == (if runner == F0F && ending.failure.Internal? then INTERNAL else CLEANUP)
    ensures ending.Failed? ==> ending.code == CodeFor(runner, ending.failure, a)
    ensures ending.Failed? && a.load.None? ==> w.dirty == ((a.lastClean.raises || w.running) && a.lastClean.dirty)
    ensures w.running == if First(EarlyFailures(a)).None? then a.work.running else old(w.running)
  {
    FirstOfTwo(EarlyFailures(a), LateFailures(a));
    FirstOfFour(a.load, a.verify, CleaningFailure(a.clean), a.read);
    var failure;
    failure, log := Prepare(w, a);
    if failure.None? {
      ending := Success;
      exit := Emit(out, error, a.response, 0);
    } else {
      var code := Report(runner, w, failure.value, a);
      ending := Failed(failure.value, code);
      exit := Emit(out, error, error(code), 2);
    }
  }

  /** A worker that fails unexpectedly and leaves a file that cannot be removed: F0-F does not tell. */
  method HiddenLeftovers(w: Workspace, out: Stdout, error: string -> bytes) returns (exit: nat, ending: Ending)
    requires ErrorsFit(error) && w as object != out as object
    modifies w, out
    ensures exit == 2 && w.dirty && !w.running && ending == Failed(Internal, INTERNAL)
  {
    var log;
    LeftoverFailure();
    exit, ending, log := Run(F0F, w, out, error, UnremovableFile());
  }

  function UnremovableFile(): Answers {
    Answers(None, None, Cleaning(false, false), None, Work(Some(Internal), false, true), Cleaning(true, true), None, None, [],
            Cleaning(true, true))
  }

  lemma {:induction false} LeftoverFailure()
    ensures FailureOf(UnremovableFile()) == Some(Internal) && First(EarlyFailures(UnremovableFile())).None?
  {
    var a := UnremovableFile();
    FirstOfTwo(EarlyFailures(a), LateFailures(a));
    FirstOfFour(a.load, a.verify, CleaningFailure(a.clean), a.read);
    FirstOfFour(WorkFailure(a.work), CleaningFailure(a.cleanAgain), a.lock, a.encode);
  }

  /** The same surroundings under F0-H: the failed cleanup is reported. */
  method ReportedLeftovers(w: Workspace, out: Stdout, error: string -> bytes) returns (exit: nat, ending: Ending)
    requires ErrorsFit(error) && w as object != out as object
    modifies w, out
    ensures exit == 2 && w.dirty && !w.running && ending == Failed(Internal, CLEANUP)
  {
    var log;
    LeftoverFailure();
    exit, ending, log := Run(F0H, w, out, error, UnremovableFile());
  }
}
