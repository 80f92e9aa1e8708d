/** _ScannerEvidenceBuffer of infra/f1/local_material_rag_verify.py. */
module ScannerBuffer {
  import opened Wrappers

  datatype Event = Event(attempts: int, operation: string, phase: string, response: string, code: string)

  const MAX_ATTEMPTS := 64
  const OPERATIONS: set<string> := {"INSTREAM", "VERSION"}
  const PHASES: set<string> := {"CONNECT", "PARSE", "RECV", "RESOLVE", "SEND"}
  const RESPONSES: set<string> := {"EMPTY", "ENGINE_ERROR", "FORMAT_MISMATCH", "NOT_APPLICABLE", "OVERSIZE"}

  /** The fixed reason of each scan code. */
  type Reasons = map<string, string>

  /** _canonicalize_scanner_evidence; None stands for a payload of another shape. */
  predicate Valid(reasons: Reasons, payload: Option<Event>) {
    && payload.Some?
    && var e := payload.value;
       && 1 <= e.attempts <= MAX_ATTEMPTS && e.operation in OPERATIONS && e.phase in PHASES
       && e.response in RESPONSES && e.code in reasons
  }

  /** From k on, every event has the last one's operation. */
  predicate SameFrom(events: seq<Event>, k: nat) {
    forall i :: k <= i < |events| ==> events[i].operation == events[|events| - 1].operation
  }

  /** Where the longest suffix of one operation starts. */
  function LastStart(events: seq<Event>): (start: nat)
    ensures start <= |events| && (events != [] ==> start < |events|)
  {
    if |events| <= 1 then 0
    else
      var n := |events| - 1;
      if events[n - 1].operation == events[n].operation then LastStart(events[..n]) else n
  }

  /** It has a single operation, and no longer suffix has. */
  lemma {:induction false} LastStartIsLongest(events: seq<Event>, k: nat)
    requires k <= |events|
    ensures SameFrom(events, k) <==> LastStart(events) <= k
  {
    if |events| > 1 && k < |events| - 1 {
      var n := |events| - 1;
      LastStartIsLongest(events[..n], k);
      if events[n - 1].operation == events[n].operation {
        assert SameFrom(events, k) <==> SameFrom(events[..n], k);
      } else {
        assert !SameFrom(events, k);
      }
    }
  }

  lemma {:induction false} LastStartNext(events: seq<Event>, e: Event)
    ensures LastStart(events + [e])
         == (if events != [] && events[|events| - 1].operation == e.operation then LastStart(events) else |events|)
  {
    assert (events + [e])[..|events|] == events;
  }

  function Min(a: int, b: int): int {
    if a < b then a else b
  }

  class Buffer {
    var group: seq<Event>
    /** The valid events recorded since the last clear. */
    ghost var events: seq<Event>
    const reasons: Reasons

    ghost predicate Inv()
      reads this
    {
      group == events[LastStart(events)..] && forall i :: 0 <= i < |events| ==> Valid(reasons, Some(events[i]))
    }

    constructor (reasons: Reasons)
      ensures Inv() && events == [] && this.reasons == reasons
    {
      this.reasons := reasons;
      group, events := [], [];
    }

    method Clear()
      requires Inv()
      modifies this
      ensures Inv() && events == []
    {
      group, events := [], [];
    }

    method Record(payload: Option<Event>)
      requires Inv()
      modifies this
      ensures Inv() && events == old(events) + (if Valid(reasons, payload) then [payload.value] else [])
    {
      if !Valid(reasons, payload) {
        return;
      }
      var e := payload.value;
      LastStartNext(events, e);
      if group != [] && group[|group| - 1].operation != e.operation {
        group := [];
      }
      group := group + [e];
      events := events + [e];
    }

    /** Reports the last event, with the length of its run, and only under its own reason. */
    method EmitForReason(reason: string) returns (r: Option<Event>)
      requires Inv()
      ensures r.Some? <==> events != [] && reasons[events[|events| - 1].code] == reason
      ensures r.Some? ==> r.value.attempts == Min(|events| - LastStart(events), MAX_ATTEMPTS)
      ensures r.Some? ==> r.value == events[|events| - 1].(attempts := r.value.attempts) && Valid(reasons, r)
    {
      if reason !in reasons.Values || group == [] {
        return None;
      }
      var last := group[|group| - 1];
      assert last == events[|events| - 1];
      if reasons[last.code] != reason {
        return None;
      }
      r := Some(last.(attempts := Min(|group|, MAX_ATTEMPTS)));
    }
  }
}
