/** One response as the application sees it: interim blocks, the final block, body, trailers,
    and an end that is only announced when the declared length was met. */
module ResponseEvents {
  import opened ResponseFields

  const MAX_INTERIM := 100

  /** A frame of the response as it is handed to the stream. `status` is the numeric :status
      of a field block, 0 when it has none, and `length` what its Content-Length says. */
  datatype Frame =
    | Block(wellFormed: bool, informational: bool, status: nat, length: Length, end: bool)
    | Body(len: nat, end: bool)

  datatype Event = Interim | Final(end: bool) | Content(len: nat, end: bool) | Trailers

  datatype Code = Protocol | Calm | Closed

  datatype State = State(
    headersReceived: bool,
    interims: nat,
    status: nat,
    length: Length,
    bodyLen: nat,
    isHead: bool,
    ended: bool,
    failed: bool)

  datatype Outcome = Delivered(event: Event) | Reset(code: Code)

  /** A response that is defined to carry content. */
  predicate HasContent(status: nat, isHead: bool) {
    !isHead && status != 204 && status != 304
  }

  predicate LengthMet(s: State) {
    s.length.Absent? || !HasContent(s.status, s.isHead) || s.length == Declared(s.bodyLen)
  }

  /** classifyHeaderBlock: what a field block is, or why it is malformed. */
  function Classify(s: State, f: Frame): (State, Outcome)
    requires f.Block?
  {
    if s.headersReceived then
      if f.end then (s, Delivered(Trailers)) else (s, Reset(Protocol))
    else if f.informational then
      if f.end then (s, Reset(Protocol))
      else
        var t := s.(interims := s.interims + 1);
        if t.interims > MAX_INTERIM then (t, Reset(Calm)) else (t, Delivered(Interim))
    else (s.(headersReceived := true, status := f.status, length := f.length), Delivered(Final(f.end)))
  }

  function OnBlock(s: State, f: Frame): (State, Outcome)
    requires f.Block?
  {
    if !f.wellFormed then (s, Reset(Protocol))
    else
      var (t, r) := Classify(s, f);
      if r.Reset? then (t, r)
      else if f.end && !LengthMet(t) then (t, Reset(Protocol))
      else (t.(ended := f.end), r)
  }

  function OnBody(s: State, f: Frame): (State, Outcome)
    requires f.Body?
  {
    if s.ended then (s, Reset(Closed))
    else if !s.headersReceived then (s, Reset(Protocol))
    else
      var t := s.(bodyLen := s.bodyLen + f.len);
      if f.end && !LengthMet(t) then (t, Reset(Protocol))
      else (t.(ended := f.end), Delivered(Content(f.len, f.end)))
  }

  function Take(s: State, f: Frame): (State, Outcome) {
    var (t, r) := if f.Block? then OnBlock(s, f) else OnBody(s, f);
    (t.(failed := r.Reset?), r)
  }

  /** The events of a frame sequence up to its first END_STREAM or error. */
  function Run(s: State, frames: seq<Frame>): (State, seq<Event>)
    decreases |frames|
  {
    if frames == [] || s.ended || s.failed then (s, [])
    else
      var (t, r) := Take(s, frames[0]);
      if r.Reset? then (t, [])
      else
        var (u, events) := Run(t, frames[1..]);
        (u, [r.event] + events)
  }

  function Fresh(isHead: bool): State {
    State(false, 0, 0, Absent, 0, isHead, false, false)
  }

  // ------------------------------------------------------------------ grammar

  predicate Ending(e: Event) {
    match e
    case Interim => false
    case Final(end) => end
    case Content(_, end) => end
    case Trailers => true
  }

  /** What may follow the final block: content, and trailers at the very end. */
  predicate AfterFinal(events: seq<Event>) {
    forall i :: 0 <= i < |events| ==> events[i].Content? || (events[i].Trailers? && i == |events| - 1)
  }

  /** `n` interim blocks seen before; then more of them, then the final one. */
  predicate Shaped(events: seq<Event>, n: nat)
    decreases |events|
  {
    events == [] ||
    match events[0]
    case Interim => n < MAX_INTERIM && Shaped(events[1..], n + 1)
    case Final(_) => AfterFinal(events[1..])
    case _ => false
  }

  /** Nothing comes after an end. */
  predicate EndsOnce(events: seq<Event>) {
    forall i :: 0 <= i < |events| && Ending(events[i]) ==> i == |events| - 1
  }

  function BodySum(events: seq<Event>): nat {
    if events == [] then 0 else (if events[0].Content? then events[0].len else 0) + BodySum(events[1..])
  }

  predicate Ended(events: seq<Event>) {
    events != [] && Ending(events[|events| - 1])
  }

  /** A run from any point of a response, by where it stands. */
  predicate Good(s: State, t: State, events: seq<Event>) {
    && EndsOnce(events)
    && (if s.headersReceived then AfterFinal(events) else Shaped(events, s.interims))
    && t.bodyLen >= s.bodyLen + BodySum(events)
    && (Ended(events) <==> t.ended)
    && (t.ended ==> LengthMet(t) && t.bodyLen == s.bodyLen + BodySum(events))
    && t.isHead == s.isHead
    && (s.headersReceived ==> t.status == s.status && t.length == s.length)
  }

  lemma {:induction false} RunIsGood(s: State, frames: seq<Frame>)
    requires !s.ended && !s.failed
    ensures Good(s, Run(s, frames).0, Run(s, frames).1)
    decreases |frames|
  {
    if frames != [] {
      var (t, r) := Take(s, frames[0]);
      if r.Delivered? {
        var (u, events) := Run(t, frames[1..]);
        var all := [r.event] + events;
        assert all[1..] == events;
        if t.ended {
          assert events == [];
        } else {
          RunIsGood(t, frames[1..]);
        }
        TailIsGood(r.event, events);
      }
    }
  }

  lemma TailIsGood(e: Event, events: seq<Event>)
    requires EndsOnce(events) && (Ending(e) ==> events == [])
    ensures EndsOnce([e] + events)
    ensures Ended([e] + events) == if events == [] then Ending(e) else Ended(events)
    ensures AfterFinal(events) && (e.Content? || (e.Trailers? && events == [])) ==> AfterFinal([e] + events)
  {
    var all := [e] + events;
    forall i | 0 <= i < |all| && Ending(all[i]) ensures i == |all| - 1 {
      if i > 0 {
        assert all[i] == events[i - 1];
      }
    }
    if AfterFinal(events) && (e.Content? || (e.Trailers? && events == [])) {
      forall i | 0 <= i < |all| ensures all[i].Content? || (all[i].Trailers? && i == |all| - 1) {
        if i > 0 {
          assert all[i] == events[i - 1];
        }
      }
    }
  }

  // ------------------------------------------------------- events and their frames

  /** An event says what its frame said. */
  predicate Tells(f: Frame, e: Event) {
    match e
    case Interim => f.Block? && f.wellFormed && f.informational && !f.end
    case Final(end) => f.Block? && f.wellFormed && !f.informational && f.end == end
    case Content(len, end) => f == Body(len, end)
    case Trailers => f.Block? && f.wellFormed && f.end
  }

  /** Bytes of DATA among the frames. */
  function DataSum(frames: seq<Frame>): nat {
    if frames == [] then 0 else (if frames[0].Body? then frames[0].len else 0) + DataSum(frames[1..])
  }

  /** The k-th event is the k-th frame's, and the state has the final block's status and
      length. */
  predicate Traced(t: State, frames: seq<Frame>, events: seq<Event>) {
    && |events| <= |frames|
    && (forall k :: 0 <= k < |events| ==> Tells(frames[k], events[k]))
    && (forall k :: 0 <= k < |events| && events[k].Final? ==>
          t.status == frames[k].status && t.length == frames[k].length)
  }

  /** A final block that declares a length for content of `n` bytes declares `n`. */
  predicate KeepsLength(f: Frame, isHead: bool, n: nat) {
    f.Block? && (!f.length.Absent? && HasContent(f.status, isHead) ==> f.length == Declared(n))
  }

  lemma {:induction false} RunIsTraced(s: State, frames: seq<Frame>)
    requires !s.ended && !s.failed
    ensures Traced(Run(s, frames).0, frames, Run(s, frames).1)
    decreases |frames|
  {
    if frames != [] {
      var (t, r) := Take(s, frames[0]);
      if r.Delivered? {
        var (u, events) := Run(t, frames[1..]);
        var all := [r.event] + events;
        if !t.ended {
          RunIsTraced(t, frames[1..]);
          RunIsGood(t, frames[1..]);
        }
        forall k | 0 <= k < |all| && all[k].Final?
          ensures u.status == frames[k].status && u.length == frames[k].length
        {
          assert k > 0 ==> all[k] == events[k - 1] && frames[k] == frames[1..][k - 1];
        }
        forall k | 0 <= k < |all| ensures Tells(frames[k], all[k]) {
          assert k > 0 ==> all[k] == events[k - 1] && frames[k] == frames[1..][k - 1];
        }
      }
    }
  }

  lemma {:induction false} SumsAgree(frames: seq<Frame>, events: seq<Event>)
    requires |events| == |frames| && forall k :: 0 <= k < |events| ==> Tells(frames[k], events[k])
    ensures BodySum(events) == DataSum(frames)
  {
    if events != [] {
      forall k | 0 <= k < |events[1..]| ensures Tells(frames[1..][k], events[1..][k]) {
        assert Tells(frames[k + 1], events[k + 1]);
      }
      SumsAgree(frames[1..], events[1..]);
    }
  }

  lemma {:induction false} EndHasFinal(events: seq<Event>, n: nat)
    requires Shaped(events, n) && Ended(events)
    ensures exists k :: 0 <= k < |events| && events[k].Final?
    decreases |events|
  {
    if events[0].Interim? {
      EndHasFinal(events[1..], n + 1);
      var k :| 0 <= k < |events[1..]| && events[1..][k].Final?;
      assert events[k + 1].Final?;
    }
  }

  // -------------------------------------------------------------- main result

  /** For every frame sequence on a stream, the events delivered up to the first END_STREAM
      are at most a hundred interim blocks, the final block, content and at most one trailer
      section, each telling what its frame said. An end is delivered last and once, after a
      final block, and only if a length which that block declares for a response that
      carries content is a number equal to the bytes of the DATA frames. */
  lemma ResponseIsOrderly(isHead: bool, frames: seq<Frame>)
    ensures var events := Run(Fresh(isHead), frames).1;
      && |events| <= |frames|
      && (forall k :: 0 <= k < |events| ==> Tells(frames[k], events[k]))
      && Shaped(events, 0) && EndsOnce(events)
      && (Ended(events) ==> exists k :: 0 <= k < |events| && events[k].Final?)
      && (forall k :: 0 <= k < |events| && events[k].Final? && Ended(events) ==>
            KeepsLength(frames[k], isHead, DataSum(frames[..|events|])))
  {
    var (t, events) := Run(Fresh(isHead), frames);
    RunIsGood(Fresh(isHead), frames);
    RunIsTraced(Fresh(isHead), frames);
    SumsAgree(frames[..|events|], events);
    if Ended(events) {
      EndHasFinal(events, 0);
    }
  }

  // ----------------------------------------------------------------- the handler

  /** A decoded field block as the stream's state makes of it. */
  ghost function BlockOf(fields: seq<Field>, trailer: bool, end: bool): Frame {
    Block(WellFormed(fields, trailer), Informational(fields), NumericStatus(fields), LengthOf(fields), end)
  }

  class Response {
    var s: State

    constructor (isHead: bool)
      ensures s == Fresh(isHead)
    {
      s := Fresh(isHead);
    }

    method CheckContentLength() returns (ok: bool)
      ensures ok <==> LengthMet(s)
    {
      if s.length.Absent? {
        return true;
      }
      if s.isHead || s.status == 204 || s.status == 304 {
        return true;
      }
      return s.length.Declared? && s.length.n == s.bodyLen;
    }

    method ClassifyBlock(fields: seq<Field>, end: bool) returns (r: Outcome)
      modifies this
      ensures forall wellFormed ::
        (s, r) == Classify(old(s), Block(wellFormed, Informational(fields), NumericStatus(fields), LengthOf(fields),
                                         end))
    {
      if s.headersReceived {
        return if end then Delivered(Trailers) else Reset(Protocol);
      }
      var status, informational := ReadStatus(fields);
      if informational {
        if end {
          return Reset(Protocol);
        }
        s := s.(interims := s.interims + 1);
        return if s.interims > MAX_INTERIM then Reset(Calm) else Delivered(Interim);
      }
      var length := ResponseContentLength(fields);
      s := s.(headersReceived := true, status := status, length := length);
      return Delivered(Final(end));
    }

    method HandleBlock(fields: seq<Field>, end: bool) returns (r: Outcome)
      modifies this
      ensures (s, r) == Take(old(s), BlockOf(fields, old(s).headersReceived, end))
    {
      var good := ValidateResponseFields(fields, s.headersReceived);
      if !good {
        s := s.(failed := true);
        return Reset(Protocol);
      }
      r := ClassifyBlock(fields, end);
      if r.Delivered? && end {
        var met := CheckContentLength();
        if !met {
          r := Reset(Protocol);
        }
      }
      s := if r.Reset? then s.(failed := true) else s.(ended := end, failed := false);
    }

    method HandleData(len: nat, end: bool) returns (r: Outcome)
      modifies this
      ensures (s, r) == Take(old(s), Body(len, end))
    {
      if s.ended {
        r := Reset(Closed);
      } else if !s.headersReceived {
        r := Reset(Protocol);
      } else {
        s := s.(bodyLen := s.bodyLen + len);
        var met := true;
        if end {
          met := CheckContentLength();
        }
        r := if met then Delivered(Content(len, end)) else Reset(Protocol);
      }
      s := if r.Reset? then s.(failed := true) else s.(ended := end, failed := false);
    }
  }
}
