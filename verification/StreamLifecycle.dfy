/** One pooled stream struct: what each critical section of its mutex does to it. The
    struct outlives the request it serves; `gen` names the lifetime that owns it. */
module StreamLifecycle {

  /** An event in the channel. `from` is the id of the stream whose frame produced it. */
  datatype Event = Event(from: nat, terminal: bool)

  datatype Stream = Stream(
    gen: nat,
    id: nat,              // 0 until the first HEADERS is written
    hasWriter: bool,      // s.w is set
    capacity: nat,
    events: seq<Event>,
    localEnded: bool,
    remoteEnded: bool,
    closed: bool,         // reset, by either side or by overflow
    inflightDone: bool,
    pushed: bool,
    appClosed: bool,
    connDone: bool,
    released: bool,
    recvActive: int,
    recycleWanted: bool,
    resetSignalled: bool,
    endSignalled: bool,
    chanClosed: bool,     // shutdownStreams closed the event channel
    headersReceived: bool) // a final response block has been classified

  /** A struct nobody has used yet, as if it had just been put in the pool. */
  function NewStream(capacity: nat): Stream {
    Stream(1, 0, false, capacity, [], false, false, false, false, false, false, false, true, 0, false, false, false,
           false, false)
  }

  // ------------------------------------------------------------- deliveries

  predicate Full(s: Stream) {
    |s.events| >= s.capacity
  }

  /** An event goes in the channel, or a full channel is signalled beside it. */
  function Announce(s: Stream, from: nat): Stream {
    s.(events := if Full(s) then s.events else s.events + [Event(from, true)],
       resetSignalled := s.resetSignalled || Full(s))
  }

  /** A reset of the stream the caller looked up; refused once the struct names another. */
  function EndWithReset(s: Stream, wantId: nat): Stream {
    if s.id != wantId then s
    else Announce(s, wantId).(remoteEnded := true, localEnded := true, closed := true)
  }

  /** shutdownStreams on a registered stream, when the reader is gone. */
  function ShutDown(s: Stream): Stream {
    Announce(s, s.id).(chanClosed := true)
  }

  datatype Pushed = Enqueued | Signalled | Dropped | Overflowed

  /** `empty` marks a terminal DATA frame with no payload, which is signalled out of band
      rather than allowed to overflow. Any other overflow costs the stream, once. */
  function PushOutcome(s: Stream, end: bool, empty: bool): Pushed {
    if !Full(s) then Enqueued
    else if end && empty then Signalled
    else if s.closed then Dropped
    else Overflowed
  }

  /** deliverEnd up to the overflow's own announcement, which a receiver can get ahead of. */
  function DeliverEnd(s: Stream, from: nat, end: bool, empty: bool): Stream {
    var r := PushOutcome(s, end, empty);
    s.(events := if r.Enqueued? then s.events + [Event(from, end)] else s.events,
       remoteEnded := s.remoteEnded || end,
       closed := s.closed || r.Overflowed?,
       endSignalled := s.endSignalled || r.Signalled?)
  }

  // --------------------------------------------------------------- recycling

  /** Ends the lifetime: drains the channel, clears every field and moves the generation. */
  function ResetForPool(s: Stream): Stream {
    Stream(s.gen + 1, 0, false, s.capacity, [], false, false, false, false, false, false, false,
           s.released, s.recvActive, false, false, false, false, false)
  }

  /** A reader inside Recv defers the recycle to its own exit. */
  function RecycleStream(s: Stream): Stream {
    if s.recvActive > 0 then s.(recycleWanted := true) else ResetForPool(s)
  }

  /** The reader leaving now is the last, and a recycle was left to it. */
  predicate LastOut(s: Stream) {
    s.recvActive <= 1 && s.recycleWanted
  }

  function RecvLeave(s: Stream): Stream {
    var t := s.(recvActive := s.recvActive - 1);
    if LastOut(s) then ResetForPool(t) else t
  }

  predicate MayReceive(s: Stream, wantGen: nat) {
    s.gen == wantGen && !s.released
  }

  datatype Closing = Stale | Repeated | TornDown | Recycles | CompletionInFlight | Abandons

  function CloseOutcome(s: Stream, wantGen: nat): Closing {
    if s.gen != wantGen then Stale
    else if s.released then Repeated
    else if s.closed then TornDown
    else if s.connDone then Recycles
    else if s.localEnded && s.remoteEnded then CompletionInFlight
    else Abandons
  }

  function Close(s: Stream, wantGen: nat): Stream {
    if s.gen != wantGen || s.released then s
    else s.(released := true, appClosed := true, closed := s.closed || !(s.localEnded && s.remoteEnded))
  }

  // --------------------------------------------------- the connection's sections

  /** markStreamDone's first section: this call is the one that releases and evicts. */
  predicate MarksEnded(s: Stream) {
    s.localEnded && s.remoteEnded && !s.inflightDone
  }

  /** Its second section hands the recycling to whichever of it and Close comes second. */
  function Rendezvous(s: Stream): (Stream, bool) {
    (s.(connDone := s.connDone || (!s.closed && !s.appClosed)), !s.closed && s.appClosed)
  }

  /** releaseInflight and releaseUnassignedInflight release the slot, at most once. */
  function ReleaseSlot(s: Stream): Stream {
    s.(inflightDone := true)
  }

  /** allocStream on a struct taken from the pool. */
  function Allocate(s: Stream): Stream {
    s.(hasWriter := true, released := false)
  }

  /** The door of every send: the lifetime presented, and neither side closed here. */
  predicate MaySend(s: Stream, wantGen: nat) {
    s.gen == wantGen && !s.pushed && !s.closed && !s.localEnded
  }
}
