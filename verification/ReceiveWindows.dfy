/** The receive half of HTTP/2 flow control: the connection window, one window per
    registered stream, the refund counters beside them, and the tuner that raises
    the targets a refund restores a window to. */
module ReceiveWindows {
  import opened FixedWidth

  const CONN_INITIAL := 65535
  const CONN_THRESHOLD := 32768
  const MIN_PROBE := 16 * 1024
  const MAX_PROBE := 8 * 1024 * 1024
  const MAX_AUTO := 64 * 1024 * 1024

  /** The Length field of a frame header has 24 bits. */
  const MAX_FRAME := 0xff_ffff

  /** One receive window with the bytes consumed but not yet given back. */
  datatype Scope = Scope(window: int, pending: nat)

  datatype Tuner =
    | NoTuner
    | Tuner(max: nat, sampling: bool, sampleBytes: nat, probeBytes: nat, probeThreshold: nat)

  datatype Windows = Windows(
    initial: nat,             // the advertised SETTINGS_INITIAL_WINDOW_SIZE
    conn: Scope,
    connTarget: nat,
    streamTarget: nat,
    streams: map<nat, Scope>, // by stream id
    tuner: Tuner)

  /** A WINDOW_UPDATE; stream 0 is the connection. */
  datatype Update = Update(id: nat, increment: nat)

  datatype Outcome = Settled | StreamOverrun | ConnOverrun

  datatype Receipt = Receipt(next: Windows, updates: seq<Update>, outcome: Outcome, probe: bool)

  // ---------------------------------------------------------------- refunds

  /** Half the advertised window, at most the connection threshold and at least 1. */
  function StreamRefundThreshold(window: nat): nat {
    var half := window / 2;
    if half < CONN_THRESHOLD then (if half == 0 then 1 else half) else CONN_THRESHOLD
  }

  function RefundIncrement(target: nat, window: int, spent: nat): nat {
    if target == 0 then spent
    else
      var inc := ToInt32(ToInt32(target) - window);
      if inc > 0 then inc else 0
  }

  datatype Debited = Overrun(scope: Scope) | Accepted(scope: Scope, refund: nat)

  /** Charges one DATA frame of `length` bytes against a window. Both the connection
      window and the stream windows go through this arithmetic. */
  function Debit(sc: Scope, threshold: nat, target: nat, length: nat): Debited {
    var w := ToInt32(sc.window - ToInt32(length));
    if w < 0 then
      Overrun(Scope(w, sc.pending))
    else
      var p := ToUint32(sc.pending + length);
      if p >= threshold then
        var inc := RefundIncrement(target, w, p);
        Accepted(Scope(ToInt32(w + ToInt32(inc)), 0), inc)
      else
        Accepted(Scope(w, p), 0)
  }

  /** The window with the bytes owed to it does not exceed the target. It always holds of the
      connection. A struct may bring bytes that it was charged in the pool, so it is not part
      of what every stream satisfies; ReceiveTargets has it. */
  predicate Within(sc: Scope, target: nat) {
    sc.window + sc.pending <= target
  }

  /** What every window satisfies between frames: with the bytes owed to it it is at least
      the advertised size, it is at most the target, fewer bytes are owed than the
      threshold, and the window is open. */
  ghost predicate Balanced(sc: Scope, floor: nat, threshold: nat, target: nat) {
    && floor <= sc.window + sc.pending
    && sc.window <= target
    && sc.pending < threshold
    && 0 < sc.window
  }

  /** A floor and threshold under which a window cannot close for good: less than a
      whole floor of bytes can be owed at once. */
  ghost predicate Refundable(floor: nat, threshold: nat, target: nat) {
    1 <= threshold <= floor <= target <= MAX_WINDOW
  }

  lemma StreamThresholdRefundable(initial: nat, target: nat)
    requires 1 <= initial <= target <= MAX_WINDOW
    ensures Refundable(initial, StreamRefundThreshold(initial), target)
    ensures StreamRefundThreshold(initial) <= CONN_THRESHOLD
    // one refund for each half window of data, from 2 up, and for 32768 bytes from 65536 up
    ensures 2 <= initial < 2 * CONN_THRESHOLD ==> initial - 1 <= 2 * StreamRefundThreshold(initial) <= initial
    ensures 2 * CONN_THRESHOLD <= initial ==> StreamRefundThreshold(initial) == CONN_THRESHOLD
  {
  }

  /** A frame is accepted exactly when it fits the window; nothing wraps; the refund is
      zero or a legal increment back up to the target, which is at least what was spent; and
      the window stays open. */
  lemma DebitIsBalanced(sc: Scope, floor: nat, threshold: nat, target: nat, length: nat)
    requires Refundable(floor, threshold, target)
    requires Balanced(sc, floor, threshold, target)
    requires length <= MAX_FRAME
    ensures var d := Debit(sc, threshold, target, length);
            && (d.Accepted? <==> length <= sc.window)
            && (d.Accepted? ==>
                  && Balanced(d.scope, floor, threshold, target)
                  && d.scope.window == sc.window - length + d.refund
                  && (d.refund == 0 <==> sc.pending + length < threshold)
                  && (d.refund != 0 ==> d.refund == target - (sc.window - length) && d.refund <= MAX_WINDOW)
                  && (d.refund != 0 ==> d.scope == Scope(target, 0))
                  && (Within(sc, target) ==> Within(d.scope, target))
                  && (d.refund != 0 && Within(sc, target) ==> sc.pending + length <= d.refund))
  {
    assert -TWO_31 <= sc.window - length < TWO_31;
    assert ToInt32(length) == length;
    if length <= sc.window && sc.pending + length >= threshold {
      var w := sc.window - length;
      assert RefundIncrement(target, w, sc.pending + length) == target - w;
    }
  }

  /** A refund gives back all that it counts as spent exactly when the window, with the bytes
      owed to it, was within its target. */
  lemma RefundCoversSpentExactlyWhen(sc: Scope, floor: nat, threshold: nat, target: nat, length: nat)
    requires Refundable(floor, threshold, target) && Balanced(sc, floor, threshold, target)
    requires length <= MAX_FRAME && length <= sc.window && threshold <= sc.pending + length
    ensures var d := Debit(sc, threshold, target, length);
      d.Accepted? && (sc.pending + length <= d.refund <==> Within(sc, target))
  {
    DebitIsBalanced(sc, floor, threshold, target, length);
  }

  // ------------------------------------------------------------------ tuner

  /** The largest window the tuner may ask for. */
  function RecvWindowCeiling(maxRecvWindow: nat, eventBuffer: nat, maxFrameSize: nat, floor: nat): nat {
    var m :=
      if maxRecvWindow == 0 then Min(ToUint64(eventBuffer * maxFrameSize), MAX_AUTO)
      else maxRecvWindow;
    var capped := if m > MAX_AUTO then MAX_AUTO else m;
    if capped < floor then floor else capped
  }

  function TunerOnData(t: Tuner, n: nat): (Tuner, bool)
  {
    if t.NoTuner? then (t, false)
    else if t.sampling then (t.(sampleBytes := ToUint64(t.sampleBytes + n)), false)
    else
      var p := ToUint64(t.probeBytes + n);
      if p < t.probeThreshold then (t.(probeBytes := p), false)
      else (t.(sampling := true, sampleBytes := 0, probeBytes := 0), true)
  }

  function ProbeFailed(t: Tuner): Tuner {
    if t.NoTuner? then t else t.(sampling := false, sampleBytes := 0)
  }

  function Raise(max: nat, target: nat, want: nat): nat {
    var w := ToUint32(if want > max then max else want);
    if w <= target then target else w
  }

  /** Closes the outstanding sample: both targets move up to twice what the round trip
      delivered, within the ceiling; a sample that moves neither doubles the wait. */
  function OnAck(w: Windows): Windows {
    if w.tuner.NoTuner? || !w.tuner.sampling then w
    else
      var want := ToUint64(w.tuner.sampleBytes * 2);
      var ct := Raise(w.tuner.max, w.connTarget, want);
      var st := Raise(w.tuner.max, w.streamTarget, want);
      var grew := ct != w.connTarget || st != w.streamTarget;
      var threshold :=
        if grew then MIN_PROBE
        else Min(ToUint64(w.tuner.probeThreshold * 2), MAX_PROBE);
      w.(connTarget := ct, streamTarget := st,
         tuner := w.tuner.(sampling := false, probeThreshold := threshold))
  }

  // ------------------------------------------------------ frames and windows

  /** A refund of zero puts nothing on the wire. */
  function Refund(id: nat, increment: nat): seq<Update> {
    if increment == 0 then [] else [Update(id, increment)]
  }

  /** A DATA frame on a registered stream. */
  function OnDataReceived(w: Windows, id: nat, length: nat): Receipt
    requires id in w.streams
  {
    match Debit(w.conn, CONN_THRESHOLD, w.connTarget, length)
    case Overrun(c) => Receipt(w.(conn := c), [], ConnOverrun, false)
    case Accepted(c, connRefund) =>
      match Debit(w.streams[id], StreamRefundThreshold(w.initial), w.streamTarget, length)
      case Overrun(s) =>
        Receipt(w.(conn := c, streams := w.streams[id := s]), Refund(0, connRefund), StreamOverrun, false)
      case Accepted(s, refund) =>
        var (t, probe) := TunerOnData(w.tuner, length);
        Receipt(w.(conn := c, streams := w.streams[id := s], tuner := t),
                Refund(id, refund) + Refund(0, connRefund), Settled, probe)
  }

  /** A DATA frame whose stream is gone, or has already ended: only the connection
      window is settled, and the tuner does not see it. */
  function AccountConnRecvOnly(w: Windows, length: nat): Receipt {
    match Debit(w.conn, CONN_THRESHOLD, w.connTarget, length)
    case Overrun(c) => Receipt(w.(conn := c), [], ConnOverrun, false)
    case Accepted(c, refund) => Receipt(w.(conn := c), Refund(0, refund), Settled, false)
  }

  /** A stream from NewStream or an accepted PUSH_PROMISE, in a struct as that was left. */
  function OpenAs(w: Windows, id: nat, sc: Scope): Windows {
    w.(streams := w.streams[id := sc])
  }

  function EvictStream(w: Windows, id: nat): Windows {
    w.(streams := w.streams - {id})
  }

  ghost predicate TunerInRange(t: Tuner) {
    t.Tuner? ==> t.max <= MAX_WINDOW && MIN_PROBE <= t.probeThreshold <= MAX_PROBE
  }

  ghost predicate ValidTargets(w: Windows) {
    && 1 <= w.initial <= w.streamTarget <= MAX_WINDOW
    && CONN_INITIAL <= w.connTarget <= MAX_WINDOW
    && TunerInRange(w.tuner)
  }

  ghost predicate StreamBalanced(w: Windows, id: nat)
    requires id in w.streams
  {
    Balanced(w.streams[id], w.initial, StreamRefundThreshold(w.initial), w.streamTarget)
  }

  ghost predicate ConnBalanced(w: Windows) {
    Balanced(w.conn, CONN_INITIAL, CONN_THRESHOLD, w.connTarget) && Within(w.conn, w.connTarget)
  }

  ghost predicate Valid(w: Windows) {
    && ValidTargets(w)
    && ConnBalanced(w)
    && forall id :: id in w.streams ==> StreamBalanced(w, id)
  }

  /** The options a connection is built from, after defaulting. */
  datatype Options = Options(
    initialWindow: nat, autoTune: bool, staticConnWindow: nat,
    maxRecvWindow: nat, eventBuffer: nat, maxFrameSize: nat)

  /** StaticConnWindowSize after defaulting: zero stays unset, anything else is clamped
      between the handshake value and the protocol maximum. */
  function DefaultedStatic(size: nat): nat {
    if size == 0 then 0
    else if size < CONN_INITIAL then CONN_INITIAL
    else if size > MAX_WINDOW then MAX_WINDOW
    else size
  }

  function InitialConnTarget(o: Options): nat {
    if o.autoTune then CONN_INITIAL
    else
      var s := DefaultedStatic(o.staticConnWindow);
      if s > CONN_INITIAL then s else CONN_INITIAL
  }

  function Start(o: Options): Windows {
    Windows(
      o.initialWindow, Scope(CONN_INITIAL, 0), InitialConnTarget(o), o.initialWindow, map[],
      if o.autoTune then
        Tuner(RecvWindowCeiling(o.maxRecvWindow, o.eventBuffer, o.maxFrameSize, o.initialWindow),
              false, 0, 0, MIN_PROBE)
      else NoTuner)
  }

  lemma StartIsValid(o: Options)
    requires 1 <= o.initialWindow <= MAX_WINDOW
    ensures Valid(Start(o))
  {
  }

  /** The connection's first target: the handshake value while the tuner owns it, and
      otherwise the static size if that is larger, up to the protocol maximum. */
  lemma StartTargets(o: Options)
    ensures var w := Start(o);
      && w.connTarget == (if o.autoTune then CONN_INITIAL else Max(CONN_INITIAL, Min(o.staticConnWindow, MAX_WINDOW)))
      && w.streamTarget == w.initial == o.initialWindow
      && w.conn == Scope(CONN_INITIAL, 0) && w.streams == map[]
      && (w.tuner.Tuner? <==> o.autoTune)
      && (o.autoTune ==> !w.tuner.sampling && w.tuner.probeThreshold == MIN_PROBE && o.initialWindow <= w.tuner.max)
  {
  }

  /** A probe that was not written leaves the tuner as ready for the next as before it. */
  lemma ProbeCanFail(t: Tuner, n: nat)
    requires t.Tuner? && !t.sampling && TunerOnData(t, n).1
    ensures ProbeFailed(TunerOnData(t, n).0) == t.(probeBytes := 0, sampleBytes := 0)
  {
  }

  /** Raising the targets never disturbs a window: targets only grow and stay legal. */
  lemma AckKeepsValid(w: Windows)
    requires Valid(w)
    ensures Valid(OnAck(w))
    ensures w.connTarget <= OnAck(w).connTarget && w.streamTarget <= OnAck(w).streamTarget
    ensures OnAck(w).conn == w.conn && OnAck(w).streams == w.streams
  {
    var a := OnAck(w);
    forall id | id in a.streams ensures StreamBalanced(a, id) {
      assert StreamBalanced(w, id);
    }
  }

  /** A new stream starts at the advertised size. Bytes that its struct still owes do not
      disturb the accounts. */
  lemma OpenAsKeepsValid(w: Windows, id: nat, pending: nat)
    requires Valid(w) && pending < StreamRefundThreshold(w.initial)
    ensures Valid(OpenAs(w, id, Scope(w.initial, pending)))
    ensures Within(OpenAs(w, id, Scope(w.initial, 0)).streams[id], w.streamTarget)
  {
    var o := OpenAs(w, id, Scope(w.initial, pending));
    StreamThresholdRefundable(w.initial, w.streamTarget);
    forall i | i in o.streams ensures StreamBalanced(o, i) {
      assert i != id ==> StreamBalanced(w, i);
    }
  }

  /** With a sample outstanding each target becomes the larger of itself and the smaller of
      the ceiling and twice the bytes sampled; the sample is closed; and the wait before the
      next goes back to its minimum exactly when one of them moved, and is doubled, up to its
      maximum, when neither did. A sample past 2^63 bytes, whose double does not fit 64 bits,
      counts for what is left of that. Without a sample nothing changes. */
  lemma AckRaisesTargets(w: Windows)
    requires TunerInRange(w.tuner) && (w.tuner.Tuner? ==> w.tuner.sampleBytes < TWO_64)
    ensures var a := OnAck(w);
      if w.tuner.NoTuner? || !w.tuner.sampling then a == w
      else
        var s := w.tuner.sampleBytes;
        var twice := if 2 * s < TWO_64 then 2 * s else 2 * s - TWO_64;
        && a.connTarget == Max(w.connTarget, Min(w.tuner.max, twice))
        && a.streamTarget == Max(w.streamTarget, Min(w.tuner.max, twice))
        && a.tuner.Tuner? && !a.tuner.sampling && a.tuner.max == w.tuner.max
        && a.tuner.probeThreshold ==
             (if a.connTarget != w.connTarget || a.streamTarget != w.streamTarget then MIN_PROBE
              else Min(2 * w.tuner.probeThreshold, MAX_PROBE))
  {
  }

  function Sum(lengths: seq<nat>): nat {
    if lengths == [] then 0 else lengths[0] + Sum(lengths[1..])
  }

  /** The tuner fed with frame after frame, and the frames at which it asked for a probe. */
  function Fed(t: Tuner, lengths: seq<nat>): (Tuner, seq<bool>)
    decreases |lengths|
  {
    if lengths == [] then (t, [])
    else
      var (u, probe) := TunerOnData(t, lengths[0]);
      var (v, probes) := Fed(u, lengths[1..]);
      (v, [probe] + probes)
  }

  /** A sample counts every byte that comes in until it is closed, and asks for nothing. */
  lemma {:induction false} SampleCounts(t: Tuner, lengths: seq<nat>)
    requires t.Tuner? && t.sampling && t.sampleBytes + Sum(lengths) < TWO_64
    ensures var (u, probes) := Fed(t, lengths);
      u == t.(sampleBytes := t.sampleBytes + Sum(lengths)) && probes == seq(|lengths|, _ => false)
    decreases |lengths|
  {
    if lengths != [] {
      SampleCounts(TunerOnData(t, lengths[0]).0, lengths[1..]);
      assert [false] + seq(|lengths| - 1, _ => false) == seq(|lengths|, _ => false);
    }
  }

  /** Without one, a probe is asked for with the first frame that fills the wait, and from
      there a new sample is counted, starting at nothing. */
  lemma {:induction false} ProbeAskedExactlyWhen(t: Tuner, before: seq<nat>, n: nat)
    requires t.Tuner? && !t.sampling && t.probeBytes + Sum(before) < t.probeThreshold <= MAX_PROBE && n <= MAX_FRAME
    ensures var (u, probes) := Fed(t, before);
      && u == t.(probeBytes := t.probeBytes + Sum(before)) && probes == seq(|before|, _ => false)
      && (TunerOnData(u, n).1 <==> t.probeThreshold <= t.probeBytes + Sum(before) + n)
      && TunerOnData(u, n).0 ==
           if TunerOnData(u, n).1 then t.(sampling := true, sampleBytes := 0, probeBytes := 0)
           else t.(probeBytes := t.probeBytes + Sum(before) + n)
    decreases |before|
  {
    if before != [] {
      assert t.probeBytes + before[0] <= t.probeBytes + Sum(before);
      ProbeAskedExactlyWhen(TunerOnData(t, before[0]).0, before[1..], n);
      assert [false] + seq(|before| - 1, _ => false) == seq(|before|, _ => false);
    }
  }

  /** The ceiling is what was asked for, or what one stream's channel can hold, brought
      within the floor and 64 MiB; the floor wins. */
  lemma CeilingIs(maxRecvWindow: nat, eventBuffer: nat, maxFrameSize: nat, floor: nat)
    requires eventBuffer * maxFrameSize < TWO_64
    ensures var asked := if maxRecvWindow == 0 then eventBuffer * maxFrameSize else maxRecvWindow;
      var c := RecvWindowCeiling(maxRecvWindow, eventBuffer, maxFrameSize, floor);
      && floor <= c <= Max(floor, MAX_AUTO)
      && (floor <= asked <= MAX_AUTO ==> c == asked)
      && (asked < floor ==> c == floor)
      && (MAX_AUTO < asked && floor <= MAX_AUTO ==> c == MAX_AUTO)
  {
  }

  lemma EvictKeepsValid(w: Windows, id: nat)
    requires Valid(w)
    ensures Valid(EvictStream(w, id))
  {
    var e := EvictStream(w, id);
    forall i | i in e.streams ensures StreamBalanced(e, i) {
      assert StreamBalanced(w, i);
    }
  }

  /** The increments a receipt puts on the wire for one scope. */
  function Increments(updates: seq<Update>, id: nat): nat {
    if updates == [] then 0
    else (if updates[0].id == id then updates[0].increment else 0) + Increments(updates[1..], id)
  }

  lemma RefundIncrements(id: nat, increment: nat, i: nat)
    ensures Increments(Refund(id, increment), i) == if i == id then increment else 0
  {
    assert increment != 0 ==> Refund(id, increment)[1..] == [];
  }

  lemma {:induction false} IncrementsConcat(a: seq<Update>, b: seq<Update>, id: nat)
    ensures Increments(a + b, id) == Increments(a, id) + Increments(b, id)
  {
    if a == [] {
      assert a + b == b;
    } else {
      assert (a + b)[1..] == a[1..] + b;
      IncrementsConcat(a[1..], b, id);
    }
  }

  ghost predicate LegalUpdates(updates: seq<Update>) {
    forall i :: 0 <= i < |updates| ==> 1 <= updates[i].increment <= MAX_WINDOW
  }

  /** What a DATA frame does to the connection window, whoever it was for: what was
      charged and not refunded is what left the window. */
  lemma ConnOnlySettles(w: Windows, length: nat)
    requires Valid(w) && length <= MAX_FRAME
    ensures var r := AccountConnRecvOnly(w, length);
            && (r.outcome.Settled? <==> length <= w.conn.window)
            && (r.outcome.Settled? ==>
                  && Valid(r.next)
                  && LegalUpdates(r.updates)
                  && r.next.conn.window == w.conn.window - length + Increments(r.updates, 0)
                  && (forall id | id != 0 :: Increments(r.updates, id) == 0))
            && r.next.streams == w.streams
            && r.next.initial == w.initial
  {
    DebitIsBalanced(w.conn, CONN_INITIAL, CONN_THRESHOLD, w.connTarget, length);
    var r := AccountConnRecvOnly(w, length);
    var c := Debit(w.conn, CONN_THRESHOLD, w.connTarget, length);
    if c.Accepted? {
      forall i: nat ensures Increments(r.updates, i) == if i == 0 then c.refund else 0 {
        RefundIncrements(0, c.refund, i);
      }
    }
    forall i | i in r.next.streams ensures StreamBalanced(r.next, i) {
      assert StreamBalanced(w, i);
    }
  }

  lemma PairIncrements(id: nat, stream: nat, conn: nat, i: nat)
    ensures Increments(Refund(id, stream) + Refund(0, conn), i) ==
      (if i == id then stream else 0) + (if i == 0 then conn else 0)
  {
    IncrementsConcat(Refund(id, stream), Refund(0, conn), i);
    RefundIncrements(id, stream, i);
    RefundIncrements(0, conn, i);
  }

  /** A DATA frame that fits both windows is settled on both, leaves every other stream
      alone, and keeps both windows open. */
  lemma DataSettles(w: Windows, id: nat, length: nat)
    requires Valid(w) && id in w.streams && id != 0 && length <= MAX_FRAME
    ensures var r := OnDataReceived(w, id, length);
            && (r.outcome.Settled? <==> length <= w.conn.window && length <= w.streams[id].window)
            && (r.outcome.ConnOverrun? <==> length > w.conn.window)
            && (r.outcome.Settled? ==>
                  && Valid(r.next)
                  && LegalUpdates(r.updates)
                  && r.next.conn.window == w.conn.window - length + Increments(r.updates, 0)
                  && r.next.streams.Keys == w.streams.Keys
                  && r.next.streams[id].window == w.streams[id].window - length + Increments(r.updates, id)
                  && (forall i | i != id && i in w.streams :: r.next.streams[i] == w.streams[i])
                  && (forall i | i != 0 && i != id :: Increments(r.updates, i) == 0))
            && r.next.initial == w.initial
  {
    StreamThresholdRefundable(w.initial, w.streamTarget);
    DebitIsBalanced(w.conn, CONN_INITIAL, CONN_THRESHOLD, w.connTarget, length);
    assert StreamBalanced(w, id);
    DebitIsBalanced(w.streams[id], w.initial, StreamRefundThreshold(w.initial), w.streamTarget, length);
    var r := OnDataReceived(w, id, length);
    if r.outcome.Settled? {
      var s := Debit(w.streams[id], StreamRefundThreshold(w.initial), w.streamTarget, length);
      var c := Debit(w.conn, CONN_THRESHOLD, w.connTarget, length);
      forall i: nat
        ensures Increments(r.updates, i) == (if i == id then s.refund else 0) + (if i == 0 then c.refund else 0)
      {
        PairIncrements(id, s.refund, c.refund, i);
      }
      forall i | i in r.next.streams ensures StreamBalanced(r.next, i) {
        assert StreamBalanced(w, i);
      }
    }
  }

  /** A frame that overruns its stream is settled on the connection all the same, with the
      refund that calls for; the stream is charged, and nobody else. One that overruns the
      connection is charged there, and nothing is given back. */
  lemma OverrunsAreCharged(w: Windows, id: nat, length: nat)
    requires Valid(w) && id in w.streams && id != 0 && length <= MAX_FRAME
    ensures var r := OnDataReceived(w, id, length);
      && (r.outcome.StreamOverrun? ==>
            && r.next == w.(conn := r.next.conn, streams := r.next.streams) && ConnBalanced(r.next)
            && r.next.conn.window == w.conn.window - length + Increments(r.updates, 0)
            && r.next.streams == w.streams[id := w.streams[id].(window := w.streams[id].window - length)]
            && (forall i | i != 0 :: Increments(r.updates, i) == 0))
      && (r.outcome.ConnOverrun? ==>
            r.updates == [] && r.next == w.(conn := w.conn.(window := w.conn.window - length)))
  {
    StreamThresholdRefundable(w.initial, w.streamTarget);
    DebitIsBalanced(w.conn, CONN_INITIAL, CONN_THRESHOLD, w.connTarget, length);
    assert StreamBalanced(w, id);
    var c := Debit(w.conn, CONN_THRESHOLD, w.connTarget, length);
    if c.Accepted? {
      forall i: nat ensures Increments(Refund(0, c.refund), i) == if i == 0 then c.refund else 0 {
        RefundIncrements(0, c.refund, i);
      }
    }
  }

  /** The tuner sees exactly the DATA that is settled on a stream. */
  lemma TunerSeesSettledData(w: Windows, id: nat, length: nat)
    requires id in w.streams
    ensures var r := OnDataReceived(w, id, length);
      (r.next.tuner, r.probe) == if r.outcome.Settled? then TunerOnData(w.tuner, length) else (w.tuner, false)
    ensures var r := AccountConnRecvOnly(w, length);
      r.next == w.(conn := r.next.conn) && !r.probe
  {
  }
}
