/** The objects that hold the receive windows, updated in place by the reader goroutine.
    Each method is proved to move the object exactly as ReceiveWindows prescribes. */
module ReceiveSide {
  import opened FixedWidth
  import opened ReceiveWindows

  class RecvWindowTuner {
    const max: nat
    var sampling: bool
    var sampleBytes: nat
    var probeBytes: nat
    var probeThreshold: nat

    constructor (max: nat)
      ensures View() == Tuner(max, false, 0, 0, MIN_PROBE)
    {
      this.max := max;
      sampling, sampleBytes, probeBytes, probeThreshold := false, 0, 0, MIN_PROBE;
    }

    function View(): Tuner
      reads this
    {
      Tuner(max, sampling, sampleBytes, probeBytes, probeThreshold)
    }

    method OnData(n: nat) returns (probe: bool)
      modifies this
      ensures (View(), probe) == TunerOnData(old(View()), n)
    {
      if sampling {
        sampleBytes := ToUint64(sampleBytes + n);
        return false;
      }
      probeBytes := ToUint64(probeBytes + n);
      if probeBytes < probeThreshold {
        return false;
      }
      sampling, sampleBytes, probeBytes := true, 0, 0;
      return true;
    }

    method ProbeFails()
      modifies this
      ensures View() == ProbeFailed(old(View()))
    {
      sampling, sampleBytes := false, 0;
    }
  }

  class Receiver {
    const initialWindow: nat
    var connRecvWindow: int
    var connRefundPending: nat
    var connRecvTarget: nat
    var streamRecvTarget: nat
    var streams: map<nat, Scope>
    var tuner: RecvWindowTuner?
    var written: seq<Update>  // WINDOW_UPDATE frames put on the wire
    var probesWritten: nat    // tuner PINGs put on the wire

    function View(): Windows
      reads this, tuner
    {
      Windows(initialWindow, Scope(connRecvWindow, connRefundPending), connRecvTarget, streamRecvTarget,
              streams, if tuner == null then NoTuner else tuner.View())
    }

    constructor (o: Options)
      ensures View() == Start(o) && written == [] && probesWritten == 0
      ensures tuner != null ==> fresh(tuner)
    {
      initialWindow := o.initialWindow;
      connRecvWindow, connRefundPending := CONN_INITIAL, 0;
      connRecvTarget, streamRecvTarget := InitialConnTarget(o), o.initialWindow;
      streams, written, probesWritten := map[], [], 0;
      if o.autoTune {
        tuner := new RecvWindowTuner(
          RecvWindowCeiling(o.maxRecvWindow, o.eventBuffer, o.maxFrameSize, o.initialWindow));
      } else {
        tuner := null;
      }
    }

    /** The single place the connection window is debited. */
    method DebitConnRecv(length: nat) returns (refund: nat, overrun: bool)
      modifies this`connRecvWindow, this`connRefundPending
      ensures var d := Debit(old(View().conn), CONN_THRESHOLD, connRecvTarget, length);
              && Scope(connRecvWindow, connRefundPending) == d.scope
              && overrun == d.Overrun?
              && refund == if d.Accepted? then d.refund else 0
    {
      refund, overrun := 0, false;
      connRecvWindow := ToInt32(connRecvWindow - ToInt32(length));
      if connRecvWindow < 0 {
        return 0, true;
      }
      connRefundPending := ToUint32(connRefundPending + length);
      if connRefundPending >= CONN_THRESHOLD {
        var spent := connRefundPending;
        connRefundPending := 0;
        refund := RefundIncrement(connRecvTarget, connRecvWindow, spent);
        connRecvWindow := ToInt32(connRecvWindow + ToInt32(refund));
      }
    }

    method WriteWindowUpdatePair(id: nat, streamIncrement: nat, connIncrement: nat)
      modifies this`written
      ensures written == old(written) + Refund(id, streamIncrement) + Refund(0, connIncrement)
    {
      if streamIncrement > 0 {
        written := written + [Update(id, streamIncrement)];
      }
      if connIncrement > 0 {
        written := written + [Update(0, connIncrement)];
      }
    }

    /** The stream's own critical section. */
    method DebitStreamRecv(id: nat, length: nat) returns (refund: nat, overrun: bool)
      requires id in streams
      modifies this`streams
      ensures var d := Debit(old(streams)[id], StreamRefundThreshold(initialWindow), streamRecvTarget, length);
              && streams == old(streams)[id := d.scope]
              && overrun == d.Overrun?
              && refund == if d.Accepted? then d.refund else 0
    {
      refund, overrun := 0, false;
      var window := ToInt32(streams[id].window - ToInt32(length));
      var pending := streams[id].pending;
      if window < 0 {
        overrun := true;
      } else {
        pending := ToUint32(pending + length);
        if pending >= StreamRefundThreshold(initialWindow) {
          var spent := pending;
          pending := 0;
          refund := RefundIncrement(streamRecvTarget, window, spent);
          window := ToInt32(window + ToInt32(refund));
        }
      }
      streams := streams[id := Scope(window, pending)];
    }

    /** Feeds the frame to the tuner and writes its PING when it asks for one. A PING that
        cannot be written ends the sample and is no error. */
    method FeedTuner(length: nat, pingFails: bool)
      modifies this`probesWritten, tuner
      ensures var (t, probe) := TunerOnData(old(View().tuner), length);
              && View() == old(View()).(tuner := if probe && pingFails then ProbeFailed(t) else t)
              && probesWritten == old(probesWritten) + if probe && !pingFails then 1 else 0
    {
      if tuner != null {
        var probe := tuner.OnData(length);
        if probe {
          if pingFails {
            tuner.ProbeFails();
          } else {
            probesWritten := probesWritten + 1;
          }
        }
      }
    }

    method ReceiveData(id: nat, length: nat, pingFails: bool) returns (outcome: Outcome)
      requires id in streams
      modifies this, tuner
      ensures var r := OnDataReceived(old(View()), id, length);
              && tuner == old(tuner)
              && View() == (if r.probe && pingFails then r.next.(tuner := ProbeFailed(r.next.tuner)) else r.next)
              && outcome == r.outcome
              && written == old(written) + r.updates
              && probesWritten == old(probesWritten) + if r.probe && !pingFails then 1 else 0
    {
      var connRefund, overrun := DebitConnRecv(length);
      if overrun {
        return ConnOverrun;
      }
      var streamRefund;
      streamRefund, overrun := DebitStreamRecv(id, length);
      WriteWindowUpdatePair(id, streamRefund, connRefund);
      assert written == old(written) + (Refund(id, streamRefund) + Refund(0, connRefund));
      if overrun {
        return StreamOverrun;
      }
      FeedTuner(length, pingFails);
      return Settled;
    }

    method AccountConnOnly(length: nat) returns (outcome: Outcome)
      modifies this
      ensures var r := AccountConnRecvOnly(old(View()), length);
              && tuner == old(tuner)
              && View() == r.next
              && outcome == r.outcome
              && written == old(written) + r.updates
              && probesWritten == old(probesWritten)
    {
      var refund, overrun := DebitConnRecv(length);
      if overrun {
        return ConnOverrun;
      }
      WriteWindowUpdatePair(0, 0, refund);
      return Settled;
    }

    /** The ACK of the tuner's PING: both raises always run. */
    method DeliverProbeAck()
      modifies this, tuner
      ensures View() == OnAck(old(View()))
      ensures tuner == old(tuner) && written == old(written) && probesWritten == old(probesWritten)
    {
      if tuner == null || !tuner.sampling {
        return;
      }
      tuner.sampling := false;
      var want := ToUint64(tuner.sampleBytes * 2);
      var connBefore, streamBefore := connRecvTarget, streamRecvTarget;
      connRecvTarget := Raise(tuner.max, connRecvTarget, want);
      streamRecvTarget := Raise(tuner.max, streamRecvTarget, want);
      if connRecvTarget != connBefore || streamRecvTarget != streamBefore {
        tuner.probeThreshold := MIN_PROBE;
        return;
      }
      tuner.probeThreshold := ToUint64(tuner.probeThreshold * 2);
      if tuner.probeThreshold > MAX_PROBE {
        tuner.probeThreshold := MAX_PROBE;
      }
    }

    /** NewStream, or an accepted PUSH_PROMISE: both seed the window from the advertised
        setting, and leave what the struct still owes as it is. */
    method Register(id: nat, owed: nat)
      modifies this`streams
      ensures View() == OpenAs(old(View()), id, Scope(ToInt32(initialWindow), owed))
    {
      streams := streams[id := Scope(ToInt32(initialWindow), owed)];
    }

    method Evict(id: nat)
      modifies this`streams
      ensures View() == EvictStream(old(View()), id)
    {
      streams := streams - {id};
    }
  }
}
