/** The stream struct itself, a mutable cell holding the fields. Each method is one critical
    section of its mutex; the specification functions say what it leaves behind. */
module StreamStruct {
  import opened StreamLifecycle

  /** Latching the remote end before the delivery changes nothing about it. */
  lemma RemoteEndFirst(s: Stream, from: nat, end: bool, empty: bool)
    ensures var t := if end then s.(remoteEnded := true) else s;
      && DeliverEnd(t, from, end, empty) == DeliverEnd(s, from, end, empty)
      && PushOutcome(t, end, empty) == PushOutcome(s, end, empty)
  {
  }

  lemma PushCases(s: Stream, from: nat, end: bool)
    requires end ==> s.remoteEnded
    ensures var t := DeliverEnd(s, from, end, false);
      && (!Full(s) ==> t == s.(events := s.events + [Event(from, end)]))
      && (Full(s) && s.closed ==> t == s)
      && (Full(s) && !s.closed ==> t == s.(closed := true))
  {
  }

  class Pooled {
    var s: Stream

    constructor (eventBuf: nat)
      ensures s == NewStream(eventBuf)
    {
      s := NewStream(eventBuf);
    }

    /** A non-blocking send into the channel. */
    method TrySend(e: Event) returns (sent: bool)
      modifies this
      ensures sent == !Full(old(s))
      ensures s == if sent then old(s).(events := old(s).events + [e]) else old(s)
    {
      sent := |s.events| < s.capacity;
      if sent {
        s := s.(events := s.events + [e]);
      }
    }

    method AnnounceReset(from: nat)
      modifies this
      ensures s == Announce(old(s), from)
    {
      var sent := TrySend(Event(from, true));
      if !sent {
        s := s.(resetSignalled := true);
      }
    }

    method EndByReset(wantId: nat) returns (ended: bool)
      modifies this
      ensures ended == (old(s).id == wantId)
      ensures s == EndWithReset(old(s), wantId)
    {
      if s.id != wantId {
        return false;
      }
      AnnounceReset(wantId);
      s := s.(remoteEnded := true, localEnded := true, closed := true);
      return true;
    }

    /** `spawned` says that a goroutine was started to reset the stream on the wire. */
    method PushLocked(from: nat, end: bool) returns (sent: bool, spawned: bool)
      modifies this
      ensures sent == !Full(old(s)) && spawned == (Full(old(s)) && !old(s).closed)
      ensures spawned ==> s == Announce(old(s).(closed := true), from)
      ensures sent ==> s == old(s).(events := old(s).events + [Event(from, end)])
      ensures !sent && !spawned ==> s == old(s)
    {
      spawned := false;
      sent := TrySend(Event(from, end));
      if sent {
        return;
      }
      var already := s.closed;
      s := s.(closed := true);
      if already {
        return;
      }
      spawned := true;
      AnnounceReset(from);
    }

    method EndInOrBesideChannel(from: nat) returns (sent: bool)
      requires s.remoteEnded
      modifies this
      ensures sent == !Full(old(s))
      ensures s == DeliverEnd(old(s), from, true, true)
    {
      sent := TrySend(Event(from, true));
      if !sent {
        s := s.(endSignalled := true);
      }
    }

    method Deliver(from: nat, end: bool, empty: bool) returns (sent: bool, spawned: bool)
      modifies this
      ensures sent == PushOutcome(old(s), end, empty).Enqueued?
      ensures spawned == PushOutcome(old(s), end, empty).Overflowed?
      ensures spawned ==> s == Announce(DeliverEnd(old(s), from, end, empty), from)
      ensures !spawned ==> s == DeliverEnd(old(s), from, end, empty)
    {
      RemoteEndFirst(s, from, end, empty);
      if end {
        s := s.(remoteEnded := true);
      }
      if end && empty {
        spawned := false;
        sent := EndInOrBesideChannel(from);
      } else {
        PushCases(s, from, end);
        sent, spawned := PushLocked(from, end);
      }
    }

    /** Drains the channel, clears the fields and ends the lifetime. */
    method ResetForReuse()
      modifies this
      ensures s == ResetForPool(old(s))
    {
      while |s.events| > 0
        invariant s == old(s).(events := s.events)
        decreases |s.events|
      {
        s := s.(events := s.events[1..]);
      }
      s := s.(chanClosed := false, gen := s.gen + 1, id := 0, hasWriter := false);
      s := s.(localEnded := false, remoteEnded := false, closed := false, inflightDone := false,
              pushed := false, appClosed := false, connDone := false, headersReceived := false);
      s := s.(resetSignalled := false, endSignalled := false, recycleWanted := false);
    }

    method Recycle() returns (put: bool)
      modifies this
      ensures put == (old(s).recvActive <= 0)
      ensures s == RecycleStream(old(s))
    {
      if s.recvActive > 0 {
        s := s.(recycleWanted := true);
        return false;
      }
      ResetForReuse();
      return true;
    }

    method EnterRecv(wantGen: nat) returns (admitted: bool)
      modifies this
      ensures admitted == MayReceive(old(s), wantGen)
      ensures s == if admitted then old(s).(recvActive := old(s).recvActive + 1) else old(s)
    {
      if s.gen != wantGen || s.released {
        return false;
      }
      s := s.(recvActive := s.recvActive + 1);
      return true;
    }

    method LeaveRecv() returns (put: bool)
      modifies this
      ensures put == LastOut(old(s))
      ensures s == RecvLeave(old(s))
    {
      s := s.(recvActive := s.recvActive - 1);
      if s.recvActive > 0 || !s.recycleWanted {
        return false;
      }
      s := s.(recycleWanted := false);
      ResetForReuse();
      return true;
    }

    method CloseHandle(wantGen: nat) returns (r: Closing)
      modifies this
      ensures r == CloseOutcome(old(s), wantGen)
      ensures s == Close(old(s), wantGen)
    {
      if s.gen != wantGen {
        return Stale;
      }
      if s.released {
        return Repeated;
      }
      s := s.(released := true, appClosed := true);
      var wasClosed, bothEnded := s.closed, s.localEnded && s.remoteEnded;
      if !wasClosed && !bothEnded {
        s := s.(closed := true);
      }
      if wasClosed {
        return TornDown;
      }
      if s.connDone {
        return Recycles;
      }
      if bothEnded {
        return CompletionInFlight;
      }
      return Abandons;
    }

    method MarkDone() returns (mine: bool)
      modifies this
      ensures mine == MarksEnded(old(s))
      ensures s == if mine then ReleaseSlot(old(s)) else old(s)
    {
      mine := s.localEnded && s.remoteEnded && !s.inflightDone;
      if mine {
        s := s.(inflightDone := true);
      }
    }

    method MeetClose() returns (recycle: bool)
      modifies this
      ensures (s, recycle) == Rendezvous(old(s))
    {
      recycle := false;
      if !s.closed {
        if s.appClosed {
          recycle := true;
        } else {
          s := s.(connDone := true);
        }
      }
    }
  }
}
