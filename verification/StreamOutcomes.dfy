/** What the critical sections of a stream struct decide, each said of the struct before and
    after it. */
module StreamOutcomes {
  import opened StreamLifecycle
  import opened StreamRuns

  /** A send is let in exactly when its handle is of this lifetime, the stream is not the
      peer's to send, and it has neither been reset nor ended by us. A receive is let in
      exactly when its handle is of this lifetime and has not been closed, and so also when
      the stream has ended or was reset: there may be events to take. */
  lemma DoorsAdmitExactly(y: Sys, gen: nat, past: Task)
    ensures RunDoor(y, gen, past) ==
      if gen == y.s.gen && !y.s.pushed && !y.s.closed && !y.s.localEnded
      then y.(tasks := y.tasks + multiset{past}) else y
    ensures RunRecvEnter(y, gen) ==
      if gen == y.s.gen && !y.s.released
      then y.(s := y.s.(recvActive := y.s.recvActive + 1), tasks := y.tasks + multiset{Receiving(gen)}) else y
  {
  }

  /** Nothing is lost in silence: what is delivered is in the channel; or it was an end
      without payload, and is signalled beside it; or the stream is reset. */
  lemma DeliveryDecides(y: Sys, id: nat, block: bool, end: bool, empty: bool, final: bool)
    ensures var z := RunDeliver(y, id, block, end, empty, final);
      var room, bare := |y.s.events| < y.s.capacity, end && empty && !block;
      && z.s.events == (if room then y.s.events + [Event(id, end)] else y.s.events)
      && z.s.endSignalled == (y.s.endSignalled || (!room && bare))
      && z.s.closed == (y.s.closed || (!room && !bare))
      && z.s.remoteEnded == (y.s.remoteEnded || end)
      && z.s.headersReceived == (y.s.headersReceived || (final && block))
  {
  }

  /** An overflow costs the stream once: only the one that resets it announces that, and
      starts the RST_STREAM. An END_STREAM has the stream retired. */
  lemma DeliveryGoesOn(y: Sys, id: nat, block: bool, end: bool, empty: bool, final: bool)
    ensures var z := RunDeliver(y, id, block, end, empty, final);
      var overflows := !(|y.s.events| < y.s.capacity) && !(end && empty && !block) && !y.s.closed;
      && z.reader == (if overflows then Announcing(id) else Away)
      && z.tasks == y.tasks + (if overflows then multiset{Overflowing(y.s.gen)} else multiset{})
                    + (if end then multiset{Marking(if block then y.s.id else id)} else multiset{})
  {
    assert y.tasks + multiset{} == y.tasks;
  }

  /** The application will learn of a reset: its event is in the channel, or it is signalled. */
  predicate Told(s: Stream) {
    s.resetSignalled || exists k :: 0 <= k < |s.events| && s.events[k].terminal
  }

  lemma AnnouncedIsTold(s: Stream, from: nat)
    ensures Told(Announce(s, from)) && s.events <= Announce(s, from).events
  {
    if !Full(s) {
      assert Announce(s, from).events[|s.events|].terminal;
    }
  }

  /** Every reset of a stream is announced: one that the reader lands on it, one that follows
      an overflow, and the end of the connection. The first two end both sides of it. */
  lemma ResetsAreTold(y: Sys, id: nat, rst: bool)
    ensures y.s.id == id ==>
      var z := RunTearDown(y, id, rst); Told(z.s) && z.s.closed && z.s.localEnded && z.s.remoteEnded
    ensures y.s.id != id ==> RunTearDown(y, id, rst).s == y.s
    ensures Told(RunAnnounce(y, id).s)
    ensures y.registered ==> Told(RunDeath(y).s) && RunDeath(y).s.chanClosed
  {
    AnnouncedIsTold(y.s, id);
    AnnouncedIsTold(y.s, y.s.id);
  }

  /** Events are taken in the order they were put in, one at a time. */
  lemma EventsAreTakenInOrder(y: Sys, gen: nat)
    requires y.s.events != []
    ensures var z := RunRecvTake(y, gen);
      && y.s.events == [y.s.events[0]] + z.s.events
      && z == y.(s := y.s.(events := z.s.events), received := y.received + [(gen, y.s.events[0].from)])
  {
  }

  /** A stream error is told to the peer, whether or not the stream is still registered,
      unless it names no stream. */
  lemma ErrorsAreWritten(y: Sys, id: nat)
    ensures var z := RunLookUp(y, id);
      if y.registered && y.s.id == id then z == y.(reader := TearingDown(id, true))
      else z == y.(reader := Away, tasks := z.tasks) &&
           z.tasks == y.tasks + if id == 0 then multiset{} else multiset{Resetting(id)}
    ensures var z := RunTearDown(y, id, true); z.tasks == y.tasks + multiset{Resetting(id)}
  {
    assert y.tasks + multiset{} == y.tasks;
  }

  /** A stream that Close abandons is reset at the peer if it has an id; one without has
      nothing there to reset. */
  lemma AbandonedIsReset(y: Sys, gen: nat)
    requires Cancelling(gen) in y.tasks
    ensures var z := RunCancel(y, gen);
      && z.wire == (if y.s.id == 0 then y.wire else y.wire + [(gen, y.s.id)])
      && z.tasks == y.tasks - multiset{Cancelling(gen)}
                    + multiset{if y.s.id == 0 then Unassigned(gen) else Resetting(y.s.id)}
  {
  }

  /** HEADERS go out under the stream's id, which they give it if it has none; DATA only if
      the struct still serves the lifetime of the handle. END_STREAM leads to the local end. */
  lemma SendsAreWritten(y: Sys, gen: nat, end: bool, id: nat)
    requires Heading(gen, end) in y.tasks
    ensures var z := RunEmitHeaders(y, gen, end, id);
      && z.s == y.s.(id := if y.s.id == 0 then id else y.s.id)
      && z.wire == y.wire + [(gen, z.s.id)]
      && z.tasks == y.tasks - multiset{Heading(gen, end)} + (if end then multiset{Sent(gen)} else multiset{})
    ensures var z := RunEmitData(y, gen, end, true);
      z.wire == if gen == y.s.gen && y.s.id != 0 then y.wire + [(gen, y.s.id)] else y.wire
  {
  }

  /** DATA is charged unless the stream has ended, and delivered if a response has begun and
      its declared length was met. */
  lemma DataIsAdmittedExactly(y: Sys, f: Lookup, misfit: bool)
    ensures RunCheck(y, f).reader == if y.s.remoteEnded then Refusing(f) else Charging(f)
    ensures RunAdmit(y, f, misfit).reader ==
      if y.s.headersReceived && !misfit then Delivering(f, false) else Refusing(f)
  {
  }
}
