/** What holds in every run of a stream struct, and the runs that show the conditions of
    those statements are needed. */
module StreamIsolation {
  import opened StreamLifecycle
  import opened StreamRuns
  import opened StreamInvariant
  import opened StreamFrames

  // ------------------------------------------------------------ main results

  /** The struct is in one place at a time, and a struct in the pool is as good as new:
      nothing names it but senders and retirements of lifetimes that are over. */
  lemma PooledOnce(y: Sys)
    requires Reachable(y, true)
    ensures y.pool + (if y.live then 1 else 0) == 1
    ensures !y.live ==> AtRest(y.s) && !y.registered
    ensures !y.live ==> forall t :: t in y.tasks ==>
      || t.Marking? || t.Resetting?
      || ((t.Sending? || t.Retiring?) && t.gen < y.s.gen)
  {
    ReachableInv(y);
    if !y.live {
      forall t | t in y.tasks
        ensures t.Marking? || t.Resetting? || ((t.Sending? || t.Retiring?) && t.gen < y.s.gen)
      {
        assert TaskOk(y, t);
      }
    }
  }

  /** A step that puts the struct in the pool finds it let go by both ends, evicted, closed
      by the application and held by nobody else. It was reset if and only if the reset
      landed after the recycle had been decided. */
  lemma RecycledWhenDone(y: Sys, a: Action)
    requires Reachable(y, true) && Enabled(y, a) && Conformant(y, a)
    requires Step(y, a).pool > y.pool
    ensures y.s.localEnded && y.s.remoteEnded && y.s.inflightDone && y.s.appClosed && !y.registered
    ensures forall t :: t in Step(y, a).tasks ==>
      || t.Marking? || t.Resetting?
      || ((t.Sending? || t.Retiring?) && t.gen <= y.s.gen)
    ensures y.s.closed <==> y.lateReset
  {
    ReachableInv(y);
    StepReachable(y, a, true);
    Recycler(y, a);
    LetGo(y);
    PooledOnce(Step(y, a));
  }

  lemma LetGo(y: Sys)
    requires Inv(y) && (Recycling(y.s.gen) in y.tasks || y.s.recycleWanted)
    ensures y.s.localEnded && y.s.remoteEnded && y.s.inflightDone && y.s.appClosed && !y.registered
    ensures y.s.closed <==> y.lateReset
  {
    assert Decided(y);
    assert Tokens(y) == 1;
  }

  /** Only two steps put a struct in the pool. */
  lemma Recycler(y: Sys, a: Action)
    requires Inv(y) && Enabled(y, a) && Step(y, a).pool > y.pool
    ensures a == Keeper(PutsBack(y.s.gen)) || (a == Holder(RecvLeaves(y.s.gen)) && y.s.recycleWanted)
  {
    match a
    case Sender(b) => SendFrame(y, b);
    case Holder(b) =>
      HandleFrame(y, b);
      assert TaskOk(y, Receiving(b.gen));
    case Keeper(b) =>
      ConnFrame(y, b);
      assert TaskOk(y, Recycling(b.gen));
    case Net(b) => ReadFrame(y, b);
  }

  /** Every frame a handle put on the wire went out under the id of that handle's own
      request, every event it received came from a frame of that id, and no two handles
      have the same id: nothing crosses from one lifetime to another. DATA that the peer
      sends after its END_STREAM is no exception. */
  lemma LifetimesAreIsolated(y: Sys)
    requires Reachable(y, true)
    ensures forall k :: 0 <= k < |y.wire| ==>
      y.wire[k].0 in y.idOf && y.wire[k].1 == y.idOf[y.wire[k].0]
    ensures forall k :: 0 <= k < |y.received| ==>
      y.received[k].0 in y.idOf && y.received[k].1 == y.idOf[y.received[k].0]
    ensures forall g, h :: g in y.idOf && h in y.idOf && g != h ==> y.idOf[g] != y.idOf[h]
  {
    ReachableInv(y);
  }

  /** DATA is delivered to the lifetime it was looked up for, and never when it is late. */
  lemma LateDataIsNotDelivered(y: Sys)
    requires Reachable(y, true) && y.reader.Delivering? && !y.reader.block
    ensures !y.reader.f.late && y.s.gen == y.reader.f.gen && y.s.id == y.reader.f.id && !y.s.remoteEnded
  {
    ReachableInv(y);
  }

  // --------------------------------------------- what late frames can do, exactly

  predicate Own(idOf: map<nat, nat>, gen: nat, id: nat) {
    gen in idOf && idOf[gen] == id
  }

  /** The window that pays for a DATA frame belongs to another lifetime exactly when the
      struct has changed hands since the lookup, and only late DATA finds that. */
  lemma ChargesAnotherExactlyWhen(y: Sys, overrun: bool)
    requires Reachable(y, true) && y.reader.Charging?
    ensures var z, f := Step(y, Net(Charges(overrun))), y.reader.f;
      && z.charged == y.charged + [(y.s.gen, f.id)]
      && (Own(z.idOf, y.s.gen, f.id) <==> y.s.gen == f.gen)
      && (y.s.gen != f.gen <==> f.late)
  {
    ReachableInv(y);
    assert Watched(y, y.reader.f);
    OwnExactlyWhen(y, y.reader.f);
    ChargeIs(y, overrun);
  }

  lemma ChargeIs(y: Sys, overrun: bool)
    requires y.reader.Charging?
    ensures var z := Step(y, Net(Charges(overrun)));
      z.charged == y.charged + [(y.s.gen, y.reader.f.id)] && z.idOf == y.idOf
  {
    assert Step(y, Net(Charges(overrun))) == RunCharge(y, y.reader.f, overrun);
  }

  lemma CreditIs(y: Sys)
    requires y.reader.Crediting?
    ensures var z := Step(y, Net(Credits(false)));
      z.credited == y.credited + [(y.s.gen, y.reader.f.id)] && z.idOf == y.idOf
  {
    assert Step(y, Net(Credits(false))) == RunCredit(y, y.reader.f, false);
  }

  lemma OwnExactlyWhen(y: Sys, f: Lookup)
    requires Watched(y, f) && Assigned(y.idOf, y.s.gen, y.s.id)
    ensures Own(y.idOf, y.s.gen, f.id) <==> y.s.gen == f.gen
  {
  }

  /** The send window that a WINDOW_UPDATE raises belongs to another lifetime exactly when
      the struct has changed hands since the lookup, and only if the peer had ended the
      stream by then, which does not keep it from giving credit. */
  lemma CreditsAnotherExactlyWhen(y: Sys)
    requires Reachable(y, true) && y.reader.Crediting?
    ensures var z, f := Step(y, Net(Credits(false))), y.reader.f;
      && z.credited == y.credited + [(y.s.gen, f.id)]
      && (Own(z.idOf, y.s.gen, f.id) <==> y.s.gen == f.gen)
      && (y.s.gen != f.gen ==> f.late && f.gen < y.s.gen)
  {
    ReachableInv(y);
    assert Watched(y, y.reader.f);
    OwnExactlyWhen(y, y.reader.f);
    CreditIs(y);
  }

  /** The stream error for a refused frame names another stream exactly when the struct has
      changed hands since the lookup, and only late frames find that. It then names the
      request the struct serves now, or none if that has no id yet. */
  lemma BlamesAnotherExactlyWhen(y: Sys)
    requires Reachable(y, true) && y.reader.Refusing?
    ensures var z, f := Step(y, Net(Blames)), y.reader.f;
      && z.reader == Blaming(y.s.id) && z.blamed == y.blamed + [(f.id, y.s.id)]
      && (y.s.id != f.id <==> y.s.gen != f.gen)
      && (y.s.gen != f.gen ==> f.late && f.gen < y.s.gen)
      && (y.s.id != 0 ==> Own(y.idOf, y.s.gen, y.s.id))
  {
    ReachableInv(y);
    BlameIs(y);
    assert Watched(y, y.reader.f);
  }

  lemma BlameIs(y: Sys)
    requires y.reader.Refusing?
    ensures var z := Step(y, Net(Blames));
      z.reader == Blaming(y.s.id) && z.blamed == y.blamed + [(y.reader.f.id, y.s.id)]
  {
    assert Step(y, Net(Blames)) == RunBlame(y, y.reader.f);
  }

  /** The request so named is reset if and only if it is still registered under that id. */
  lemma BlamedIsReset(y: Sys, id: nat)
    requires Reachable(y, true) && y.reader == Blaming(id)
    ensures var z := Step(y, Net(LooksUp));
      && (z.reader.TearingDown? <==> y.registered && y.s.id == id)
      && (z.reader.TearingDown? ==>
            var w := Step(z, Net(TearsDown));
            w.s.closed && w.s.localEnded && w.s.remoteEnded && (w.s.resetSignalled || |w.s.events| > |y.s.events|))
      && (!z.reader.TearingDown? ==> z.s == y.s)
  {
    var z := RunLookUp(y, id);
    assert Step(y, Net(LooksUp)) == z;
    if z.reader.TearingDown? {
      TornIs(z, id);
    }
  }

  lemma TornIs(y: Sys, id: nat)
    requires y.reader == TearingDown(id, true) && y.s.id == id
    ensures var w := Step(y, Net(TearsDown));
      w.s.closed && w.s.localEnded && w.s.remoteEnded && (w.s.resetSignalled || |w.s.events| > |y.s.events|)
  {
    var w := RunTearDown(y, id, true);
    assert Step(y, Net(TearsDown)) == w;
    assert w.s == EndWithReset(y.s, id);
  }

  /** A field block crosses exactly when the struct has changed hands since the lookup and
      its channel has room, and only a block sent after END_STREAM finds that. */
  lemma BlockCrossesExactlyWhen(y: Sys, end: bool, final: bool)
    requires Reachable(y, true) && y.reader.Delivering? && y.reader.block
    ensures var z, f := Step(y, Net(Delivers(end, false, final))), y.reader.f;
      && (!OwnEvents(z.s.events, z.s.id) <==> y.s.gen != f.gen && !Full(y.s))
      && (y.s.gen != f.gen ==> f.late)
  {
    ReachableInv(y);
    var f := y.reader.f;
    var z := Step(y, Net(Delivers(end, false, final)));
    DeliveredEvents(y, f, end, final);
    if Full(y.s) {
    } else if y.s.gen == f.gen {
      EnqueueOwn(y.s.events, Event(f.id, end));
    } else {
      assert z.s.events[|y.s.events|] == Event(f.id, end);
      assert y.s.id != f.id;
    }
  }

  lemma DeliveredEvents(y: Sys, f: Lookup, end: bool, final: bool)
    requires y.reader == Delivering(f, true)
    ensures var z := Step(y, Net(Delivers(end, false, final)));
      z.s.id == y.s.id && z.s.events == if Full(y.s) then y.s.events else y.s.events + [Event(f.id, end)]
  {
    assert Step(y, Net(Delivers(end, false, final))) == RunDeliver(y, f.id, true, end, false, final);
  }

  /** A HEADERS send past its door does not look at the lifetime again: it writes under
      another's id exactly when the struct has changed hands. */
  lemma HeadersCrossExactlyWhen(y: Sys, gen: nat, end: bool, id: nat)
    requires SendEnabled(y, EmitHeaders(gen, end, id))
    requires Assigned(y.idOf, y.s.gen, y.s.id) && Logged(y.idOf, y.wire)
    ensures var z := Step(y, Sender(EmitHeaders(gen, end, id)));
      Logged(z.idOf, z.wire) <==> y.s.gen == gen
  {
    var z := RunEmitHeaders(y, gen, end, id);
    assert Step(y, Sender(EmitHeaders(gen, end, id))) == z;
    var used := if y.s.id == 0 then id else y.s.id;
    assert z.wire == y.wire + [(gen, used)] && z.idOf[y.s.gen] == used;
    if y.s.gen == gen {
      assert Logged(z.idOf, y.wire);
      LogOne(z.idOf, y.wire, gen, used);
    } else {
      assert z.wire[|y.wire|] == (gen, used);
      assert gen in y.idOf ==> y.idOf[gen] in y.idOf.Values;
    }
  }

  /** A sender that has latched its end and reads s.w finds it gone exactly when the struct
      is in the pool at that moment, and then only if its handle has been closed. */
  lemma WriterLostOnlyAfterClose(y: Sys, gen: nat, id: nat)
    requires Reachable(y, true) && Retiring(gen, id) in y.tasks
    ensures Step(y, Sender(Retires(gen, id))).lostWriter <==> (y.lostWriter || y.pool == 1)
    ensures y.pool == 1 ==> gen in y.closedHandles
  {
    ReachableInv(y);
    assert TaskOk(y, Retiring(gen, id));
    RetireLoses(y, gen, id);
  }

  lemma RetireLoses(y: Sys, gen: nat, id: nat)
    requires Retiring(gen, id) in y.tasks
    ensures Step(y, Sender(Retires(gen, id))).lostWriter <==> (y.lostWriter || !y.s.hasWriter)
  {
    assert Step(y, Sender(Retires(gen, id))) == RunRetire(y, gen, id);
  }

  // ------------------------------------------------------- the conditions bind

  const CAPACITY: nat := 8

  /** Lifetime 1 as one of the runs below finds it. */
  function Point(s: Stream, tasks: multiset<Task>, reader: Reader, registered: bool, closedHandles: set<nat>): Sys {
    Sys(s, true, registered, 0, tasks, reader, map[1 := 1], [(1, 1)], [], [], [], [], closedHandles, false, false)
  }

  const OPEN := Stream(1, 1, true, CAPACITY, [], false, false, false, false, false, false, false, false, 0,
                       false, false, false, false, false)
  const ANSWERED := OPEN.(events := [Event(1, true)], remoteEnded := true, headersReceived := true)
  const DONE := ANSWERED.(localEnded := true, inflightDone := true, connDone := true)
  const CLOSED := DONE.(appClosed := true, released := true)

  lemma Move(y: Sys, a: Action, z: Sys, strict: bool)
    requires Reachable(y, strict) && Enabled(y, a) && (strict ==> Conformant(y, a)) && Step(y, a) == z
    ensures Reachable(z, strict)
  {
    StepReachable(y, a, strict);
  }

  /** A request has been allocated, and the sender is past its door. */
  lemma AtTheDoor(end: bool, strict: bool)
    ensures Reachable(Sys(OPEN.(id := 0), true, false, 0, multiset{Heading(1, end)}, Away, map[],
                          [], [], [], [], [], {}, false, false), strict)
  {
    StartReachable(CAPACITY, strict);
    var y0 := Start(CAPACITY);
    StepReachable(y0, Holder(Alloc), strict);
    var y1 := Step(y0, Holder(Alloc));
    var z := Sys(OPEN.(id := 0), true, false, 0, multiset{Heading(1, end)}, Away, map[],
                 [], [], [], [], [], {}, false, false);
    assert RunDoor(y1, 1, Heading(1, end)).tasks == z.tasks;
    Move(y1, Sender(HeadersDoor(1, end)), z, strict);
  }

  /** The request has gone out, END_STREAM with it. */
  lemma Requested(strict: bool)
    ensures Reachable(Point(OPEN, multiset{} + multiset{Sent(1)}, Away, true, {}), strict)
  {
    AtTheDoor(true, strict);
    var y := Sys(OPEN.(id := 0), true, false, 0, multiset{Heading(1, true)}, Away, map[],
                 [], [], [], [], [], {}, false, false);
    var z := Point(OPEN, multiset{} + multiset{Sent(1)}, Away, true, {});
    assert RunEmitHeaders(y, 1, true, 1).tasks == z.tasks;
    assert RunEmitHeaders(y, 1, true, 1).wire == z.wire;
    Move(y, Sender(EmitHeaders(1, true, 1)), z, strict);
  }

  /** The response has been delivered, and the sender has not latched its own end yet;
      `others` are tasks that stay where they are. */
  lemma Answered(others: multiset<Task>, strict: bool)
    requires Reachable(Point(OPEN, others + multiset{Sent(1)}, Away, true, {}), strict)
    ensures Reachable(Point(ANSWERED, others + multiset{Sent(1), Marking(1)}, Away, true, {}), strict)
  {
    var y0 := Point(OPEN, others + multiset{Sent(1)}, Away, true, {});
    var y1 := Point(OPEN, others + multiset{Sent(1)}, Delivering(Lookup(1, 1, false), true), true, {});
    Move(y0, Net(FindsForHeaders(1)), y1, strict);
    var z := Point(ANSWERED, others + multiset{Sent(1), Marking(1)}, Away, true, {});
    assert RunDeliver(y1, 1, true, true, false, true).tasks == z.tasks;
    assert RunDeliver(y1, 1, true, true, false, true).s.events == z.s.events;
    Move(y1, Net(Delivers(true, false, true)), z, strict);
  }

  lemma Marked(others: multiset<Task>, r: Reader, strict: bool)
    requires Reachable(Point(ANSWERED.(localEnded := true), others + multiset{Marking(1)}, r, true, {}), strict)
    ensures Reachable(Point(DONE, others, r, false, {}), strict)
  {
    var y0 := Point(ANSWERED.(localEnded := true), others + multiset{Marking(1)}, r, true, {});
    var y1 := Point(DONE.(connDone := false), others + multiset{Finishing(1)}, r, false, {});
    assert RunMark(y0, 1).tasks == y1.tasks;
    Move(y0, Keeper(Marks(1)), y1, strict);
    var y2 := Point(DONE, others, r, false, {});
    assert RunFinish(y1, 1).tasks == y2.tasks;
    Move(y1, Keeper(Finishes(1)), y2, strict);
  }

  /** From there on the two sides retire it and the application closes it. */
  lemma Retired(others: multiset<Task>, r: Reader, strict: bool)
    requires Reachable(Point(ANSWERED.(localEnded := true), others + multiset{Marking(1)}, r, true, {}), strict)
    ensures Reachable(Point(CLOSED, others + multiset{Recycling(1)}, r, false, {1}), strict)
  {
    Marked(others, r, strict);
    var y2 := Point(DONE, others, r, false, {});
    var y3 := Point(CLOSED, others + multiset{Recycling(1)}, r, false, {1});
    Move(y2, Holder(AppCloses(1)), y3, strict);
  }

  /** The sender latches its end and the stream is retired before it reads s.w. */
  lemma RetiredEarly(others: multiset<Task>, strict: bool)
    requires Reachable(Point(OPEN, others + multiset{Sent(1)}, Away, true, {}), strict)
    ensures Reachable(Point(CLOSED, others + multiset{Retiring(1, 1)} + multiset{Recycling(1)}, Away, false, {1}),
                      strict)
  {
    Answered(others, strict);
    var y0 := Point(ANSWERED, others + multiset{Sent(1), Marking(1)}, Away, true, {});
    var y1 := Point(ANSWERED.(localEnded := true), others + multiset{Retiring(1, 1)} + multiset{Marking(1)}, Away,
                    true, {});
    assert RunEndLocal(y0, 1).tasks == y1.tasks;
    Move(y0, Sender(EndsLocal(1)), y1, strict);
    Retired(others + multiset{Retiring(1, 1)}, Away, strict);
  }

  /** A sender can lose s.w: its END_STREAM is latched, the response ends the stream, the
      application closes the handle from another goroutine, and the struct is reset before
      the sender reads the field. */
  lemma WriterCanBeLost()
    ensures exists y :: Reachable(y, true) && y.lostWriter
  {
    Requested(true);
    RetiredEarly(multiset{}, true);
    var y := Point(CLOSED, multiset{} + multiset{Retiring(1, 1)} + multiset{Recycling(1)}, Away, false, {1});
    LosesFrom(y);
  }

  lemma LosesFrom(y: Sys)
    requires Reachable(y, true) && y.s.recvActive == 0 && !y.lostWriter
    requires y.tasks == multiset{} + multiset{Retiring(1, 1)} + multiset{Recycling(1)} && y.s.gen == 1
    ensures exists z :: Reachable(z, true) && z.lostWriter
  {
    var z := RunRecycle(y, 1);
    assert z.tasks == multiset{Retiring(1, 1)} && !z.s.hasWriter;
    Move(y, Keeper(PutsBack(1)), z, true);
    var w := RunRetire(z, 1, 1);
    Move(z, Sender(Retires(1, 1)), w, true);
    assert w.lostWriter;
  }

  /** The response is complete and the reader is done with it, whatever it does next. */
  lemma ReaderMovesOn(a: ReadAction, r: Reader, strict: bool)
    requires var y := Point(ANSWERED, multiset{Sent(1)}, Away, true, {});
      ReadEnabled(y, a) && (strict ==> Conformant(y, Net(a))) && ReadStep(y, a) == y.(reader := r)
    ensures Reachable(Point(CLOSED, multiset{Recycling(1)}, r, false, {1}), strict)
  {
    Requested(strict);
    Answered(multiset{}, strict);
    var y0 := Point(ANSWERED, multiset{} + multiset{Sent(1), Marking(1)}, Away, true, {});
    var y1 := Point(ANSWERED, multiset{Sent(1)}, Away, true, {});
    assert RunMark(y0, 1).tasks == y1.tasks;
    Move(y0, Keeper(Marks(1)), y1, strict);
    var y2 := y1.(reader := r);
    Move(y1, Net(a), y2, strict);
    LatchesAndRetires(r, strict);
  }

  lemma LatchesAndRetires(r: Reader, strict: bool)
    requires Reachable(Point(ANSWERED, multiset{Sent(1)}, r, true, {}), strict)
    ensures Reachable(Point(CLOSED, multiset{Recycling(1)}, r, false, {1}), strict)
  {
    var y2 := Point(ANSWERED, multiset{Sent(1)}, r, true, {});
    var y3 := Point(ANSWERED.(localEnded := true), multiset{Retiring(1, 1)}, r, true, {});
    assert RunEndLocal(y2, 1).tasks == y3.tasks;
    Move(y2, Sender(EndsLocal(1)), y3, strict);
    var y4 := Point(ANSWERED.(localEnded := true), multiset{} + multiset{Marking(1)}, r, true, {});
    assert RunRetire(y3, 1, 1).tasks == y4.tasks;
    Move(y3, Sender(Retires(1, 1)), y4, strict);
    Retired(multiset{}, r, strict);
    assert multiset{} + multiset{Recycling(1)} == multiset{Recycling(1)};
  }

  predicate PutsAReset(y: Sys) {
    var a := Keeper(PutsBack(y.s.gen));
    Enabled(y, a) && Step(y, a).pool > y.pool && y.s.closed
  }

  lemma PutsReset(y: Sys)
    requires Recycling(y.s.gen) in y.tasks && y.s.closed && y.s.recvActive == 0
    ensures PutsAReset(y)
  {
  }

  /** A struct can be pooled after a reset: the peer's RST_STREAM found it while it was
      registered and is delivered between the decision to recycle and the recycling. */
  lemma PooledAfterReset()
    ensures exists y :: Reachable(y, true) && PutsAReset(y)
  {
    ReaderMovesOn(FindsForReset(1), TearingDown(1, false), true);
    var y0 := Point(CLOSED, multiset{Recycling(1)}, TearingDown(1, false), false, {1});
    var y := Point(CLOSED.(closed := true, events := [Event(1, true), Event(1, true)]),
                   multiset{Recycling(1), Marking(1)}, Away, false, {1}).(lateReset := true);
    assert RunTearDown(y0, 1, false).tasks == y.tasks;
    assert RunTearDown(y0, 1, false).s.events == y.s.events;
    Move(y0, Net(TearsDown), y, true);
    PutsReset(y);
  }

  // ------------------------------------------------------ the next lifetime

  const REUSED := OPEN.(gen := 2, id := 3)

  /** Lifetime 2, with the reader still holding what it looked up for stream 1. */
  function Second(s: Stream, reader: Reader): Sys {
    Sys(s, true, true, 0, multiset{}, reader, map[1 := 1, 2 := 3], [(1, 1), (2, 3)], [], [], [], [], {1}, false, false)
  }

  /** Allocated again, no id yet. */
  function Between(tasks: multiset<Task>, r: Reader): Sys {
    Sys(REUSED.(id := 0), true, false, 0, tasks, r, map[1 := 1], [(1, 1)], [], [], [], [], {1}, false, false)
  }

  lemma Reallocated(others: multiset<Task>, r: Reader, strict: bool)
    requires Reachable(Point(CLOSED, others + multiset{Recycling(1)}, r, false, {1}), strict)
    ensures Reachable(Between(others, r), strict)
  {
    var y0 := Point(CLOSED, others + multiset{Recycling(1)}, r, false, {1});
    StepReachable(y0, Keeper(PutsBack(1)), strict);
    var y1 := Step(y0, Keeper(PutsBack(1)));
    var y2 := Between(others, r);
    assert y1.tasks == y2.tasks;
    Move(y1, Holder(Alloc), y2, strict);
  }

  /** The struct is recycled and serves request 3 while the reader still holds stream 1. */
  lemma SecondRequest(r: Reader, strict: bool)
    requires Reachable(Point(CLOSED, multiset{Recycling(1)}, r, false, {1}), strict)
    ensures Reachable(Second(REUSED, r), strict)
  {
    assert multiset{} + multiset{Recycling(1)} == multiset{Recycling(1)};
    Reallocated(multiset{}, r, strict);
    var y0 := Between(multiset{}, r);
    var y1 := y0.(tasks := multiset{Heading(2, false)});
    assert RunDoor(y0, 2, Heading(2, false)).tasks == y1.tasks;
    Move(y0, Sender(HeadersDoor(2, false)), y1, strict);
    var y2 := Second(REUSED, r);
    var z := RunEmitHeaders(y1, 2, false, 3);
    assert z.tasks == y2.tasks && z.wire == y2.wire && z.idOf == y2.idOf;
    Move(y1, Sender(EmitHeaders(2, false, 3)), y2, strict);
  }

  const LATE := Lookup(1, 1, true)

  /** A request nobody closed is reset, and its window charged, for a frame of another. */
  ghost predicate Wronged(y: Sys) {
    && y.live && y.s.closed && y.s.gen !in y.closedHandles
    && (exists k :: 0 <= k < |y.blamed| && y.blamed[k].0 != y.blamed[k].1 == y.s.id)
    && (exists k :: 0 <= k < |y.charged| && y.charged[k].0 == y.s.gen && y.charged[k].1 != y.s.id)
  }

  /** Late DATA, looked up while its stream was registered, finds the struct serving the
      next request: it charges that request's window, finds no response begun there, and
      the stream error names and resets that request. */
  lemma LateDataResetsTheNext()
    ensures exists y :: Reachable(y, true) && Wronged(y)
  {
    ReaderMovesOn(Finds(1), Found(LATE), true);
    SecondRequest(Found(LATE), true);
    var y0 := Second(REUSED, Found(LATE));
    var y1 := Second(REUSED, Charging(LATE));
    Move(y0, Net(Checks), y1, true);
    var y2 := Second(REUSED, Charged(LATE)).(charged := [(2, 1)]);
    assert RunCharge(y1, LATE, false).charged == y2.charged;
    Move(y1, Net(Charges(false)), y2, true);
    var y3 := y2.(reader := Refusing(LATE));
    Move(y2, Net(Admits(false)), y3, true);
    var y4 := y2.(reader := Blaming(3), blamed := [(1, 3)]);
    assert RunBlame(y3, LATE).blamed == y4.blamed;
    Move(y3, Net(Blames), y4, true);
    TornDownByMistake(y4);
  }

  /** A request whose receive window paid for a frame of another goes on as if nothing had
      happened: it is registered, nobody reset it, and the reader is done. */
  ghost predicate Shortened(y: Sys) {
    && y.live && y.registered && !y.s.closed && y.reader.Away? && y.s.id != 0
    && exists k :: 0 <= k < |y.charged| && y.charged[k].0 == y.s.gen && y.charged[k].1 != y.s.id
  }

  /** Late DATA finds the struct allocated again and without an id: it charges the window,
      and the stream error names stream 0, which resets nobody. */
  lemma LateDataShortensTheNext()
    ensures exists y :: Reachable(y, true) && Shortened(y)
  {
    ReaderMovesOn(Finds(1), Found(LATE), true);
    assert multiset{} + multiset{Recycling(1)} == multiset{Recycling(1)};
    Reallocated(multiset{}, Found(LATE), true);
    var y0 := Between(multiset{}, Found(LATE));
    var y1 := Between(multiset{}, Charging(LATE));
    Move(y0, Net(Checks), y1, true);
    var y2 := Between(multiset{}, Charged(LATE)).(charged := [(2, 1)]);
    assert RunCharge(y1, LATE, false).charged == y2.charged;
    Move(y1, Net(Charges(false)), y2, true);
    var y3 := y2.(reader := Refusing(LATE));
    Move(y2, Net(Admits(false)), y3, true);
    var y4 := y2.(reader := Blaming(0), blamed := [(1, 0)]);
    assert RunBlame(y3, LATE).blamed == y4.blamed;
    Move(y3, Net(Blames), y4, true);
    var y5 := y4.(reader := Away);
    Move(y4, Net(LooksUp), y5, true);
    GoesOn(y5);
  }

  lemma GoesOn(y: Sys)
    requires Reachable(y, true) && y == Between(multiset{}, Away).(charged := [(2, 1)], blamed := [(1, 0)])
    ensures exists z :: Reachable(z, true) && Shortened(z)
  {
    var y1 := y.(tasks := multiset{Heading(2, false)});
    assert RunDoor(y, 2, Heading(2, false)).tasks == y1.tasks;
    Move(y, Sender(HeadersDoor(2, false)), y1, true);
    var z := RunEmitHeaders(y1, 2, false, 3);
    Move(y1, Sender(EmitHeaders(2, false, 3)), z, true);
    assert z.charged[0] == (2, 1) && z.s.id == 3;
    assert Shortened(z);
  }

  /** A WINDOW_UPDATE for a stream the peer has ended, looked up in time, raises the send
      window of the next request. */
  lemma LateCreditCrosses()
    ensures exists y :: Reachable(y, true) && !Logged(y.idOf, y.credited)
  {
    ReaderMovesOn(FindsForCredit(1), Crediting(LATE), true);
    SecondRequest(Crediting(LATE), true);
    var y := Second(REUSED, Crediting(LATE));
    StepReachable(y, Net(Credits(false)), true);
    var z := Step(y, Net(Credits(false)));
    assert z.credited[0] == (2, 1) && z.idOf[2] == 3;
  }

  lemma TornDownByMistake(y: Sys)
    requires Reachable(y, true) && y.reader == Blaming(3) && y.registered && y.live && y.s.id == 3 && y.s.gen == 2
    requires y.blamed == [(1, 3)] && y.charged == [(2, 1)] && y.closedHandles == {1}
    ensures exists z :: Reachable(z, true) && Wronged(z)
  {
    var y1 := y.(reader := TearingDown(3, true));
    Move(y, Net(LooksUp), y1, true);
    var z := RunTearDown(y1, 3, true);
    Move(y1, Net(TearsDown), z, true);
    assert z.blamed[0] == (1, 3) && z.charged[0] == (2, 1);
    assert Wronged(z);
  }

  /** The peer's promise is needed: a field block after its END_STREAM, looked up while the
      request was registered and delivered after the struct changed hands, is received by
      the next request as its response. */
  lemma LateBlockCrosses()
    ensures exists y :: Reachable(y, false) && !Logged(y.idOf, y.received)
  {
    ReaderMovesOn(FindsForHeaders(1), Delivering(LATE, true), false);
    SecondRequest(Delivering(LATE, true), false);
    var y2 := Second(REUSED, Delivering(LATE, true));
    var y3 := Second(REUSED.(events := [Event(1, false)], headersReceived := true), Away);
    assert RunDeliver(y2, 1, true, false, false, true).s.events == y3.s.events;
    Move(y2, Net(Delivers(false, false, true)), y3, false);
    var y4 := y3.(s := y3.s.(recvActive := 1), tasks := multiset{Receiving(2)});
    assert RunRecvEnter(y3, 2).tasks == y4.tasks;
    Move(y3, Holder(RecvEnters(2)), y4, false);
    StepReachable(y4, Holder(RecvTakes(2)), false);
    var y5 := Step(y4, Holder(RecvTakes(2)));
    assert y5.received[0] == (2, 1) && y5.idOf[2] == 3;
  }

  /** The application's promise is needed: of two HEADERS sends of one handle that are past
      the door together, the second finds the struct in its next lifetime and writes under
      the id it assigns there. */
  lemma TwoSendsCross()
    ensures exists y :: Reachable(y, false) && !Logged(y.idOf, y.wire)
  {
    AtTheDoor(true, false);
    var y0 := Sys(OPEN.(id := 0), true, false, 0, multiset{Heading(1, true)}, Away, map[],
                  [], [], [], [], [], {}, false, false);
    var y1 := y0.(tasks := multiset{Heading(1, true), Heading(1, true)});
    assert RunDoor(y0, 1, Heading(1, true)).tasks == y1.tasks;
    Move(y0, Sender(HeadersDoor(1, true)), y1, false);
    var others := multiset{Heading(1, true)};
    var y2 := Point(OPEN, others + multiset{Sent(1)}, Away, true, {});
    assert RunEmitHeaders(y1, 1, true, 1).tasks == y2.tasks;
    assert RunEmitHeaders(y1, 1, true, 1).wire == y2.wire;
    Move(y1, Sender(EmitHeaders(1, true, 1)), y2, false);
    RetiredEarly(others, false);
    Reallocated(others + multiset{Retiring(1, 1)}, Away, false);
    SendsForAnother(Between(others + multiset{Retiring(1, 1)}, Away));
  }

  lemma SendsForAnother(y: Sys)
    requires Reachable(y, false) && Heading(1, true) in y.tasks && y.s.gen == 2 && y.s.id == 0
    requires y.idOf == map[1 := 1] && Logged(y.idOf, y.wire)
    ensures exists z :: Reachable(z, false) && !Logged(z.idOf, z.wire)
  {
    var a := Sender(EmitHeaders(1, true, 3));
    StepReachable(y, a, false);
    HeadersCrossExactlyWhen(y, 1, true, 3);
    assert !Logged(Step(y, a).idOf, Step(y, a).wire);
  }
}
