/** What every step of a stream struct's life keeps. */
module StreamInvariant {
  import opened StreamLifecycle
  import opened StreamRuns

  function Bit(b: bool): nat {
    if b then 1 else 0
  }

  /** At most one party holds the right to recycle this lifetime. */
  function Tokens(y: Sys): nat {
    y.tasks[Finishing(y.s.gen)] + y.tasks[Recycling(y.s.gen)]
    + Bit(y.s.recycleWanted) + Bit(y.s.connDone && !y.s.appClosed)
  }

  /** Sends that pin the lifetime they belong to. */
  function Pins(y: Sys): nat {
    y.tasks[Heading(y.s.gen, true)] + y.tasks[Heading(y.s.gen, false)]
    + y.tasks[Sending(y.s.gen, true)] + y.tasks[Sent(y.s.gen)]
  }

  predicate AtRest(s: Stream) {
    && s.id == 0 && s.events == [] && !s.hasWriter && s.recvActive == 0
    && !s.localEnded && !s.remoteEnded && !s.closed && !s.inflightDone && !s.pushed
    && !s.appClosed && !s.connDone && !s.recycleWanted
    && !s.resetSignalled && !s.endSignalled && !s.chanClosed && !s.headersReceived
  }

  predicate Placed(y: Sys) {
    && y.pool == Bit(!y.live)
    && y.s.hasWriter == y.live
    && (!y.live ==> AtRest(y.s) && !y.registered)
    && (y.registered ==> y.s.id != 0)
    && (y.s.pushed ==> y.s.id != 0)
    && (y.live && y.s.appClosed ==> y.s.released)
    && (y.s.chanClosed ==> y.reader.Gone?)
  }

  predicate TaskOk(y: Sys, t: Task) {
    match t
    case Heading(gen, _) => gen == y.s.gen && y.live && !y.s.pushed
    case Sending(gen, end) =>
      gen <= y.s.gen && (gen == y.s.gen ==> y.live && !y.s.pushed) && (end ==> gen == y.s.gen)
    case Sent(gen) => gen == y.s.gen && y.live && y.s.id != 0
    case Retiring(gen, id) => 1 <= gen <= y.s.gen && (gen == y.s.gen ==> y.live) && id in y.idOf.Values
    case Marking(id) => id in y.idOf.Values
    case Resetting(id) => id in y.idOf.Values
    case Finishing(gen) => gen == y.s.gen && y.live
    case Recycling(gen) => gen == y.s.gen && y.live
    case Cancelling(gen) => gen == y.s.gen && y.live && y.s.closed && !Decided(y)
    case Unassigned(gen) => gen == y.s.gen && y.live && y.s.closed && !Decided(y) && !y.s.pushed
    case Overflowing(gen) => gen == y.s.gen && y.live && y.s.closed && !Decided(y)
    case Receiving(gen) => gen == y.s.gen && y.live
  }

  predicate TasksOk(y: Sys) {
    && (forall t :: t in y.tasks ==> TaskOk(y, t))
    && y.s.recvActive == y.tasks[Receiving(y.s.gen)]
    && Pins(y) <= 1
    && (Pins(y) == 1 ==> (y.s.localEnded ==> y.s.closed) && !Decided(y))
  }

  predicate TokenOk(y: Sys) {
    && Tokens(y) <= 1
    && (Tokens(y) == 1 ==>
          y.live && y.s.inflightDone && !y.registered && y.s.localEnded && y.s.remoteEnded && y.s.id != 0)
    && (Decided(y) ==> (y.s.closed <==> y.lateReset))
    && (Finishing(y.s.gen) in y.tasks || !y.s.inflightDone ==> !y.lateReset)
    && (y.s.connDone ==> y.s.inflightDone)
    && (Recycling(y.s.gen) in y.tasks || y.s.recycleWanted ==> y.s.appClosed)
    && (y.s.recycleWanted ==> y.s.recvActive > 0)
  }

  /** The lifetime looked up cannot end while the reader holds it, unless the peer had ended
      it already. If it did end, the struct's next response has not begun: the reader, who
      alone could note that, is still here. */
  predicate Watched(y: Sys, f: Lookup) {
    && f.gen in y.idOf && y.idOf[f.gen] == f.id && f.gen <= y.s.gen
    && (!f.late ==> y.s.gen == f.gen)
    && (y.s.gen == f.gen ==> y.live && y.s.remoteEnded == f.late)
    && (y.s.gen != f.gen ==> !y.s.remoteEnded && !y.s.headersReceived)
  }

  predicate ReaderOk(y: Sys) {
    match y.reader
    case Away => true
    case Gone => true
    case Found(f) => Watched(y, f)
    case Charging(f) => Watched(y, f) && (f.late ==> y.s.gen != f.gen)
    case Charged(f) => Watched(y, f) && (f.late ==> y.s.gen != f.gen)
    case Delivering(f, block) => Watched(y, f) && (!block ==> !f.late)
    case Crediting(f) => Watched(y, f)
    case Refusing(f) => Watched(y, f)
    case Blaming(id) => id == 0 || id in y.idOf.Values
    case Announcing(id) => y.live && y.s.id == id && id != 0 && y.s.closed && !Decided(y)
    case TearingDown(id, _) => id in y.idOf.Values
  }

  predicate Logged(idOf: map<nat, nat>, log: seq<(nat, nat)>) {
    forall k :: 0 <= k < |log| ==> log[k].0 in idOf && idOf[log[k].0] == log[k].1
  }

  predicate OwnEvents(events: seq<Event>, id: nat) {
    forall k :: 0 <= k < |events| ==> events[k].from == id != 0
  }

  /** Each lifetime has at most one id, and no two share one. */
  predicate Assigned(idOf: map<nat, nat>, gen: nat, id: nat) {
    && (gen in idOf <==> id != 0)
    && (id != 0 ==> idOf[gen] == id)
    && (forall h :: h in idOf ==> h <= gen && idOf[h] != 0)
    && (forall h, k :: h in idOf && k in idOf && idOf[h] == idOf[k] ==> h == k)
  }

  predicate IdsOk(y: Sys) {
    && Assigned(y.idOf, y.s.gen, y.s.id)
    && OwnEvents(y.s.events, y.s.id)
    && Logged(y.idOf, y.wire)
    && Logged(y.idOf, y.received)
  }

  predicate HandlesOk(y: Sys) {
    && (forall h :: 1 <= h < y.s.gen ==> h in y.closedHandles)
    && (y.s.appClosed ==> y.s.gen in y.closedHandles)
    && 1 <= y.s.gen
    && (y.lostWriter ==> y.closedHandles != {})
  }

  predicate Inv(y: Sys) {
    Placed(y) && TasksOk(y) && TokenOk(y) && ReaderOk(y) && IdsOk(y) && HandlesOk(y)
  }

  lemma Grows(m: map<nat, nat>, k: nat, v: nat)
    requires k !in m
    ensures v in m[k := v].Values
    ensures forall i :: i in m.Values ==> i in m[k := v].Values
  {
    var n := m[k := v];
    assert k in n && n[k] == v;
    forall i | i in m.Values ensures i in n.Values {
      var h :| h in m && m[h] == i;
      assert h in n && n[h] == i;
    }
  }

  lemma LogOne(idOf: map<nat, nat>, log: seq<(nat, nat)>, gen: nat, id: nat)
    requires Logged(idOf, log) && gen in idOf && idOf[gen] == id
    ensures Logged(idOf, log + [(gen, id)])
  {
  }

  lemma EnqueueOwn(events: seq<Event>, e: Event)
    requires OwnEvents(events, e.from) && e.from != 0
    ensures OwnEvents(events + [e], e.from)
  {
  }

  lemma WireKeeps(y: Sys, gen: nat, id: nat)
    requires Inv(y) && gen in y.idOf && y.idOf[gen] == id
    ensures Inv(y.(wire := y.wire + [(gen, id)]))
  {
    var z := y.(wire := y.wire + [(gen, id)]);
    LogOne(y.idOf, y.wire, gen, id);
    forall t | t in z.tasks ensures TaskOk(z, t) {
      assert TaskOk(y, t);
    }
  }

  lemma AllocKeeps(y: Sys)
    requires Inv(y) && (y.pool > 0)
    ensures Inv(RunAlloc(y))
  {
    var z := RunAlloc(y);
    forall t | t in z.tasks ensures TaskOk(z, t) {
      assert t in y.tasks ==> TaskOk(y, t);
    }
  }

  lemma AllocPushedKeeps(y: Sys, id: nat)
    requires Inv(y) && (y.pool > 0 && id != 0 && id !in y.idOf.Values)
    ensures Inv(RunAllocPushed(y, id))
  {
    Grows(y.idOf, y.s.gen, id);
    var z := RunAllocPushed(y, id);
    forall t | t in z.tasks ensures TaskOk(z, t) {
      assert t in y.tasks ==> TaskOk(y, t);
    }
  }

  lemma HeadersDoorKeeps(y: Sys, gen: nat, end: bool)
    requires Inv(y) && (Minted(y, gen) && !Ending(y, gen))
    ensures Inv(RunDoor(y, gen, Heading(gen, end)))
  {
    var z := RunDoor(y, gen, Heading(gen, end));
    forall t | t in z.tasks ensures TaskOk(z, t) {
      assert t in y.tasks ==> TaskOk(y, t);
    }
  }

  lemma DataDoorKeeps(y: Sys, gen: nat, end: bool)
    requires Inv(y) && (Minted(y, gen) && (end ==> !Ending(y, gen)))
    ensures Inv(RunDoor(y, gen, Sending(gen, end)))
  {
    var z := RunDoor(y, gen, Sending(gen, end));
    forall t | t in z.tasks ensures TaskOk(z, t) {
      assert t in y.tasks ==> TaskOk(y, t);
    }
  }

  lemma StopKeeps(y: Sys, gen: nat, end: bool)
    requires Inv(y) && (Sending(gen, end) in y.tasks || Heading(gen, end) in y.tasks)
    ensures Inv(RunStop(y, gen, end))
  {
    var z := RunStop(y, gen, end);
    forall t | t in z.tasks ensures TaskOk(z, t) {
      assert t in y.tasks ==> TaskOk(y, t);
    }
  }

  lemma EndLocalKeeps(y: Sys, gen: nat)
    requires Inv(y) && (Sent(gen) in y.tasks)
    ensures Inv(RunEndLocal(y, gen))
  {
    var z := RunEndLocal(y, gen);
    forall t | t in z.tasks ensures TaskOk(z, t) {
      assert t in y.tasks ==> TaskOk(y, t);
    }
  }

  lemma RetireKeeps(y: Sys, gen: nat, id: nat)
    requires Inv(y) && (Retiring(gen, id) in y.tasks)
    ensures Inv(RunRetire(y, gen, id))
  {
    assert !y.s.hasWriter ==> gen in y.closedHandles;
    var z := RunRetire(y, gen, id);
    forall t | t in z.tasks ensures TaskOk(z, t) {
      assert t in y.tasks ==> TaskOk(y, t);
    }
  }

  lemma FinishTasks(y: Sys, gen: nat)
    requires Inv(y) && Finishing(gen) in y.tasks
    ensures TasksOk(RunFinish(y, gen))
  {
    var z := RunFinish(y, gen);
    assert TaskOk(y, Finishing(gen));
    forall t | t in z.tasks ensures TaskOk(z, t) {
      assert t in y.tasks ==> TaskOk(y, t);
    }
  }

  lemma FinishTokens(y: Sys, gen: nat)
    requires Inv(y) && Finishing(gen) in y.tasks
    ensures TokenOk(RunFinish(y, gen))
  {
    assert TaskOk(y, Finishing(gen));
  }

  lemma FinishKeeps(y: Sys, gen: nat)
    requires Inv(y) && Finishing(gen) in y.tasks
    ensures Inv(RunFinish(y, gen))
  {
    var z := RunFinish(y, gen);
    assert z == y.(s := y.s.(connDone := z.s.connDone), tasks := z.tasks);
    FinishTasks(y, gen);
    FinishTokens(y, gen);
    assert TaskOk(y, Finishing(gen)) && Tokens(y) == 1;
    assert ReaderOk(z) && Placed(z);
  }

  /** The slot is handed back by someone with no right to recycle the stream. */
  lemma SlotBackTasks(y: Sys)
    requires Inv(y) && y.s.closed && !Decided(y)
    ensures TasksOk(y.(s := ReleaseSlot(y.s)))
  {
    var z := y.(s := ReleaseSlot(y.s));
    forall t | t in z.tasks ensures TaskOk(z, t) {
      assert TaskOk(y, t);
    }
  }

  lemma SlotBackKeeps(y: Sys)
    requires Inv(y) && y.live && y.s.closed && !Decided(y)
    ensures Inv(y.(s := ReleaseSlot(y.s)))
  {
    SlotBackTasks(y);
  }

  lemma UnassignedKeeps(y: Sys, gen: nat)
    requires Inv(y) && Unassigned(gen) in y.tasks
    ensures Inv(RunUnassigned(y, gen))
  {
    assert TaskOk(y, Unassigned(gen));
    DropKeeps(y, Unassigned(gen));
    SlotBackKeeps(Swap(y, Unassigned(gen), multiset{}));
  }

  lemma RecvEnterKeeps(y: Sys, gen: nat)
    requires Inv(y) && (Minted(y, gen))
    ensures Inv(RunRecvEnter(y, gen))
  {
    var z := RunRecvEnter(y, gen);
    forall t | t in z.tasks ensures TaskOk(z, t) {
      assert t in y.tasks ==> TaskOk(y, t);
    }
  }


  /** Events and signals are no business of the goroutines that hold the struct. */
  predicate SameBut(y: Sys, z: Sys) {
    && z == y.(s := z.s, reader := z.reader, received := z.received, charged := z.charged, blamed := z.blamed,
              credited := z.credited)
    && z.s == y.s.(events := z.s.events, resetSignalled := z.s.resetSignalled,
                   endSignalled := z.s.endSignalled, chanClosed := z.s.chanClosed)
  }

  lemma SameTasks(y: Sys, z: Sys)
    requires Inv(y) && SameBut(y, z) && (y.live || z.s == y.s)
    requires ReaderOk(z) && (z.s.chanClosed ==> z.reader.Gone?)
    requires OwnEvents(z.s.events, z.s.id) && Logged(z.idOf, z.received)
    ensures Inv(z)
  {
    forall t | t in z.tasks ensures TaskOk(z, t) {
      assert TaskOk(y, t);
    }
  }

  lemma RecvTakeKeeps(y: Sys, gen: nat)
    requires Inv(y) && Receiving(gen) in y.tasks && y.s.events != []
    ensures Inv(RunRecvTake(y, gen))
  {
    assert TaskOk(y, Receiving(gen));
    LogOne(y.idOf, y.received, gen, y.s.events[0].from);
    SameTasks(y, RunRecvTake(y, gen));
  }

  lemma AnnounceKeeps(y: Sys, id: nat)
    requires Inv(y) && y.reader == Announcing(id)
    ensures Inv(RunAnnounce(y, id))
  {
    EnqueueOwn(y.s.events, Event(id, true));
    SameTasks(y, RunAnnounce(y, id));
  }

  lemma ShutDownOwn(s: Stream)
    requires OwnEvents(s.events, s.id) && s.id != 0
    ensures var t := ShutDown(s);
      && t.chanClosed && OwnEvents(t.events, s.id)
      && t == s.(events := t.events, resetSignalled := t.resetSignalled, chanClosed := true)
  {
    EnqueueOwn(s.events, Event(s.id, true));
  }

  lemma DeathKeeps(y: Sys)
    requires Inv(y) && ReadEnabled(y, Dies)
    ensures Inv(RunDeath(y))
  {
    if y.registered {
      ShutDownOwn(y.s);
      SameTasks(y, y.(s := ShutDown(y.s), reader := Gone));
    } else {
      SameTasks(y, y.(reader := Gone));
    }
  }

  // --------------------------------------------------------------- sending

  lemma AssignKeeps(y: Sys, gen: nat, end: bool, id: nat)
    requires Inv(y) && Heading(gen, end) in y.tasks && y.s.id == 0 && id != 0 && id !in y.idOf.Values
    ensures Inv(y.(s := y.s.(id := id), registered := true, idOf := y.idOf[y.s.gen := id]))
  {
    var z := y.(s := y.s.(id := id), registered := true, idOf := y.idOf[y.s.gen := id]);
    assert TaskOk(y, Heading(gen, end));
    Grows(y.idOf, y.s.gen, id);
    forall t | t in z.tasks ensures TaskOk(z, t) {
      assert TaskOk(y, t);
    }
  }

  lemma SendDoneTasks(y: Sys, done: Task)
    requires Inv(y) && done in y.tasks && (done.Heading? || done.Sending?)
    ensures TasksOk(Swap(y, done, multiset{}))
  {
    var z := Swap(y, done, multiset{});
    forall t | t in z.tasks ensures TaskOk(z, t) {
      assert TaskOk(y, t);
    }
  }

  lemma SendDoneKeeps(y: Sys, done: Task)
    requires Inv(y) && done in y.tasks && (done.Heading? || done.Sending?)
    ensures Inv(Swap(y, done, multiset{}))
  {
    var z := Swap(y, done, multiset{});
    SendDoneTasks(y, done);
    assert Tokens(z) == Tokens(y);
  }

  lemma SendEndsKeeps(y: Sys, done: Task)
    requires Inv(y) && done in y.tasks && y.s.id != 0
    requires (done.Heading? || done.Sending?) && done.end && done.gen == y.s.gen
    ensures Inv(Swap(y, done, multiset{Sent(done.gen)}))
  {
    var z := Swap(y, done, multiset{Sent(done.gen)});
    assert TaskOk(y, done);
    forall t | t in z.tasks ensures TaskOk(z, t) {
      assert t in y.tasks ==> TaskOk(y, t);
    }
  }

  lemma EmitHeadersKeeps(y: Sys, gen: nat, end: bool, id: nat)
    requires Inv(y) && Heading(gen, end) in y.tasks && (y.s.id == 0 ==> id != 0 && id !in y.idOf.Values)
    ensures Inv(RunEmitHeaders(y, gen, end, id))
  {
    assert TaskOk(y, Heading(gen, end));
    var z := y;
    if y.s.id == 0 {
      AssignKeeps(y, gen, end, id);
      z := y.(s := y.s.(id := id), registered := true, idOf := y.idOf[y.s.gen := id]);
    }
    WireKeeps(z, gen, z.s.id);
    var w := z.(wire := z.wire + [(gen, z.s.id)]);
    if end {
      SendEndsKeeps(w, Heading(gen, end));
    } else {
      SendDoneKeeps(w, Heading(gen, end));
    }
  }

  lemma EmitDataKeeps(y: Sys, gen: nat, end: bool, last: bool)
    requires Inv(y) && Sending(gen, end) in y.tasks
    ensures Inv(RunEmitData(y, gen, end, last))
  {
    if y.s.gen != gen || y.s.id == 0 {
      SendDoneKeeps(y, Sending(gen, end));
    } else {
      WireKeeps(y, gen, y.s.id);
      var z := y.(wire := y.wire + [(gen, y.s.id)]);
      if last && end {
        SendEndsKeeps(z, Sending(gen, end));
      } else if last {
        SendDoneKeeps(z, Sending(gen, end));
      }
    }
  }

  // -------------------------------------------------------------- recycling

  /** Nothing is left that could touch this lifetime again, but its own late senders. */
  predicate Free(y: Sys) {
    && Placed(y) && y.live && !y.registered && y.s.appClosed && y.s.recvActive == 0
    && (forall t :: t in y.tasks ==>
          TaskOk(y, t) && (t.Sending? || t.Retiring? || t.Marking? || t.Resetting?) && (t.Sending? ==> !t.end))
    && y.s.remoteEnded && ReaderOk(y) && !y.reader.Announcing?
    && IdsOk(y) && HandlesOk(y)
  }

  lemma PutKeeps(y: Sys)
    requires Free(y)
    ensures Inv(Put(y.(s := ResetForPool(y.s))))
  {
    var z := Put(y.(s := ResetForPool(y.s)));
    forall t | t in z.tasks ensures TaskOk(z, t) {
      assert TaskOk(y, t);
    }
  }

  lemma TokenIsLast(y: Sys, z: Sys)
    requires Inv(y) && Decided(y) && y.s.appClosed
    requires z == y.(tasks := z.tasks, s := y.s.(recvActive := 0)) && z.tasks <= y.tasks
    requires Recycling(y.s.gen) !in z.tasks && Receiving(y.s.gen) !in z.tasks
    ensures Free(z)
  {
    assert Tokens(y) == 1 && Pins(y) == 0;
    forall t | t in z.tasks
      ensures TaskOk(z, t) && (t.Sending? || t.Retiring? || t.Marking? || t.Resetting?) && (t.Sending? ==> !t.end)
    {
      assert t in y.tasks && TaskOk(y, t);
    }
  }

  lemma DeferKeeps(y: Sys, gen: nat)
    requires Inv(y) && Recycling(gen) in y.tasks && y.s.recvActive > 0
    ensures Inv(Swap(y.(s := y.s.(recycleWanted := true)), Recycling(gen), multiset{}))
  {
    var z := Swap(y.(s := y.s.(recycleWanted := true)), Recycling(gen), multiset{});
    assert TaskOk(y, Recycling(gen));
    forall t | t in z.tasks ensures TaskOk(z, t) {
      assert TaskOk(y, t);
    }
  }

  lemma RecycleKeeps(y: Sys, gen: nat)
    requires Inv(y) && Recycling(gen) in y.tasks
    ensures Inv(RunRecycle(y, gen))
  {
    assert TaskOk(y, Recycling(gen));
    if y.s.recvActive > 0 {
      DeferKeeps(y, gen);
    } else {
      var z := Swap(y, Recycling(gen), multiset{});
      TokenIsLast(y, z);
      PutKeeps(z);
    }
  }

  lemma RecvStaysTasks(y: Sys, gen: nat)
    requires Inv(y) && Receiving(gen) in y.tasks
    ensures TasksOk(Swap(y.(s := y.s.(recvActive := y.s.recvActive - 1)), Receiving(gen), multiset{}))
  {
    var z := Swap(y.(s := y.s.(recvActive := y.s.recvActive - 1)), Receiving(gen), multiset{});
    assert TaskOk(y, Receiving(gen));
    forall t | t in z.tasks ensures TaskOk(z, t) {
      assert TaskOk(y, t);
    }
  }

  lemma RecvStaysKeeps(y: Sys, gen: nat)
    requires Inv(y) && Receiving(gen) in y.tasks && (y.s.recvActive > 1 || !y.s.recycleWanted)
    ensures Inv(Swap(y.(s := y.s.(recvActive := y.s.recvActive - 1)), Receiving(gen), multiset{}))
  {
    var z := Swap(y.(s := y.s.(recvActive := y.s.recvActive - 1)), Receiving(gen), multiset{});
    assert TaskOk(y, Receiving(gen));
    RecvStaysTasks(y, gen);
    assert Tokens(z) == Tokens(y);
  }

  lemma RecvLeaveKeeps(y: Sys, gen: nat)
    requires Inv(y) && Receiving(gen) in y.tasks
    ensures Inv(RunRecvLeave(y, gen))
  {
    assert TaskOk(y, Receiving(gen));
    if y.s.recvActive > 1 || !y.s.recycleWanted {
      RecvStaysKeeps(y, gen);
    } else {
      assert Tokens(y) == 1;
      var z := Swap(y.(s := y.s.(recvActive := 0)), Receiving(gen), multiset{});
      TokenIsLast(y, z);
      PutKeeps(z);
    }
  }

  // Id-keyed work: harmless wherever it lands, because an id is never reused.
  lemma NoteKeeps(y: Sys, t: Task)
    requires Inv(y) && (t.Marking? || t.Resetting?) && t.id in y.idOf.Values
    ensures Inv(y.(tasks := y.tasks + multiset{t}))
  {
    var z := y.(tasks := y.tasks + multiset{t});
    forall u | u in z.tasks ensures TaskOk(z, u) {
      assert u in y.tasks ==> TaskOk(y, u);
    }
  }

  lemma DeliveryTasks(y: Sys, f: Lookup, end: bool, empty: bool, final: bool)
    requires Inv(y) && y.reader.Delivering? && y.reader.f == f && !f.late
    ensures TasksOk(Delivery(y, f.id, end, empty, final))
  {
    var z := Delivery(y, f.id, end, empty, final);
    assert Tokens(y) == 0;
    forall u | u in z.tasks ensures TaskOk(z, u) {
      assert u in y.tasks ==> TaskOk(y, u);
    }
  }

  lemma DeliveryKeeps(y: Sys, f: Lookup, end: bool, empty: bool, final: bool)
    requires Inv(y) && y.reader.Delivering? && y.reader.f == f && !f.late
    ensures Inv(Delivery(y, f.id, end, empty, final))
  {
    assert Tokens(y) == 0;
    DeliveryTasks(y, f, end, empty, final);
    EnqueueOwn(y.s.events, Event(f.id, end));
  }

  lemma DeliverKeeps(y: Sys, f: Lookup, block: bool, end: bool, empty: bool, final: bool)
    requires Inv(y) && y.reader == Delivering(f, block) && !f.late
    ensures Inv(RunDeliver(y, f.id, block, end, empty, final))
  {
    DeliveryKeeps(y, f, end, empty && !block, final && block);
    if end {
      assert y.s.gen in y.idOf && y.idOf[y.s.gen] == f.id == y.s.id;
      NoteKeeps(Delivery(y, f.id, end, empty && !block, final && block), Marking(f.id));
    }
  }

  lemma TornTasks(y: Sys, id: nat)
    requires Inv(y) && y.reader.TearingDown? && y.reader.id == id && y.s.id == id
    ensures TasksOk(Torn(y, id))
  {
    var z := Torn(y, id);
    forall u | u in z.tasks ensures TaskOk(z, u) {
      assert TaskOk(y, u);
    }
  }

  lemma TornKeeps(y: Sys, id: nat)
    requires Inv(y) && y.reader.TearingDown? && y.reader.id == id
    ensures Inv(Torn(y, id))
  {
    if y.s.id == id {
      assert id != 0;
      TornTasks(y, id);
      EnqueueOwn(y.s.events, Event(id, true));
    } else {
      SameTasks(y, Torn(y, id));
    }
  }

  lemma TearDownKeeps(y: Sys, id: nat, rst: bool)
    requires Inv(y) && y.reader.TearingDown? && y.reader.id == id
    ensures Inv(RunTearDown(y, id, rst))
  {
    TornKeeps(y, id);
    assert Torn(y, id).idOf == y.idOf;
    if rst {
      NoteKeeps(Torn(y, id), Resetting(id));
    } else if y.s.id == id {
      NoteKeeps(Torn(y, id), Marking(id));
    }
  }

  // ------------------------------------------------------- releasing and closing

  lemma DropKeeps(y: Sys, done: Task)
    requires Inv(y) && done in y.tasks && (done.Resetting? || done.Overflowing? || done.Marking? || done.Unassigned?)
    ensures Inv(Swap(y, done, multiset{}))
  {
    var z := Swap(y, done, multiset{});
    forall t | t in z.tasks ensures TaskOk(z, t) {
      assert TaskOk(y, t);
    }
  }

  lemma EvictKeeps(y: Sys)
    requires Inv(y) && y.registered
    ensures Inv(y.(s := ReleaseSlot(y.s), registered := y.s.inflightDone))
  {
    var z := y.(s := ReleaseSlot(y.s), registered := y.s.inflightDone);
    assert Tokens(y) == 0;
    forall t | t in z.tasks ensures TaskOk(z, t) {
      assert TaskOk(y, t);
    }
  }

  lemma RetireTasks(y: Sys)
    requires Inv(y) && y.registered && MarksEnded(y.s)
    ensures TasksOk(y.(s := ReleaseSlot(y.s), registered := false, tasks := y.tasks + multiset{Finishing(y.s.gen)}))
  {
    var z := y.(s := ReleaseSlot(y.s), registered := false, tasks := y.tasks + multiset{Finishing(y.s.gen)});
    assert Tokens(y) == 0;
    forall t | t in z.tasks ensures TaskOk(z, t) {
      assert t in y.tasks ==> TaskOk(y, t);
    }
  }

  lemma RetirementKeeps(y: Sys)
    requires Inv(y) && y.registered && MarksEnded(y.s)
    ensures Inv(y.(s := ReleaseSlot(y.s), registered := false, tasks := y.tasks + multiset{Finishing(y.s.gen)}))
  {
    assert Tokens(y) == 0;
    RetireTasks(y);
  }

  lemma MarkKeeps(y: Sys, id: nat)
    requires Inv(y) && Marking(id) in y.tasks
    ensures Inv(RunMark(y, id))
  {
    DropKeeps(y, Marking(id));
    if y.registered && y.s.id == id && MarksEnded(y.s) {
      RetirementKeeps(Swap(y, Marking(id), multiset{}));
    }
  }

  lemma ReleaseIs(y: Sys, id: nat, done: Task)
    ensures var z := Swap(y, done, multiset{});
      RunRelease(y, done, id) ==
        if y.registered && y.s.id == id then z.(s := ReleaseSlot(z.s), registered := z.s.inflightDone) else z
  {
  }

  lemma ReleaseKeeps(y: Sys, id: nat, done: Task)
    requires Inv(y) && done in y.tasks && (done.Resetting? || done.Overflowing?)
    ensures Inv(RunRelease(y, done, id))
  {
    DropKeeps(y, done);
    var z := Swap(y, done, multiset{});
    ReleaseIs(y, id, done);
    if y.registered && y.s.id == id {
      EvictKeeps(z);
    }
  }

  lemma OverflowKeeps(y: Sys, gen: nat)
    requires Inv(y) && Overflowing(gen) in y.tasks
    ensures Inv(RunOverflow(y, gen))
  {
    assert TaskOk(y, Overflowing(gen));
    if y.s.id != 0 {
      WireKeeps(y, gen, y.s.id);
      ReleaseKeeps(y.(wire := y.wire + [(gen, y.s.id)]), y.s.id, Overflowing(gen));
    } else {
      DropKeeps(y, Overflowing(gen));
      SlotBackKeeps(Swap(y, Overflowing(gen), multiset{}));
    }
  }

  lemma CancelNotesKeeps(y: Sys, gen: nat)
    requires Inv(y) && Cancelling(gen) in y.tasks && y.s.id != 0
    ensures Inv(Swap(y, Cancelling(gen), multiset{Resetting(y.s.id)}))
  {
    var z := Swap(y, Cancelling(gen), multiset{Resetting(y.s.id)});
    assert y.s.gen in y.idOf && y.idOf[y.s.gen] == y.s.id;
    forall t | t in z.tasks ensures TaskOk(z, t) {
      assert t in y.tasks ==> TaskOk(y, t);
    }
  }

  lemma CancelUnassignedKeeps(y: Sys, gen: nat)
    requires Inv(y) && Cancelling(gen) in y.tasks && y.s.id == 0
    ensures Inv(Swap(y, Cancelling(gen), multiset{Unassigned(gen)}))
  {
    var z := Swap(y, Cancelling(gen), multiset{Unassigned(gen)});
    assert TaskOk(y, Cancelling(gen));
    forall t | t in z.tasks ensures TaskOk(z, t) {
      assert t in y.tasks ==> TaskOk(y, t);
    }
  }

  lemma CancelKeeps(y: Sys, gen: nat)
    requires Inv(y) && Cancelling(gen) in y.tasks
    ensures Inv(RunCancel(y, gen))
  {
    assert TaskOk(y, Cancelling(gen));
    if y.s.id != 0 {
      WireKeeps(y, gen, y.s.id);
      CancelNotesKeeps(y.(wire := y.wire + [(gen, y.s.id)]), gen);
    } else {
      CancelUnassignedKeeps(y, gen);
    }
  }

  lemma CloseRecyclesTasks(y: Sys, gen: nat)
    requires Inv(y) && Minted(y, gen) && CloseOutcome(y.s, gen).Recycles?
    ensures TasksOk(RunClose(y, gen))
  {
    var z := RunClose(y, gen);
    assert Decided(y);
    forall t | t in z.tasks ensures TaskOk(z, t) {
      assert t in y.tasks ==> TaskOk(y, t);
    }
  }

  lemma CloseRecyclesKeeps(y: Sys, gen: nat)
    requires Inv(y) && Minted(y, gen) && CloseOutcome(y.s, gen).Recycles?
    ensures Inv(RunClose(y, gen))
  {
    CloseRecyclesTasks(y, gen);
    assert Decided(y) && Tokens(y) == 1;
  }

  lemma CloseAbandonsTasks(y: Sys, gen: nat)
    requires Inv(y) && Minted(y, gen) && CloseOutcome(y.s, gen).Abandons?
    ensures TasksOk(RunClose(y, gen))
  {
    var z := RunClose(y, gen);
    assert Tokens(y) == 0;
    forall t | t in z.tasks ensures TaskOk(z, t) {
      assert t in y.tasks ==> TaskOk(y, t);
    }
  }

  lemma CloseAbandonsTokens(y: Sys, gen: nat)
    requires Inv(y) && Minted(y, gen) && CloseOutcome(y.s, gen).Abandons?
    ensures TokenOk(RunClose(y, gen)) && !Decided(RunClose(y, gen))
  {
    var z := RunClose(y, gen);
    assert Tokens(y) == Tokens(z) == 0;
  }

  lemma CloseAbandonsKeeps(y: Sys, gen: nat)
    requires Inv(y) && Minted(y, gen) && CloseOutcome(y.s, gen).Abandons?
    ensures Inv(RunClose(y, gen))
  {
    var z := RunClose(y, gen);
    assert z == y.(s := y.s.(released := true, appClosed := true, closed := true), tasks := z.tasks,
                   closedHandles := y.closedHandles + {gen});
    CloseAbandonsTasks(y, gen);
    CloseAbandonsTokens(y, gen);
    assert ReaderOk(z);
  }

  lemma CloseQuietKeeps(y: Sys, gen: nat)
    requires Inv(y) && Minted(y, gen)
    requires CloseOutcome(y.s, gen).TornDown? || CloseOutcome(y.s, gen).CompletionInFlight?
    ensures Inv(RunClose(y, gen))
  {
    var z := RunClose(y, gen);
    assert Tokens(z) <= Tokens(y);
    forall t | t in z.tasks ensures TaskOk(z, t) {
      assert TaskOk(y, t);
    }
  }

  lemma CloseRepeatedKeeps(y: Sys, gen: nat)
    requires Inv(y)
    ensures Inv(y.(closedHandles := y.closedHandles + {gen}))
  {
    var z := y.(closedHandles := y.closedHandles + {gen});
    forall t | t in z.tasks ensures TaskOk(z, t) {
      assert TaskOk(y, t);
    }
  }

  lemma CloseKeeps(y: Sys, gen: nat)
    requires Inv(y) && Minted(y, gen)
    ensures Inv(RunClose(y, gen))
  {
    match CloseOutcome(y.s, gen)
    case Stale =>
    case Repeated => CloseRepeatedKeeps(y, gen);
    case TornDown => CloseQuietKeeps(y, gen);
    case CompletionInFlight => CloseQuietKeeps(y, gen);
    case Recycles => CloseRecyclesKeeps(y, gen);
    case Abandons => CloseAbandonsKeeps(y, gen);
  }

  lemma SendKeeps(y: Sys, a: SendAction)
    requires Inv(y) && SendEnabled(y, a) && Conformant(y, Sender(a))
    ensures Inv(SendStep(y, a))
  {
    match a
    case HeadersDoor(gen, end) => HeadersDoorKeeps(y, gen, end);
    case EmitHeaders(gen, end, id) => EmitHeadersKeeps(y, gen, end, id);
    case DataDoor(gen, end) => DataDoorKeeps(y, gen, end);
    case EmitData(gen, end, last) => EmitDataKeeps(y, gen, end, last);
    case SendStops(gen, end) => StopKeeps(y, gen, end);
    case EndsLocal(gen) => EndLocalKeeps(y, gen);
    case Retires(gen, id) => RetireKeeps(y, gen, id);
  }

  lemma HandleKeeps(y: Sys, a: HandleAction)
    requires Inv(y) && HandleEnabled(y, a)
    ensures Inv(HandleStep(y, a))
  {
    match a
    case Alloc => AllocKeeps(y);
    case AppCloses(gen) => CloseKeeps(y, gen);
    case CancelReadsId(gen) => CancelKeeps(y, gen);
    case RecvEnters(gen) => RecvEnterKeeps(y, gen);
    case RecvTakes(gen) => RecvTakeKeeps(y, gen);
    case RecvLeaves(gen) => RecvLeaveKeeps(y, gen);
  }

  lemma ConnKeeps(y: Sys, a: ConnAction)
    requires Inv(y) && ConnEnabled(y, a)
    ensures Inv(ConnStep(y, a))
  {
    match a
    case AllocPushed(id) => AllocPushedKeeps(y, id);
    case Marks(id) => MarkKeeps(y, id);
    case Finishes(gen) => FinishKeeps(y, gen);
    case PutsBack(gen) => RecycleKeeps(y, gen);
    case ReleasesUnassigned(gen) => UnassignedKeeps(y, gen);
    case ReleasesSlot(id) => ReleaseKeeps(y, id, Resetting(id));
    case OverflowResets(gen) => OverflowKeeps(y, gen);
  }

  lemma LookupKeeps(y: Sys, r: Reader)
    requires Inv(y) && ReaderOk(y.(reader := r)) && !y.reader.Gone?
    ensures Inv(y.(reader := r))
  {
    SameTasks(y, y.(reader := r));
  }

  lemma CheckKeeps(y: Sys, f: Lookup)
    requires Inv(y) && y.reader == Found(f)
    ensures Inv(RunCheck(y, f))
  {
    LookupKeeps(y, RunCheck(y, f).reader);
  }

  /** Where the struct has changed hands no response has begun, so DATA goes no further. */
  lemma AdmitKeeps(y: Sys, f: Lookup, misfit: bool)
    requires Inv(y) && y.reader == Charged(f)
    ensures Inv(RunAdmit(y, f, misfit))
  {
    LookupKeeps(y, RunAdmit(y, f, misfit).reader);
  }

  lemma BlameKeeps(y: Sys, f: Lookup)
    requires Inv(y) && y.reader == Refusing(f)
    ensures Inv(RunBlame(y, f))
  {
    assert y.s.id != 0 ==> y.s.gen in y.idOf && y.idOf[y.s.gen] == y.s.id;
    SameTasks(y, RunBlame(y, f));
  }

  lemma LookUpKeeps(y: Sys, id: nat)
    requires Inv(y) && y.reader == Blaming(id)
    ensures Inv(RunLookUp(y, id))
  {
    if y.registered && y.s.id == id {
      LookupKeeps(y, TearingDown(id, true));
    } else {
      LookupKeeps(y, Away);
      if id != 0 {
        NoteKeeps(y.(reader := Away), Resetting(id));
      }
    }
  }

  lemma FindKeeps(y: Sys, id: nat)
    requires Inv(y) && !y.reader.Gone? && y.registered && y.s.id == id
    ensures Inv(y.(reader := Found(Looked(y, id))))
    ensures Inv(y.(reader := Delivering(Looked(y, id), true)))
    ensures Inv(y.(reader := TearingDown(id, false))) && Inv(y.(reader := Crediting(Looked(y, id))))
  {
    assert y.s.gen in y.idOf && y.idOf[y.s.gen] == id;
    assert Watched(y, Looked(y, id));
    LookupKeeps(y, Found(Looked(y, id)));
    LookupKeeps(y, Delivering(Looked(y, id), true));
    LookupKeeps(y, TearingDown(id, false));
    LookupKeeps(y, Crediting(Looked(y, id)));
  }

  lemma CreditKeeps(y: Sys, f: Lookup, overflow: bool)
    requires Inv(y) && y.reader == Crediting(f)
    ensures Inv(RunCredit(y, f, overflow))
  {
    if overflow {
      assert f.id in y.idOf.Values;
      LookupKeeps(y, Blaming(f.id));
    } else {
      SameTasks(y, y.(credited := y.credited + [(y.s.gen, f.id)], reader := Away));
    }
  }

  lemma RejectKeeps(y: Sys, f: Lookup)
    requires Inv(y) && y.reader == Delivering(f, true)
    ensures Inv(y.(reader := Refusing(f)))
  {
    LookupKeeps(y, Refusing(f));
  }

  lemma ChargeKeeps(y: Sys, f: Lookup, overrun: bool)
    requires Inv(y) && y.reader == Charging(f)
    ensures Inv(RunCharge(y, f, overrun))
  {
    SameTasks(y, RunCharge(y, f, overrun));
  }

  lemma ReadKeeps(y: Sys, a: ReadAction)
    requires Inv(y) && ReadEnabled(y, a) && Conformant(y, Net(a))
    ensures Inv(ReadStep(y, a))
  {
    match a
    case Finds(id) => FindKeeps(y, id);
    case FindsForHeaders(id) => FindKeeps(y, id);
    case FindsForReset(id) => FindKeeps(y, id);
    case FindsForCredit(id) => FindKeeps(y, id);
    case Checks => CheckKeeps(y, y.reader.f);
    case Charges(overrun) => ChargeKeeps(y, y.reader.f, overrun);
    case Credits(overflow) => CreditKeeps(y, y.reader.f, overflow);
    case Admits(misfit) => AdmitKeeps(y, y.reader.f, misfit);
    case Delivers(end, empty, final) => DeliverKeeps(y, y.reader.f, y.reader.block, end, empty, final);
    case Rejects => RejectKeeps(y, y.reader.f);
    case Blames => BlameKeeps(y, y.reader.f);
    case LooksUp => LookUpKeeps(y, y.reader.id);
    case Announces => AnnounceKeeps(y, y.reader.id);
    case TearsDown => TearDownKeeps(y, y.reader.id, y.reader.rst);
    case Dies => DeathKeeps(y);
  }

  lemma StepKeeps(y: Sys, a: Action)
    requires Inv(y) && Enabled(y, a) && Conformant(y, a)
    ensures Inv(Step(y, a))
  {
    match a
    case Sender(b) => SendKeeps(y, b);
    case Holder(b) => HandleKeeps(y, b);
    case Keeper(b) => ConnKeeps(y, b);
    case Net(b) => ReadKeeps(y, b);
  }

  lemma {:induction false} RunKeeps(capacity: nat, run: seq<Action>)
    requires IsRun(Start(capacity), run, true)
    ensures Inv(After(Start(capacity), run, true))
    decreases |run|
  {
    if run != [] {
      RunKeeps(capacity, run[..|run| - 1]);
      StepKeeps(After(Start(capacity), run[..|run| - 1], true), run[|run| - 1]);
    }
  }

  lemma ReachableInv(y: Sys)
    requires Reachable(y, true)
    ensures Inv(y)
  {
    var capacity: nat, run :| IsRun(Start(capacity), run, true) && After(Start(capacity), run, true) == y;
    RunKeeps(capacity, run);
  }
}
