/** What the runs of a stream struct owe: a stream that is over gives its slot back, and a
    stream that ended cleanly gives its struct back. */
module StreamProgress {
  import opened StreamLifecycle
  import opened StreamRuns
  import opened StreamInvariant

  /** Reset, or ended by both sides. */
  predicate Over(s: Stream) {
    s.closed || (s.localEnded && s.remoteEnded)
  }

  /** Somebody is on the way to give the slot back. */
  predicate SlotOwed(y: Sys) {
    || Cancelling(y.s.gen) in y.tasks || Unassigned(y.s.gen) in y.tasks || Overflowing(y.s.gen) in y.tasks
    || (y.s.id != 0 && Resetting(y.s.id) in y.tasks)
    || (y.s.id != 0 && y.s.localEnded && y.s.remoteEnded &&
        (Marking(y.s.id) in y.tasks || Retiring(y.s.gen, y.s.id) in y.tasks))
  }

  /** A stream in use that has its slot is registered if it has an id, and if it is over the
      slot is on its way back. One whose slot is back without a reset has one party with the
      right to recycle it. One that the application has closed is over. */
  predicate Owing(y: Sys) {
    && (y.live && !y.s.inflightDone && y.s.id != 0 ==> y.registered)
    && (y.live && !y.s.inflightDone && Over(y.s) ==> SlotOwed(y))
    && (y.live && y.s.inflightDone && !y.s.closed ==> Tokens(y) == 1)
    && (y.s.appClosed ==> Over(y.s))
    && (y.live && y.s.id != 0 && Resetting(y.s.id) in y.tasks ==> y.s.closed || y.s.inflightDone)
  }

  // ----------------------------------------------------------- steps that do not matter

  /** The tasks of this lifetime that the debts depend on are as they were. */
  predicate SameTasksOf(y: Sys, z: Sys) {
    var gen, id := y.s.gen, y.s.id;
    && z.tasks[Cancelling(gen)] == y.tasks[Cancelling(gen)] && z.tasks[Unassigned(gen)] == y.tasks[Unassigned(gen)]
    && z.tasks[Overflowing(gen)] == y.tasks[Overflowing(gen)] && z.tasks[Resetting(id)] == y.tasks[Resetting(id)]
    && z.tasks[Marking(id)] == y.tasks[Marking(id)] && z.tasks[Retiring(gen, id)] == y.tasks[Retiring(gen, id)]
    && z.tasks[Finishing(gen)] == y.tasks[Finishing(gen)] && z.tasks[Recycling(gen)] == y.tasks[Recycling(gen)]
  }

  /** Nothing that the debts depend on is less than it was. */
  predicate SameDebts(y: Sys, z: Sys) {
    && z.live == y.live && z.registered == y.registered
    && z.s.gen == y.s.gen && z.s.id == y.s.id && z.s.inflightDone == y.s.inflightDone
    && z.s.closed == y.s.closed && z.s.localEnded == y.s.localEnded && z.s.remoteEnded == y.s.remoteEnded
    && z.s.appClosed == y.s.appClosed && z.s.connDone == y.s.connDone && z.s.recycleWanted == y.s.recycleWanted
    && SameTasksOf(y, z)
  }

  lemma DebtsKept(y: Sys, z: Sys)
    requires Owing(y) && SameDebts(y, z)
    ensures Owing(z)
  {
  }

  lemma DoorOwing(y: Sys, gen: nat, past: Task)
    requires Owing(y) && (past.Heading? || past.Sending?)
    ensures Owing(RunDoor(y, gen, past))
  {
    DebtsKept(y, RunDoor(y, gen, past));
  }

  /** A sender or a receiver that is done is nobody who owes anything. */
  lemma SwapOwesNothing(y: Sys, done: Task, next: multiset<Task>)
    requires done.Heading? || done.Sending? || done.Receiving?
    requires next == multiset{} || (!done.Receiving? && next == multiset{Sent(done.gen)})
    ensures SameTasksOf(y, Swap(y, done, next))
  {
    var gen, id := y.s.gen, y.s.id;
    OtherTask(y, done, next, Cancelling(gen));
    OtherTask(y, done, next, Unassigned(gen));
    OtherTask(y, done, next, Overflowing(gen));
    OtherTask(y, done, next, Resetting(id));
    OtherTask(y, done, next, Marking(id));
    OtherTask(y, done, next, Retiring(gen, id));
    OtherTask(y, done, next, Finishing(gen));
    OtherTask(y, done, next, Recycling(gen));
  }

  lemma OtherTask(y: Sys, done: Task, next: multiset<Task>, t: Task)
    requires t != done && next[t] == 0
    ensures Swap(y, done, next).tasks[t] == y.tasks[t]
  {
  }

  lemma EmitDataOwing(y: Sys, gen: nat, end: bool, last: bool)
    ensures SameDebts(y, RunEmitData(y, gen, end, last))
  {
    var mine, z := y.s.gen == gen && y.s.id != 0, RunEmitData(y, gen, end, last);
    if !mine || last {
      var next := if mine && end then multiset{Sent(gen)} else multiset{};
      assert z.tasks == Swap(y, Sending(gen, end), next).tasks;
      SwapOwesNothing(y, Sending(gen, end), next);
    }
  }

  lemma StopOwing(y: Sys, gen: nat, end: bool)
    requires Owing(y)
    ensures Owing(RunStop(y, gen, end))
  {
    DebtsKept(y, RunStop(y, gen, end));
  }

  lemma RecvEnterOwing(y: Sys, gen: nat)
    ensures SameDebts(y, RunRecvEnter(y, gen))
  {
    if MayReceive(y.s, gen) {
      var z := RunRecvEnter(y, gen);
      assert z.tasks == y.tasks + multiset{Receiving(gen)};
    }
  }

  lemma RecvTakeOwing(y: Sys, gen: nat)
    requires Owing(y) && y.s.events != []
    ensures Owing(RunRecvTake(y, gen))
  {
    DebtsKept(y, RunRecvTake(y, gen));
  }

  lemma RecvLeaveOwing(y: Sys, gen: nat)
    requires Owing(y) && Inv(y) && Receiving(gen) in y.tasks
    ensures Owing(RunRecvLeave(y, gen))
  {
    if !LastOut(y.s) {
      DebtsKept(y, RunRecvLeave(y, gen));
    }
  }

  // ------------------------------------------------------------------------- sending

  lemma AssignedOwing(y: Sys, gen: nat, end: bool, id: nat)
    requires Owing(y) && y.s.id == 0 && id != 0 && Resetting(id) !in y.tasks
    ensures Owing(RunEmitHeaders(y, gen, end, id))
  {
    var z := RunEmitHeaders(y, gen, end, id);
    assert z.s == y.s.(id := id) && z.live == y.live && z.registered;
    var g, done, next := y.s.gen, Heading(gen, end), if end then multiset{Sent(gen)} else multiset{};
    assert z.tasks == Swap(y, done, next).tasks;
    OtherTask(y, done, next, Cancelling(g));
    OtherTask(y, done, next, Unassigned(g));
    OtherTask(y, done, next, Overflowing(g));
    OtherTask(y, done, next, Resetting(id));
    OtherTask(y, done, next, Finishing(g));
    OtherTask(y, done, next, Recycling(g));
  }

  lemma EmitAgainOwing(y: Sys, gen: nat, end: bool, id: nat)
    requires y.s.id != 0
    ensures SameDebts(y, RunEmitHeaders(y, gen, end, id))
  {
    var w := y.(wire := y.wire + [(gen, y.s.id)]);
    var next := if end then multiset{Sent(gen)} else multiset{};
    assert RunEmitHeaders(y, gen, end, id) == Swap(w, Heading(gen, end), next);
    SwapOwesNothing(w, Heading(gen, end), next);
  }

  lemma EmitHeadersOwing(y: Sys, gen: nat, end: bool, id: nat)
    requires Owing(y) && Inv(y) && Heading(gen, end) in y.tasks && (y.s.id == 0 ==> id != 0 && id !in y.idOf.Values)
    ensures Owing(RunEmitHeaders(y, gen, end, id))
  {
    if y.s.id != 0 {
      EmitAgainOwing(y, gen, end, id);
      DebtsKept(y, RunEmitHeaders(y, gen, end, id));
    } else {
      assert Resetting(id) in y.tasks ==> TaskOk(y, Resetting(id));
      AssignedOwing(y, gen, end, id);
    }
  }

  lemma EndLocalOwing(y: Sys, gen: nat)
    requires Owing(y) && Inv(y) && Sent(gen) in y.tasks
    ensures Owing(RunEndLocal(y, gen))
  {
    var z := RunEndLocal(y, gen);
    assert TaskOk(y, Sent(gen));
    assert Retiring(gen, y.s.id) in z.tasks;
    assert forall t :: t in y.tasks && t != Sent(gen) ==> t in z.tasks;
    assert Tokens(z) == Tokens(y);
  }

  lemma RetireOwing(y: Sys, gen: nat, id: nat)
    requires Owing(y) && Placed(y) && Retiring(gen, id) in y.tasks
    ensures Owing(RunRetire(y, gen, id))
  {
    var z := RunRetire(y, gen, id);
    assert forall t :: t in y.tasks && t != Retiring(gen, id) ==> t in z.tasks;
    assert y.live ==> Marking(id) in z.tasks;
    assert Tokens(z) == Tokens(y);
  }

  lemma SendOwing(y: Sys, a: SendAction)
    requires Owing(y) && Inv(y) && SendEnabled(y, a)
    ensures Owing(SendStep(y, a))
  {
    match a
    case HeadersDoor(gen, end) => DoorOwing(y, gen, Heading(gen, end));
    case EmitHeaders(gen, end, id) => EmitHeadersOwing(y, gen, end, id);
    case DataDoor(gen, end) => DoorOwing(y, gen, Sending(gen, end));
    case EmitData(gen, end, last) =>
      EmitDataOwing(y, gen, end, last);
      DebtsKept(y, RunEmitData(y, gen, end, last));
    case SendStops(gen, end) => StopOwing(y, gen, end);
    case EndsLocal(gen) => EndLocalOwing(y, gen);
    case Retires(gen, id) => RetireOwing(y, gen, id);
  }

  // --------------------------------------------------------------- the other handles

  lemma CloseOwing(y: Sys, gen: nat)
    requires Owing(y) && Inv(y)
    ensures Owing(RunClose(y, gen))
  {
    var z := RunClose(y, gen);
    assert forall t :: t in y.tasks ==> t in z.tasks;
  }

  lemma CancelOwing(y: Sys, gen: nat)
    requires Owing(y) && Inv(y) && Cancelling(gen) in y.tasks
    ensures Owing(RunCancel(y, gen))
  {
    var z := RunCancel(y, gen);
    assert TaskOk(y, Cancelling(gen));
    assert Tokens(z) == Tokens(y);
  }

  lemma HandleOwing(y: Sys, a: HandleAction)
    requires Owing(y) && Inv(y) && HandleEnabled(y, a)
    ensures Owing(HandleStep(y, a))
  {
    match a
    case Alloc =>
    case AppCloses(gen) => CloseOwing(y, gen);
    case CancelReadsId(gen) => CancelOwing(y, gen);
    case RecvEnters(gen) =>
      RecvEnterOwing(y, gen);
      DebtsKept(y, RunRecvEnter(y, gen));
    case RecvTakes(gen) => RecvTakeOwing(y, gen);
    case RecvLeaves(gen) => RecvLeaveOwing(y, gen);
  }

  // ---------------------------------------------------------- retiring and recycling

  lemma MarkOwing(y: Sys, id: nat)
    requires Owing(y) && Inv(y) && Marking(id) in y.tasks
    ensures Owing(RunMark(y, id))
  {
    var z := RunMark(y, id);
    assert forall t :: t in y.tasks && t != Marking(id) ==> t in z.tasks;
    if y.registered && y.s.id == id && MarksEnded(y.s) {
      assert Tokens(y) == 0;
      assert z.tasks[Finishing(y.s.gen)] == y.tasks[Finishing(y.s.gen)] + 1;
      assert Tokens(z) == 1;
    } else {
      assert Tokens(z) == Tokens(y);
    }
  }

  lemma FinishOwing(y: Sys, gen: nat)
    requires Owing(y) && Inv(y) && Finishing(gen) in y.tasks
    ensures Owing(RunFinish(y, gen))
  {
    assert TaskOk(y, Finishing(gen)) && Tokens(y) == 1;
  }

  lemma ReleaseOwing(y: Sys, done: Task, id: nat)
    requires Owing(y) && Inv(y) && done in y.tasks && (done == Resetting(id) || done == Overflowing(y.s.gen))
    requires done.Overflowing? ==> id == y.s.id != 0 && y.s.closed
    ensures Owing(RunRelease(y, done, id))
  {
    var z := RunRelease(y, done, id);
    assert TaskOk(y, done);
    ReleasedIs(y, done, id);
    if y.live && y.s.id != id {
      DebtsKept(y, z);
    }
  }

  lemma ReleasedIs(y: Sys, done: Task, id: nat)
    requires done == Resetting(id) || done.Overflowing?
    ensures var z, mine := RunRelease(y, done, id), y.registered && y.s.id == id;
      && z.s == y.s.(inflightDone := y.s.inflightDone || mine) && z.live == y.live
      && z.registered == (if mine then y.s.inflightDone else y.registered)
      && Tokens(z) == Tokens(y) && z.tasks <= y.tasks
      && (done == Resetting(id) && y.s.id != id ==> SameTasksOf(y, z))
  {
  }

  lemma OverflowOwing(y: Sys, gen: nat)
    requires Owing(y) && Inv(y) && Overflowing(gen) in y.tasks
    ensures Owing(RunOverflow(y, gen))
  {
    assert TaskOk(y, Overflowing(gen));
    if y.s.id == 0 {
      assert Tokens(RunOverflow(y, gen)) == Tokens(y);
    } else {
      var w := y.(wire := y.wire + [(gen, y.s.id)]);
      WireKeeps(y, gen, y.s.id);
      DebtsKept(y, w);
      ReleaseOwing(w, Overflowing(gen), y.s.id);
    }
  }

  lemma UnassignedOwing(y: Sys, gen: nat)
    requires Owing(y) && Inv(y) && Unassigned(gen) in y.tasks
    ensures Owing(RunUnassigned(y, gen))
  {
    assert TaskOk(y, Unassigned(gen));
  }

  lemma RecycleOwing(y: Sys, gen: nat)
    requires Owing(y) && Inv(y) && Recycling(gen) in y.tasks
    ensures Owing(RunRecycle(y, gen))
  {
    assert TaskOk(y, Recycling(gen)) && Tokens(y) == 1;
  }

  lemma ConnOwing(y: Sys, a: ConnAction)
    requires Owing(y) && Inv(y) && ConnEnabled(y, a)
    ensures Owing(ConnStep(y, a))
  {
    match a
    case AllocPushed(id) => assert Resetting(id) in y.tasks ==> TaskOk(y, Resetting(id));
    case Marks(id) => MarkOwing(y, id);
    case Finishes(gen) => FinishOwing(y, gen);
    case PutsBack(gen) => RecycleOwing(y, gen);
    case ReleasesUnassigned(gen) => UnassignedOwing(y, gen);
    case ReleasesSlot(id) => ReleaseOwing(y, Resetting(id), id);
    case OverflowResets(gen) => OverflowOwing(y, gen);
  }

  // ---------------------------------------------------------------------- the reader

  lemma DeliveredTasks(y: Sys, id: nat, block: bool, end: bool, empty: bool, final: bool)
    requires y.s.id == id
    ensures var z := RunDeliver(y, id, block, end, empty, final);
      && z.tasks >= y.tasks && Tokens(z) == Tokens(y) && z.tasks[Resetting(id)] == y.tasks[Resetting(id)]
      && (end ==> Marking(id) in z.tasks)
      && (z.s.closed && !y.s.closed ==> Overflowing(y.s.gen) in z.tasks)
      && z.live == y.live && z.registered == y.registered
      && z.s == y.s.(events := z.s.events, endSignalled := z.s.endSignalled, headersReceived := z.s.headersReceived,
                     closed := z.s.closed, remoteEnded := y.s.remoteEnded || end)
      && (y.s.closed ==> z.s.closed)
  {
  }

  lemma DeliveryOwing(y: Sys, f: Lookup, block: bool, end: bool, empty: bool, final: bool)
    requires Owing(y) && Inv(y) && y.reader == Delivering(f, block) && (block ==> !f.late)
    ensures Owing(RunDeliver(y, f.id, block, end, empty, final))
  {
    assert Watched(y, f) && y.s.id == f.id;
    DeliveredTasks(y, f.id, block, end, empty, final);
  }

  /** The reset lands on the stream it is for. */
  lemma TornOwing(y: Sys, id: nat, rst: bool)
    requires Owing(y) && y.s.id == id != 0
    ensures Owing(RunTearDown(y, id, rst))
  {
    var z := RunTearDown(y, id, rst);
    assert z.s.closed && z.s.localEnded && z.s.remoteEnded;
    assert if rst then Resetting(id) in z.tasks else Marking(id) in z.tasks;
  }

  lemma TearDownOwing(y: Sys, id: nat, rst: bool)
    requires Owing(y) && Inv(y) && y.reader == TearingDown(id, rst)
    ensures Owing(RunTearDown(y, id, rst))
  {
    if y.s.id == id {
      TornOwing(y, id, rst);
    } else {
      DebtsKept(y, RunTearDown(y, id, rst));
    }
  }

  lemma LookUpOwing(y: Sys, id: nat)
    requires Owing(y) && Inv(y) && y.reader == Blaming(id)
    ensures Owing(RunLookUp(y, id))
  {
    var z := RunLookUp(y, id);
    LookedUpIs(y, id);
    if y.s.id != id || id == 0 || y.registered {
      DebtsKept(y, z);
    }
  }

  lemma LookedUpIs(y: Sys, id: nat)
    ensures var z := RunLookUp(y, id);
      && z.s == y.s && z.live == y.live && z.registered == y.registered
      && z.tasks >= y.tasks && Tokens(z) == Tokens(y)
      && (y.s.id != id || id == 0 || y.registered ==> SameTasksOf(y, z))
  {
  }

  lemma QuietRead(y: Sys, a: ReadAction)
    requires Owing(y) && ReadEnabled(y, a) && !a.Delivers? && !a.TearsDown? && !a.LooksUp?
    ensures Owing(ReadStep(y, a))
  {
    DebtsKept(y, ReadStep(y, a));
  }

  lemma ReadOwing(y: Sys, a: ReadAction)
    requires Owing(y) && Inv(y) && ReadEnabled(y, a) && Conformant(y, Net(a))
    ensures Owing(ReadStep(y, a))
  {
    match a
    case Delivers(end, empty, final) => DeliveryOwing(y, y.reader.f, y.reader.block, end, empty, final);
    case TearsDown => TearDownOwing(y, y.reader.id, y.reader.rst);
    case LooksUp => LookUpOwing(y, y.reader.id);
    case _ => QuietRead(y, a);
  }

  lemma StepOwing(y: Sys, a: Action)
    requires Owing(y) && Inv(y) && Enabled(y, a) && Conformant(y, a)
    ensures Owing(Step(y, a))
  {
    match a
    case Sender(b) => SendOwing(y, b);
    case Holder(b) => HandleOwing(y, b);
    case Keeper(b) => ConnOwing(y, b);
    case Net(b) => ReadOwing(y, b);
  }

  lemma {:induction false} RunOwing(capacity: nat, run: seq<Action>)
    requires IsRun(Start(capacity), run, true)
    ensures Owing(After(Start(capacity), run, true))
    decreases |run|
  {
    if run != [] {
      var before := run[..|run| - 1];
      RunOwing(capacity, before);
      RunKeeps(capacity, before);
      StepOwing(After(Start(capacity), before, true), run[|run| - 1]);
    }
  }

  lemma ReachableOwing(y: Sys)
    requires Reachable(y, true)
    ensures Owing(y)
  {
    var capacity: nat, run :| IsRun(Start(capacity), run, true) && After(Start(capacity), run, true) == y;
    RunOwing(capacity, run);
  }

  // ------------------------------------------------------------------- main results

  /** A Close that takes effect abandons the stream, and so has RST_STREAM written, if and
      only if it was neither reset nor ended by both sides. It takes the struct back itself
      if and only if the connection was done with it and it was not reset. */
  lemma CloseAbandonsExactlyWhen(y: Sys, gen: nat)
    requires gen == y.s.gen && !y.s.released && (y.s.connDone ==> y.s.localEnded && y.s.remoteEnded)
    ensures var z := RunClose(y, gen);
      && (z.tasks[Cancelling(gen)] == y.tasks[Cancelling(gen)] + 1 <==> !Over(y.s))
      && (z.tasks[Recycling(gen)] == y.tasks[Recycling(gen)] + 1 <==> y.s.connDone && !y.s.closed)
      && (Over(y.s) && !(y.s.connDone && !y.s.closed) ==> z.tasks == y.tasks)
      && z.s == y.s.(released := true, appClosed := true, closed := y.s.closed || !Over(y.s))
      && z.closedHandles == y.closedHandles + {gen}
  {
  }

  /** Any other Close changes nothing: the handle is of another lifetime, or has been closed. */
  lemma OtherClosesDoNothing(y: Sys, gen: nat)
    requires gen != y.s.gen || y.s.released
    ensures var z := RunClose(y, gen);
      z == y.(closedHandles := if gen == y.s.gen then y.closedHandles + {gen} else y.closedHandles)
  {
  }

  /** In every run, a stream that is over, and so every stream whose handle the application
      has closed, has given its slot back, or there is a task that will. */
  lemma ClosedStreamsReturnSlots(y: Sys)
    requires Reachable(y, true) && y.live && (Over(y.s) || y.s.appClosed)
    ensures y.s.inflightDone || SlotOwed(y)
  {
    ReachableOwing(y);
  }

  /** In every run, a struct that comes from the pool serves its new handle, and no other: a
      send and a receive of that are let in, as on a stream nothing has happened to. */
  lemma NewHandlesWork(y: Sys, end: bool)
    requires Reachable(y, true) && y.pool > 0
    ensures var z := RunAlloc(y);
      && Heading(z.s.gen, end) in RunDoor(z, z.s.gen, Heading(z.s.gen, end)).tasks
      && RunRecvEnter(z, z.s.gen).s.recvActive == 1
      && z.s.id == 0 && z.s.events == [] && !z.s.localEnded && !z.s.remoteEnded && !z.s.inflightDone
      && forall gen :: gen != z.s.gen ==> RunDoor(z, gen, Heading(gen, end)) == z && RunRecvEnter(z, gen) == z
  {
    ReachableInv(y);
  }

  /** The step is a task that is under way. */
  predicate Pending(y: Sys, a: Action) {
    Enabled(y, a) && (a.Keeper? || a == Holder(CancelReadsId(y.s.gen)) || (a.Sender? && a.send.Retires?))
  }

  predicate Back(y: Sys) {
    y.s.inflightDone
  }

  /** The slot is back after this step, or one more. */
  ghost predicate GivesBack(y: Sys, a: Action) {
    Pending(y, a) && (Back(Step(y, a)) || exists b :: Pending(Step(y, a), b) && Back(Step(Step(y, a), b)))
  }

  /** That task needs at most two steps of its own. */
  lemma OwedSlotComesBack(y: Sys)
    requires Reachable(y, true) && y.live && !y.s.inflightDone && SlotOwed(y)
    ensures exists a :: GivesBack(y, a)
  {
    ReachableInv(y);
    ReachableOwing(y);
    var gen, id := y.s.gen, y.s.id;
    if Unassigned(gen) in y.tasks {
      UnassignedGivesBack(y);
    } else if Overflowing(gen) in y.tasks {
      OverflowGivesBack(y);
    } else if Cancelling(gen) in y.tasks {
      CancelGivesBack(y);
    } else if Resetting(id) in y.tasks {
      ResetGivesBack(y, Resetting(id));
    } else if Marking(id) in y.tasks {
      MarkGivesBack(y);
    } else {
      RetireGivesBack(y);
    }
  }

  lemma UnassignedGivesBack(y: Sys)
    requires Unassigned(y.s.gen) in y.tasks
    ensures GivesBack(y, Keeper(ReleasesUnassigned(y.s.gen)))
  {
    assert Back(RunUnassigned(y, y.s.gen));
  }

  lemma OverflowGivesBack(y: Sys)
    requires Overflowing(y.s.gen) in y.tasks && (y.s.id != 0 ==> y.registered)
    ensures GivesBack(y, Keeper(OverflowResets(y.s.gen)))
  {
    assert Back(RunOverflow(y, y.s.gen));
  }

  lemma ResetGivesBack(y: Sys, t: Task)
    requires t == Resetting(y.s.id) && t in y.tasks && y.registered
    ensures GivesBack(y, Keeper(ReleasesSlot(y.s.id)))
  {
    assert Back(RunRelease(y, t, y.s.id));
  }

  lemma MarkGivesBack(y: Sys)
    requires Marking(y.s.id) in y.tasks && y.registered && y.s.localEnded && y.s.remoteEnded && !y.s.inflightDone
    ensures GivesBack(y, Keeper(Marks(y.s.id)))
  {
    assert Back(RunMark(y, y.s.id));
  }

  lemma CancelGivesBack(y: Sys)
    requires Cancelling(y.s.gen) in y.tasks && (y.s.id != 0 ==> y.registered)
    ensures GivesBack(y, Holder(CancelReadsId(y.s.gen)))
  {
    var z := RunCancel(y, y.s.gen);
    assert z.s == y.s && z.registered == y.registered;
    var a := Holder(CancelReadsId(y.s.gen));
    if y.s.id == 0 {
      assert Unassigned(y.s.gen) in z.tasks;
      ThenBack(y, a, Keeper(ReleasesUnassigned(y.s.gen)));
    } else {
      assert Resetting(y.s.id) in z.tasks;
      ThenBack(y, a, Keeper(ReleasesSlot(y.s.id)));
    }
  }

  lemma ThenBack(y: Sys, a: Action, b: Action)
    requires Pending(y, a) && Pending(Step(y, a), b) && Back(Step(Step(y, a), b))
    ensures GivesBack(y, a)
  {
  }

  lemma RetireGivesBack(y: Sys)
    requires Retiring(y.s.gen, y.s.id) in y.tasks && y.s.hasWriter
    requires y.registered && y.s.localEnded && y.s.remoteEnded && !y.s.inflightDone
    ensures GivesBack(y, Sender(Retires(y.s.gen, y.s.id)))
  {
    var z := RunRetire(y, y.s.gen, y.s.id);
    assert z.s == y.s && z.registered == y.registered && Marking(y.s.id) in z.tasks;
    MarkGivesBack(z);
    assert Pending(z, Keeper(Marks(y.s.id)));
  }

  /** In every run, a stream that ended without a reset, whose slot is back, has exactly one
      party that will recycle its struct or, if the application has not closed it yet, leave
      that to Close. */
  lemma CleanStreamsReturnStructs(y: Sys)
    requires Reachable(y, true) && y.live && y.s.inflightDone && !y.s.closed
    ensures y.tasks[Finishing(y.s.gen)] + y.tasks[Recycling(y.s.gen)] + Bit(y.s.recycleWanted)
            + Bit(y.s.connDone && !y.s.appClosed) == 1
  {
    ReachableOwing(y);
  }
}
