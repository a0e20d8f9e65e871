/** What the steps of a stream struct's life leave alone: the ids its lifetimes were given,
    the pool, and its place in the registry. */
module StreamFrames {
  import opened StreamLifecycle
  import opened StreamRuns

  /** What a stream's place in the registry depends on is as it was. */
  predicate SamePlace(y: Sys, z: Sys) {
    z.registered == y.registered && z.s.inflightDone == y.s.inflightDone && z.s.gen == y.s.gen
  }

  predicate Kept(y: Sys, z: Sys) {
    z.idOf == y.idOf && z.pool == y.pool && SamePlace(y, z)
  }

  /** The slot is back, and the registry still holds the stream. */
  predicate Stuck(y: Sys) {
    y.registered && y.s.inflightDone
  }

  /** The same, or the stream has left the registry with its slot. */
  predicate KeptOrLeft(y: Sys, z: Sys) {
    z.idOf == y.idOf && z.pool == y.pool && (SamePlace(y, z) || (!Stuck(y) && !z.registered))
  }

  lemma EmitHeadersFrame(y: Sys, gen: nat, end: bool, id: nat)
    ensures var assigns := y.s.id == 0;
      Kept(y.(idOf := if assigns then y.idOf[y.s.gen := id] else y.idOf, registered := y.registered || assigns),
           RunEmitHeaders(y, gen, end, id))
  {
  }

  lemma EmitDataFrame(y: Sys, gen: nat, end: bool, last: bool)
    ensures Kept(y, RunEmitData(y, gen, end, last))
  {
  }

  lemma SendEndsFrame(y: Sys, gen: nat, end: bool, id: nat)
    ensures Kept(y, RunStop(y, gen, end)) && Kept(y, RunEndLocal(y, gen)) && Kept(y, RunRetire(y, gen, id))
  {
  }

  lemma OtherSendFrame(y: Sys, a: SendAction)
    requires SendEnabled(y, a) && !a.EmitHeaders?
    ensures Kept(y, SendStep(y, a))
  {
    match a
    case HeadersDoor(gen, end) =>
    case DataDoor(gen, end) =>
    case EmitData(gen, end, last) => EmitDataFrame(y, gen, end, last);
    case SendStops(gen, end) => SendEndsFrame(y, gen, end, 0);
    case EndsLocal(gen) => SendEndsFrame(y, gen, true, 0);
    case Retires(gen, id) => SendEndsFrame(y, gen, true, id);
  }

  lemma SendFrame(y: Sys, a: SendAction)
    requires SendEnabled(y, a)
    ensures var assigns := a.EmitHeaders? && y.s.id == 0;
      Kept(y.(idOf := if assigns then y.idOf[y.s.gen := a.id] else y.idOf, registered := y.registered || assigns),
           SendStep(y, a))
  {
    if a.EmitHeaders? {
      EmitHeadersFrame(y, a.gen, a.end, a.id);
      assert SendStep(y, a) == RunEmitHeaders(y, a.gen, a.end, a.id);
    } else {
      OtherSendFrame(y, a);
      assert y.(idOf := y.idOf, registered := y.registered) == y;
    }
  }

  lemma CloseFrame(y: Sys, gen: nat)
    ensures Kept(y, RunClose(y, gen)) && Kept(y, RunCancel(y, gen)) && Kept(y, RunRecvEnter(y, gen))
  {
  }

  lemma RecvLeaveFrame(y: Sys, gen: nat)
    ensures var z := RunRecvLeave(y, gen);
      z.idOf == y.idOf && if LastOut(y.s) then z.pool == y.pool + 1 else Kept(y, z)
  {
  }

  lemma HandleFrame(y: Sys, a: HandleAction)
    requires HandleEnabled(y, a)
    ensures HandleStep(y, a).idOf == y.idOf
    ensures HandleStep(y, a).pool > y.pool ==> a.RecvLeaves? && LastOut(y.s)
    ensures (a.RecvLeaves? && LastOut(y.s)) || SamePlace(y, HandleStep(y, a))
  {
    match a
    case Alloc =>
    case AppCloses(gen) => CloseFrame(y, gen);
    case CancelReadsId(gen) => CloseFrame(y, gen);
    case RecvEnters(gen) => CloseFrame(y, gen);
    case RecvTakes(gen) =>
    case RecvLeaves(gen) => RecvLeaveFrame(y, gen);
  }

  lemma DeliverFrame(y: Sys, id: nat, block: bool, end: bool, empty: bool, final: bool)
    ensures Kept(y, RunDeliver(y, id, block, end, empty, final))
  {
  }

  lemma LookUpFrame(y: Sys, id: nat, rst: bool)
    ensures Kept(y, RunTearDown(y, id, rst)) && Kept(y, RunLookUp(y, id)) && Kept(y, RunDeath(y))
  {
  }

  lemma ReadFrame(y: Sys, a: ReadAction)
    requires ReadEnabled(y, a)
    ensures Kept(y, ReadStep(y, a))
  {
    match a
    case Delivers(end, empty, final) => DeliverFrame(y, y.reader.f.id, y.reader.block, end, empty, final);
    case TearsDown => LookUpFrame(y, y.reader.id, y.reader.rst);
    case LooksUp => LookUpFrame(y, y.reader.id, false);
    case Dies => LookUpFrame(y, 0, false);
    case _ =>
  }

  lemma ReleaseFrame(y: Sys, done: Task, id: nat)
    ensures KeptOrLeft(y, RunRelease(y, done, id)) && KeptOrLeft(y, RunMark(y, id))
  {
  }

  lemma OverflowFrame(y: Sys, gen: nat)
    ensures RunOverflow(y, gen).idOf == y.idOf && RunOverflow(y, gen).pool == y.pool
    ensures (y.registered ==> y.s.id != 0) ==> KeptOrLeft(y, RunOverflow(y, gen))
  {
    ReleaseFrame(y.(wire := y.wire + [(gen, y.s.id)]), Overflowing(gen), y.s.id);
  }

  lemma FinishFrame(y: Sys, gen: nat)
    ensures Kept(y, RunFinish(y, gen)) && RunRecycle(y, gen).idOf == y.idOf
  {
  }

  lemma ConnFrame(y: Sys, a: ConnAction)
    requires ConnEnabled(y, a)
    ensures ConnStep(y, a).idOf == if a.AllocPushed? then y.idOf[y.s.gen := a.id] else y.idOf
    ensures ConnStep(y, a).pool > y.pool ==> a.PutsBack?
    ensures (y.registered ==> y.s.id != 0) && !a.ReleasesUnassigned? && !a.AllocPushed? && !a.PutsBack? ==>
      KeptOrLeft(y, ConnStep(y, a))
  {
    match a
    case AllocPushed(id) =>
    case Marks(id) => ReleaseFrame(y, Resetting(id), id);
    case Finishes(gen) => FinishFrame(y, gen);
    case PutsBack(gen) => FinishFrame(y, gen);
    case ReleasesUnassigned(gen) =>
    case ReleasesSlot(id) => ReleaseFrame(y, Resetting(id), id);
    case OverflowResets(gen) => OverflowFrame(y, gen);
  }
}
