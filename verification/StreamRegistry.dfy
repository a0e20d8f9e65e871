/** Streams that the registry never lets go of: when that happens, exactly, and that it is
    for good. */
module StreamRegistry {
  import opened StreamLifecycle
  import opened StreamRuns
  import opened StreamInvariant
  import opened StreamFrames
  import opened StreamIsolation

  predicate Assigning(y: Sys, a: Action) {
    a.Sender? && a.send.EmitHeaders? && y.s.id == 0
  }

  lemma LastOutPlace(y: Sys, gen: nat)
    requires Inv(y) && Receiving(gen) in y.tasks && LastOut(y.s)
    ensures !y.registered && !RunRecvLeave(y, gen).registered
  {
    assert Tokens(y) == 1;
  }

  lemma RecyclePlace(y: Sys, gen: nat)
    requires Inv(y) && Recycling(gen) in y.tasks
    ensures !y.registered && !RunRecycle(y, gen).registered
  {
    assert TaskOk(y, Recycling(gen));
    assert Tokens(y) == 1;
  }

  lemma NoRightToRecycle(y: Sys)
    requires Inv(y) && y.registered
    ensures y.pool == 0 && !y.s.recycleWanted && forall gen :: Recycling(gen) !in y.tasks
  {
    assert Tokens(y) == 0;
    forall gen ensures Recycling(gen) !in y.tasks {
      assert Recycling(gen) in y.tasks ==> TaskOk(y, Recycling(gen));
    }
  }

  // ------------------------------------------------------------- main results

  /** Exactly when it happens: Close found no id, and releases the slot of a stream that a
      HEADERS send has registered since; or such a send registers a stream whose slot has
      been released already. */
  lemma StuckExactlyWhen(y: Sys, a: Action)
    requires Reachable(y, true) && Enabled(y, a) && Conformant(y, a) && !Stuck(y)
    ensures Stuck(Step(y, a)) <==>
      || (a.Keeper? && a.work.ReleasesUnassigned? && y.registered)
      || (Assigning(y, a) && y.s.inflightDone)
  {
    ReachableInv(y);
    match a
    case Sender(b) => SendFrame(y, b);
    case Holder(b) =>
      if b.RecvLeaves? && LastOut(y.s) {
        LastOutPlace(y, b.gen);
      } else {
        HandleFrame(y, b);
      }
    case Keeper(b) =>
      if b.PutsBack? {
        RecyclePlace(y, b.gen);
      } else if !b.ReleasesUnassigned? && !b.AllocPushed? {
        ConnFrame(y, b);
      }
    case Net(b) => ReadFrame(y, b);
  }

  /** Once it has, nothing evicts the stream or recycles its struct. */
  lemma StuckStays(y: Sys, a: Action)
    requires Reachable(y, true) && Enabled(y, a) && Conformant(y, a) && Stuck(y)
    ensures Stuck(Step(y, a)) && Step(y, a).s.gen == y.s.gen
  {
    ReachableInv(y);
    NoRightToRecycle(y);
    match a
    case Sender(b) => SendFrame(y, b);
    case Holder(b) => HandleFrame(y, b);
    case Keeper(b) =>
      if !b.ReleasesUnassigned? {
        ConnFrame(y, b);
      }
    case Net(b) => ReadFrame(y, b);
  }

  /** It does happen: Close abandons a request whose HEADERS send is past its door, reads
      id 0, and releases the slot after the send has assigned an id and registered it. */
  lemma StreamCanStick()
    ensures exists y :: Reachable(y, true) && Stuck(y)
  {
    AtTheDoor(false, true);
    var y0 := Sys(OPEN.(id := 0), true, false, 0, multiset{Heading(1, false)}, Away, map[],
                  [], [], [], [], [], {}, false, false);
    var closed := OPEN.(id := 0, closed := true, appClosed := true, released := true);
    var y1 := Sys(closed, true, false, 0, multiset{Heading(1, false), Cancelling(1)}, Away, map[],
                  [], [], [], [], [], {1}, false, false);
    assert RunClose(y0, 1).tasks == y1.tasks;
    Move(y0, Holder(AppCloses(1)), y1, true);
    var y2 := y1.(tasks := multiset{Heading(1, false), Unassigned(1)});
    assert RunCancel(y1, 1).tasks == y2.tasks;
    Move(y1, Holder(CancelReadsId(1)), y2, true);
    var y3 := Sys(closed.(id := 1), true, true, 0, multiset{Unassigned(1)}, Away, map[1 := 1],
                  [(1, 1)], [], [], [], [], {1}, false, false);
    assert RunEmitHeaders(y2, 1, false, 1).tasks == y3.tasks;
    assert RunEmitHeaders(y2, 1, false, 1).wire == y3.wire;
    Move(y2, Sender(EmitHeaders(1, false, 1)), y3, true);
    StepReachable(y3, Keeper(ReleasesUnassigned(1)), true);
    assert Stuck(Step(y3, Keeper(ReleasesUnassigned(1))));
  }
}
