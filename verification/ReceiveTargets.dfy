/** When a receive window, with the bytes owed to it, stays within its target: always on the
    connection, and on streams exactly until a struct brings more than there is room for. */
module ReceiveTargets {
  import opened FixedWidth
  import opened ReceiveWindows
  import opened ReceiveProtocol

  // ---------------------------------------------------------------- the connection

  /** Frames are no longer than their header can say. */
  predicate Framed(n: Net) {
    && (forall k | 0 <= k < |n.inbound| :: n.inbound[k].Data? ==> n.inbound[k].length <= MAX_FRAME)
    && (n.reader.Checking? || n.reader.Charging? ==> n.reader.length <= MAX_FRAME)
  }

  /** The connection window with what it needs to stay within its target. */
  predicate ConnRoom(sc: Scope, target: nat) {
    0 <= sc.window && sc.pending < CONN_THRESHOLD && Within(sc, target)
  }

  ghost predicate ConnFine(n: Net) {
    && ValidTargets(n.us) && Framed(n)
    && (n.flowErrors == 0 ==> ConnRoom(n.us.conn, n.us.connTarget))
  }

  lemma ConnDebit(sc: Scope, target: nat, length: nat)
    requires CONN_INITIAL <= target <= MAX_WINDOW && length <= MAX_FRAME && ConnRoom(sc, target)
    ensures var d := Debit(sc, CONN_THRESHOLD, target, length);
      && (d.Accepted? <==> length <= sc.window)
      && (d.Accepted? ==> ConnRoom(d.scope, target))
      && (d.Accepted? && d.refund != 0 ==> sc.pending + length <= d.refund)
  {
  }

  lemma AckTargets(w: Windows)
    requires ValidTargets(w)
    ensures ValidTargets(OnAck(w)) && w.connTarget <= OnAck(w).connTarget && w.streamTarget <= OnAck(w).streamTarget
    ensures OnAck(w).conn == w.conn && OnAck(w).streams == w.streams && OnAck(w).initial == w.initial
  {
  }

  lemma DataConn(n: Net, id: nat, length: nat, malformed: bool)
    requires ConnFine(n) && n.reader.Idle? && length <= MAX_FRAME
    ensures ConnFine(ReceiveData(n, id, length, malformed))
  {
    if n.flowErrors == 0 {
      ConnDebit(n.us.conn, n.us.connTarget, length);
    }
  }

  lemma ReceiveConn(n: Net, malformed: bool, acceptPush: bool, pending: nat)
    requires ConnFine(n) && Enabled(n, ClientReceives(malformed, acceptPush, pending))
    ensures ConnFine(Step(n, ClientReceives(malformed, acceptPush, pending)))
  {
    var m := n.(inbound := n.inbound[1..]);
    match n.inbound[0]
    case Data(id, length, _) => DataConn(m, id, length, malformed);
    case Promise(_) =>
    case ProbeAck => AckTargets(n.us);
  }

  lemma CheckConn(n: Net)
    requires ConnFine(n) && n.reader.Checking?
    ensures ConnFine(RunCheck(n))
  {
    if n.flowErrors == 0 {
      ConnDebit(n.us.conn, n.us.connTarget, n.reader.length);
    }
  }

  /** What a late charge does to the connection's side. */
  lemma ChargeSide(n: Net)
    requires Enabled(n, LateCharges)
    ensures var m, d := RunCharge(n), Debit(n.us.conn, CONN_THRESHOLD, n.us.connTarget, n.reader.length);
      && m.us == n.us.(conn := d.scope, streams := m.us.streams, tuner := m.us.tuner)
      && (m.us.tuner == n.us.tuner || m.us.tuner == TunerOnData(n.us.tuner, n.reader.length).0)
      && m.inbound == n.inbound && (m.reader.Idle? || m.reader.Refunding?)
      && n.flowErrors <= m.flowErrors && (d.Overrun? ==> n.flowErrors < m.flowErrors)
  {
  }

  lemma ChargeConn(n: Net)
    requires ConnFine(n) && Enabled(n, LateCharges)
    ensures ConnFine(RunCharge(n))
  {
    ChargeSide(n);
    TunerStays(n.us.tuner, n.reader.length);
    if n.flowErrors == 0 {
      ConnDebit(n.us.conn, n.us.connTarget, n.reader.length);
    }
  }

  lemma OtherLateConn(n: Net, a: Action)
    requires ConnFine(n) && Enabled(n, a) && OfLate(a) && !a.LateChecks? && !a.LateCharges?
    ensures ConnFine(Step(n, a))
  {
  }

  lemma PeerConn(n: Net, a: Action)
    requires ConnFine(n) && Enabled(n, a) && OfPeer(a)
    ensures ConnFine(Step(n, a))
  {
  }

  lemma ClientConn(n: Net, a: Action)
    requires ConnFine(n) && Enabled(n, a) && !OfPeer(a) && !OfLate(a) && !a.ClientReceives?
    ensures ConnFine(Step(n, a))
  {
  }

  lemma StepConn(n: Net, a: Action)
    requires ConnFine(n) && Enabled(n, a)
    ensures ConnFine(Step(n, a))
  {
    if OfPeer(a) {
      PeerConn(n, a);
    } else if a.LateChecks? {
      CheckConn(n);
    } else if a.LateCharges? {
      ChargeConn(n);
    } else if OfLate(a) {
      OtherLateConn(n, a);
    } else if a.ClientReceives? {
      ReceiveConn(n, a.malformed, a.acceptPush, a.pending);
    } else {
      ClientConn(n, a);
    }
  }

  lemma {:induction false} RunConn(n: Net, run: seq<Action>)
    requires ConnFine(n) && IsRun(n, run)
    ensures ConnFine(After(n, run))
    decreases |run|
  {
    if run != [] {
      StepConn(n, run[0]);
      RunConn(Step(n, run[0]), run[1..]);
    }
  }

  /** In every run at all, until the first error, the connection window with the bytes owed to
      it is within its target, and a refund gives back at least all that was spent. There is
      no error if no late charge does harm, and none with a punctual peer. */
  lemma ConnStaysWithinTarget(o: Options, run: seq<Action>, length: nat)
    requires 1 <= o.initialWindow <= MAX_WINDOW && length <= MAX_FRAME
    requires IsRun(Initial(o), run)
    ensures var n := After(Initial(o), run);
      n.flowErrors == 0 ==>
        && Within(n.us.conn, n.us.connTarget)
        && var d := Debit(n.us.conn, CONN_THRESHOLD, n.us.connTarget, length);
           d.Accepted? && d.refund != 0 ==> n.us.conn.pending + length <= d.refund
    ensures AllHarmless(Initial(o), run) ==> After(Initial(o), run).flowErrors == 0
    ensures Punctual(Initial(o), run) ==> AllHarmless(Initial(o), run)
  {
    StartIsValid(o);
    RunConn(Initial(o), run);
    var n := After(Initial(o), run);
    if n.flowErrors == 0 {
      ConnDebit(n.us.conn, n.us.connTarget, length);
    }
    if AllHarmless(Initial(o), run) {
      NoFlowControlError(o, run);
    }
    if Punctual(Initial(o), run) {
      PunctualIsHarmless(Initial(o), run);
    }
  }

  // -------------------------------------------------------------------- every window

  /** The bound on the connection, on every registered stream and on every request that has
      no id yet. */
  ghost predicate AllWithin(n: Net) {
    && Within(n.us.conn, n.us.connTarget)
    && (forall id :: id in n.us.streams ==> Within(n.us.streams[id], n.us.streamTarget))
    && (forall req :: req in n.unnamed ==> Within(n.unnamed[req], n.us.streamTarget))
  }

  /** A struct is allocated that owes more than there is room for above the advertised window. */
  predicate BringsTooMuch(n: Net, a: Action)
    requires Enabled(n, a)
  {
    match a
    case ClientAllocs(pending) => n.us.initial + pending > n.us.streamTarget
    case ClientReceives(_, acceptPush, pending) =>
      n.inbound[0].Promise? && acceptPush && n.us.initial + pending > n.us.streamTarget
    case Reallocs => n.us.initial + n.reader.at.scope.pending > n.us.streamTarget
    case _ => false
  }

  /** Windows come from where they were within, and the targets have not fallen. */
  lemma KeptWithin(n: Net, m: Net)
    requires AllWithin(n) && Within(m.us.conn, m.us.connTarget)
    requires n.us.streamTarget <= m.us.streamTarget
    requires forall id :: id in m.us.streams ==> id in n.us.streams && m.us.streams[id] == n.us.streams[id]
    requires forall req :: req in m.unnamed ==> req in n.unnamed && m.unnamed[req] == n.unnamed[req]
    ensures AllWithin(m)
  {
  }

  lemma DataWithin(n: Net, malformed: bool)
    requires Inv(n) && AllWithin(n) && n.reader.Idle? && n.inbound != [] && n.inbound[0].Data?
    ensures AllWithin(ReceiveData(n.(inbound := n.inbound[1..]), n.inbound[0].id, n.inbound[0].length, malformed))
  {
    var f := n.inbound[0];
    DebitIsBalanced(n.us.conn, CONN_INITIAL, CONN_THRESHOLD, n.us.connTarget, f.length);
    DataFits(n);
    if f.id in n.us.streams {
      assert StreamBalanced(n.us, f.id);
      StreamThresholdRefundable(n.us.initial, n.us.streamTarget);
      DebitIsBalanced(n.us.streams[f.id], n.us.initial, Threshold(n), n.us.streamTarget, f.length);
    }
  }

  lemma ReceiveWithin(n: Net, malformed: bool, acceptPush: bool, pending: nat)
    requires Inv(n) && AllWithin(n) && Enabled(n, ClientReceives(malformed, acceptPush, pending))
    ensures var a := ClientReceives(malformed, acceptPush, pending);
      AllWithin(Step(n, a)) <==> !BringsTooMuch(n, a)
  {
    match n.inbound[0]
    case Data(_, _, _) => DataWithin(n, malformed);
    case Promise(id) =>
      if acceptPush {
        var m := Step(n, ClientReceives(malformed, acceptPush, pending));
        assert m.us.streams[id] == Scope(n.us.initial, pending);
      }
    case ProbeAck =>
      AckKeepsValid(n.us);
      KeptWithin(n, n.(inbound := n.inbound[1..], us := OnAck(n.us)));
  }

  lemma AllocatedWithin(n: Net, pending: nat)
    requires Inv(n) && AllWithin(n)
    ensures AllWithin(Allocated(n, pending)) <==> n.us.initial + pending <= n.us.streamTarget
  {
    var m := Allocated(n, pending);
    assert m.unnamed[n.nextReq] == Scope(n.us.initial, pending);
    forall req | req in n.unnamed ensures m.unnamed[req] == n.unnamed[req] {
    }
  }

  lemma OpenWithin(n: Net, req: nat)
    requires AllWithin(n) && req in n.unnamed
    ensures AllWithin(RunOpen(n, req))
  {
  }

  lemma ChargeWithin(n: Net)
    requires Inv(n) && AllWithin(n) && Enabled(n, LateCharges) && Harmless(n)
    ensures AllWithin(RunCharge(n))
  {
    HarmlessIs(n);
    KeptWithin(n, RunCharge(n));
  }

  lemma CheckWithin(n: Net)
    requires Inv(n) && AllWithin(n) && n.reader.Checking?
    ensures AllWithin(RunCheck(n))
  {
    DebitIsBalanced(n.us.conn, CONN_INITIAL, CONN_THRESHOLD, n.us.connTarget, n.reader.length);
    KeptWithin(n, RunCheck(n));
  }

  lemma LateWithin(n: Net, a: Action)
    requires Inv(n) && AllWithin(n) && Enabled(n, a) && OfLate(a) && (a.LateCharges? ==> Harmless(n))
    ensures AllWithin(Step(n, a)) <==> !BringsTooMuch(n, a)
  {
    match a
    case ClientFinds => KeptWithin(n, Step(n, a));
    case Recycles => KeptWithin(n, RunRecycle(n));
    case Reallocs => AllocatedWithin(n, n.reader.at.scope.pending);
    case LateChecks => CheckWithin(n);
    case LateCharges => ChargeWithin(n);
    case LateRefunds => KeptWithin(n, RunRefund(n));
    case LateBlames => KeptWithin(n, RunBlame(n));
  }

  lemma PeerWithin(n: Net, a: Action)
    requires AllWithin(n) && Enabled(n, a) && OfPeer(a)
    ensures AllWithin(Step(n, a))
  {
  }

  lemma ClientWithin(n: Net, a: Action)
    requires Inv(n) && AllWithin(n) && Enabled(n, a) && !OfPeer(a) && !OfLate(a)
    ensures AllWithin(Step(n, a)) <==> !BringsTooMuch(n, a)
  {
    match a
    case ClientAllocs(pending) =>
      PoolInv(n, n.pool - multiset{pending});
      AllocatedWithin(n.(pool := n.pool - multiset{pending}), pending);
    case ClientOpens(req) => OpenWithin(n, req);
    case ClientDrops(req) => KeptWithin(n, RunDrop(n, req));
    case ClientEvicts(id, rst) => KeptWithin(n, Evict(n, id, rst));
    case ClientReceives(malformed, acceptPush, pending) => ReceiveWithin(n, malformed, acceptPush, pending);
    case ProbeWriteFails => KeptWithin(n, Step(n, a));
  }

  /** From a state in which every window is within its target, a step leaves it so exactly
      when it does not allocate a struct that owes too much. */
  lemma WithinExactlyUnlessBrought(n: Net, a: Action)
    requires Inv(n) && AllWithin(n) && Enabled(n, a) && (a.LateCharges? ==> Harmless(n))
    ensures AllWithin(Step(n, a)) <==> !BringsTooMuch(n, a)
  {
    if OfPeer(a) {
      PeerWithin(n, a);
    } else if OfLate(a) {
      LateWithin(n, a);
    } else {
      ClientWithin(n, a);
    }
  }

  ghost predicate WithinThroughout(n: Net, run: seq<Action>)
    requires IsRun(n, run)
    decreases |run|
  {
    AllWithin(n) && (run == [] || WithinThroughout(Step(n, run[0]), run[1..]))
  }

  predicate NeverBringsTooMuch(n: Net, run: seq<Action>)
    requires IsRun(n, run)
    decreases |run|
  {
    run == [] || (!BringsTooMuch(n, run[0]) && NeverBringsTooMuch(Step(n, run[0]), run[1..]))
  }

  lemma {:induction false} RunWithin(n: Net, run: seq<Action>)
    requires Inv(n) && AllWithin(n) && IsRun(n, run) && AllHarmless(n, run)
    ensures WithinThroughout(n, run) <==> NeverBringsTooMuch(n, run)
    decreases |run|
  {
    if run != [] {
      WithinExactlyUnlessBrought(n, run[0]);
      if !BringsTooMuch(n, run[0]) {
        StepInv(n, run[0]);
        RunWithin(Step(n, run[0]), run[1..]);
      }
    }
  }

  lemma InitialWithin(o: Options)
    requires 1 <= o.initialWindow <= MAX_WINDOW
    ensures Inv(Initial(o)) && AllWithin(Initial(o))
  {
    InitialInv(o);
  }

  /** Over every run in which late charges do no harm: every window, with the bytes owed to
      it, is within its target throughout exactly when no struct is allocated that owes more
      than there is room for. */
  lemma WindowsWithinTargetsExactlyWhen(o: Options, run: seq<Action>)
    requires 1 <= o.initialWindow <= MAX_WINDOW
    requires IsRun(Initial(o), run) && AllHarmless(Initial(o), run)
    ensures WithinThroughout(Initial(o), run) <==> NeverBringsTooMuch(Initial(o), run)
  {
    InitialWithin(o);
    RunWithin(Initial(o), run);
  }

  // ------------------------------------------------------------------ punctual peers

  lemma NothingOwed(n: Net, a: Action)
    requires NothingLate(n) && n.pool == multiset{} && Enabled(n, a)
    ensures Step(n, a).pool == multiset{}
  {
  }

  lemma {:induction false} PunctualBringsNothing(n: Net, run: seq<Action>)
    requires Inv(n) && NothingLate(n) && n.pool == multiset{} && IsRun(n, run) && Punctual(n, run)
    ensures NeverBringsTooMuch(n, run)
    decreases |run|
  {
    if run != [] {
      PunctualStep(n, run[0]);
      NothingOwed(n, run[0]);
      StepInv(n, run[0]);
      PunctualBringsNothing(Step(n, run[0]), run[1..]);
    }
  }

  /** With a peer that sends no DATA on a stream it has ended, every window with the bytes
      owed to it is within its target throughout every run. */
  lemma PunctualWindowsWithinTargets(o: Options, run: seq<Action>)
    requires 1 <= o.initialWindow <= MAX_WINDOW
    requires IsRun(Initial(o), run) && Punctual(Initial(o), run)
    ensures WithinThroughout(Initial(o), run)
  {
    InitialWithin(o);
    PunctualIsHarmless(Initial(o), run);
    PunctualBringsNothing(Initial(o), run);
    RunWithin(Initial(o), run);
  }
}
