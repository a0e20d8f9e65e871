/** Runs in which the charge for DATA that came after the peer's END_STREAM falls on a
    struct that serves the next request by then, or is about to, for every size of window
    and frame. */
module LateData {
  import opened FixedWidth
  import opened ReceiveWindows
  import opened ReceiveProtocol
  import opened ReceiveTargets

  /** Where the first step of a run leads, and that any run may go on from there. */
  lemma RunHead(n: Net, a: seq<Action>, b: seq<Action>) returns (m: Net)
    requires a != [] && IsRun(n, a)
    ensures IsRun(m, a[1..]) && After(n, a) == After(m, a[1..])
    ensures IsRun(m, a[1..] + b) ==> IsRun(n, a + b) && After(n, a + b) == After(m, a[1..] + b)
    ensures AllHarmless(n, a) ==> AllHarmless(m, a[1..])
    ensures IsRun(m, a[1..] + b) && AllHarmless(n, a) && AllHarmless(m, a[1..] + b) ==> AllHarmless(n, a + b)
  {
    m := Step(n, a[0]);
    assert (a + b)[1..] == a[1..] + b && (a + b)[0] == a[0];
  }

  lemma {:induction false} RunConcat(n: Net, a: seq<Action>, b: seq<Action>)
    requires IsRun(n, a) && IsRun(After(n, a), b)
    ensures IsRun(n, a + b) && After(n, a + b) == After(After(n, a), b)
    ensures AllHarmless(n, a) && AllHarmless(After(n, a), b) ==> AllHarmless(n, a + b)
    decreases |a|
  {
    if a == [] {
      assert a + b == b;
    } else {
      var m := RunHead(n, a, b);
      RunConcat(m, a[1..], b);
    }
  }

  lemma RunOne(n: Net, a: Action)
    requires Enabled(n, a)
    ensures IsRun(n, [a]) && After(n, [a]) == Step(n, a)
  {
    assert [a][1..] == [];
  }

  /** A run can be extended by a step. */
  lemma RunMore(n: Net, a: seq<Action>, x: Action)
    requires IsRun(n, a) && Enabled(After(n, a), x)
    ensures IsRun(n, a + [x]) && After(n, a + [x]) == Step(After(n, a), x)
  {
    RunOne(After(n, a), x);
    RunConcat(n, a, [x]);
  }

  predicate Plain(o: Options) {
    2 <= o.initialWindow < CONN_THRESHOLD && !o.autoTune
  }

  const OPENS := [ClientAllocs(0), ClientOpens(0)] + [PeerReceives]

  function Opened(o: Options): Net {
    var w := o.initialWindow;
    Initial(o).(us := Start(o).(streams := map[1 := Scope(w, 0)]), nextId := 3, nextReq := 1,
                peerStreams := map[1 := w])
  }

  lemma Opens(o: Options)
    requires Plain(o)
    ensures IsRun(Initial(o), OPENS) && After(Initial(o), OPENS) == Opened(o)
  {
    var n := Initial(o);
    var n1 := n.(unnamed := map[0 := Scope(o.initialWindow, 0)], nextReq := 1);
    assert Step(n, ClientAllocs(0)) == n1;
    var n2 := Opened(o).(peerStreams := map[], outbound := [Headers(1)]);
    assert n1.unnamed - {0} == map[];
    assert Step(n1, ClientOpens(0)) == n2;
    assert n2.outbound[1..] == [];
    assert Step(n2, PeerReceives) == Opened(o);
    RunOne(n, ClientAllocs(0));
    RunMore(n, [ClientAllocs(0)], ClientOpens(0));
    assert [ClientAllocs(0)] + [ClientOpens(0)] == [ClientAllocs(0), ClientOpens(0)];
    RunMore(n, [ClientAllocs(0), ClientOpens(0)], PeerReceives);
  }

  const RECYCLES := [ClientEvicts(1, false), Recycles, Reallocs]

  /** The peer ends stream 1 and sends `late` bytes more, which the reader looks up. */
  function Sends(late: nat): seq<Action> {
    [PeerEnds(1), PeerSends(1, late, false)] + [ClientFinds]
  }

  function Found(o: Options, late: nat): Net {
    Opened(o).(peerConn := CONN_INITIAL - late, peerStreams := map[1 := o.initialWindow - late], peerEnded := {1},
               reader := Checking(1, late, Named(1)))
  }

  lemma Finds(o: Options, late: nat)
    requires Plain(o) && 1 <= late <= o.initialWindow
    ensures IsRun(Opened(o), Sends(late)) && After(Opened(o), Sends(late)) == Found(o, late)
  {
    var n := Opened(o);
    var n1 := n.(peerEnded := {1});
    assert Step(n, PeerEnds(1)) == n1;
    var n2 := Found(o, late).(reader := Idle, inbound := [Data(1, late, true)]);
    assert Step(n1, PeerSends(1, late, false)) == n2;
    assert n2.inbound[1..] == [];
    assert Step(n2, ClientFinds) == Found(o, late);
    RunOne(n, PeerEnds(1));
    RunMore(n, [PeerEnds(1)], PeerSends(1, late, false));
    assert [PeerEnds(1)] + [PeerSends(1, late, false)] == [PeerEnds(1), PeerSends(1, late, false)];
    RunMore(n, [PeerEnds(1), PeerSends(1, late, false)], ClientFinds);
  }

  /** The struct serves the next request, which has no id yet. */
  function Reused(o: Options, late: nat): Net {
    Found(o, late).(us := Start(o), unnamed := map[1 := Scope(o.initialWindow, 0)], nextReq := 2,
                    reader := Checking(1, late, Waiting(1)))
  }

  lemma Reuses(o: Options, late: nat)
    requires Plain(o) && 1 <= late <= o.initialWindow
    ensures IsRun(Found(o, late), RECYCLES) && After(Found(o, late), RECYCLES) == Reused(o, late)
  {
    var n, w := Found(o, late), o.initialWindow;
    var n1 := n.(us := Start(o), reader := Checking(1, late, Evicted(1, Scope(w, 0))));
    assert n.us.streams - {1} == map[];
    assert n.outbound + [] == [];
    assert Step(n, ClientEvicts(1, false)) == n1;
    var n2 := n1.(reader := Checking(1, late, Pooled(Scope(w, 0))));
    assert Step(n1, Recycles) == n2;
    assert Step(n2, Reallocs) == Reused(o, late);
    RunOne(n, ClientEvicts(1, false));
    RunMore(n, [ClientEvicts(1, false)], Recycles);
    assert [ClientEvicts(1, false)] + [Recycles] == [ClientEvicts(1, false), Recycles];
    RunMore(n, [ClientEvicts(1, false), Recycles], Reallocs);
    assert [ClientEvicts(1, false), Recycles] + [Reallocs] == RECYCLES;
  }

  /** The charge falls on the next request: it is short, or it is owed an increment. */
  function Charged(o: Options, late: nat): Net {
    var w := o.initialWindow;
    var short := late < StreamRefundThreshold(w);
    Reused(o, late).(
      us := Start(o).(conn := Scope(CONN_INITIAL - late, late)),
      unnamed := map[1 := if short then Scope(w - late, late) else Scope(w, 0)],
      reader := Refunding(1, Waiting(1), if short then 0 else late, 0, false))
  }

  lemma Charges(o: Options, late: nat)
    requires Plain(o) && 1 <= late <= o.initialWindow
    ensures IsRun(Reused(o, late), [LateChecks, LateCharges])
    ensures After(Reused(o, late), [LateChecks, LateCharges]) == Charged(o, late)
  {
    var n, w := Reused(o, late), o.initialWindow;
    var n1 := n.(reader := Charging(1, late, Waiting(1)));
    assert Step(n, LateChecks) == n1;
    assert n1.unnamed[1] == Scope(w, 0);
    assert Debit(n1.us.conn, CONN_THRESHOLD, n1.us.connTarget, late) == Accepted(Scope(CONN_INITIAL - late, late), 0);
    DebitIsBalanced(n1.unnamed[1], w, Threshold(n1), w, late);
    assert Step(n1, LateCharges) == Charged(o, late);
    RunOne(n, LateChecks);
    RunMore(n, [LateChecks], LateCharges);
    assert [LateChecks] + [LateCharges] == [LateChecks, LateCharges];
  }

  /** The run up to the charge. */
  function Landing(late: nat): seq<Action> {
    OPENS + (Sends(late) + (RECYCLES + [LateChecks, LateCharges]))
  }

  lemma Lands(o: Options, late: nat)
    requires Plain(o) && 1 <= late <= o.initialWindow
    ensures IsRun(Initial(o), Landing(late)) && After(Initial(o), Landing(late)) == Charged(o, late)
  {
    Charges(o, late);
    Reuses(o, late);
    RunConcat(Found(o, late), RECYCLES, [LateChecks, LateCharges]);
    Finds(o, late);
    RunConcat(Opened(o), Sends(late), RECYCLES + [LateChecks, LateCharges]);
    Opens(o);
    RunConcat(Initial(o), OPENS, Sends(late) + (RECYCLES + [LateChecks, LateCharges]));
  }

  /** Late DATA at or above the refund threshold, on a struct that serves the next request
      but has no id yet: the increment is written for the connection. */
  lemma LateDataCreditsTheConnection(o: Options, late: nat)
    requires Plain(o) && StreamRefundThreshold(o.initialWindow) <= late <= o.initialWindow
    ensures IsRun(Initial(o), Landing(late) + [LateRefunds])
    ensures var n := After(Initial(o), Landing(late) + [LateRefunds]);
      n.outbound == [Credit(Update(0, late))] && !ConnAgrees(n)
  {
    Lands(o, late);
    var n := Charged(o, late);
    RunMore(Initial(o), Landing(late), LateRefunds);
    RefundAgreesExactlyWhen(n);
  }

  /** The stream error names no stream, so the next request goes on with a short window. */
  function Short(o: Options, late: nat): Net {
    var w := o.initialWindow;
    Charged(o, late).(
      us := Start(o).(conn := Scope(CONN_INITIAL - late, late), streams := map[3 := Scope(w - late, late)]),
      unnamed := map[], nextId := 5, peerStreams := map[1 := w - late, 3 := w], reader := Idle)
  }

  const GOES_ON := [LateRefunds, LateBlames] + [ClientOpens(1), PeerReceives]

  lemma Blames(o: Options, late: nat)
    requires Plain(o) && 1 <= late < StreamRefundThreshold(o.initialWindow)
    ensures IsRun(Charged(o, late), [LateRefunds, LateBlames])
    ensures After(Charged(o, late), [LateRefunds, LateBlames]) == Charged(o, late).(reader := Idle)
  {
    var n := Charged(o, late);
    var n1 := n.(reader := Blaming(1, Waiting(1)));
    assert Refund(0, 0) + Refund(0, 0) == [];
    assert n.outbound + Credits([]) + [] == [];
    assert Step(n, LateRefunds) == n1;
    assert Step(n1, LateBlames) == n.(reader := Idle);
    RunOne(n, LateRefunds);
    RunMore(n, [LateRefunds], LateBlames);
    assert [LateRefunds] + [LateBlames] == [LateRefunds, LateBlames];
  }

  lemma GoesOn(o: Options, late: nat)
    requires Plain(o) && 1 <= late < StreamRefundThreshold(o.initialWindow)
    ensures IsRun(Charged(o, late), GOES_ON) && After(Charged(o, late), GOES_ON) == Short(o, late)
  {
    Blames(o, late);
    var n := Charged(o, late).(reader := Idle);
    var n1 := Short(o, late).(peerStreams := n.peerStreams, outbound := [Headers(3)]);
    assert n.unnamed - {1} == map[];
    assert Step(n, ClientOpens(1)) == n1;
    assert n1.outbound[1..] == [];
    assert Step(n1, PeerReceives) == Short(o, late);
    RunOne(n, ClientOpens(1));
    RunMore(n, [ClientOpens(1)], PeerReceives);
    assert [ClientOpens(1)] + [PeerReceives] == [ClientOpens(1), PeerReceives];
    RunConcat(Charged(o, late), [LateRefunds, LateBlames], [ClientOpens(1), PeerReceives]);
  }

  /** The peer sends on stream 3 all that it may. */
  function Spends(o: Options): seq<Action> {
    [PeerSends(3, o.initialWindow, false), ClientReceives(false, false, 0)]
  }

  lemma Overruns(o: Options, late: nat)
    requires Plain(o) && 1 <= late < StreamRefundThreshold(o.initialWindow)
    ensures IsRun(Short(o, late), Spends(o))
    ensures var n := After(Short(o, late), Spends(o)); n.flowErrors == 1 && Reset(3) in n.outbound
  {
    var n, w := Short(o, late), o.initialWindow;
    var n1 := Step(n, PeerSends(3, w, false));
    assert n1.inbound == [Data(3, w, false)];
    var d := Debit(n1.us.conn, CONN_THRESHOLD, n1.us.connTarget, w);
    assert d.Accepted?;
    assert Debit(n1.us.streams[3], Threshold(n1), n1.us.streamTarget, w).Overrun?;
    RunOne(n, PeerSends(3, w, false));
    RunMore(n, [PeerSends(3, w, false)], ClientReceives(false, false, 0));
    assert [PeerSends(3, w, false)] + [ClientReceives(false, false, 0)] == Spends(o);
  }

  /** Late DATA below the refund threshold, on a struct that serves the next request but has
      no id yet. That request is not reset: it goes on with a window that is short by as
      much, and a peer that then sends what it may is told FLOW_CONTROL_ERROR. */
  lemma LateDataShortensTheNext(o: Options, late: nat)
    requires Plain(o) && 1 <= late < StreamRefundThreshold(o.initialWindow)
    ensures var run := Landing(late) + (GOES_ON + Spends(o));
      && IsRun(Initial(o), run)
      && After(Initial(o), run).flowErrors == 1 && Reset(3) in After(Initial(o), run).outbound
  {
    Lands(o, late);
    GoesOn(o, late);
    Overruns(o, late);
    RunConcat(Charged(o, late), GOES_ON, Spends(o));
    RunConcat(Initial(o), Landing(late), GOES_ON + Spends(o));
  }

  // ------------------------------------------------- late DATA on a struct in the pool

  /** Without a charge there is no harm. */
  lemma {:induction false} UnchargedIsHarmless(n: Net, run: seq<Action>)
    requires IsRun(n, run) && forall i :: 0 <= i < |run| ==> !run[i].LateCharges?
    ensures AllHarmless(n, run)
    decreases |run|
  {
    if run != [] {
      UnchargedIsHarmless(Step(n, run[0]), run[1..]);
    }
  }

  const POOLS := [ClientEvicts(1, false), Recycles, LateChecks]

  function InPool(o: Options, late: nat): Net {
    Found(o, late).(us := Start(o), reader := Charging(1, late, Pooled(Scope(o.initialWindow, 0))))
  }

  lemma Pools(o: Options, late: nat)
    requires Plain(o) && 1 <= late <= o.initialWindow
    ensures IsRun(Found(o, late), POOLS) && After(Found(o, late), POOLS) == InPool(o, late)
  {
    var n, w := Found(o, late), o.initialWindow;
    var n1 := n.(us := Start(o), reader := Checking(1, late, Evicted(1, Scope(w, 0))));
    assert n.us.streams - {1} == map[];
    assert n.outbound + [] == [];
    assert Step(n, ClientEvicts(1, false)) == n1;
    var n2 := n1.(reader := Checking(1, late, Pooled(Scope(w, 0))));
    assert Step(n1, Recycles) == n2;
    assert Step(n2, LateChecks) == InPool(o, late);
    RunOne(n, ClientEvicts(1, false));
    RunMore(n, [ClientEvicts(1, false)], Recycles);
    assert [ClientEvicts(1, false)] + [Recycles] == [ClientEvicts(1, false), Recycles];
    RunMore(n, [ClientEvicts(1, false), Recycles], LateChecks);
    assert [ClientEvicts(1, false), Recycles] + [LateChecks] == POOLS;
  }

  /** The next request starts at the advertised window and owes the late bytes. */
  lemma Brings(o: Options, late: nat)
    requires Plain(o) && 1 <= late < StreamRefundThreshold(o.initialWindow)
    ensures var n := InPool(o, late);
      && IsRun(n, [LateCharges, Reallocs]) && AllHarmless(n, [LateCharges, Reallocs])
      && After(n, [LateCharges, Reallocs]).unnamed == map[1 := Scope(o.initialWindow, late)]
      && After(n, [LateCharges, Reallocs]).us.streamTarget == o.initialWindow
  {
    var n, w := InPool(o, late), o.initialWindow;
    assert Debit(n.us.conn, CONN_THRESHOLD, n.us.connTarget, late) == Accepted(Scope(CONN_INITIAL - late, late), 0);
    assert Debit(Scope(w, 0), Threshold(n), w, late) == Accepted(Scope(w - late, late), 0);
    var n1 := n.(us := n.us.(conn := Scope(CONN_INITIAL - late, late)),
                 reader := Refunding(1, Pooled(Scope(w - late, late)), 0, 0, false));
    assert Step(n, LateCharges) == n1;
    var n2 := Step(n1, Reallocs);
    assert n2.unnamed == map[1 := Scope(w, late)];
    assert [LateCharges, Reallocs][1..] == [Reallocs] && [Reallocs][1..] == [];
    RunOne(n1, Reallocs);
  }

  /** The run up to the charge of a struct in the pool. */
  function Pooling(late: nat): seq<Action> {
    OPENS + (Sends(late) + POOLS)
  }

  lemma PoolsFromTheStart(o: Options, late: nat)
    requires Plain(o) && 1 <= late <= o.initialWindow
    ensures IsRun(Initial(o), Pooling(late)) && After(Initial(o), Pooling(late)) == InPool(o, late)
  {
    Pools(o, late);
    Finds(o, late);
    RunConcat(Opened(o), Sends(late), POOLS);
    Opens(o);
    RunConcat(Initial(o), OPENS, Sends(late) + POOLS);
  }

  /** Late DATA below the refund threshold, charged to a struct in the pool, does no harm. But
      allocating the struct sets its window and leaves what it owes, so the next request,
      with the bytes owed to it, is above its target. */
  lemma LateDataExceedsTheTarget(o: Options, late: nat)
    requires Plain(o) && 1 <= late < StreamRefundThreshold(o.initialWindow)
    ensures var run := Pooling(late) + [LateCharges, Reallocs];
      && IsRun(Initial(o), run) && AllHarmless(Initial(o), run)
      && var n := After(Initial(o), run);
         n.unnamed == map[1 := Scope(o.initialWindow, late)] && !AllWithin(n)
  {
    PoolsFromTheStart(o, late);
    Brings(o, late);
    UnchargedIsHarmless(Initial(o), Pooling(late));
    RunConcat(Initial(o), Pooling(late), [LateCharges, Reallocs]);
    var n := After(Initial(o), Pooling(late) + [LateCharges, Reallocs]);
    assert 1 in n.unnamed && !Within(n.unnamed[1], n.us.streamTarget);
  }
}
