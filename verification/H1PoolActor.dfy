/** The pool actor itself: the run state the handlers mutate, with their loops. Each method
    is proved to move the state exactly as H1Pool prescribes. */
module H1PoolActor {
  import opened FixedWidth
  import opened PoolReplies
  import opened H1Pool

  class Actor {
    const maxConnsPerHost: nat
    var conns: seq<Conn>
    var waiters: seq<nat>
    var inFlightDials: int
    var sweeping: bool
    var replies: seq<Reply>
    ghost var holders: multiset<nat>

    ghost function View(): Pool
      reads this
    {
      Pool(maxConnsPerHost, conns, waiters, inFlightDials, sweeping, replies, holders)
    }

    constructor (maxConnsPerHost: int)
      ensures View() == Pool(if maxConnsPerHost <= 0 then 1 else maxConnsPerHost, [], [], 0, false, [], multiset{})
    {
      this.maxConnsPerHost := if maxConnsPerHost <= 0 then 1 else maxConnsPerHost;
      conns, waiters, inFlightDials, sweeping, replies := [], [], 0, false, [];
      holders := multiset{};
    }

    // ------------------------------------------------------------- queries

    method PickIdle() returns (i: nat)
      ensures i == FirstIdle(conns)
    {
      i := 0;
      while i < |conns|
        invariant i <= |conns|
        invariant forall j :: 0 <= j < i ==> !Idle(conns[j])
      {
        if conns[i].alive && conns[i].active < 1 && !conns[i].probing {
          return;
        }
        i := i + 1;
      }
    }

    method CountConns(t: Tally) returns (n: nat)
      ensures n == Count(conns, t)
    {
      n := 0;
      for i := 0 to |conns|
        invariant n == Count(conns[..i], t)
      {
        assert conns[..i + 1][..i] == conns[..i];
        if Counts(t, conns[i]) {
          n := n + 1;
        }
      }
      assert conns[..|conns|] == conns;
    }

    // -------------------------------------------------------------- replies

    method ReplyConn(req: nat, i: nat)
      requires i < |conns|
      modifies this`conns, this`replies, this`holders
      ensures View() == Grant(old(View()), req, i)
    {
      conns := conns[i := conns[i].(active := conns[i].active + 1)];
      replies := replies + [Granted(req, conns[i].id)];
      holders := holders + multiset{conns[i].id};
    }

    method ReplyError(req: nat, reason: Reason)
      modifies this`replies
      ensures View() == Refuse(old(View()), req, reason)
    {
      replies := replies + [Refused(req, reason)];
    }

    method Serve()
      modifies this
      ensures View() == ServeWaiters(old(View()))
    {
      while |waiters| > 0
        invariant ServeWaiters(View()) == ServeWaiters(old(View()))
        decreases |waiters|
      {
        var i := PickIdle();
        if i == |conns| {
          return;
        }
        var req := waiters[0];
        waiters := waiters[1..];
        ReplyConn(req, i);
      }
    }

    method RefuseWaiters(reason: Reason)
      modifies this`replies, this`waiters
      ensures View() == RefuseAll(old(View()), reason)
    {
      var k := 0;
      while k < |waiters|
        invariant k <= |waiters| && waiters == old(waiters)
        invariant RefuseAll(View().(waiters := waiters[k..]), reason) == RefuseAll(old(View()), reason)
      {
        assert waiters[k..][1..] == waiters[k + 1..];
        ReplyError(waiters[k], reason);
        k := k + 1;
      }
      waiters := [];
    }

    method PruneExpiredWaiters(gone: set<nat>)
      modifies this`replies, this`waiters
      ensures View() == PruneFrom(old(View()), gone, [])
    {
      var kept := [];
      var k := 0;
      while k < |waiters|
        invariant k <= |waiters| && waiters == old(waiters)
        invariant PruneFrom(View().(waiters := waiters[k..]), gone, kept) == PruneFrom(old(View()), gone, [])
      {
        assert waiters[k..][1..] == waiters[k + 1..];
        if waiters[k] in gone {
          ReplyError(waiters[k], ContextDone);
        } else {
          kept := kept + [waiters[k]];
        }
        k := k + 1;
      }
      waiters := kept;
    }

    // ------------------------------------------------------------- evictions

    method EvictUnless(k: Criterion)
      modifies this`conns
      ensures conns == KeepIf(old(conns), k)
    {
      var out := [];
      for i := 0 to |conns|
        invariant out == KeepIf(conns[..i], k)
      {
        assert conns[..i + 1][..i] == conns[..i];
        if Keeps(k, conns[i]) {
          out := out + [conns[i]];
        }
      }
      assert conns[..|conns|] == conns;
      conns := out;
    }

    // -------------------------------------------------------------- dialling

    method EnsureDial(backoff: bool)
      modifies this`inFlightDials
      ensures View() == EnsureDialForWaiters(old(View()), backoff)
    {
      if backoff {
        return;
      }
      var reserved := CountConns(ReservedIdle);
      var live := CountConns(Live);
      var n := Min(|waiters| - reserved - inFlightDials, maxConnsPerHost - live - inFlightDials);
      while n > 0
        invariant n > 0 ==> inFlightDials + n == old(inFlightDials + Min(Uncovered(View()), Room(View())))
        invariant n <= 0 ==> View() == EnsureDialForWaiters(old(View()), backoff)
      {
        inFlightDials := inFlightDials + 1;
        n := n - 1;
      }
    }

    method FlushStranded(backoff: bool, reason: Reason)
      modifies this`replies, this`waiters
      ensures View() == FlushStrandedWaiters(old(View()), backoff, reason)
    {
      if |waiters| == 0 || inFlightDials > 0 {
        return;
      }
      var live := CountConns(Live);
      if live > 0 || !backoff {
        return;
      }
      RefuseWaiters(reason);
    }

    // -------------------------------------------------------------- handlers

    method Acquire(req: nat, backoff: bool)
      modifies this
      ensures View() == HandleAcquire(old(View()), req, backoff)
    {
      var i := PickIdle();
      if i < |conns| {
        ReplyConn(req, i);
        return;
      }
      var reserved := CountConns(ReservedIdle);
      if |waiters| < reserved {
        waiters := waiters + [req];
        return;
      }
      var live := CountConns(Live);
      if live + inFlightDials < maxConnsPerHost && !backoff {
        inFlightDials := inFlightDials + 1;
        waiters := waiters + [req];
        return;
      }
      if backoff && live == 0 && inFlightDials == 0 {
        ReplyError(req, DialBackoff);
        return;
      }
      waiters := waiters + [req];
    }

    method Find(id: nat) returns (i: nat)
      ensures i == IndexOf(conns, id)
    {
      i := 0;
      while i < |conns| && conns[i].id != id
        invariant i <= |conns|
        invariant forall j :: 0 <= j < i ==> conns[j].id != id
      {
        i := i + 1;
      }
    }

    method TakeBack(id: nat, keepAlive: bool)
      modifies this`conns, this`holders
      ensures View() == Returned(old(View()), id, keepAlive)
    {
      var i := Find(id);
      if i < |conns| {
        LowerAndEvict(i, keepAlive);
      }
      holders := holders - multiset{id};
    }

    method LowerAndEvict(i: nat, keepAlive: bool)
      requires i < |conns|
      modifies this`conns
      ensures var c := old(conns)[i].(active := old(conns)[i].active - 1);
        conns == if keepAlive && c.alive then old(conns)[i := c] else KeepIf(old(conns)[i := c], NotConn(c.id))
    {
      var c := conns[i].(active := conns[i].active - 1);
      conns := conns[i := c];
      if !keepAlive || !c.alive {
        EvictUnless(NotConn(c.id));
      }
    }

    method Release(id: nat, keepAlive: bool, clock: Clock)
      modifies this
      ensures View() == HandleRelease(old(View()), id, keepAlive, clock)
    {
      TakeBack(id, keepAlive);
      Serve();
      EnsureDial(clock.atDial);
      FlushStranded(clock.atFlush, DialBackoff);
    }

    method DialSucceeded(id: nat, backoff: bool)
      modifies this
      ensures View() == HandleDialOk(old(View()), id, backoff)
    {
      inFlightDials := inFlightDials - 1;
      conns := conns + [Conn(id, true, 0, false)];
      Serve();
      EnsureDial(backoff);
    }

    method DialFailed(clock: Clock)
      modifies this
      ensures View() == HandleDialError(old(View()), clock)
    {
      inFlightDials := inFlightDials - 1;
      var n := |waiters|;
      var reserved := CountConns(ReservedIdle);
      if n > reserved {
        var req := waiters[n - 1];
        waiters := waiters[..n - 1];
        ReplyError(req, DialError);
      }
      EnsureDial(clock.atDial);
      FlushStranded(clock.atFlush, DialError);
    }

    /** Returns the connections handed to the sweep goroutine. */
    method StartSweep() returns (cands: set<nat>)
      modifies this`conns, this`sweeping
      ensures View() == StartHealthSweep(old(View()))
      ensures cands == if old(sweeping) then {} else Candidates(old(conns))
    {
      cands := {};
      if sweeping {
        return;
      }
      var out := [];
      for i := 0 to |conns|
        invariant out == Reserve(conns[..i])
        invariant cands == Candidates(conns[..i])
      {
        assert conns[..i + 1] == conns[..i] + [conns[i]];
        assert Candidates(conns[..i + 1]) ==
               Candidates(conns[..i]) + if conns[i].active == 0 then {conns[i].id} else {} by {
          assert forall j :: 0 <= j < i ==> conns[..i][j] == conns[..i + 1][j];
        }
        if conns[i].active == 0 {
          out := out + [conns[i].(probing := true)];
          cands := cands + {conns[i].id};
        } else {
          out := out + [conns[i]];
        }
      }
      assert conns[..|conns|] == conns;
      conns := out;
      sweeping := cands != {};
    }

    method Tick(expired: set<nat>, gone: set<nat>, clock: Clock) returns (cands: set<nat>)
      modifies this
      ensures View() == HandleTick(old(View()), expired, gone, clock)
      ensures !old(sweeping) ==>
                cands == Candidates(KeepIf(KeepIf(old(conns), NotExpired(expired)), Alive))
    {
      EvictUnless(NotExpired(expired));
      EvictUnless(Criterion.Alive);
      cands := StartSweep();
      PruneExpiredWaiters(gone);
      EnsureDial(clock.atDial);
      FlushStranded(clock.atFlush, DialBackoff);
    }

    method ReportStats() returns (activeConns: nat, queued: nat)
      modifies this`conns
      ensures View() == HandleStats(old(View()))
      ensures activeConns == |conns| && queued == |waiters|
    {
      EvictUnless(Criterion.Alive);
      activeConns, queued := |conns|, |waiters|;
    }

    method ClearReservations(probed: set<nat>)
      modifies this`conns, this`sweeping
      ensures conns == Unreserve(old(conns), probed) && !sweeping
    {
      sweeping := false;
      var out := [];
      for i := 0 to |conns|
        invariant out == Unreserve(conns[..i], probed)
        invariant conns == old(conns)
      {
        assert conns[..i + 1][..i] == conns[..i];
        out := out + [if conns[i].id in probed then conns[i].(probing := false) else conns[i]];
      }
      assert conns[..|conns|] == conns;
      conns := out;
    }

    method SweepFinished(probed: set<nat>, dead: seq<nat>, clock: Clock)
      modifies this
      ensures View() == HandleSweepDone(old(View()), probed, dead, clock)
    {
      ClearReservations(probed);
      var k := 0;
      while k < |dead|
        invariant k <= |dead|
        invariant View() == old(View()).(sweeping := false, conns := conns)
        invariant EvictAll(conns, dead[k..]) == EvictAll(Unreserve(old(conns), probed), dead)
      {
        assert dead[k..][1..] == dead[k + 1..];
        EvictUnless(NotConn(dead[k]));
        k := k + 1;
      }
      Serve();
      EnsureDial(clock.atDial);
      FlushStranded(clock.atFlush, DialBackoff);
    }

    method Close()
      modifies this
      ensures View() == HandleClose(old(View()))
    {
      RefuseWaiters(PoolClosed);
      inFlightDials := 0;
    }
  }
}
