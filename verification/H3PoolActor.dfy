/** The HTTP/3 pool's actor: the handlers as they run, proved against H3Pool. */
module H3PoolActor {
  import opened FixedWidth
  import opened Basics
  import opened PoolReplies
  import opened H3Pool

  class Actor {
    const maxConns: nat
    const perConn: Positive
    var conns: seq<Conn>
    var waiters: seq<nat>
    var dials: int
    var cursor: nat
    var replies: seq<Reply>
    ghost var holders: multiset<nat>

    ghost function View(): Pool
      reads this
    {
      Pool(maxConns, perConn, conns, waiters, dials, cursor, replies, holders)
    }

    constructor (max: nat, streams: Positive)
      ensures View() == Pool(max, streams, [], [], 0, 0, [], multiset{})
    {
      maxConns, perConn, conns, waiters, dials, cursor, replies := max, streams, [], [], 0, 0, [];
      holders := multiset{};
    }

    method PickLeastLoaded() returns (r: int)
      modifies this`cursor
      ensures r == Pick(conns, old(cursor))
      ensures cursor == NextCursor(conns, old(cursor))
    {
      var n := |conns|;
      if n == 0 {
        return -1;
      }
      var start := cursor % n;
      var best := -1;
      var k := 0;
      while k < n
        invariant k <= n && -1 <= best < n && cursor == old(cursor)
        invariant best >= 0 ==> conns[best].active != 0
        invariant Scan(conns, start, k, best) == Pick(conns, cursor)
      {
        var i := At(n, start, k);
        var c := conns[i];
        if c.alive && !c.goingAway && c.active < c.cap {
          if c.active == 0 {
            cursor := (start + k + 1) % n;
            WrapsTheSame(start, k, n);
            return i;
          }
          if best < 0 || c.active < conns[best].active {
            best := i;
          }
        }
        k := k + 1;
      }
      return best;
    }

    method NumLive() returns (n: nat)
      ensures n == CountLive(conns)
    {
      n := 0;
      for i := 0 to |conns|
        invariant n == CountLive(conns[..i])
      {
        assert conns[..i + 1][..i] == conns[..i];
        if conns[i].alive && !conns[i].goingAway {
          n := n + 1;
        }
      }
      assert conns[..|conns|] == conns;
    }

    method SpareStreamCapacity() returns (n: nat)
      ensures n == Spare(conns)
    {
      n := 0;
      for i := 0 to |conns|
        invariant n == Spare(conns[..i])
      {
        assert conns[..i + 1][..i] == conns[..i];
        var c := conns[i];
        if c.alive && !c.goingAway {
          var spare := c.cap - c.active;
          if spare > 0 {
            n := n + spare;
          }
        }
      }
      assert conns[..|conns|] == conns;
    }

    /** Commits the picked connection to a request. */
    method Commit(i: nat, req: nat)
      requires i < |conns|
      modifies this`conns, this`replies, this`holders
      ensures conns == old(conns)[i := old(conns)[i].(active := old(conns)[i].active + 1)]
      ensures replies == old(replies) + [Granted(req, conns[i].id)] && holders == old(holders) + multiset{conns[i].id}
    {
      var c := conns[i];
      conns := conns[i := c.(active := c.active + 1)];
      replies := replies + [Granted(req, c.id)];
      holders := holders + multiset{c.id};
    }

    method Serve()
      modifies this`conns, this`waiters, this`cursor, this`replies, this`holders
      ensures View() == ServeWaiters(old(View()))
    {
      while |waiters| > 0
        invariant ServeWaiters(View()) == ServeWaiters(old(View()))
        decreases |waiters|
      {
        ghost var p := View();
        var i := PickLeastLoaded();
        if i < 0 {
          assert View() == p;
          return;
        }
        var req := waiters[0];
        waiters := waiters[1..];
        Commit(i, req);
        assert View() == Grant(p.(waiters := p.waiters[1..]), req);
      }
    }

    method EnsureDials(backoff: bool)
      modifies this`dials
      ensures View() == DialForWaiters(old(View()), backoff)
    {
      if |waiters| == 0 || backoff {
        return;
      }
      var live := NumLive();
      var room := maxConns - live - dials;
      if room <= 0 {
        return;
      }
      var spare := SpareStreamCapacity();
      var uncovered := |waiters| - spare - dials * perConn;
      if uncovered <= 0 {
        return;
      }
      var need := (uncovered + perConn - 1) / perConn;
      var n := Min(need, room);
      while n > 0
        invariant dials + (if n > 0 then n else 0) == old(dials) + Min(need, room) || Min(need, room) <= 0
        invariant Min(need, room) <= 0 ==> dials == old(dials)
      {
        dials, n := dials + 1, n - 1;
      }
    }

    method RefuseWaiters(reason: Reason)
      modifies this`waiters, this`replies
      ensures View() == RefuseAll(old(View()), reason)
    {
      var k := 0;
      while k < |waiters|
        invariant k <= |waiters| && waiters == old(waiters)
        invariant AllRefused(replies, waiters[k..], reason) == AllRefused(old(replies), waiters, reason)
      {
        assert waiters[k..][1..] == waiters[k + 1..];
        replies := replies + [Refused(waiters[k], reason)];
        k := k + 1;
      }
      waiters := [];
    }

    method FlushStranded(backoff: bool, reason: Reason)
      modifies this`waiters, this`replies
      ensures View() == FlushStrandedWaiters(old(View()), backoff, reason)
    {
      if |waiters| == 0 || dials > 0 {
        return;
      }
      var live := NumLive();
      if live > 0 || !backoff {
        return;
      }
      RefuseWaiters(reason);
    }

    method AcquireOne(req: nat, backoff: bool)
      modifies this
      ensures View() == HandleAcquire(old(View()), req, backoff)
    {
      ghost var p := View();
      var i := PickLeastLoaded();
      if i >= 0 {
        Commit(i, req);
        assert View() == Grant(p, req);
        return;
      }
      var live := NumLive();
      if live + dials < maxConns && !backoff {
        dials := dials + 1;
        waiters := waiters + [req];
      } else if backoff && live == 0 && dials == 0 {
        replies := replies + [Refused(req, DialBackoff)];
      } else {
        waiters := waiters + [req];
      }
    }

    method Evict(k: Criterion)
      modifies this`conns
      ensures conns == Keep(old(conns), k)
    {
      var out := [];
      for i := 0 to |conns|
        invariant conns == old(conns) && out == Keep(conns[..i], k)
      {
        assert conns[..i + 1][..i] == conns[..i];
        if !Evicts(k, conns[i]) {
          out := out + [conns[i]];
        }
      }
      assert conns[..|conns|] == conns;
      conns := out;
    }

    method ReleaseOne(id: nat, clock: Clock)
      modifies this
      ensures View() == HandleRelease(old(View()), id, clock)
    {
      ghost var p := View();
      conns := ChangeIn(conns, Leaves(id));
      holders := holders - multiset{id};
      Evict(Released(id));
      assert View() == p.(conns := conns, holders := holders);
      Serve();
      EnsureDials(clock.atDial);
      FlushStranded(clock.atFlush, DialBackoff);
    }

    method DialSucceeded(c: Conn, backoff: bool)
      modifies this
      ensures View() == HandleDialOk(old(View()), c, backoff)
    {
      dials := dials - 1;
      conns := conns + [c.(cap := perConn)];
      Serve();
      EnsureDials(backoff);
    }

    method DialFailed(clock: Clock)
      modifies this
      ensures View() == HandleDialError(old(View()), clock)
    {
      dials := dials - 1;
      if |waiters| > 0 {
        replies := replies + [Refused(waiters[0], Reason.DialError)];
        waiters := waiters[1..];
      }
      EnsureDials(clock.atDial);
      FlushStranded(clock.atFlush, Reason.DialError);
    }

    method PruneExpired(gone: set<nat>)
      modifies this`waiters, this`replies
      ensures waiters == Prune(old(waiters), gone)
      ensures replies == PruneReplies(old(replies), old(waiters), gone)
    {
      var out, left := [], waiters;
      while |left| > 0
        invariant waiters == old(waiters) && out + Prune(left, gone) == Prune(waiters, gone)
        invariant PruneReplies(replies, left, gone) == PruneReplies(old(replies), waiters, gone)
      {
        if left[0] in gone {
          replies := replies + [Refused(left[0], ContextDone)];
        } else {
          out := out + [left[0]];
        }
        left := left[1..];
      }
      waiters := out;
    }

    method TickOnce(idle: set<nat>, gone: set<nat>, clock: Clock)
      modifies this
      ensures View() == HandleTick(old(View()), idle, gone, clock)
    {
      Evict(AllRetired);
      Evict(Idle(idle));
      PruneExpired(gone);
      EnsureDials(clock.atDial);
      FlushStranded(clock.atFlush, DialBackoff);
    }

    method Close()
      modifies this
      ensures View() == HandleClose(old(View()))
    {
      RefuseWaiters(PoolClosed);
      dials := 0;
    }

    method WarmUp(n: nat, backoff: bool)
      modifies this`dials
      ensures View() == HandleWarmup(old(View()), n, backoff)
    {
      var target := n;
      if target > maxConns {
        target := maxConns;
      }
      var live := NumLive();
      var need := target - live - dials;
      if need <= 0 || backoff {
        return;
      }
      for i := 0 to need
        invariant dials == old(dials) + i
      {
        dials := dials + 1;
      }
    }
  }

  lemma WrapsTheSame(start: nat, k: nat, n: nat)
    requires n > 0
    ensures (start + k + 1) % n == (At(n, start, k) + 1) % n
  {
    OneMore(start + k, n);
  }

  /** Counting on by one, before or after the remainder is taken. */
  lemma OneMore(x: nat, n: nat)
    requires n > 0
    ensures (x + 1) % n == (x % n + 1) % n
  {
    var q, r := x / n, x % n;
    assert x == q * n + r;
    if r + 1 == n {
      MulSum(q, 1, n);
      QuotientIs(x + 1, n, q + 1, 0);
      QuotientIs(r + 1, n, 1, 0);
    } else {
      QuotientIs(x + 1, n, q, r + 1);
      QuotientIs(r + 1, n, 0, r + 1);
    }
  }
}
