/** What each handler of the HTTP/3 pool decides, said of the pool before and after it. */
module H3PoolOutcomes {
  import opened FixedWidth
  import opened PoolReplies
  import opened H3Pool
  import opened H3PoolRuns

  // ------------------------------------------------------------------- picking

  /** A connection takes another stream exactly while it is alive, has not been told to go
      away and has a slot left; and only while none does is nothing picked. */
  lemma NothingPickedExactlyWhenFull(conns: seq<Conn>, cursor: nat)
    requires NonNegative(conns)
    ensures Pick(conns, cursor) < 0 <==>
      forall j :: 0 <= j < |conns| ==> !conns[j].alive || conns[j].goingAway || conns[j].active >= conns[j].cap
  {
    PickIsLeastLoaded(conns, cursor);
  }

  /** The best so far came first among those as little loaded. */
  ghost predicate FirstBest(conns: seq<Conn>, start: nat, k: nat, best: int)
    requires conns != [] && -1 <= best < |conns|
  {
    if best < 0 then forall m :: 0 <= m < k ==> !Selectable(conns[At(|conns|, start, m)])
    else exists m :: FoundAt(conns, start, k, best, m)
  }

  predicate FoundAt(conns: seq<Conn>, start: nat, k: nat, best: nat, m: nat)
    requires conns != [] && best < |conns|
  {
    && m < k && At(|conns|, start, m) == best
    && forall l :: 0 <= l < m && Selectable(conns[At(|conns|, start, l)]) ==>
         conns[best].active < conns[At(|conns|, start, l)].active
  }

  lemma {:induction false} ScanFindsFirst(conns: seq<Conn>, start: nat, k: nat, best: int)
    requires conns != [] && k <= |conns| && -1 <= best < |conns| && NonNegative(conns)
    requires BestOf(conns, start, k, best) && FirstBest(conns, start, k, best) && (best >= 0 ==> conns[best].active > 0)
    ensures FirstBest(conns, start, |conns|, Scan(conns, start, k, best))
    decreases |conns| - k
  {
    if k < |conns| {
      var i := At(|conns|, start, k);
      if best >= 0 {
        var m: nat :| FoundAt(conns, start, k, best, m);
        assert FoundAt(conns, start, k + 1, best, m);
      }
      if !Selectable(conns[i]) {
        ScanFindsFirst(conns, start, k + 1, best);
      } else if conns[i].active == 0 {
        assert FoundAt(conns, start, |conns|, i, k);
      } else if Better(conns, i, best) {
        assert FoundAt(conns, start, k + 1, i, k);
        ScanFindsFirst(conns, start, k + 1, i);
      } else {
        ScanFindsFirst(conns, start, k + 1, best);
      }
    }
  }

  /** Of the least loaded the one picked is the first from the cursor on, round the pool; and
      the pick of an idle one moves the cursor right behind it, so that idle connections take
      turns. Any other pick leaves the cursor. */
  lemma PicksTakeTurns(p: Pool, req: nat)
    requires NonNegative(p.conns) && Pick(p.conns, p.cursor) >= 0
    ensures var i, n := Pick(p.conns, p.cursor), |p.conns|;
      && (exists m: nat :: FoundAt(p.conns, p.cursor % n, n, i, m))
      && Grant(p, req).cursor == if p.conns[i].active == 0 then (i + 1) % n else p.cursor
  {
    ScanFindsFirst(p.conns, p.cursor % |p.conns|, 0, -1);
  }

  // ------------------------------------------------------------------ counting

  /** What counts against the budget, and the slots that are left on it, connection by
      connection: neither a dead one nor one told to go away is any of it. */
  lemma {:induction false} CountsAre(a: seq<Conn>, b: seq<Conn>)
    ensures CountLive(a + b) == CountLive(a) + CountLive(b) && Spare(a + b) == Spare(a) + Spare(b)
    ensures forall c :: CountLive([c]) == Bit(c.alive && !c.goingAway)
    ensures forall c :: Spare([c]) == if c.alive && !c.goingAway && c.active < c.cap then c.cap - c.active else 0
    decreases |b|
  {
    forall c ensures CountLive([c]) == Bit(c.alive && !c.goingAway)
      ensures Spare([c]) == if c.alive && !c.goingAway && c.active < c.cap then c.cap - c.active else 0
    {
      assert [c][..0] == [];
    }
    if b == [] {
      assert a + b == a;
    } else {
      assert (a + b)[..|a + b| - 1] == a + b[..|b| - 1];
      CountsAre(a, b[..|b| - 1]);
    }
  }

  // ------------------------------------------------------------------ dialling

  predicate Covered(p: Pool) {
    |p.waiters| <= Spare(p.conns) + p.dials * p.perConn || p.maxConns <= CountLive(p.conns) + p.dials
  }

  lemma SizedOrNot(p: Pool, backoff: bool)
    requires p.dials >= 0 && CountLive(p.conns) + p.dials <= p.maxConns
    ensures var q := DialForWaiters(p, backoff);
      && q == p.(dials := q.dials) && p.dials <= q.dials
      && (backoff ==> q.dials == p.dials) && (!backoff ==> Covered(q))
  {
    DialsAreSized(p);
  }

  predicate Hopeless(p: Pool, backoff: bool) {
    backoff && p.dials <= 0 && CountLive(p.conns) == 0
  }

  /** Everyone who waits is refused, for the reason given, if and only if there is nothing
      that could ever serve them; and else nobody is. */
  lemma StrandedRefusedExactlyWhen(p: Pool, backoff: bool, reason: Reason)
    ensures FlushStrandedWaiters(p, backoff, reason) ==
      if Hopeless(p, backoff) then p.(waiters := [], replies := p.replies + Refusals(p.waiters, reason)) else p
  {
    AllRefusedIs(p.replies, p.waiters, reason);
    assert p.waiters == [] ==> p.replies + Refusals([], reason) == p.replies;
  }

  lemma DialOrFlushIs(p: Pool, clock: Clock, reason: Reason)
    requires p.dials >= 0 && CountLive(p.conns) + p.dials <= p.maxConns
    ensures var q := DialOrFlush(p, clock, reason);
      && q == p.(dials := q.dials, waiters := q.waiters, replies := q.replies) && p.dials <= q.dials
      && (!clock.atDial ==> Covered(q))
      && (if Hopeless(q, clock.atFlush)
          then q.waiters == [] && q.replies == p.replies + Refusals(p.waiters, reason)
          else q.waiters == p.waiters && q.replies == p.replies)
  {
    SizedOrNot(p, clock.atDial);
    StrandedRefusedExactlyWhen(DialForWaiters(p, clock.atDial), clock.atFlush, reason);
    if !clock.atDial && DialOrFlush(p, clock, reason).waiters == [] {
      SpareIsNat(p);
    }
  }

  lemma SpareIsNat(p: Pool)
    requires p.dials >= 0
    ensures 0 <= Spare(p.conns) + p.dials * p.perConn
  {
    assert p.dials * p.perConn >= 0;
  }

  // ------------------------------------------------------------------ serving

  predicate GrantTo(r: Reply, req: nat) {
    r.Granted? && r.req == req
  }

  /** Connections go to the waiters in front, in their order, until nothing can be picked or
      nobody is left. */
  lemma {:induction false} ServeIs(p: Pool)
    ensures var q := ServeWaiters(p);
      var k := |p.waiters| - |q.waiters|;
      && 0 <= k && q.waiters == p.waiters[k..] && (q.waiters == [] || Pick(q.conns, q.cursor) < 0)
      && |q.replies| == |p.replies| + k && p.replies <= q.replies
      && (forall i :: 0 <= i < k ==> GrantTo(q.replies[|p.replies| + i], p.waiters[i]))
      && q.dials == p.dials && q.maxConns == p.maxConns && q.perConn == p.perConn
    decreases |p.waiters|
  {
    if p.waiters != [] && Pick(p.conns, p.cursor) >= 0 {
      var r := Grant(p.(waiters := p.waiters[1..]), p.waiters[0]);
      ServeIs(r);
      var q := ServeWaiters(p);
      assert q == ServeWaiters(r);
      assert q.replies[|p.replies|] == r.replies[|p.replies|];
      var k := |p.waiters| - |q.waiters|;
      forall j | 0 <= j < k ensures GrantTo(q.replies[|p.replies| + j], p.waiters[j]) {
        assert j > 0 ==> GrantTo(q.replies[|r.replies| + (j - 1)], r.waiters[j - 1]);
      }
    }
  }

  // ------------------------------------------------------------------ the handlers

  /** A request that finds a slot has it at once. With none it is refused if and only if
      nothing could ever serve it; and otherwise queued at the back, with a dial if and only
      if there is room and the backoff is over. */
  lemma AcquireDecides(p: Pool, req: nat, backoff: bool)
    requires p.dials >= 0
    ensures var q, i := HandleAcquire(p, req, backoff), Pick(p.conns, p.cursor);
      if i >= 0 then
        && q.replies == p.replies + [Granted(req, p.conns[i].id)] && q.waiters == p.waiters && q.dials == p.dials
        && q.conns == p.conns[i := p.conns[i].(active := p.conns[i].active + 1)]
      else if Hopeless(p, backoff) then
        q == p.(replies := p.replies + [Refused(req, DialBackoff)])
      else
        q == p.(waiters := p.waiters + [req],
                dials := p.dials + Bit(!backoff && CountLive(p.conns) + p.dials < p.maxConns))
  {
  }

  lemma {:induction false} KeepIs(conns: seq<Conn>, k: Criterion)
    ensures forall c :: c in Keep(conns, k) <==> c in conns && !Evicts(k, c)
  {
    if conns != [] {
      var n := |conns| - 1;
      KeepIs(conns[..n], k);
      assert conns == conns[..n] + [conns[n]];
    }
  }

  /** The connection that is released has one caller less, and leaves the pool if and only if
      it is dead, or was told to go away and has drained. The others stay as they are. */
  lemma ReleaseDecides(p: Pool, id: nat)
    ensures var conns := Keep(ChangeIn(p.conns, Leaves(id)), Released(id));
      && (forall c :: c in p.conns && c.id != id ==> c in conns)
      && (forall c :: c in p.conns && c.id == id ==>
            (c.(active := c.active - 1) in conns <==> c.alive && !(c.goingAway && c.active == 1)))
      && (forall d :: d in conns ==> d in p.conns || (d.id == id && d.(active := d.active + 1) in p.conns))
  {
    var changed := ChangeIn(p.conns, Leaves(id));
    KeepIs(changed, Released(id));
    forall c | c in p.conns ensures Changed(c, Leaves(id)) in changed {
      var i :| 0 <= i < |p.conns| && p.conns[i] == c;
      assert changed[i] == Changed(c, Leaves(id));
    }
    forall d | d in changed ensures d in p.conns || (d.id == id && d.(active := d.active + 1) in p.conns) {
      var i :| 0 <= i < |changed| && changed[i] == d;
      assert p.conns[i] in p.conns;
      assert p.conns[i].id == id ==> d.(active := d.active + 1) == p.conns[i];
    }
  }

  /** And nothing is left out of what follows: those who wait are served, and the rest dialled
      for or refused. */
  lemma ReleaseGoesOn(p: Pool, id: nat, clock: Clock)
    requires p.dials >= 0
    requires var served := ServeWaiters(AfterRelease(p, id)); CountLive(served.conns) + served.dials <= p.maxConns
    ensures var served, q := ServeWaiters(AfterRelease(p, id)), HandleRelease(p, id, clock);
      && AfterRelease(p, id).conns == Keep(ChangeIn(p.conns, Leaves(id)), Released(id))
      && AfterRelease(p, id).waiters == p.waiters && q.conns == served.conns
      && (!clock.atDial ==> Covered(q))
      && (q.waiters == if Hopeless(q, clock.atFlush) then [] else served.waiters)
  {
    ServeIs(AfterRelease(p, id));
    DialOrFlushIs(ServeWaiters(AfterRelease(p, id)), clock, DialBackoff);
  }

  /** A dial that succeeds takes itself off the count and adds its connection with the slots
      of the pool's policy; then those who wait are served, and the rest dialled for. */
  lemma DialOkDecides(p: Pool, c: Conn, backoff: bool)
    requires p.dials > 0
    requires var joined := p.(dials := p.dials - 1, conns := p.conns + [c.(cap := p.perConn)]);
      CountLive(ServeWaiters(joined).conns) + p.dials - 1 <= p.maxConns
    ensures var joined := p.(dials := p.dials - 1, conns := p.conns + [c.(cap := p.perConn)]);
      var served, q := ServeWaiters(joined), HandleDialOk(p, c, backoff);
      && q == served.(dials := q.dials) && p.dials - 1 <= q.dials
      && (backoff ==> q.dials == p.dials - 1) && (!backoff ==> Covered(q))
      && (q.waiters == [] || Pick(q.conns, q.cursor) < 0)
  {
    var joined := p.(dials := p.dials - 1, conns := p.conns + [c.(cap := p.perConn)]);
    ServeIs(joined);
    SizedOrNot(ServeWaiters(joined), backoff);
  }

  /** A dial that fails refuses the oldest waiter, with the dial's error; the rest are dialled
      for or refused with it. */
  lemma DialErrorDecides(p: Pool, clock: Clock)
    requires p.dials > 0 && CountLive(p.conns) + p.dials <= p.maxConns
    ensures var q := HandleDialError(p, clock);
      var left := if p.waiters == [] then [] else p.waiters[1..];
      var told := p.replies + if p.waiters == [] then [] else [Refused(p.waiters[0], Reason.DialError)];
      && q == p.(dials := q.dials, waiters := q.waiters, replies := q.replies) && p.dials - 1 <= q.dials
      && (!clock.atDial ==> Covered(q))
      && (if Hopeless(q, clock.atFlush)
          then q.waiters == [] && q.replies == told + Refusals(left, Reason.DialError)
          else q.waiters == left && q.replies == told)
  {
    DialOrFlushIs(DialErrorRefusal(p), clock, Reason.DialError);
    assert p.replies + [] == p.replies;
  }

  predicate Stays(c: Conn, idle: set<nat>) {
    c.alive && !(c.goingAway && c.active == 0) && !(c.active == 0 && c.id in idle)
  }

  /** A tick evicts exactly the dead, the drained and those idle for too long; exactly those
      whose caller has given up leave the queue; and the rest are dialled for or refused. */
  lemma TickDecides(p: Pool, idle: set<nat>, gone: set<nat>, clock: Clock)
    requires p.dials >= 0 && CountLive(Swept(p, idle, gone).conns) + p.dials <= p.maxConns
    ensures var q := HandleTick(p, idle, gone, clock);
      var left, told := Prune(p.waiters, gone), PruneReplies(p.replies, p.waiters, gone);
      && (forall c :: c in q.conns <==> c in p.conns && Stays(c, idle))
      && (!clock.atDial ==> Covered(q)) && p.dials <= q.dials
      && (if Hopeless(q, clock.atFlush)
          then q.waiters == [] && q.replies == told + Refusals(left, DialBackoff)
          else q.waiters == left && q.replies == told)
  {
    KeepIs(p.conns, AllRetired);
    KeepIs(Keep(p.conns, AllRetired), Idle(idle));
    DialOrFlushIs(Swept(p, idle, gone), clock, DialBackoff);
  }

  /** A warm-up dials up to what it was asked for, within the budget, and not in the backoff. */
  lemma WarmupDecides(p: Pool, n: nat, backoff: bool)
    ensures var q := HandleWarmup(p, n, backoff);
      && q == p.(dials := q.dials)
      && (backoff ==> q.dials == p.dials)
      && (!backoff ==> q.dials == Max(p.dials, Min(n, p.maxConns) - CountLive(p.conns)))
  {
  }

  /** Stats evict exactly the dead and the drained; Close refuses everyone who waits. */
  lemma StatsAndClose(p: Pool)
    ensures var q := HandleStats(p);
      q == p.(conns := q.conns) &&
      forall c :: c in q.conns <==> c in p.conns && c.alive && !(c.goingAway && c.active == 0)
    ensures HandleClose(p) == p.(waiters := [], dials := 0, replies := p.replies + Refusals(p.waiters, PoolClosed))
  {
    KeepIs(p.conns, AllRetired);
    AllRefusedIs(p.replies, p.waiters, PoolClosed);
  }
}
