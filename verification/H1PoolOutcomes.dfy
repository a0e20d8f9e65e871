/** What each handler of the HTTP/1.1 pool decides, said of the pool before and after it. */
module H1PoolOutcomes {
  import opened FixedWidth
  import opened PoolReplies
  import opened H1Pool
  import opened H1PoolRuns

  // ------------------------------------------------------------------ counting

  /** The two tallies count connection by connection: those that are alive; and of those, the
      ones that nobody holds and the sweep has reserved. */
  lemma {:induction false} CountsAre(a: seq<Conn>, b: seq<Conn>, t: Tally)
    ensures Count(a + b, t) == Count(a, t) + Count(b, t)
    ensures forall c :: Count([c], Live) == Bit(c.alive)
    ensures forall c :: Count([c], ReservedIdle) == Bit(c.alive && c.probing && c.active <= 0)
    decreases |b|
  {
    forall c ensures Count([c], Live) == Bit(c.alive)
      ensures Count([c], ReservedIdle) == Bit(c.alive && c.probing && c.active <= 0)
    {
      assert [c][..0] == [];
    }
    if b == [] {
      assert a + b == a;
    } else {
      assert (a + b)[..|a + b| - 1] == a + b[..|b| - 1];
      CountsAre(a, b[..|b| - 1], t);
    }
  }

  // ------------------------------------------------------------------ dialling

  /** Everyone who waits has a connection or a dial on the way, or the budget is used up. */
  predicate Covered(p: Pool) {
    |p.waiters| <= Count(p.conns, ReservedIdle) + p.dials || p.maxConns <= Count(p.conns, Live) + p.dials
  }

  /** Outside the backoff reserved connections and dials cover the waiters, or the budget is
      used up. No dial is one too many, for the waiters or for the budget. Inside it nothing
      is dialled. */
  lemma DialsAreSized(p: Pool, backoff: bool)
    ensures var q := EnsureDialForWaiters(p, backoff);
      && q == p.(dials := q.dials) && p.dials <= q.dials
      && (backoff ==> q.dials == p.dials)
      && (!backoff ==> Covered(q))
      && (p.dials < q.dials ==>
            Count(p.conns, ReservedIdle) + q.dials <= |p.waiters| && Count(p.conns, Live) + q.dials <= p.maxConns)
  {
  }

  lemma {:induction false} RefuseAllIs(p: Pool, reason: Reason)
    ensures RefuseAll(p, reason) == p.(waiters := [], replies := p.replies + Refusals(p.waiters, reason))
    decreases |p.waiters|
  {
    if p.waiters == [] {
      assert p.replies + Refusals([], reason) == p.replies;
    } else {
      var first := Refused(p.waiters[0], reason);
      RefuseAllIs(Refuse(p.(waiters := p.waiters[1..]), p.waiters[0], reason), reason);
      assert Refusals(p.waiters, reason) == [first] + Refusals(p.waiters[1..], reason);
      assert p.replies + [first] + Refusals(p.waiters[1..], reason) ==
             p.replies + ([first] + Refusals(p.waiters[1..], reason));
    }
  }

  /** Nothing that could ever serve a waiter: no live connection, no dial, and no way to start
      one. */
  predicate Hopeless(p: Pool, backoff: bool) {
    backoff && p.dials <= 0 && Count(p.conns, Live) == 0
  }

  /** Everyone who waits is refused, for the reason given, if and only if there is nothing
      that could ever serve them; and else nobody is. */
  lemma StrandedRefusedExactlyWhen(p: Pool, backoff: bool, reason: Reason)
    ensures FlushStrandedWaiters(p, backoff, reason) ==
      if Hopeless(p, backoff) then p.(waiters := [], replies := p.replies + Refusals(p.waiters, reason)) else p
  {
    RefuseAllIs(p, reason);
    assert p.waiters == [] ==> p.replies + Refusals([], reason) == p.replies;
  }

  lemma DialOrFlushIs(p: Pool, clock: Clock, reason: Reason)
    ensures var q := DialOrFlush(p, clock, reason);
      && q == p.(dials := q.dials, waiters := q.waiters, replies := q.replies) && p.dials <= q.dials
      && (!clock.atDial ==> Covered(q))
      && (if Hopeless(p.(dials := q.dials), clock.atFlush)
          then q.waiters == [] && q.replies == p.replies + Refusals(p.waiters, reason)
          else q.waiters == p.waiters && q.replies == p.replies)
  {
    DialsAreSized(p, clock.atDial);
    StrandedRefusedExactlyWhen(EnsureDialForWaiters(p, clock.atDial), clock.atFlush, reason);
  }

  // ------------------------------------------------------------------- serving

  /** Idle connections go to the waiters in front, in their order, until one of the two runs
      out. */
  lemma {:induction false} ServeIs(p: Pool)
    ensures var q := ServeWaiters(p);
      var k := |p.waiters| - |q.waiters|;
      && 0 <= k && q.waiters == p.waiters[k..] && (q.waiters == [] || NobodyIdle(q))
      && |q.replies| == |p.replies| + k && p.replies <= q.replies
      && (forall i :: 0 <= i < k ==> GrantTo(q.replies[|p.replies| + i], p.waiters[i]))
      && q == p.(waiters := q.waiters, replies := q.replies, conns := q.conns, holders := q.holders)
    decreases |p.waiters|
  {
    var i := FirstIdle(p.conns);
    FirstIdleNone(p);
    if p.waiters != [] && i < |p.conns| {
      var r := Grant(p.(waiters := p.waiters[1..]), p.waiters[0], i);
      ServeIs(r);
      var q := ServeWaiters(p);
      assert q == ServeWaiters(r);
      assert q.replies[|p.replies|] == r.replies[|p.replies|];
      var k := |p.waiters| - |q.waiters|;
      forall j | 0 <= j < k ensures GrantTo(q.replies[|p.replies| + j], p.waiters[j]) {
        assert j > 0 ==> GrantTo(q.replies[|r.replies| + (j - 1)], r.waiters[j - 1]);
      }
    }
  }

  predicate GrantTo(r: Reply, req: nat) {
    r.Granted? && r.req == req
  }

  /** A connection of the pool is as it was, or was idle and has one holder. */
  predicate ServedOrNot(before: Conn, after: Conn) {
    after == before || (Idle(before) && after == before.(active := 1))
  }

  lemma {:induction false} ServeTakesIdle(p: Pool)
    requires forall i :: 0 <= i < |p.conns| ==> p.conns[i].active >= 0
    ensures var q := ServeWaiters(p);
      |q.conns| == |p.conns| && forall i :: 0 <= i < |p.conns| ==> ServedOrNot(p.conns[i], q.conns[i])
    decreases |p.waiters|
  {
    var i := FirstIdle(p.conns);
    if p.waiters != [] && i < |p.conns| {
      var r := Grant(p.(waiters := p.waiters[1..]), p.waiters[0], i);
      ServeTakesIdle(r);
      var q := ServeWaiters(p);
      forall j | 0 <= j < |p.conns| ensures ServedOrNot(p.conns[j], q.conns[j]) {
        assert ServedOrNot(r.conns[j], q.conns[j]);
      }
    }
  }

  // ------------------------------------------------------------------ the handlers

  /** Alive, held by nobody, and not under probe. */
  predicate Free(c: Conn) {
    c.alive && c.active <= 0 && !c.probing
  }

  /** A request takes the first connection that is free, if there is one. */
  lemma AcquireTakesFirstFree(p: Pool, req: nat, backoff: bool, i: nat)
    requires i < |p.conns| && Free(p.conns[i]) && forall j :: 0 <= j < i ==> !Free(p.conns[j])
    ensures HandleAcquire(p, req, backoff) ==
      p.(replies := p.replies + [Granted(req, p.conns[i].id)], holders := p.holders + multiset{p.conns[i].id},
         conns := p.conns[i := p.conns[i].(active := p.conns[i].active + 1)])
  {
    FirstIdleIs(p.conns, i);
  }

  /** With none it is refused if and only if nothing could ever serve it and no reservation
      is free for it; and otherwise queued at the back, with a dial if and only if no
      reservation is free for it, there is room and the backoff is over. */
  lemma AcquireQueuesOrRefuses(p: Pool, req: nat, backoff: bool)
    requires p.dials >= 0 && forall c :: c in p.conns ==> !Free(c)
    ensures var free := |p.waiters| < Count(p.conns, ReservedIdle);
      HandleAcquire(p, req, backoff) ==
        if Hopeless(p, backoff) && !free then p.(replies := p.replies + [Refused(req, DialBackoff)])
        else p.(waiters := p.waiters + [req],
                dials := p.dials + Bit(!free && !backoff && Count(p.conns, Live) + p.dials < p.maxConns))
  {
    FirstIdleNone(p);
  }

  /** So outside the backoff a queue that was covered stays so. */
  lemma AcquireKeepsCover(p: Pool, req: nat)
    requires p.dials >= 0 && Covered(p) && FirstIdle(p.conns) == |p.conns|
    ensures Covered(HandleAcquire(p, req, false))
  {
  }

  /** A connection that comes back stays if and only if it may be kept and is alive, with one
      holder less. The others stay as they are, and nobody joins. */
  lemma ReturnDecides(p: Pool, i: nat, keepAlive: bool)
    requires i < |p.conns| && Distinct(p.conns)
    ensures var c := p.conns[i];
      var q := Returned(p, c.id, keepAlive);
      && q == p.(conns := q.conns, holders := p.holders - multiset{c.id})
      && forall d :: d in q.conns <==>
           (d in p.conns && d.id != c.id) || (keepAlive && c.alive && d == c.(active := c.active - 1))
  {
    var c := p.conns[i].(active := p.conns[i].active - 1);
    assert IndexOf(p.conns, c.id) == i;
    if keepAlive && c.alive {
      LoweredHas(p.conns, i, c);
    } else {
      EvictedHas(p.conns, i, c);
    }
  }

  /** One that has been evicted in the meantime only has a holder less. */
  lemma ReturnOfEvicted(p: Pool, id: nat, keepAlive: bool)
    requires forall c :: c in p.conns ==> c.id != id
    ensures Returned(p, id, keepAlive) == p.(holders := p.holders - multiset{id})
  {
    assert forall j :: 0 <= j < |p.conns| ==> p.conns[j] in p.conns;
  }

  lemma EvictedHas(conns: seq<Conn>, i: nat, c: Conn)
    requires i < |conns| && Distinct(conns) && c == conns[i].(active := conns[i].active - 1)
    ensures forall d :: d in KeepIf(conns[i := c], NotConn(c.id)) <==> d in conns && d.id != c.id
  {
    KeepIfKeeps(conns[i := c], NotConn(c.id));
    LoweredHas(conns, i, c);
  }

  lemma LoweredHas(conns: seq<Conn>, i: nat, c: Conn)
    requires i < |conns| && Distinct(conns) && c == conns[i].(active := conns[i].active - 1)
    ensures forall d :: d in conns[i := c] <==> d == c || (d in conns && d.id != c.id)
  {
    var to := conns[i := c];
    assert to[i] == c;
    forall d | d in conns && d.id != c.id ensures d in to {
      var j :| 0 <= j < |conns| && conns[j] == d;
      assert to[j] == d;
    }
    forall d | d in to && d != c ensures d in conns && d.id != c.id {
      var j :| 0 <= j < |to| && to[j] == d;
      assert conns[j] == d;
    }
  }

  /** The one idle connection, the last, goes to the first waiter. */
  lemma LastServes(p: Pool, c: Conn)
    requires (p.waiters == [] || NobodyIdle(p)) && c.alive && c.active == 0 && !c.probing
    ensures ServeWaiters(p.(conns := p.conns + [c])) ==
      if p.waiters == [] then p.(conns := p.conns + [c])
      else p.(conns := p.conns + [c.(active := 1)], waiters := p.waiters[1..],
              replies := p.replies + [Granted(p.waiters[0], c.id)], holders := p.holders + multiset{c.id})
  {
    var joined, n := p.(conns := p.conns + [c]), |p.conns|;
    if p.waiters != [] {
      assert forall j :: 0 <= j < n ==> joined.conns[j] == p.conns[j] && p.conns[j] in p.conns;
      FirstIdleIs(joined.conns, n);
      var r := Grant(joined.(waiters := p.waiters[1..]), p.waiters[0], n);
      assert r.conns == p.conns + [c.(active := 1)];
      FirstIdleIs(r.conns, n + 1);
      assert ServeWaiters(joined) == ServeWaiters(r) == r;
    }
  }

  /** A dial that succeeds takes itself off the count and adds its connection, which goes to
      the first waiter; the rest are dialled for. */
  lemma DialOkDecides(p: Pool, id: nat, backoff: bool)
    requires p.waiters == [] || NobodyIdle(p)
    ensures var q := HandleDialOk(p, id, backoff);
      && p.dials - 1 <= q.dials && (backoff ==> q.dials == p.dials - 1) && (!backoff ==> Covered(q))
      && if p.waiters == [] then
           q == p.(conns := p.conns + [Conn(id, true, 0, false)], dials := q.dials)
         else
           q == p.(conns := p.conns + [Conn(id, true, 1, false)], dials := q.dials, waiters := p.waiters[1..],
                   replies := p.replies + [Granted(p.waiters[0], id)], holders := p.holders + multiset{id})
  {
    var r := p.(dials := p.dials - 1);
    LastServes(r, Conn(id, true, 0, false));
    DialsAreSized(ServeWaiters(r.(conns := p.conns + [Conn(id, true, 0, false)])), backoff);
  }

  lemma FirstIdleIs(conns: seq<Conn>, i: nat)
    requires i <= |conns| && (i < |conns| ==> Idle(conns[i])) && forall j :: 0 <= j < i ==> !Idle(conns[j])
    ensures FirstIdle(conns) == i
  {
    var k := FirstIdle(conns);
  }

  /** A dial that fails refuses the newest waiter, with the dial's error, if and only if there
      are more of them than reservations; the rest are dialled for or refused with it. */
  lemma DialErrorDecides(p: Pool, clock: Clock)
    ensures var q := HandleDialError(p, clock);
      var n := |p.waiters|;
      var cut := n > Count(p.conns, ReservedIdle);
      var left := if cut then p.waiters[..n - 1] else p.waiters;
      var told := p.replies + if cut then [Refused(p.waiters[n - 1], DialError)] else [];
      && q == p.(dials := q.dials, waiters := q.waiters, replies := q.replies) && p.dials - 1 <= q.dials
      && (!clock.atDial ==> Covered(q))
      && (if Hopeless(p.(dials := q.dials), clock.atFlush)
          then q.waiters == [] && q.replies == told + Refusals(left, DialError)
          else q.waiters == left && q.replies == told)
  {
    DialOrFlushIs(DialErrorRefusal(p), clock, DialError);
    assert p.replies + [] == p.replies;
  }

  /** A release, and the end of a sweep, leave the waiters covered outside the backoff. */
  lemma OthersKeepCover(p: Pool, id: nat, keepAlive: bool, probed: set<nat>, dead: seq<nat>, clock: Clock)
    requires !clock.atDial
    ensures Covered(HandleRelease(p, id, keepAlive, clock))
    ensures Covered(HandleSweepDone(p, probed, dead, clock))
  {
    DialOrFlushIs(ServeWaiters(Returned(p, id, keepAlive)), clock, DialBackoff);
    DialOrFlushIs(ServeWaiters(Unswept(p, probed, dead)), clock, DialBackoff);
  }

  /** What maintenance keeps: live connections that are held, under probe, or not expired. */
  predicate Stays(c: Conn, expired: set<nat>) {
    c.alive && (c.probing || c.active != 0 || c.id !in expired)
  }

  /** What a tick makes of a connection that stays. */
  function Marked(c: Conn, sweeping: bool): Conn {
    if !sweeping && c.active == 0 then c.(probing := true) else c
  }

  lemma KeptByTick(conns: seq<Conn>, expired: set<nat>)
    ensures forall c :: c in KeepIf(KeepIf(conns, NotExpired(expired)), Alive) <==> c in conns && Stays(c, expired)
  {
    KeepIfKeeps(conns, NotExpired(expired));
    KeepIfKeeps(KeepIf(conns, NotExpired(expired)), Alive);
  }

  lemma ReservedHas(conns: seq<Conn>)
    ensures forall c :: c in conns ==> Marked(c, false) in Reserve(conns)
    ensures forall d :: d in Reserve(conns) ==> exists c :: c in conns && d == Marked(c, false)
  {
    ReserveMarks(conns);
    var to := Reserve(conns);
    forall c | c in conns ensures Marked(c, false) in to {
      var i :| 0 <= i < |conns| && conns[i] == c;
      assert to[i] in to;
    }
    forall d | d in to ensures exists c :: c in conns && d == Marked(c, false) {
      var i :| 0 <= i < |to| && to[i] == d;
      assert conns[i] in conns;
    }
  }

  /** A tick evicts exactly what is dead or idle for too long. It reserves every connection
      that nobody holds, unless a sweep is out. */
  lemma SweepDecides(p: Pool, expired: set<nat>)
    ensures var q := Swept(p, expired);
      && q == p.(conns := q.conns, sweeping := q.sweeping)
      && (forall c :: c in p.conns && Stays(c, expired) ==> Marked(c, p.sweeping) in q.conns)
      && (forall d :: d in q.conns ==>
            exists c :: c in p.conns && Stays(c, expired) && d == Marked(c, p.sweeping))
      && (q.sweeping <==> p.sweeping || exists c :: c in p.conns && Stays(c, expired) && c.active == 0)
  {
    var kept := KeepIf(KeepIf(p.conns, NotExpired(expired)), Alive);
    KeptByTick(p.conns, expired);
    if !p.sweeping {
      ReservedHas(kept);
      HasCandidates(kept);
    }
  }

  lemma HasCandidates(conns: seq<Conn>)
    ensures Candidates(conns) != {} <==> exists c :: c in conns && c.active == 0
  {
    if c :| c in conns && c.active == 0 {
      var i :| 0 <= i < |conns| && conns[i] == c;
      assert conns[i].id in Candidates(conns);
    }
    if id :| id in Candidates(conns) {
      var i :| 0 <= i < |conns| && conns[i].active == 0 && conns[i].id == id;
      assert conns[i] in conns;
    }
  }

  lemma {:induction false} PruneFromIs(p: Pool, gone: set<nat>, kept: seq<nat>)
    ensures PruneFrom(p, gone, kept) ==
      p.(waiters := kept + Prune(p.waiters, gone), replies := PruneReplies(p.replies, p.waiters, gone))
    decreases |p.waiters|
  {
    if p.waiters == [] {
      assert kept + [] == kept;
    } else {
      var w, rest := p.waiters[0], p.(waiters := p.waiters[1..]);
      FirstPruned(kept, p.waiters, gone);
      if w in gone {
        PruneFromIs(Refuse(rest, w, ContextDone), gone, kept);
      } else {
        PruneFromIs(rest, gone, kept + [w]);
      }
    }
  }

  /** Then exactly those whose caller has given up leave the queue, each told so, and the rest
      are dialled for or refused. */
  lemma TickDecides(p: Pool, expired: set<nat>, gone: set<nat>, clock: Clock)
    ensures var q := HandleTick(p, expired, gone, clock);
      var left, told := Prune(p.waiters, gone), PruneReplies(p.replies, p.waiters, gone);
      && q.conns == Swept(p, expired).conns && q.sweeping == Swept(p, expired).sweeping && p.dials <= q.dials
      && (!clock.atDial ==> Covered(q))
      && (if Hopeless(q, clock.atFlush)
          then q.waiters == [] && q.replies == told + Refusals(left, DialBackoff)
          else q.waiters == left && q.replies == told)
  {
    SweepDecides(p, expired);
    PruneFromIs(Swept(p, expired), gone, []);
    assert [] + Prune(p.waiters, gone) == Prune(p.waiters, gone);
    DialOrFlushIs(PruneFrom(Swept(p, expired), gone, []), clock, DialBackoff);
  }

  /** Stats evict exactly the dead; Close refuses everyone who waits. */
  lemma StatsAndClose(p: Pool)
    ensures var q := HandleStats(p);
      q == p.(conns := q.conns) && forall c :: c in q.conns <==> c in p.conns && c.alive
    ensures HandleClose(p) == p.(waiters := [], dials := 0, replies := p.replies + Refusals(p.waiters, PoolClosed))
  {
    KeepIfKeeps(p.conns, Alive);
    RefuseAllIs(p, PoolClosed);
  }
}
