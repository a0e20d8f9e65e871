/** Runs of the HTTP/1.1 pool actor: any order of requests, releases, dial results, ticks,
    sweep results and stats, with sockets dying at any moment. */
module H1PoolRuns {
  import opened FixedWidth
  import opened PoolReplies
  import opened H1Pool

  // --------------------------------------------------------------- counting

  lemma {:induction false} CountUpdate(conns: seq<Conn>, i: nat, c: Conn, t: Tally)
    requires i < |conns|
    ensures Count(conns[i := c], t) == Count(conns, t) - Bit(Counts(t, conns[i])) + Bit(Counts(t, c))
  {
    var n := |conns| - 1;
    if i == n {
      assert conns[i := c][..n] == conns[..n];
    } else {
      assert conns[i := c][..n] == conns[..n][i := c];
      CountUpdate(conns[..n], i, c, t);
    }
  }

  lemma CountAppend(conns: seq<Conn>, c: Conn, t: Tally)
    ensures Count(conns + [c], t) == Count(conns, t) + Bit(Counts(t, c))
  {
    assert (conns + [c])[..|conns|] == conns;
  }

  lemma {:induction false} CountZero(conns: seq<Conn>, t: Tally)
    ensures Count(conns, t) == 0 <==> forall i :: 0 <= i < |conns| ==> !Counts(t, conns[i])
  {
    if conns != [] {
      var n := |conns| - 1;
      CountZero(conns[..n], t);
      assert forall i :: 0 <= i < n ==> conns[i] == conns[..n][i];
    }
  }

  // --------------------------------------------------------------- evictions

  predicate Distinct(conns: seq<Conn>) {
    forall i, j :: 0 <= i < j < |conns| ==> conns[i].id != conns[j].id
  }

  /** An eviction keeps exactly the connections its criterion keeps, still distinct, and
      counts no connection that was not counted before. */
  lemma {:induction false} KeepIfKeeps(conns: seq<Conn>, k: Criterion)
    ensures forall c :: c in KeepIf(conns, k) <==> c in conns && Keeps(k, c)
    ensures Distinct(conns) ==> Distinct(KeepIf(conns, k))
    ensures forall t :: Count(KeepIf(conns, k), t) <= Count(conns, t)
  {
    if conns != [] {
      var n := |conns| - 1;
      KeepIfKeeps(conns[..n], k);
      assert conns == conns[..n] + [conns[n]];
      var kept := KeepIf(conns[..n], k);
      if Keeps(k, conns[n]) {
        forall t ensures Count(kept + [conns[n]], t) == Count(kept, t) + Bit(Counts(t, conns[n])) {
          CountAppend(kept, conns[n], t);
        }
        if Distinct(conns) {
          forall i | 0 <= i < |kept| ensures kept[i].id != conns[n].id {
            assert kept[i] in conns[..n];
          }
        }
      } else {
        assert kept + [] == kept;
      }
    }
  }

  lemma {:induction false} EvictAllKeeps(conns: seq<Conn>, dead: seq<nat>)
    ensures forall c :: c in EvictAll(conns, dead) <==> c in conns && c.id !in dead
    ensures Distinct(conns) ==> Distinct(EvictAll(conns, dead))
    ensures forall t :: Count(EvictAll(conns, dead), t) <= Count(conns, t)
    decreases |dead|
  {
    if dead != [] {
      KeepIfKeeps(conns, NotConn(dead[0]));
      EvictAllKeeps(KeepIf(conns, NotConn(dead[0])), dead[1..]);
    }
  }

  lemma {:induction false} ReserveMarks(conns: seq<Conn>)
    ensures |Reserve(conns)| == |conns|
    ensures forall i :: 0 <= i < |conns| ==>
              Reserve(conns)[i] == if conns[i].active == 0 then conns[i].(probing := true) else conns[i]
    ensures Count(Reserve(conns), Live) == Count(conns, Live)
  {
    if conns != [] {
      var n := |conns| - 1;
      ReserveMarks(conns[..n]);
      CountAppend(Reserve(conns[..n]), Reserve(conns)[n], Live);
    }
  }

  lemma {:induction false} UnreserveClears(conns: seq<Conn>, probed: set<nat>)
    ensures |Unreserve(conns, probed)| == |conns|
    ensures forall i :: 0 <= i < |conns| ==>
              Unreserve(conns, probed)[i] == if conns[i].id in probed then conns[i].(probing := false) else conns[i]
    ensures Count(Unreserve(conns, probed), Live) == Count(conns, Live)
  {
    if conns != [] {
      var n := |conns| - 1;
      UnreserveClears(conns[..n], probed);
      CountAppend(Unreserve(conns[..n], probed), Unreserve(conns, probed)[n], Live);
    }
  }

  // --------------------------------------------------- holders and reservations

  /** A connection in the pool has as many holders as its active count says, at most one,
      and while the sweep reads its socket it has none. */
  ghost predicate TrackedConn(p: Pool, sweep: set<nat>, nextConn: nat, c: Conn) {
    && c.id < nextConn
    && c.active == p.holders[c.id]
    && (c.probing ==> p.sweeping && c.id in sweep && c.active == 0)
  }

  ghost predicate Tracked(p: Pool, sweep: set<nat>, nextConn: nat) {
    && Distinct(p.conns)
    && (forall c :: c in p.conns ==> TrackedConn(p, sweep, nextConn, c))
    && (forall id :: p.holders[id] <= 1 && (id in p.holders ==> id < nextConn))
  }

  ghost predicate WithinBudget(p: Pool) {
    0 <= p.dials && Count(p.conns, Live) + p.dials <= p.maxConns
  }

  ghost predicate NobodyIdle(p: Pool) {
    forall c :: c in p.conns ==> !Idle(c)
  }

  lemma FirstIdleNone(p: Pool)
    ensures FirstIdle(p.conns) == |p.conns| <==> NobodyIdle(p)
  {
    var i := FirstIdle(p.conns);
    if i < |p.conns| {
      assert p.conns[i] in p.conns;
    }
  }

  lemma GrantTracked(p: Pool, req: nat, i: nat, sweep: set<nat>, nextConn: nat)
    requires Tracked(p, sweep, nextConn)
    requires i < |p.conns| && Idle(p.conns[i])
    ensures Tracked(Grant(p, req, i), sweep, nextConn)
    ensures forall t :: Count(Grant(p, req, i).conns, t) == Count(p.conns, t)
  {
    var q := Grant(p, req, i);
    var c := p.conns[i];
    assert c in p.conns;
    forall d | d in q.conns ensures TrackedConn(q, sweep, nextConn, d) {
      var j :| 0 <= j < |q.conns| && q.conns[j] == d;
      assert p.conns[j] in p.conns;
    }
    forall t ensures Count(q.conns, t) == Count(p.conns, t) {
      CountUpdate(p.conns, i, q.conns[i], t);
    }
  }

  // ------------------------------------------------------- replies and arrival order

  ghost predicate Orderly(p: Pool, nextReq: nat) {
    InOrder(p.replies, p.waiters, nextReq)
  }

  lemma GrantFrontInOrder(p: Pool, id: nat, nextReq: nat)
    requires Orderly(p, nextReq) && p.waiters != []
    ensures Orderly(p.(waiters := p.waiters[1..], replies := p.replies + [Granted(p.waiters[0], id)]), nextReq)
  {
    FrontServedInOrder(p.replies, p.waiters, id, nextReq);
  }

  /** Refusing any waiter leaves the rest in order. */
  lemma RefuseInOrder(p: Pool, k: nat, reason: Reason, nextReq: nat)
    requires Orderly(p, nextReq) && k < |p.waiters|
    ensures Orderly(Refuse(p.(waiters := Without(p.waiters, k)), p.waiters[k], reason), nextReq)
  {
    RefusedInOrder(p.replies, p.waiters, k, reason, nextReq);
  }

  lemma {:induction false} RefuseAllInOrder(p: Pool, reason: Reason, nextReq: nat)
    requires Orderly(p, nextReq)
    ensures var q := RefuseAll(p, reason);
            && Orderly(q, nextReq)
            && q == p.(waiters := [], replies := q.replies)
    decreases |p.waiters|
  {
    if p.waiters != [] {
      RefuseInOrder(p, 0, reason, nextReq);
      assert Without(p.waiters, 0) == p.waiters[1..];
      RefuseAllInOrder(Refuse(p.(waiters := p.waiters[1..]), p.waiters[0], reason), reason, nextReq);
    }
  }

  lemma {:induction false} PruneInOrder(p: Pool, gone: set<nat>, kept: seq<nat>, nextReq: nat)
    requires Orderly(p.(waiters := kept + p.waiters), nextReq)
    ensures var q := PruneFrom(p, gone, kept);
            && Orderly(q, nextReq)
            && q == p.(waiters := q.waiters, replies := q.replies)
            && (kept == [] && p.waiters == [] ==> q.waiters == [])
    decreases |p.waiters|
  {
    if p.waiters == [] {
      assert kept + [] == kept;
    } else {
      var w := p.waiters[0];
      var rest := p.(waiters := p.waiters[1..]);
      if w in gone {
        var whole := p.(waiters := kept + p.waiters);
        RefuseInOrder(whole, |kept|, ContextDone, nextReq);
        assert Without(whole.waiters, |kept|) == kept + rest.waiters;
        PruneInOrder(Refuse(rest, w, ContextDone), gone, kept, nextReq);
      } else {
        assert kept + [w] + rest.waiters == kept + p.waiters;
        PruneInOrder(rest, gone, kept + [w], nextReq);
      }
    }
  }

  // ------------------------------------------------------------- serving waiters

  lemma {:induction false} ServeKeeps(p: Pool, sweep: set<nat>, nextConn: nat, nextReq: nat)
    requires Tracked(p, sweep, nextConn) && Orderly(p, nextReq)
    ensures var q := ServeWaiters(p);
            && Tracked(q, sweep, nextConn) && Orderly(q, nextReq)
            && Quiet(q)
            && (forall t :: Count(q.conns, t) == Count(p.conns, t))
            && q.maxConns == p.maxConns && q.dials == p.dials && q.sweeping == p.sweeping
    decreases |p.waiters|
  {
    var i := FirstIdle(p.conns);
    FirstIdleNone(p);
    if p.waiters != [] && i < |p.conns| {
      var r := p.(waiters := p.waiters[1..]);
      GrantFrontInOrder(p, p.conns[i].id, nextReq);
      assert Tracked(r, sweep, nextConn);
      GrantTracked(r, p.waiters[0], i, sweep, nextConn);
      ServeKeeps(Grant(r, p.waiters[0], i), sweep, nextConn, nextReq);
    }
  }

  // ------------------------------------------------------- a wake-up is owed

  /** Something will call the actor back while a waiter is queued: a dial, the sweep, or a
      caller that still holds a connection. */
  ghost predicate Owed(p: Pool) {
    p.waiters == [] || p.dials > 0 || p.sweeping || p.holders != multiset{}
  }

  /** Waiters queued with nothing left to call the actor back. */
  ghost predicate Stranded(p: Pool) {
    p.waiters != [] && p.dials <= 0 && !p.sweeping && p.holders == multiset{}
  }

  /** A waiter is queued only when there is no candidate it could have had. */
  ghost predicate Quiet(p: Pool) {
    p.waiters == [] || NobodyIdle(p)
  }

  /** Live connections nobody can check out are checked out already, or reserved. */
  lemma BusyOrReserved(p: Pool, sweep: set<nat>, nextConn: nat)
    requires Tracked(p, sweep, nextConn)
    ensures NobodyIdle(p) && Count(p.conns, Live) > 0 ==> p.sweeping || p.holders != multiset{}
    ensures Count(p.conns, ReservedIdle) > 0 ==> p.sweeping
  {
    CountZero(p.conns, ReservedIdle);
    if Count(p.conns, ReservedIdle) > 0 {
      var i :| 0 <= i < |p.conns| && Counts(ReservedIdle, p.conns[i]);
      assert p.conns[i] in p.conns;
    }
    CountZero(p.conns, Live);
    if NobodyIdle(p) && Count(p.conns, Live) > 0 {
      var i :| 0 <= i < |p.conns| && Counts(Live, p.conns[i]);
      var c := p.conns[i];
      assert c in p.conns;
      assert !c.probing ==> p.holders[c.id] == 1;
    }
  }

  lemma EnsureDialKeeps(p: Pool, backoff: bool, sweep: set<nat>, nextConn: nat, nextReq: nat)
    requires Tracked(p, sweep, nextConn) && Orderly(p, nextReq) && WithinBudget(p) && Quiet(p)
    ensures var q := EnsureDialForWaiters(p, backoff);
            && Tracked(q, sweep, nextConn) && Orderly(q, nextReq) && WithinBudget(q) && Quiet(q)
            && q == p.(dials := q.dials)
  {
  }

  /** The end of a handler leaves a wake-up owed, except in one case: the waiters were
      stranded, the backoff was still open when the handler would have dialled, and it had
      expired by the time the handler would have refused them. */
  lemma DialOrFlushKeeps(p: Pool, clock: Clock, reason: Reason, sweep: set<nat>, nextConn: nat, nextReq: nat)
    requires Tracked(p, sweep, nextConn) && Orderly(p, nextReq) && WithinBudget(p) && Quiet(p)
    requires p.maxConns >= 1
    ensures var q := DialOrFlush(p, clock, reason);
            && Tracked(q, sweep, nextConn) && Orderly(q, nextReq) && WithinBudget(q) && Quiet(q)
            && q.maxConns == p.maxConns && q.sweeping == p.sweeping && q.conns == p.conns
            && (Owed(q) <==> !(Stranded(p) && clock.atDial && !clock.atFlush))
  {
    var d := EnsureDialForWaiters(p, clock.atDial);
    EnsureDialKeeps(p, clock.atDial, sweep, nextConn, nextReq);
    RefuseAllInOrder(d, reason, nextReq);
    BusyOrReserved(p, sweep, nextConn);
  }

  // --------------------------------------------------------------- handlers

  ghost predicate Sound(p: Pool, sweep: set<nat>, nextConn: nat, nextReq: nat) {
    && p.maxConns >= 1
    && Tracked(p, sweep, nextConn)
    && WithinBudget(p)
    && Orderly(p, nextReq)
    && Quiet(p)
  }

  lemma QueueNewcomer(p: Pool, nextReq: nat)
    requires Orderly(p, nextReq)
    ensures Orderly(p.(waiters := p.waiters + [nextReq]), nextReq + 1)
  {
    QueuedInOrder(p.replies, p.waiters, nextReq);
  }

  lemma GrantNewcomer(p: Pool, id: nat, nextReq: nat)
    requires Orderly(p, nextReq) && p.waiters == []
    ensures Orderly(p.(replies := p.replies + [Granted(nextReq, id)]), nextReq + 1)
  {
    NewcomerServedInOrder(p.replies, id, nextReq);
  }

  lemma RefuseNewcomer(p: Pool, reason: Reason, nextReq: nat)
    requires Orderly(p, nextReq)
    ensures Orderly(Refuse(p, nextReq, reason), nextReq + 1)
  {
    NewcomerRefusedInOrder(p.replies, p.waiters, reason, nextReq);
  }

  lemma AcquireServed(p: Pool, backoff: bool, sweep: set<nat>, nextConn: nat, nextReq: nat)
    requires Sound(p, sweep, nextConn, nextReq)
    requires FirstIdle(p.conns) < |p.conns|
    ensures Sound(HandleAcquire(p, nextReq, backoff), sweep, nextConn, nextReq + 1)
    // a fresh request overtakes nobody
    ensures p.waiters == []
  {
    var i := FirstIdle(p.conns);
    FirstIdleNone(p);
    GrantTracked(p, nextReq, i, sweep, nextConn);
    GrantNewcomer(p, p.conns[i].id, nextReq);
  }

  /** A change of the queue, the dials or the replies is none of the connections. */
  lemma SameConnsTracked(p: Pool, q: Pool, sweep: set<nat>, nextConn: nat)
    requires Tracked(p, sweep, nextConn)
    requires q.conns == p.conns && q.holders == p.holders && q.sweeping == p.sweeping
    ensures Tracked(q, sweep, nextConn)
  {
    forall c | c in q.conns ensures TrackedConn(q, sweep, nextConn, c) {
      assert TrackedConn(p, sweep, nextConn, c);
    }
  }

  lemma QueuedKeeps(p: Pool, dials: nat, sweep: set<nat>, nextConn: nat, nextReq: nat)
    requires Sound(p, sweep, nextConn, nextReq) && NobodyIdle(p)
    requires Count(p.conns, Live) + p.dials + dials <= p.maxConns
    ensures Sound(p.(waiters := p.waiters + [nextReq], dials := p.dials + dials), sweep, nextConn, nextReq + 1)
  {
    var q := p.(waiters := p.waiters + [nextReq], dials := p.dials + dials);
    SameConnsTracked(p, q, sweep, nextConn);
    QueueNewcomer(p, nextReq);
    assert Orderly(q, nextReq + 1);
  }

  lemma RefusedKeeps(p: Pool, sweep: set<nat>, nextConn: nat, nextReq: nat)
    requires Sound(p, sweep, nextConn, nextReq)
    ensures Sound(Refuse(p, nextReq, DialBackoff), sweep, nextConn, nextReq + 1)
  {
    SameConnsTracked(p, Refuse(p, nextReq, DialBackoff), sweep, nextConn);
    RefuseNewcomer(p, DialBackoff, nextReq);
  }

  lemma AcquireQueuedOrRefused(p: Pool, backoff: bool, sweep: set<nat>, nextConn: nat, nextReq: nat)
    requires Sound(p, sweep, nextConn, nextReq)
    requires FirstIdle(p.conns) == |p.conns|
    ensures Sound(HandleAcquire(p, nextReq, backoff), sweep, nextConn, nextReq + 1)
    ensures Owed(p) ==> Owed(HandleAcquire(p, nextReq, backoff))
  {
    FirstIdleNone(p);
    BusyOrReserved(p, sweep, nextConn);
    if RefusesNewcomer(p, backoff) {
      RefusedKeeps(p, sweep, nextConn, nextReq);
    } else {
      QueuedKeeps(p, if DialsForNewcomer(p, backoff) then 1 else 0, sweep, nextConn, nextReq);
    }
  }

  lemma AcquireKeeps(p: Pool, backoff: bool, sweep: set<nat>, nextConn: nat, nextReq: nat)
    requires Sound(p, sweep, nextConn, nextReq)
    ensures var q := HandleAcquire(p, nextReq, backoff);
            && Sound(q, sweep, nextConn, nextReq + 1)
            && q.sweeping == p.sweeping && q.maxConns == p.maxConns
            && (Owed(p) ==> Owed(q))
  {
    if FirstIdle(p.conns) < |p.conns| {
      AcquireServed(p, backoff, sweep, nextConn, nextReq);
    } else {
      AcquireQueuedOrRefused(p, backoff, sweep, nextConn, nextReq);
    }
  }

  lemma LoweredKeeps(p: Pool, i: nat, sweep: set<nat>, nextConn: nat)
    requires Tracked(p, sweep, nextConn) && i < |p.conns| && p.conns[i].id in p.holders
    ensures Tracked(Lowered(p, i), sweep, nextConn) && Count(Lowered(p, i).conns, Live) == Count(p.conns, Live)
  {
    var q := Lowered(p, i);
    assert p.conns[i] in p.conns;
    CountUpdate(p.conns, i, q.conns[i], Live);
    forall d | d in q.conns ensures TrackedConn(q, sweep, nextConn, d) {
      var j :| 0 <= j < |q.conns| && q.conns[j] == d;
      assert p.conns[j] in p.conns;
    }
  }

  lemma EvictedKeeps(p: Pool, k: Criterion, sweep: set<nat>, nextConn: nat)
    requires Tracked(p, sweep, nextConn)
    ensures Tracked(p.(conns := KeepIf(p.conns, k)), sweep, nextConn)
    ensures Count(KeepIf(p.conns, k), Live) <= Count(p.conns, Live)
  {
    var q := p.(conns := KeepIf(p.conns, k));
    KeepIfKeeps(p.conns, k);
    forall d | d in q.conns ensures TrackedConn(q, sweep, nextConn, d) {
      assert d in p.conns && TrackedConn(p, sweep, nextConn, d);
    }
  }

  lemma UnknownReturned(p: Pool, id: nat, sweep: set<nat>, nextConn: nat)
    requires Tracked(p, sweep, nextConn) && id in p.holders && IndexOf(p.conns, id) == |p.conns|
    ensures Tracked(p.(holders := p.holders - multiset{id}), sweep, nextConn)
  {
    var q := p.(holders := p.holders - multiset{id});
    forall d | d in q.conns ensures TrackedConn(q, sweep, nextConn, d) {
      assert TrackedConn(p, sweep, nextConn, d);
    }
  }

  lemma ReturnedTracked(p: Pool, id: nat, keepAlive: bool, sweep: set<nat>, nextConn: nat)
    requires Tracked(p, sweep, nextConn) && id in p.holders
    ensures Tracked(Returned(p, id, keepAlive), sweep, nextConn)
    ensures Count(Returned(p, id, keepAlive).conns, Live) <= Count(p.conns, Live)
  {
    var i := IndexOf(p.conns, id);
    if i == |p.conns| {
      UnknownReturned(p, id, sweep, nextConn);
    } else {
      LoweredKeeps(p, i, sweep, nextConn);
      EvictedKeeps(Lowered(p, i), NotConn(id), sweep, nextConn);
    }
  }

  lemma ReturnedIs(p: Pool, id: nat, keepAlive: bool)
    ensures var q := Returned(p, id, keepAlive);
            q == p.(conns := q.conns, holders := p.holders - multiset{id})
  {
  }

  lemma ReturnedKeeps(p: Pool, id: nat, keepAlive: bool, sweep: set<nat>, nextConn: nat)
    requires Tracked(p, sweep, nextConn) && WithinBudget(p) && id in p.holders
    ensures var q := Returned(p, id, keepAlive);
            && Tracked(q, sweep, nextConn) && WithinBudget(q)
            && q == p.(conns := q.conns, holders := p.holders - multiset{id})
  {
    ReturnedTracked(p, id, keepAlive, sweep, nextConn);
    ReturnedIs(p, id, keepAlive);
  }

  lemma ReleaseKeeps(p: Pool, id: nat, keepAlive: bool, clock: Clock, sweep: set<nat>, nextConn: nat, nextReq: nat)
    requires Sound(p, sweep, nextConn, nextReq) && id in p.holders
    ensures var q := HandleRelease(p, id, keepAlive, clock);
            && Sound(q, sweep, nextConn, nextReq)
            && q.sweeping == p.sweeping && q.maxConns == p.maxConns
            && (Owed(q) <==>
                !(Stranded(ServeWaiters(Returned(p, id, keepAlive))) && clock.atDial && !clock.atFlush))
  {
    ReturnedKeeps(p, id, keepAlive, sweep, nextConn);
    var r := Returned(p, id, keepAlive);
    ServeKeeps(r, sweep, nextConn, nextReq);
    DialOrFlushKeeps(ServeWaiters(r), clock, DialBackoff, sweep, nextConn, nextReq);
  }

  lemma DialOkKeeps(p: Pool, backoff: bool, sweep: set<nat>, nextConn: nat, nextReq: nat)
    requires Sound(p, sweep, nextConn, nextReq) && p.dials > 0
    ensures var q := HandleDialOk(p, nextConn, backoff);
            && Sound(q, sweep, nextConn + 1, nextReq)
            && q.sweeping == p.sweeping && q.maxConns == p.maxConns
            && Owed(q)
  {
    var c := Conn(nextConn, true, 0, false);
    var r := p.(dials := p.dials - 1, conns := p.conns + [c]);
    CountAppend(p.conns, c, Live);
    assert Tracked(r, sweep, nextConn + 1) by {
      assert nextConn !in p.holders;
      forall d | d in r.conns ensures TrackedConn(r, sweep, nextConn + 1, d) {
        assert d in p.conns || d == c;
      }
      forall i | 0 <= i < |p.conns| ensures p.conns[i].id != nextConn {
        assert p.conns[i] in p.conns;
      }
    }
    ServeKeeps(r, sweep, nextConn + 1, nextReq);
    var s := ServeWaiters(r);
    EnsureDialKeeps(s, backoff, sweep, nextConn + 1, nextReq);
    BusyOrReserved(s, sweep, nextConn + 1);
  }

  lemma LastRefusedInOrder(p: Pool, nextReq: nat)
    requires Orderly(p, nextReq) && p.waiters != []
    ensures var n := |p.waiters| - 1;
            Orderly(Refuse(p.(waiters := p.waiters[..n]), p.waiters[n], Reason.DialError), nextReq)
  {
    var n := |p.waiters| - 1;
    RefuseInOrder(p, n, Reason.DialError, nextReq);
    assert Without(p.waiters, n) == p.waiters[..n];
  }

  lemma DialErrorRefusalKeeps(p: Pool, sweep: set<nat>, nextConn: nat, nextReq: nat)
    requires Sound(p, sweep, nextConn, nextReq) && p.dials > 0
    ensures Sound(DialErrorRefusal(p), sweep, nextConn, nextReq)
    ensures DialErrorRefusal(p).sweeping == p.sweeping && DialErrorRefusal(p).maxConns == p.maxConns
  {
    var d := p.(dials := p.dials - 1);
    assert Orderly(d, nextReq);
    if |p.waiters| > Count(p.conns, ReservedIdle) {
      LastRefusedInOrder(d, nextReq);
    }
    SameConnsTracked(p, DialErrorRefusal(p), sweep, nextConn);
  }

  lemma DialErrorKeeps(p: Pool, clock: Clock, sweep: set<nat>, nextConn: nat, nextReq: nat)
    requires Sound(p, sweep, nextConn, nextReq) && p.dials > 0
    ensures var q := HandleDialError(p, clock);
            && Sound(q, sweep, nextConn, nextReq)
            && q.sweeping == p.sweeping && q.maxConns == p.maxConns
            && (Owed(q) <==> !(Stranded(DialErrorRefusal(p)) && clock.atDial && !clock.atFlush))
  {
    DialErrorRefusalKeeps(p, sweep, nextConn, nextReq);
    DialOrFlushKeeps(DialErrorRefusal(p), clock, Reason.DialError, sweep, nextConn, nextReq);
  }

  /** The sweep outstanding once a tick has run. */
  function SweepAfterTick(p: Pool, expired: set<nat>, sweep: set<nat>): set<nat> {
    if p.sweeping then sweep
    else Candidates(KeepIf(KeepIf(p.conns, NotExpired(expired)), Alive))
  }

  lemma SweptKeeps(p: Pool, expired: set<nat>, sweep: set<nat>, nextConn: nat)
    requires Tracked(p, sweep, nextConn) && WithinBudget(p)
    ensures var q := Swept(p, expired);
            && Tracked(q, SweepAfterTick(p, expired, sweep), nextConn) && WithinBudget(q)
            && (NobodyIdle(p) ==> NobodyIdle(q))
            && q == p.(conns := q.conns, sweeping := q.sweeping)
  {
    var unexpired := KeepIf(p.conns, NotExpired(expired));
    var live := KeepIf(unexpired, Alive);
    KeepIfKeeps(p.conns, NotExpired(expired));
    KeepIfKeeps(unexpired, Alive);
    assert forall c :: c in live ==> c in p.conns;
    ReserveMarks(live);
    if !p.sweeping {
      var q := Swept(p, expired);
      var now := SweepAfterTick(p, expired, sweep);
      forall c | c in q.conns ensures TrackedConn(q, now, nextConn, c) && (NobodyIdle(p) ==> !Idle(c)) {
        var i :| 0 <= i < |live| && q.conns[i] == c;
        assert live[i] in live;
        assert live[i].active == 0 ==> live[i].id in now;
      }
    }
  }

  lemma TickKeeps(p: Pool, expired: set<nat>, gone: set<nat>, clock: Clock,
                  sweep: set<nat>, nextConn: nat, nextReq: nat)
    requires Sound(p, sweep, nextConn, nextReq)
    ensures var q := HandleTick(p, expired, gone, clock);
            && Sound(q, SweepAfterTick(p, expired, sweep), nextConn, nextReq)
            && q.maxConns == p.maxConns
            && (Owed(q) <==>
                !(Stranded(PruneFrom(Swept(p, expired), gone, [])) && clock.atDial && !clock.atFlush))
  {
    SweptKeeps(p, expired, sweep, nextConn);
    var s := Swept(p, expired);
    assert Orderly(s, nextReq);
    assert [] + s.waiters == s.waiters;
    PruneInOrder(s, gone, [], nextReq);
    DialOrFlushKeeps(PruneFrom(s, gone, []), clock, DialBackoff, SweepAfterTick(p, expired, sweep), nextConn, nextReq);
  }

  lemma StatsKeeps(p: Pool, sweep: set<nat>, nextConn: nat, nextReq: nat)
    requires Sound(p, sweep, nextConn, nextReq)
    ensures Sound(HandleStats(p), sweep, nextConn, nextReq)
    ensures Owed(p) <==> Owed(HandleStats(p))
  {
    KeepIfKeeps(p.conns, Alive);
    var q := HandleStats(p);
    forall c | c in q.conns ensures TrackedConn(q, sweep, nextConn, c) {
      assert TrackedConn(p, sweep, nextConn, c);
    }
  }

  lemma UnreservedTracked(p: Pool, sweep: set<nat>, nextConn: nat)
    requires Tracked(p, sweep, nextConn)
    ensures Tracked(p.(conns := Unreserve(p.conns, sweep), sweeping := false), {}, nextConn)
  {
    var q := p.(conns := Unreserve(p.conns, sweep), sweeping := false);
    UnreserveClears(p.conns, sweep);
    forall c | c in q.conns ensures TrackedConn(q, {}, nextConn, c) {
      var i :| 0 <= i < |q.conns| && q.conns[i] == c;
      assert p.conns[i] in p.conns;
    }
  }

  lemma UnsweptKeeps(p: Pool, sweep: set<nat>, dead: seq<nat>, nextConn: nat)
    requires Tracked(p, sweep, nextConn) && WithinBudget(p)
    ensures var q := Unswept(p, sweep, dead);
            && Tracked(q, {}, nextConn) && WithinBudget(q)
            && q == p.(conns := q.conns, sweeping := false)
  {
    var u := p.(conns := Unreserve(p.conns, sweep), sweeping := false);
    UnreservedTracked(p, sweep, nextConn);
    UnreserveClears(p.conns, sweep);
    EvictAllKeeps(u.conns, dead);
    var q := Unswept(p, sweep, dead);
    forall c | c in q.conns ensures TrackedConn(q, {}, nextConn, c) {
      assert TrackedConn(u, {}, nextConn, c);
    }
  }

  lemma SweepDoneKeeps(p: Pool, sweep: set<nat>, dead: seq<nat>, clock: Clock, nextConn: nat, nextReq: nat)
    requires Sound(p, sweep, nextConn, nextReq)
    ensures var q := HandleSweepDone(p, sweep, dead, clock);
            && Sound(q, {}, nextConn, nextReq)
            && !q.sweeping && q.maxConns == p.maxConns
            && (Owed(q) <==>
                !(Stranded(ServeWaiters(Unswept(p, sweep, dead))) && clock.atDial && !clock.atFlush))
  {
    UnsweptKeeps(p, sweep, dead, nextConn);
    var u := Unswept(p, sweep, dead);
    assert Orderly(u, nextReq);
    ServeKeeps(u, {}, nextConn, nextReq);
    DialOrFlushKeeps(ServeWaiters(u), clock, DialBackoff, {}, nextConn, nextReq);
  }

  lemma DieKeeps(p: Pool, id: nat, sweep: set<nat>, nextConn: nat, nextReq: nat)
    requires Sound(p, sweep, nextConn, nextReq)
    ensures Sound(p.(conns := Die(p.conns, id)), sweep, nextConn, nextReq)
    ensures Owed(p) <==> Owed(p.(conns := Die(p.conns, id)))
  {
    var i := IndexOf(p.conns, id);
    var q := p.(conns := Die(p.conns, id));
    if i < |p.conns| {
      CountUpdate(p.conns, i, q.conns[i], Live);
    }
    forall c | c in q.conns ensures TrackedConn(q, sweep, nextConn, c) && (NobodyIdle(p) ==> !Idle(c)) {
      var j :| 0 <= j < |q.conns| && q.conns[j] == c;
      assert p.conns[j] in p.conns;
    }
  }

  lemma CloseKeeps(p: Pool, sweep: set<nat>, nextConn: nat, nextReq: nat)
    requires Sound(p, sweep, nextConn, nextReq)
    ensures Sound(HandleClose(p), sweep, nextConn, nextReq)
    ensures HandleClose(p).waiters == [] && HandleClose(p).maxConns == p.maxConns
  {
    RefuseAllInOrder(p, PoolClosed, nextReq);
  }

  // --------------------------------------------------------------------- runs

  /** The actor with what is outside it: the sweep it has out, and the numbers the next
      connection and the next request will get. */
  datatype World = World(pool: Pool, sweep: set<nat>, nextConn: nat, nextReq: nat, closed: bool)

  datatype Action =
    | Acquire(backoff: bool)
    | Release(id: nat, keepAlive: bool, clock: Clock)
    | DialDone(backoff: bool)
    | DialFails(clock: Clock)
    | Tick(expired: set<nat>, gone: set<nat>, clock: Clock)
    | SweepDone(dead: seq<nat>, clock: Clock)
    | Stats
    | Dies(id: nat)
    | Close

  /** Within one handler a backoff window can expire, but not open. */
  predicate Possible(clock: Clock) {
    clock.atFlush ==> clock.atDial
  }

  predicate Enabled(w: World, a: Action) {
    && !w.closed
    && match a
       case Acquire(_) => true
       case Release(id, _, clock) => id in w.pool.holders && Possible(clock)
       case DialDone(_) => w.pool.dials > 0
       case DialFails(clock) => w.pool.dials > 0 && Possible(clock)
       case Tick(_, _, clock) => Possible(clock)
       case SweepDone(dead, clock) => w.pool.sweeping && (forall d :: d in dead ==> d in w.sweep) && Possible(clock)
       case Stats => true
       case Dies(_) => true
       case Close => true
  }

  function Step(w: World, a: Action): World
    requires Enabled(w, a)
  {
    var p := w.pool;
    match a
    case Acquire(backoff) => w.(pool := HandleAcquire(p, w.nextReq, backoff), nextReq := w.nextReq + 1)
    case Release(id, keepAlive, clock) => w.(pool := HandleRelease(p, id, keepAlive, clock))
    case DialDone(backoff) => w.(pool := HandleDialOk(p, w.nextConn, backoff), nextConn := w.nextConn + 1)
    case DialFails(clock) => w.(pool := HandleDialError(p, clock))
    case Tick(expired, gone, clock) =>
      w.(pool := HandleTick(p, expired, gone, clock), sweep := SweepAfterTick(p, expired, w.sweep))
    case SweepDone(dead, clock) => w.(pool := HandleSweepDone(p, w.sweep, dead, clock), sweep := {})
    case Stats => w.(pool := HandleStats(p))
    case Dies(id) => w.(pool := p.(conns := Die(p.conns, id)))
    case Close => w.(pool := HandleClose(p), closed := true)
  }

  function Empty(maxConns: nat): World {
    World(Pool(maxConns, [], [], 0, false, [], multiset{}), {}, 0, 0, false)
  }

  predicate IsRun(w: World, run: seq<Action>)
    decreases |run|
  {
    run == [] || (Enabled(w, run[0]) && IsRun(Step(w, run[0]), run[1..]))
  }

  function After(w: World, run: seq<Action>): World
    requires IsRun(w, run)
    decreases |run|
  {
    if run == [] then w else After(Step(w, run[0]), run[1..])
  }

  ghost predicate Inv(w: World) {
    && Sound(w.pool, w.sweep, w.nextConn, w.nextReq)
    && (w.closed ==> w.pool.waiters == [])
  }

  /** The two clock readings of the step agree. */
  predicate Steady(a: Action) {
    match a
    case Release(_, _, c) => c.atDial == c.atFlush
    case DialFails(c) => c.atDial == c.atFlush
    case Tick(_, _, c) => c.atDial == c.atFlush
    case SweepDone(_, c) => c.atDial == c.atFlush
    case _ => true
  }

  lemma DialOrSweepKeeps(w: World, a: Action)
    requires Inv(w) && Enabled(w, a) && (a.DialDone? || a.DialFails? || a.Tick? || a.SweepDone?)
    ensures Inv(Step(w, a)) && Step(w, a).pool.maxConns == w.pool.maxConns
    ensures Owed(w.pool) && Steady(a) ==> Owed(Step(w, a).pool)
  {
    var p := w.pool;
    match a
    case DialDone(backoff) =>
      assert Step(w, a).pool == HandleDialOk(p, w.nextConn, backoff);
      DialOkKeeps(p, backoff, w.sweep, w.nextConn, w.nextReq);
    case DialFails(clock) =>
      assert Step(w, a).pool == HandleDialError(p, clock);
      DialErrorKeeps(p, clock, w.sweep, w.nextConn, w.nextReq);
    case Tick(expired, gone, clock) =>
      assert Step(w, a).pool == HandleTick(p, expired, gone, clock);
      TickKeeps(p, expired, gone, clock, w.sweep, w.nextConn, w.nextReq);
    case SweepDone(dead, clock) =>
      assert Step(w, a).pool == HandleSweepDone(p, w.sweep, dead, clock);
      SweepDoneKeeps(p, w.sweep, dead, clock, w.nextConn, w.nextReq);
  }

  lemma AcquireStepKeeps(w: World, backoff: bool)
    requires Inv(w) && !w.closed
    ensures var n := w.(pool := HandleAcquire(w.pool, w.nextReq, backoff), nextReq := w.nextReq + 1);
      && Inv(n) && n.pool.maxConns == w.pool.maxConns
      && (Owed(w.pool) ==> Owed(n.pool))
  {
    AcquireKeeps(w.pool, backoff, w.sweep, w.nextConn, w.nextReq);
  }

  lemma ReleaseStepKeeps(w: World, id: nat, keepAlive: bool, clock: Clock)
    requires Inv(w) && !w.closed && id in w.pool.holders
    ensures var n := w.(pool := HandleRelease(w.pool, id, keepAlive, clock));
      && Inv(n) && n.pool.maxConns == w.pool.maxConns
      && ((clock.atDial ==> clock.atFlush) ==> Owed(n.pool))
  {
    ReleaseKeeps(w.pool, id, keepAlive, clock, w.sweep, w.nextConn, w.nextReq);
  }

  lemma OtherKeeps(w: World, a: Action)
    requires Inv(w) && Enabled(w, a) && (a.Stats? || a.Dies? || a.Close?)
    ensures Inv(Step(w, a)) && Step(w, a).pool.maxConns == w.pool.maxConns
    ensures Owed(w.pool) && Steady(a) ==> Owed(Step(w, a).pool)
  {
    var p := w.pool;
    match a
    case Stats =>
      assert Step(w, a).pool == HandleStats(p);
      StatsKeeps(p, w.sweep, w.nextConn, w.nextReq);
    case Dies(id) =>
      assert Step(w, a).pool == p.(conns := Die(p.conns, id));
      DieKeeps(p, id, w.sweep, w.nextConn, w.nextReq);
    case Close =>
      assert Step(w, a).pool == HandleClose(p);
      CloseKeeps(p, w.sweep, w.nextConn, w.nextReq);
  }

  lemma CallerStepIs(w: World, a: Action)
    requires Enabled(w, a)
    ensures a.Acquire? ==>
      Step(w, a) == w.(pool := HandleAcquire(w.pool, w.nextReq, a.backoff), nextReq := w.nextReq + 1)
    ensures a.Release? ==> Step(w, a) == w.(pool := HandleRelease(w.pool, a.id, a.keepAlive, a.clock))
  {
  }

  lemma StepKeeps(w: World, a: Action)
    requires Inv(w) && Enabled(w, a)
    ensures Inv(Step(w, a)) && Step(w, a).pool.maxConns == w.pool.maxConns
    ensures Owed(w.pool) && Steady(a) ==> Owed(Step(w, a).pool)
  {
    if a.Acquire? {
      CallerStepIs(w, a);
      AcquireStepKeeps(w, a.backoff);
    } else if a.Release? {
      CallerStepIs(w, a);
      ReleaseStepKeeps(w, a.id, a.keepAlive, a.clock);
    } else if a.Stats? || a.Dies? || a.Close? {
      OtherKeeps(w, a);
    } else {
      DialOrSweepKeeps(w, a);
    }
  }

  lemma {:induction false} RunKeeps(w: World, run: seq<Action>)
    requires Inv(w) && IsRun(w, run)
    ensures Inv(After(w, run)) && After(w, run).pool.maxConns == w.pool.maxConns
    decreases |run|
  {
    if run != [] {
      StepKeeps(w, run[0]);
      RunKeeps(Step(w, run[0]), run[1..]);
    }
  }

  lemma EmptyInv(maxConns: nat)
    requires maxConns >= 1
    ensures Inv(Empty(maxConns))
  {
  }

  // ------------------------------------------------------------- main results

  /** In every reachable state: the budget holds; every connection has at most one holder,
      and none while the sweep probes it; and nobody waits while a candidate is idle. */
  lemma ExclusiveWithinBudget(maxConns: nat, run: seq<Action>)
    requires maxConns >= 1 && IsRun(Empty(maxConns), run)
    ensures var p := After(Empty(maxConns), run).pool;
            && p.maxConns == maxConns
            && Count(p.conns, Live) + p.dials <= maxConns
            && (forall id :: p.holders[id] <= 1)
            && (forall c :: c in p.conns ==> c.active == p.holders[c.id] && (c.probing ==> p.holders[c.id] == 0))
            && (p.waiters == [] || NobodyIdle(p))
  {
    EmptyInv(maxConns);
    RunKeeps(Empty(maxConns), run);
  }

  /** Every accepted request is queued or has had its one reply; grants go out in arrival
      order; and once the pool has closed every accepted request has had exactly one. */
  lemma OneReplyEachInOrder(maxConns: nat, run: seq<Action>)
    requires maxConns >= 1 && IsRun(Empty(maxConns), run)
    ensures var w := After(Empty(maxConns), run);
            && Increasing(GrantedReqs(w.pool.replies) + w.pool.waiters)
            && (forall r: nat :: Answered(w.pool.replies)[r] + multiset(w.pool.waiters)[r] == Bit(r < w.nextReq))
            && (w.closed ==> forall r: nat :: Answered(w.pool.replies)[r] == Bit(r < w.nextReq))
  {
    EmptyInv(maxConns);
    RunKeeps(Empty(maxConns), run);
  }

  // ------------------------------------------- exactly when the wake-up is lost

  lemma {:induction false} ServingAddsHolders(p: Pool)
    ensures p.holders <= ServeWaiters(p).holders
    ensures p.waiters != [] && FirstIdle(p.conns) < |p.conns| ==> ServeWaiters(p).holders != multiset{}
    decreases |p.waiters|
  {
    var i := FirstIdle(p.conns);
    if p.waiters != [] && i < |p.conns| {
      var q := Grant(p.(waiters := p.waiters[1..]), p.waiters[0], i);
      assert p.conns[i].id in q.holders;
      ServingAddsHolders(q);
    }
  }

  lemma ServedStranded(p: Pool)
    ensures Stranded(ServeWaiters(p)) <==> Stranded(p) && NobodyIdle(p)
  {
    FirstIdleNone(p);
    ServingAddsHolders(p);
    if p.waiters != [] && !NobodyIdle(p) {
      assert ServeWaiters(p).holders != multiset{};
    } else {
      assert ServeWaiters(p) == p;
    }
  }

  predicate Expired(clock: Clock) {
    clock.atDial && !clock.atFlush
  }

  /** The one way each handler loses the wake-up its waiters were owed: it consumes the
      last thing outstanding, gains nothing from it, and the backoff expires meanwhile. */
  predicate LosesWakeUp(p: Pool, a: Action) {
    match a
    case Release(id, keepAlive, clock) =>
      && Expired(clock)
      && p.waiters != [] && p.dials <= 0 && !p.sweeping && p.holders == multiset{id}
      && (keepAlive ==> forall c | c in p.conns :: c.id == id ==> !c.alive)
    case DialFails(clock) =>
      Expired(clock) && |p.waiters| > 1 && p.dials == 1 && !p.sweeping && p.holders == multiset{}
    case SweepDone(dead, clock) =>
      && Expired(clock)
      && p.waiters != [] && p.dials <= 0 && p.holders == multiset{}
      && (forall c | c in p.conns :: c.alive ==> c.id in dead)
    case _ => false
  }

  lemma LastHolder(holders: multiset<nat>, id: nat)
    requires id in holders
    ensures holders - multiset{id} == multiset{} <==> holders == multiset{id}
  {
  }

  lemma ReleaseLoses(w: World, id: nat, keepAlive: bool)
    requires Inv(w) && id in w.pool.holders
    ensures Stranded(ServeWaiters(Returned(w.pool, id, keepAlive))) <==>
            LosesWakeUp(w.pool, Release(id, keepAlive, Clock(true, false)))
  {
    var p := w.pool;
    var r := Returned(p, id, keepAlive);
    ReturnedKeeps(p, id, keepAlive, w.sweep, w.nextConn);
    ServedStranded(r);
    LastHolder(p.holders, id);
    if Stranded(r) {
      ReturnedIdle(w, id, keepAlive);
    }
  }

  /** With no other holder and no sweep, the pool is left with a candidate exactly when the
      returned connection is kept. */
  lemma ReturnedIdle(w: World, id: nat, keepAlive: bool)
    requires Inv(w) && id in w.pool.holders && Stranded(Returned(w.pool, id, keepAlive))
    ensures NobodyIdle(Returned(w.pool, id, keepAlive)) <==>
            (keepAlive ==> forall c | c in w.pool.conns :: c.id == id ==> !c.alive)
  {
    var p, r := w.pool, Returned(w.pool, id, keepAlive);
    OthersDead(w, id, keepAlive);
    var i := IndexOf(p.conns, id);
    if i < |p.conns| {
      KeptIsIdle(w, id, keepAlive, i);
    } else {
      forall c | c in p.conns ensures c.id != id {
        var j :| 0 <= j < |p.conns| && p.conns[j] == c;
      }
    }
  }

  lemma OthersDead(w: World, id: nat, keepAlive: bool)
    requires Inv(w) && id in w.pool.holders && Stranded(Returned(w.pool, id, keepAlive))
    ensures forall c :: c in w.pool.conns && c.id != id ==> !Idle(c) && !c.alive
  {
    var p, r := w.pool, Returned(w.pool, id, keepAlive);
    forall c | c in p.conns && c.id != id ensures !Idle(c) && !c.alive {
      assert TrackedConn(p, w.sweep, w.nextConn, c);
      assert r.holders[c.id] == 0;
    }
  }

  lemma KeptIsIdle(w: World, id: nat, keepAlive: bool, i: nat)
    requires Inv(w) && id in w.pool.holders && Stranded(Returned(w.pool, id, keepAlive))
    requires i == IndexOf(w.pool.conns, id) < |w.pool.conns|
    requires forall c :: c in w.pool.conns && c.id != id ==> !Idle(c)
    ensures NobodyIdle(Returned(w.pool, id, keepAlive)) <==> !(keepAlive && w.pool.conns[i].alive)
    ensures (forall c | c in w.pool.conns :: c.id == id ==> !c.alive) <==> !w.pool.conns[i].alive
  {
    var p, r := w.pool, Returned(w.pool, id, keepAlive);
    var c := p.conns[i].(active := p.conns[i].active - 1);
    var conns := p.conns[i := c];
    assert p.conns[i] in p.conns && TrackedConn(p, w.sweep, w.nextConn, p.conns[i]);
    forall d | d in p.conns && d.id == id ensures d == p.conns[i] {
      var j :| 0 <= j < |p.conns| && p.conns[j] == d;
    }
    if keepAlive && c.alive {
      assert conns[i] in conns && Idle(c);
    } else {
      KeepIfKeeps(conns, NotConn(id));
      forall d | d in r.conns ensures !Idle(d) {
        var j :| 0 <= j < |conns| && conns[j] == d;
        assert p.conns[j] in p.conns;
      }
    }
  }

  lemma DialFailureLoses(w: World)
    requires Inv(w) && w.pool.dials > 0
    ensures Stranded(DialErrorRefusal(w.pool)) <==> LosesWakeUp(w.pool, DialFails(Clock(true, false)))
  {
    BusyOrReserved(w.pool, w.sweep, w.nextConn);
  }

  lemma UnreservedAll(w: World)
    requires Inv(w)
    ensures var u := Unreserve(w.pool.conns, w.sweep);
            |u| == |w.pool.conns| && forall i :: 0 <= i < |u| ==> u[i] == w.pool.conns[i].(probing := false)
  {
    var p, u := w.pool, Unreserve(w.pool.conns, w.sweep);
    UnreserveClears(p.conns, w.sweep);
    forall i | 0 <= i < |p.conns| ensures u[i] == p.conns[i].(probing := false) {
      assert p.conns[i] in p.conns && TrackedConn(p, w.sweep, w.nextConn, p.conns[i]);
    }
  }

  /** What the sweep leaves: the same connections without their reservation, less the dead. */
  lemma UnsweptConns(w: World, dead: seq<nat>)
    requires Inv(w)
    ensures var r := Unswept(w.pool, w.sweep, dead).conns;
            && (forall c :: c in w.pool.conns && c.id !in dead ==> c.(probing := false) in r)
            && (forall d :: d in r ==> d.id !in dead && exists c :: c in w.pool.conns && d == c.(probing := false))
  {
    var p, u := w.pool, Unreserve(w.pool.conns, w.sweep);
    var r := Unswept(p, w.sweep, dead).conns;
    UnreservedAll(w);
    EvictAllKeeps(u, dead);
    forall c | c in p.conns && c.id !in dead ensures c.(probing := false) in r {
      var i :| 0 <= i < |p.conns| && p.conns[i] == c;
      assert u[i] in u;
    }
    forall d | d in r ensures exists c :: c in p.conns && d == c.(probing := false) {
      var i :| 0 <= i < |u| && u[i] == d;
      assert p.conns[i] in p.conns;
    }
  }

  lemma UnsweptIdle(w: World, dead: seq<nat>)
    requires Inv(w) && w.pool.holders == multiset{}
    ensures NobodyIdle(Unswept(w.pool, w.sweep, dead)) <==>
            forall c | c in w.pool.conns :: c.alive ==> c.id in dead
  {
    UnsweptConns(w, dead);
    forall c | c in w.pool.conns ensures c.active == 0 {
      assert TrackedConn(w.pool, w.sweep, w.nextConn, c);
    }
  }

  lemma SweepLoses(w: World, dead: seq<nat>)
    requires Inv(w)
    ensures Stranded(ServeWaiters(Unswept(w.pool, w.sweep, dead))) <==>
            LosesWakeUp(w.pool, SweepDone(dead, Clock(true, false)))
  {
    ServedStranded(Unswept(w.pool, w.sweep, dead));
    if w.pool.holders == multiset{} {
      UnsweptIdle(w, dead);
    }
  }

  lemma ReleaseExact(w: World, id: nat, keepAlive: bool, clock: Clock)
    requires Inv(w) && id in w.pool.holders
    ensures Owed(HandleRelease(w.pool, id, keepAlive, clock)) <==>
            !LosesWakeUp(w.pool, Release(id, keepAlive, clock))
  {
    ReleaseKeeps(w.pool, id, keepAlive, clock, w.sweep, w.nextConn, w.nextReq);
    ReleaseLoses(w, id, keepAlive);
  }

  lemma SweepDoneExact(w: World, dead: seq<nat>, clock: Clock)
    requires Inv(w)
    ensures Owed(HandleSweepDone(w.pool, w.sweep, dead, clock)) <==>
            !LosesWakeUp(w.pool, SweepDone(dead, clock))
  {
    SweepDoneKeeps(w.pool, w.sweep, dead, clock, w.nextConn, w.nextReq);
    SweepLoses(w, dead);
  }

  /** A tick consumes nothing that was owed. */
  lemma TickNeverLoses(w: World, expired: set<nat>, gone: set<nat>, clock: Clock)
    requires Inv(w) && Owed(w.pool)
    ensures Owed(HandleTick(w.pool, expired, gone, clock))
  {
    var p := w.pool;
    var s := Swept(p, expired);
    SweptKeeps(p, expired, w.sweep, w.nextConn);
    assert [] + s.waiters == s.waiters;
    PruneInOrder(s, gone, [], w.nextReq);
    TickKeeps(p, expired, gone, clock, w.sweep, w.nextConn, w.nextReq);
  }

  /** From a state where a wake-up is owed, a step loses it exactly when LosesWakeUp says. */
  lemma WakeUpLostExactlyWhen(w: World, a: Action)
    requires Inv(w) && Enabled(w, a) && Owed(w.pool)
    ensures Owed(Step(w, a).pool) <==> !LosesWakeUp(w.pool, a)
  {
    match a
    case Release(id, keepAlive, clock) => ReleaseExact(w, id, keepAlive, clock);
    case DialFails(clock) =>
      DialErrorKeeps(w.pool, clock, w.sweep, w.nextConn, w.nextReq);
      DialFailureLoses(w);
    case SweepDone(dead, clock) => SweepDoneExact(w, dead, clock);
    case Tick(expired, gone, clock) => TickNeverLoses(w, expired, gone, clock);
    case Acquire(_) => StepKeeps(w, a);
    case DialDone(_) => StepKeeps(w, a);
    case Stats => StepKeeps(w, a);
    case Dies(_) => StepKeeps(w, a);
    case Close => StepKeeps(w, a);
  }

  predicate NeverLoses(w: World, run: seq<Action>)
    requires IsRun(w, run)
    decreases |run|
  {
    run == [] || (!LosesWakeUp(w.pool, run[0]) && NeverLoses(Step(w, run[0]), run[1..]))
  }

  /** Whoever waits is owed a wake-up before every step of a run and after the last. */
  ghost predicate OwedThroughout(w: World, run: seq<Action>)
    requires IsRun(w, run)
    decreases |run|
  {
    Owed(w.pool) && (run == [] || OwedThroughout(Step(w, run[0]), run[1..]))
  }

  lemma {:induction false} OwedUntilLost(w: World, run: seq<Action>)
    requires Inv(w) && IsRun(w, run) && Owed(w.pool)
    ensures OwedThroughout(w, run) <==> NeverLoses(w, run)
    ensures NeverLoses(w, run) ==> Owed(After(w, run).pool)
    decreases |run|
  {
    if run != [] {
      WakeUpLostExactlyWhen(w, run[0]);
      if !LosesWakeUp(w.pool, run[0]) {
        StepKeeps(w, run[0]);
        OwedUntilLost(Step(w, run[0]), run[1..]);
      }
    }
  }

  /** In every run, up to the first step that loses it and no further, whoever waits is owed
      a wake-up. */
  lemma WakeUpOwed(maxConns: nat, run: seq<Action>)
    requires maxConns >= 1 && IsRun(Empty(maxConns), run)
    ensures OwedThroughout(Empty(maxConns), run) <==> NeverLoses(Empty(maxConns), run)
    ensures NeverLoses(Empty(maxConns), run) ==> Owed(After(Empty(maxConns), run).pool)
  {
    EmptyInv(maxConns);
    OwedUntilLost(Empty(maxConns), run);
  }

  lemma RunFrom(w: World, a: Action, rest: seq<Action>)
    requires Enabled(w, a) && IsRun(Step(w, a), rest)
    ensures IsRun(w, [a] + rest) && After(w, [a] + rest) == After(Step(w, a), rest)
  {
    assert ([a] + rest)[1..] == rest;
  }

  /** The run ends with waiters stranded. */
  ghost predicate Strands(w: World, run: seq<Action>) {
    IsRun(w, run) && Stranded(After(w, run).pool)
  }

  lemma StrandsFrom(w: World, a: Action, rest: seq<Action>, next: World)
    requires Enabled(w, a) && Step(w, a) == next && Strands(next, rest)
    ensures Strands(w, [a] + rest)
  {
    RunFrom(w, a, rest);
  }

  /** A pool of two whose only connection is held, after one request was granted. */
  function OneHeld(replies: seq<Reply>, waiters: seq<nat>, dials: int, nextReq: nat): World {
    World(Pool(2, [Conn(0, true, 1, false)], waiters, dials, false, replies, multiset{0}), {}, 1, nextReq, false)
  }

  const DENIED := [Granted(0, 0), Refused(1, DialError)]
  const LAST := Release(0, false, Clock(true, false))

  lemma ReleaseStrands()
    ensures Strands(OneHeld(DENIED, [2], 0, 3), [LAST])
  {
    var w := OneHeld(DENIED, [2], 0, 3);
    var back := [Conn(0, true, 0, false)];
    assert w.pool.conns[0 := back[0]] == back;
    assert back[..0] == [];
    assert KeepIf(back, NotConn(0)) == [];
    assert Returned(w.pool, 0, false) == Pool(2, [], [2], 0, false, DENIED, multiset{});
    assert Stranded(Step(w, LAST).pool);
    RunFrom(w, LAST, []);
    assert [LAST] + [] == [LAST];
  }

  lemma QueueBehindHeld()
    ensures Strands(OneHeld(DENIED, [], 0, 2), [Acquire(true), LAST])
  {
    ReleaseStrands();
    var held := [Conn(0, true, 1, false)];
    assert held[..0] == [];
    assert Count(held, Live) == 1 && Count(held, ReservedIdle) == 0;
    StrandsFrom(OneHeld(DENIED, [], 0, 2), Acquire(true), [LAST], OneHeld(DENIED, [2], 0, 3));
    assert [Acquire(true)] + [LAST] == [Acquire(true), LAST];
  }

  lemma SecondDialFails()
    ensures Strands(OneHeld([Granted(0, 0)], [1], 1, 2), [DialFails(Clock(true, true)), Acquire(true), LAST])
  {
    QueueBehindHeld();
    var w := OneHeld([Granted(0, 0)], [1], 1, 2);
    var held := [Conn(0, true, 1, false)];
    assert held[..0] == [];
    assert Count(held, Live) == 1 && Count(held, ReservedIdle) == 0;
    assert [1][..0] == [];
    assert DialErrorRefusal(w.pool) == OneHeld(DENIED, [], 0, 2).pool;
    StrandsFrom(w, DialFails(Clock(true, true)), [Acquire(true), LAST], OneHeld(DENIED, [], 0, 2));
    assert [DialFails(Clock(true, true))] + [Acquire(true), LAST] ==
           [DialFails(Clock(true, true)), Acquire(true), LAST];
  }

  lemma FirstDialServes()
    ensures Strands(World(Pool(2, [], [0, 1], 2, false, [], multiset{}), {}, 0, 2, false),
                    [DialDone(false), DialFails(Clock(true, true)), Acquire(true), LAST])
  {
    SecondDialFails();
    var w := World(Pool(2, [], [0, 1], 2, false, [], multiset{}), {}, 0, 2, false);
    var idle, held := [Conn(0, true, 0, false)], [Conn(0, true, 1, false)];
    assert [] + idle == idle && idle[0 := held[0]] == held;
    assert [0, 1][1..] == [1] && [] + [Granted(0, 0)] == [Granted(0, 0)];
    var arrived := w.pool.(dials := 1, conns := idle);
    assert Grant(arrived.(waiters := [1]), 0, 0) == OneHeld([Granted(0, 0)], [1], 1, 2).pool;
    assert FirstIdle(held) == 1;
    assert ServeWaiters(arrived) == OneHeld([Granted(0, 0)], [1], 1, 2).pool;
    assert held[..0] == [];
    assert Count(held, Live) == 1 && Count(held, ReservedIdle) == 0;
    var rest := [DialFails(Clock(true, true)), Acquire(true), LAST];
    StrandsFrom(w, DialDone(false), rest, OneHeld([Granted(0, 0)], [1], 1, 2));
    assert [DialDone(false)] + rest == [DialDone(false), DialFails(Clock(true, true)), Acquire(true), LAST];
  }

  /** Without that condition it can fail: with a budget of two, one dial fails while the
      other succeeds, a third caller queues behind the live connection, and that connection
      comes back closed just as the backoff expires between the two readings. */
  lemma BackoffExpiryStrands()
    ensures Strands(Empty(2), [Acquire(false), Acquire(false), DialDone(false), DialFails(Clock(true, true)),
                               Acquire(true), Release(0, false, Clock(true, false))])
  {
    FirstDialServes();
    var rest := [DialDone(false), DialFails(Clock(true, true)), Acquire(true), LAST];
    var one := World(Pool(2, [], [0], 1, false, [], multiset{}), {}, 0, 1, false);
    var two := World(Pool(2, [], [0, 1], 2, false, [], multiset{}), {}, 0, 2, false);
    StrandsFrom(one, Acquire(false), rest, two);
    StrandsFrom(Empty(2), Acquire(false), [Acquire(false)] + rest, one);
    assert [Acquire(false)] + ([Acquire(false)] + rest) ==
           [Acquire(false), Acquire(false), DialDone(false), DialFails(Clock(true, true)), Acquire(true), LAST];
  }
}
