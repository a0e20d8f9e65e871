/** What holds in every run of the HTTP/3 pool. */
module H3PoolRuns {
  import opened FixedWidth
  import opened Basics
  import opened PoolReplies
  import opened H3Pool

  // ------------------------------------------------------------ the least loaded

  /** The best so far is a selectable one, with no selectable one below it. */
  predicate BestOf(conns: seq<Conn>, start: nat, k: nat, best: int)
    requires conns != [] && -1 <= best < |conns|
  {
    && (best >= 0 ==> Selectable(conns[best]))
    && (forall m :: 0 <= m < k && Selectable(conns[At(|conns|, start, m)]) ==>
          best >= 0 && conns[best].active <= conns[At(|conns|, start, m)].active)
  }

  predicate NonNegative(conns: seq<Conn>) {
    forall i :: 0 <= i < |conns| ==> conns[i].active >= 0
  }

  lemma {:induction false} ScanIsBest(conns: seq<Conn>, start: nat, k: nat, best: int)
    requires conns != [] && k <= |conns| && -1 <= best < |conns| && NonNegative(conns)
    requires BestOf(conns, start, k, best)
    ensures BestOf(conns, start, |conns|, Scan(conns, start, k, best))
    decreases |conns| - k
  {
    if k < |conns| {
      var i := At(|conns|, start, k);
      if !Selectable(conns[i]) {
        ScanIsBest(conns, start, k + 1, best);
      } else if conns[i].active != 0 {
        ScanIsBest(conns, start, k + 1, if Better(conns, i, best) then i else best);
      }
    }
  }

  lemma {:induction false} IdleStays(conns: seq<Conn>, start: nat, k: nat, best: nat)
    requires conns != [] && k <= |conns| && best < |conns| && NonNegative(conns) && conns[best].active == 0
    ensures FullScan(conns, start, k, best) == best
    decreases |conns| - k
  {
    if k < |conns| {
      IdleStays(conns, start, k + 1, best);
    }
  }

  /** Stopping at the first idle connection changes nothing. */
  lemma {:induction false} ShortcutIsExact(conns: seq<Conn>, start: nat, k: nat, best: int)
    requires conns != [] && k <= |conns| && -1 <= best < |conns| && NonNegative(conns)
    requires best >= 0 ==> conns[best].active > 0
    ensures Scan(conns, start, k, best) == FullScan(conns, start, k, best)
    decreases |conns| - k
  {
    if k < |conns| {
      var i := At(|conns|, start, k);
      if !Selectable(conns[i]) {
        ShortcutIsExact(conns, start, k + 1, best);
      } else if conns[i].active == 0 {
        IdleStays(conns, start, k + 1, i);
      } else {
        ShortcutIsExact(conns, start, k + 1, if Better(conns, i, best) then i else best);
      }
    }
  }

  /** Every place is on the way round. */
  lemma Reaches(n: nat, start: nat, j: nat) returns (m: nat)
    requires start < n && j < n
    ensures m < n && At(n, start, m) == j
  {
    m := if j >= start then j - start else j + n - start;
    WrapsOnce(n, j);
  }

  lemma WrapsOnce(n: nat, j: nat)
    requires j < n
    ensures j % n == j && (j + n) % n == j
  {
    assert (j + n) / n == j / n + 1;
  }

  /** From any cursor, nothing is picked exactly when nothing is selectable, and otherwise a
      selectable connection that no other undercuts: the one a full scan would pick. */
  lemma PickIsLeastLoaded(conns: seq<Conn>, cursor: nat)
    requires NonNegative(conns)
    ensures var i := Pick(conns, cursor);
      && (i < 0 <==> forall j :: 0 <= j < |conns| ==> !Selectable(conns[j]))
      && (i >= 0 ==> Selectable(conns[i]))
      && (i >= 0 ==> forall j :: 0 <= j < |conns| && Selectable(conns[j]) ==> conns[i].active <= conns[j].active)
      && (conns != [] ==> i == FullScan(conns, cursor % |conns|, 0, -1))
  {
    if conns != [] {
      var start := cursor % |conns|;
      ScanIsBest(conns, start, 0, -1);
      ShortcutIsExact(conns, start, 0, -1);
      var i := Pick(conns, cursor);
      forall j | 0 <= j < |conns| && Selectable(conns[j])
        ensures i >= 0 && conns[i].active <= conns[j].active
      {
        var m := Reaches(|conns|, start, j);
      }
    }
  }

  // ----------------------------------------------------------------- dial sizing

  lemma CeilBounds(u: nat, d: nat)
    requires u > 0 && d > 0
    ensures var n := (u + d - 1) / d; n > 0 && (n - 1) * d < u <= n * d
  {
    var n, r := (u + d - 1) / d, (u + d - 1) % d;
    assert u + d - 1 == n * d + r;
    assert (n - 1) * d == n * d - d;
    PositiveFactor(n, d);
  }

  lemma PositiveFactor(n: int, d: nat)
    requires n * d > 0
    ensures n > 0
  {
  }

  /** Outside the backoff the dials cover every waiter or use the whole budget, no dial is
      one too many, and the budget holds. */
  lemma DialsAreSized(p: Pool)
    requires p.dials >= 0 && CountLive(p.conns) + p.dials <= p.maxConns
    ensures var q := DialForWaiters(p, false);
      && (|p.waiters| <= Spare(p.conns) + q.dials * p.perConn || CountLive(p.conns) + q.dials == p.maxConns)
      && (q.dials > p.dials ==> Spare(p.conns) + (q.dials - 1) * p.perConn < |p.waiters|)
      && p.dials <= q.dials && CountLive(p.conns) + q.dials <= p.maxConns
  {
    var u, d := Uncovered(p), p.perConn;
    if p.waiters != [] && Room(p) > 0 && u > 0 {
      CeilBounds(u, d);
      var need := (u + d - 1) / d;
      var n := Min(need, Room(p));
      MulSum(p.dials, n, d);
      MulSum(p.dials, n - 1, d);
      MulSum(p.dials, need, d);
      if n < need {
        Under(n - 1, need - 1, d);
      }
    } else if u <= 0 {
      assert |p.waiters| <= Spare(p.conns) + p.dials * d;
    }
  }

  lemma Under(a: int, b: int, d: int)
    requires a <= b && d > 0
    ensures a * d <= b * d
  {
  }

  // ------------------------------------------------------------- the invariant

  /** Every connection is carried by as many callers as hold it, and by no more than its
      policy allows. */
  predicate Tracked(conns: seq<Conn>, holders: multiset<nat>, cap: nat) {
    && (forall i :: 0 <= i < |conns| ==> conns[i].active == holders[conns[i].id] && conns[i].active <= cap)
    && (forall i :: 0 <= i < |conns| ==> conns[i].cap == cap)
    && (forall i, j :: 0 <= i < j < |conns| ==> conns[i].id != conns[j].id)
  }

  predicate NamesBelow(conns: seq<Conn>, holders: multiset<nat>, nextId: nat) {
    && (forall i :: 0 <= i < |conns| ==> conns[i].id < nextId)
    && (forall id :: id in holders ==> id < nextId)
  }

  predicate NoneSelectable(conns: seq<Conn>) {
    forall i :: 0 <= i < |conns| ==> !Selectable(conns[i])
  }

  predicate Budget(p: Pool) {
    p.dials >= 0 && p.maxConns >= 1 && CountLive(p.conns) + p.dials <= p.maxConns
  }

  predicate Sound(p: Pool, nextId: nat) {
    && Tracked(p.conns, p.holders, p.perConn) && NamesBelow(p.conns, p.holders, nextId)
    && Budget(p)
    && (p.waiters != [] ==> NoneSelectable(p.conns))
  }

  /** Something is under way that will look at the queue again: a dial, or a caller that has
      yet to release. */
  predicate Owed(p: Pool) {
    p.waiters != [] ==> p.dials > 0 || p.holders != multiset{}
  }

  // ------------------------------------------------------------------ counting

  lemma {:induction false} CountUpdate(conns: seq<Conn>, i: nat, c: Conn)
    requires i < |conns|
    ensures CountLive(conns[i := c]) ==
            CountLive(conns) - (if Live(conns[i]) then 1 else 0) + (if Live(c) then 1 else 0)
  {
    var n := |conns| - 1;
    if i == n {
      assert conns[i := c][..n] == conns[..n];
    } else {
      assert conns[i := c][..n] == conns[..n][i := c];
      CountUpdate(conns[..n], i, c);
    }
  }

  lemma {:induction false} CountMono(a: seq<Conn>, b: seq<Conn>)
    requires |a| == |b| && forall i :: 0 <= i < |a| && Live(b[i]) ==> Live(a[i])
    ensures CountLive(b) <= CountLive(a)
  {
    if a != [] {
      CountMono(a[..|a| - 1], b[..|b| - 1]);
    }
  }

  lemma {:induction false} CountZero(conns: seq<Conn>)
    ensures CountLive(conns) == 0 <==> forall i :: 0 <= i < |conns| ==> !Live(conns[i])
  {
    if conns != [] {
      var n := |conns| - 1;
      CountZero(conns[..n]);
      if CountLive(conns) == 0 {
        forall i | 0 <= i < |conns| ensures !Live(conns[i]) {
          assert i < n ==> conns[i] == conns[..n][i];
        }
      } else if CountLive(conns[..n]) > 0 {
        var i :| 0 <= i < n && Live(conns[..n][i]);
        assert Live(conns[i]);
      } else {
        assert Live(conns[n]);
      }
    }
  }

  lemma CountAppend(conns: seq<Conn>, c: Conn)
    ensures CountLive(conns + [c]) == CountLive(conns) + if Live(c) then 1 else 0
  {
    assert (conns + [c])[..|conns|] == conns;
  }

  /** What an eviction leaves was there before, in its place. */
  lemma {:induction false} KeepIs(conns: seq<Conn>, k: Criterion)
    ensures forall i :: 0 <= i < |Keep(conns, k)| ==> Keep(conns, k)[i] in conns && !Evicts(k, Keep(conns, k)[i])
    ensures CountLive(Keep(conns, k)) <= CountLive(conns)
  {
    if conns != [] {
      var n := |conns| - 1;
      var kept := Keep(conns[..n], k);
      KeepIs(conns[..n], k);
      forall i | 0 <= i < |kept| ensures kept[i] in conns {
        var j :| 0 <= j < n && conns[..n][j] == kept[i];
        assert conns[j] == kept[i];
      }
      CountAppend(kept, conns[n]);
      assert kept + [] == kept;
    }
  }

  lemma {:induction false} KeepTracked(conns: seq<Conn>, k: Criterion, holders: multiset<nat>, cap: nat)
    requires Tracked(conns, holders, cap)
    ensures Tracked(Keep(conns, k), holders, cap)
  {
    if conns != [] {
      var n := |conns| - 1;
      var kept := Keep(conns[..n], k);
      KeepTracked(conns[..n], k, holders, cap);
      KeepIs(conns[..n], k);
      forall i | 0 <= i < |kept| ensures kept[i].id != conns[n].id {
        var j :| 0 <= j < n && conns[..n][j] == kept[i];
        assert conns[j].id != conns[n].id;
      }
    }
  }

  lemma KeepNames(conns: seq<Conn>, k: Criterion, holders: multiset<nat>, nextId: nat)
    requires NamesBelow(conns, holders, nextId)
    ensures NamesBelow(Keep(conns, k), holders, nextId)
  {
    KeepIs(conns, k);
    forall i | 0 <= i < |Keep(conns, k)| ensures Keep(conns, k)[i].id < nextId {
      var j :| 0 <= j < |conns| && conns[j] == Keep(conns, k)[i];
    }
  }

  lemma KeepQuiet(conns: seq<Conn>, k: Criterion)
    requires NoneSelectable(conns)
    ensures NoneSelectable(Keep(conns, k))
  {
    KeepIs(conns, k);
    forall i | 0 <= i < |Keep(conns, k)| ensures !Selectable(Keep(conns, k)[i]) {
      var j :| 0 <= j < |conns| && conns[j] == Keep(conns, k)[i];
    }
  }

  // ------------------------------------------------------- what each handler keeps

  lemma TrackedNonNegative(p: Pool, nextId: nat)
    requires Tracked(p.conns, p.holders, p.perConn)
    ensures NonNegative(p.conns)
  {
  }

  lemma GrantKeeps(p: Pool, req: nat, nextId: nat)
    requires Tracked(p.conns, p.holders, p.perConn) && NamesBelow(p.conns, p.holders, nextId)
    requires Pick(p.conns, p.cursor) >= 0
    ensures var q := Grant(p, req);
      && Tracked(q.conns, q.holders, p.perConn) && NamesBelow(q.conns, q.holders, nextId)
      && CountLive(q.conns) == CountLive(p.conns) && q.holders != multiset{}
  {
    TrackedNonNegative(p, nextId);
    PickIsLeastLoaded(p.conns, p.cursor);
    var i := Pick(p.conns, p.cursor);
    var c := p.conns[i];
    CountUpdate(p.conns, i, c.(active := c.active + 1));
    assert c.id in Grant(p, req).holders;
  }

  /** Serving ends with the queue empty or nothing left to hand out. */
  lemma {:induction false} ServeKeeps(p: Pool, nextId: nat)
    requires Tracked(p.conns, p.holders, p.perConn) && NamesBelow(p.conns, p.holders, nextId) && Budget(p)
    ensures var q := ServeWaiters(p);
      && Sound(q, nextId) && q.dials == p.dials && q.perConn == p.perConn
      && (p.holders != multiset{} ==> q.holders != multiset{})
      && (p.waiters == [] ==> q == p)
    decreases |p.waiters|
  {
    TrackedNonNegative(p, nextId);
    PickIsLeastLoaded(p.conns, p.cursor);
    if p.waiters != [] && Pick(p.conns, p.cursor) >= 0 {
      var r := p.(waiters := p.waiters[1..]);
      GrantKeeps(r, p.waiters[0], nextId);
      ServeKeeps(Grant(r, p.waiters[0]), nextId);
    }
  }

  /** A live connection nobody can be put on is held by someone. */
  lemma LiveIsHeld(p: Pool, nextId: nat)
    requires Sound(p, nextId) && p.waiters != [] && CountLive(p.conns) > 0
    ensures p.holders != multiset{}
  {
    CountZero(p.conns);
    var i :| 0 <= i < |p.conns| && Live(p.conns[i]);
    assert !Selectable(p.conns[i]);
    assert p.conns[i].active >= 1;
    assert p.conns[i].id in p.holders;
  }

  lemma DialKeeps(p: Pool, backoff: bool, nextId: nat)
    requires Sound(p, nextId)
    ensures Sound(DialForWaiters(p, backoff), nextId)
    ensures !backoff ==> Owed(DialForWaiters(p, backoff))
  {
    DialsAreSized(p);
    var q := DialForWaiters(p, backoff);
    if !backoff && p.waiters != [] && q.dials == 0 {
      if CountLive(p.conns) > 0 {
        LiveIsHeld(p, nextId);
      } else {
        CountZero(p.conns);
        SpareZero(p.conns);
      }
    }
  }

  lemma {:induction false} SpareZero(conns: seq<Conn>)
    requires NoneSelectable(conns)
    ensures Spare(conns) == 0
  {
    if conns != [] {
      SpareZero(conns[..|conns| - 1]);
    }
  }

  /** The queue is left with nothing to wake it exactly when the backoff was open for the
      dial and over for the refusal, with nothing live, dialling or held. */
  lemma DialOrFlushKeeps(p: Pool, clock: Clock, reason: Reason, nextId: nat)
    requires Sound(p, nextId)
    ensures Sound(DialOrFlush(p, clock, reason), nextId)
    ensures Owed(DialOrFlush(p, clock, reason)) <==> !(Unattended(p) && clock.atDial && !clock.atFlush)
  {
    DialKeeps(p, clock.atDial, nextId);
    var q := DialForWaiters(p, clock.atDial);
    if q.waiters != [] && CountLive(q.conns) > 0 {
      LiveIsHeld(q, nextId);
    }
  }

  /** Waiters, and nothing that would ever look at them again. */
  predicate Unattended(p: Pool) {
    p.waiters != [] && p.dials == 0 && p.holders == multiset{}
  }

  lemma AcquireSound(p: Pool, req: nat, backoff: bool, nextId: nat)
    requires Sound(p, nextId)
    ensures Sound(HandleAcquire(p, req, backoff), nextId)
    ensures Owed(p) ==> Owed(HandleAcquire(p, req, backoff))
    ensures p.waiters != [] ==> Pick(p.conns, p.cursor) < 0
  {
    TrackedNonNegative(p, nextId);
    PickIsLeastLoaded(p.conns, p.cursor);
    if Pick(p.conns, p.cursor) >= 0 {
      GrantKeeps(p, req, nextId);
    } else {
      var q := HandleAcquire(p, req, backoff);
      assert NoneSelectable(p.conns);
      if q.waiters != [] && CountLive(q.conns) > 0 {
        LiveIsHeld(q, nextId);
      }
    }
  }

  /** The pool as a release leaves it, before anyone is served. */
  function AfterRelease(p: Pool, id: nat): Pool {
    p.(conns := Keep(ChangeIn(p.conns, Leaves(id)), Released(id)), holders := p.holders - multiset{id})
  }

  lemma ReleasedTracked(p: Pool, id: nat, nextId: nat)
    requires Sound(p, nextId) && id in p.holders
    ensures var q := AfterRelease(p, id);
      Tracked(q.conns, q.holders, q.perConn) && NamesBelow(q.conns, q.holders, nextId) && Budget(q)
  {
    var lowered, holders := ChangeIn(p.conns, Leaves(id)), p.holders - multiset{id};
    assert Tracked(lowered, holders, p.perConn);
    assert NamesBelow(lowered, holders, nextId) by {
      forall h | h in holders ensures h < nextId {
        assert h in p.holders;
      }
    }
    CountMono(p.conns, lowered);
    KeepTracked(lowered, Released(id), holders, p.perConn);
    KeepNames(lowered, Released(id), holders, nextId);
    KeepIs(lowered, Released(id));
  }

  lemma ReleaseKeeps(p: Pool, id: nat, clock: Clock, nextId: nat)
    requires Sound(p, nextId) && id in p.holders
    ensures Sound(HandleRelease(p, id, clock), nextId)
    ensures Owed(HandleRelease(p, id, clock)) <==>
            !(Unattended(ServeWaiters(AfterRelease(p, id))) && clock.atDial && !clock.atFlush)
  {
    ReleasedTracked(p, id, nextId);
    ServeKeeps(AfterRelease(p, id), nextId);
    DialOrFlushKeeps(ServeWaiters(AfterRelease(p, id)), clock, DialBackoff, nextId);
  }

  /** The pool with a dialled connection in it, before anyone is served. */
  function WithDialled(p: Pool, c: Conn): Pool {
    p.(dials := p.dials - 1, conns := p.conns + [c.(cap := p.perConn)])
  }

  lemma DialOkKeeps(p: Pool, c: Conn, backoff: bool, nextId: nat)
    requires Sound(p, nextId) && p.dials > 0 && c.id == nextId && c.active == 0
    ensures Sound(HandleDialOk(p, c, backoff), nextId + 1)
    ensures Owed(HandleDialOk(p, c, backoff)) <==> !(Unattended(ServeWaiters(WithDialled(p, c))) && backoff)
  {
    DialledTracked(p, c, nextId);
    var r := ServeWaiters(WithDialled(p, c));
    ServeKeeps(WithDialled(p, c), nextId + 1);
    DialKeeps(r, backoff, nextId + 1);
  }

  lemma DialledTracked(p: Pool, c: Conn, nextId: nat)
    requires Sound(p, nextId) && p.dials > 0 && c.id == nextId && c.active == 0
    ensures var q := WithDialled(p, c);
      Tracked(q.conns, q.holders, q.perConn) && NamesBelow(q.conns, q.holders, nextId + 1) && Budget(q)
  {
    var d, q := c.(cap := p.perConn), WithDialled(p, c);
    CountAppend(p.conns, d);
    assert p.holders[nextId] == 0;
    TrackedAppend(p.conns, d, p.holders, p.perConn);
    forall i | 0 <= i < |q.conns| ensures q.conns[i].id < nextId + 1 {
      assert i < |p.conns| ==> q.conns[i] == p.conns[i];
    }
  }

  lemma TrackedAppend(conns: seq<Conn>, c: Conn, holders: multiset<nat>, cap: nat)
    requires Tracked(conns, holders, cap) && c.active == holders[c.id] <= cap && c.cap == cap
    requires forall i :: 0 <= i < |conns| ==> conns[i].id != c.id
    ensures Tracked(conns + [c], holders, cap)
  {
    var all := conns + [c];
    forall i, j | 0 <= i < j < |all| ensures all[i].id != all[j].id {
      assert all[i] == conns[i];
      assert j < |conns| ==> all[j] == conns[j];
    }
  }

  lemma DialErrorKeeps(p: Pool, clock: Clock, nextId: nat)
    requires Sound(p, nextId) && p.dials > 0
    ensures Sound(HandleDialError(p, clock), nextId)
    ensures Owed(HandleDialError(p, clock)) <==> !(Unattended(DialErrorRefusal(p)) && clock.atDial && !clock.atFlush)
  {
    DialOrFlushKeeps(DialErrorRefusal(p), clock, Reason.DialError, nextId);
  }

  lemma EvictKeeps(p: Pool, k: Criterion, nextId: nat)
    requires Sound(p, nextId)
    ensures Sound(p.(conns := Keep(p.conns, k)), nextId)
  {
    KeepTracked(p.conns, k, p.holders, p.perConn);
    KeepNames(p.conns, k, p.holders, nextId);
    KeepIs(p.conns, k);
    if p.waiters != [] {
      KeepQuiet(p.conns, k);
    }
  }

  lemma TickKeeps(p: Pool, idle: set<nat>, gone: set<nat>, clock: Clock, nextId: nat)
    requires Sound(p, nextId)
    ensures Sound(HandleTick(p, idle, gone, clock), nextId)
    ensures Owed(HandleTick(p, idle, gone, clock)) <==>
            !(Unattended(Swept(p, idle, gone)) && clock.atDial && !clock.atFlush)
  {
    EvictKeeps(p, AllRetired, nextId);
    var q := p.(conns := Keep(p.conns, AllRetired));
    EvictKeeps(q, Idle(idle), nextId);
    DialOrFlushKeeps(Swept(p, idle, gone), clock, DialBackoff, nextId);
  }

  lemma ChangeKeeps(p: Pool, ch: Change, nextId: nat)
    requires Sound(p, nextId) && !ch.Leaves?
    ensures Sound(p.(conns := ChangeIn(p.conns, ch)), nextId)
  {
    CountMono(p.conns, ChangeIn(p.conns, ch));
  }

  // --------------------------------------------------------------------- runs

  datatype World = World(pool: Pool, nextId: nat, nextReq: nat, closed: bool)

  datatype Action =
    | Acquire(backoff: bool)
    | Release(id: nat, clock: Clock)
    | DialOk(alive: bool, goingAway: bool, backoff: bool)
    | DialFails(clock: Clock)
    | Tick(idle: set<nat>, gone: set<nat>, clock: Clock)
    | Stats
    | Warmup(n: nat, backoff: bool)
    | Happens(ch: Change)
    | Close

  predicate Enabled(w: World, a: Action) {
    && !w.closed
    && match a
       case Release(id, _) => id in w.pool.holders
       case DialOk(_, _, _) => w.pool.dials > 0
       case DialFails(_) => w.pool.dials > 0
       case Happens(ch) => !ch.Leaves?
       case _ => true
  }

  function Dialled(w: World, a: Action): Conn
    requires a.DialOk?
  {
    Conn(w.nextId, a.alive, a.goingAway, 0, w.pool.perConn)
  }

  function Step(w: World, a: Action): World
    requires Enabled(w, a)
  {
    var p := w.pool;
    match a
    case Acquire(backoff) => w.(pool := HandleAcquire(p, w.nextReq, backoff), nextReq := w.nextReq + 1)
    case Release(id, clock) => w.(pool := HandleRelease(p, id, clock))
    case DialOk(_, _, backoff) => w.(pool := HandleDialOk(p, Dialled(w, a), backoff), nextId := w.nextId + 1)
    case DialFails(clock) => w.(pool := HandleDialError(p, clock))
    case Tick(idle, gone, clock) => w.(pool := HandleTick(p, idle, gone, clock))
    case Stats => w.(pool := HandleStats(p))
    case Warmup(n, backoff) => w.(pool := HandleWarmup(p, n, backoff))
    case Happens(ch) => w.(pool := p.(conns := ChangeIn(p.conns, ch)))
    case Close => w.(pool := HandleClose(p), closed := true)
  }

  /** The one way a step leaves waiters that nothing will look at before the next tick, as
      the pool stands before it. The last holder releases a connection that is gone, or the
      last dial fails with more than one waiting, and the backoff ends between its two
      readings. A dial that succeeds does not refuse: there an open backoff is enough, when
      the last dial brings a connection that is gone already. */
  predicate LosesWakeUp(p: Pool, a: Action) {
    match a
    case Release(id, clock) =>
      && p.waiters != [] && p.dials == 0 && p.holders == multiset{id} && !LiveNamed(p.conns, id)
      && clock.atDial && !clock.atFlush
    case DialOk(alive, goingAway, backoff) =>
      p.waiters != [] && p.dials == 1 && p.holders == multiset{} && (!alive || goingAway) && backoff
    case DialFails(clock) =>
      |p.waiters| > 1 && p.dials == 1 && p.holders == multiset{} && clock.atDial && !clock.atFlush
    case _ => false
  }

  predicate LiveNamed(conns: seq<Conn>, id: nat) {
    exists i :: 0 <= i < |conns| && conns[i].id == id && Live(conns[i])
  }

  // ------------------------------------------------- when the wake-up is lost

  lemma ServesNone(p: Pool)
    requires NonNegative(p.conns) && NoneSelectable(p.conns)
    ensures ServeWaiters(p) == p
  {
    PickIsLeastLoaded(p.conns, p.cursor);
  }

  lemma ServesSomeone(p: Pool, i: nat, nextId: nat)
    requires Tracked(p.conns, p.holders, p.perConn) && NamesBelow(p.conns, p.holders, nextId) && Budget(p)
    requires p.waiters != [] && i < |p.conns| && Selectable(p.conns[i])
    ensures ServeWaiters(p).holders != multiset{}
  {
    PickIsLeastLoaded(p.conns, p.cursor);
    var r := p.(waiters := p.waiters[1..]);
    GrantKeeps(r, p.waiters[0], nextId);
    ServeKeeps(Grant(r, p.waiters[0]), nextId);
  }

  lemma {:induction false} KeepHas(conns: seq<Conn>, k: Criterion, i: nat)
    requires i < |conns| && !Evicts(k, conns[i])
    ensures conns[i] in Keep(conns, k)
  {
    var n := |conns| - 1;
    if i < n {
      KeepHas(conns[..n], k, i);
    }
  }

  /** With the connection gone, nobody is served: the others were taken already. */
  lemma ReleaseServesNone(p: Pool, id: nat, nextId: nat)
    requires Sound(p, nextId) && id in p.holders && p.waiters != [] && !LiveNamed(p.conns, id)
    ensures ServeWaiters(AfterRelease(p, id)) == AfterRelease(p, id)
  {
    var lowered := ChangeIn(p.conns, Leaves(id));
    assert NoneSelectable(lowered);
    KeepQuiet(lowered, Released(id));
    ReleasedTracked(p, id, nextId);
    ServesNone(AfterRelease(p, id));
  }

  lemma ReleaseServesSomeone(p: Pool, id: nat, i: nat, nextId: nat)
    requires Sound(p, nextId) && p.waiters != [] && p.holders == multiset{id}
    requires i < |p.conns| && p.conns[i].id == id && Live(p.conns[i])
    ensures ServeWaiters(AfterRelease(p, id)).holders != multiset{}
  {
    var lowered := ChangeIn(p.conns, Leaves(id));
    ReleasedTracked(p, id, nextId);
    assert Selectable(lowered[i]);
    KeepHas(lowered, Released(id), i);
    var q := AfterRelease(p, id);
    var j :| 0 <= j < |q.conns| && q.conns[j] == lowered[i];
    ServesSomeone(q, j, nextId);
  }

  lemma ReleaseLoses(p: Pool, id: nat, nextId: nat)
    requires Sound(p, nextId) && id in p.holders
    ensures Unattended(ServeWaiters(AfterRelease(p, id))) <==>
            p.waiters != [] && p.dials == 0 && p.holders == multiset{id} && !LiveNamed(p.conns, id)
  {
    ReleasedTracked(p, id, nextId);
    ServeKeeps(AfterRelease(p, id), nextId);
    if p.waiters != [] {
      if !LiveNamed(p.conns, id) {
        ReleaseServesNone(p, id, nextId);
        assert p.holders - multiset{id} == multiset{} <==> p.holders == multiset{id};
      } else if p.holders == multiset{id} {
        var i :| 0 <= i < |p.conns| && p.conns[i].id == id && Live(p.conns[i]);
        ReleaseServesSomeone(p, id, i, nextId);
      } else {
        assert p.holders - multiset{id} != multiset{};
      }
    }
  }

  lemma DialOkLoses(p: Pool, c: Conn, nextId: nat)
    requires Sound(p, nextId) && p.dials > 0 && c.id == nextId && c.active == 0
    ensures Unattended(ServeWaiters(WithDialled(p, c))) <==>
            p.waiters != [] && p.dials == 1 && p.holders == multiset{} && !Live(c)
  {
    var q := WithDialled(p, c);
    DialledTracked(p, c, nextId);
    ServeKeeps(q, nextId + 1);
    if p.waiters != [] {
      if Live(c) {
        ServesSomeone(q, |p.conns|, nextId + 1);
      } else {
        assert NoneSelectable(q.conns);
        ServesNone(q);
      }
    }
  }

  lemma {:induction false} PruneFewer(waiters: seq<nat>, gone: set<nat>)
    ensures |Prune(waiters, gone)| <= |waiters|
  {
    if waiters != [] {
      PruneFewer(waiters[1..], gone);
    }
  }

  lemma StepKeeps(w: World, a: Action)
    requires Sound(w.pool, w.nextId) && Enabled(w, a)
    ensures Sound(Step(w, a).pool, Step(w, a).nextId)
    ensures Owed(w.pool) ==> (Owed(Step(w, a).pool) <==> !LosesWakeUp(w.pool, a))
  {
    var p := w.pool;
    match a
    case Acquire(backoff) => AcquireSound(p, w.nextReq, backoff, w.nextId);
    case Release(id, clock) =>
      ReleaseKeeps(p, id, clock, w.nextId);
      ReleaseLoses(p, id, w.nextId);
    case DialOk(_, _, backoff) =>
      DialOkKeeps(p, Dialled(w, a), backoff, w.nextId);
      DialOkLoses(p, Dialled(w, a), w.nextId);
    case DialFails(clock) => DialErrorKeeps(p, clock, w.nextId);
    case Tick(idle, gone, clock) =>
      TickKeeps(p, idle, gone, clock, w.nextId);
      PruneFewer(p.waiters, gone);
    case Stats => EvictKeeps(p, AllRetired, w.nextId);
    case Warmup(n, backoff) =>
    case Happens(ch) => ChangeKeeps(p, ch, w.nextId);
    case Close =>
  }

  function Empty(maxConns: nat, perConn: Positive): World {
    World(Pool(maxConns, perConn, [], [], 0, 0, [], multiset{}), 0, 0, false)
  }

  predicate IsRun(w: World, run: seq<Action>)
    decreases |run|
  {
    run == [] || (Enabled(w, run[0]) && IsRun(Step(w, run[0]), run[1..]))
  }

  function After(w: World, run: seq<Action>): World
    requires IsRun(w, run)
    decreases |run|
  {
    if run == [] then w else After(Step(w, run[0]), run[1..])
  }

  predicate NeverLoses(w: World, run: seq<Action>)
    requires IsRun(w, run)
    decreases |run|
  {
    run == [] || (!LosesWakeUp(w.pool, run[0]) && NeverLoses(Step(w, run[0]), run[1..]))
  }

  /** Whoever waits is owed a wake-up before every step of a run and after the last. */
  predicate OwedThroughout(w: World, run: seq<Action>)
    requires IsRun(w, run)
    decreases |run|
  {
    Owed(w.pool) && (run == [] || OwedThroughout(Step(w, run[0]), run[1..]))
  }

  lemma {:induction false} RunKeeps(w: World, run: seq<Action>)
    requires Sound(w.pool, w.nextId) && IsRun(w, run)
    ensures Sound(After(w, run).pool, After(w, run).nextId)
    ensures Owed(w.pool) ==> (OwedThroughout(w, run) <==> NeverLoses(w, run))
    ensures Owed(w.pool) && NeverLoses(w, run) ==> Owed(After(w, run).pool)
    decreases |run|
  {
    if run != [] {
      StepKeeps(w, run[0]);
      RunKeeps(Step(w, run[0]), run[1..]);
    }
  }

  // ---------------------------------------------------- replies and arrival order

  ghost predicate Orderly(p: Pool, nextReq: nat) {
    InOrder(p.replies, p.waiters, nextReq)
  }

  lemma {:induction false} ServeInOrder(p: Pool, nextReq: nat)
    requires Orderly(p, nextReq)
    ensures Orderly(ServeWaiters(p), nextReq)
    decreases |p.waiters|
  {
    if p.waiters != [] && Pick(p.conns, p.cursor) >= 0 {
      FrontServedInOrder(p.replies, p.waiters, p.conns[Pick(p.conns, p.cursor)].id, nextReq);
      ServeInOrder(Grant(p.(waiters := p.waiters[1..]), p.waiters[0]), nextReq);
    }
  }

  lemma DialOrFlushInOrder(p: Pool, clock: Clock, reason: Reason, nextReq: nat)
    requires Orderly(p, nextReq)
    ensures Orderly(DialForWaiters(p, clock.atDial), nextReq)
    ensures Orderly(DialOrFlush(p, clock, reason), nextReq)
  {
    AllRefusedInOrder(p.replies, p.waiters, reason, nextReq);
  }

  /** A newcomer finds nothing to take while anyone waits. */
  predicate NoOvertaking(p: Pool) {
    p.waiters != [] ==> Pick(p.conns, p.cursor) < 0
  }

  lemma AcquireInOrder(p: Pool, backoff: bool, nextReq: nat)
    requires NoOvertaking(p) && Orderly(p, nextReq)
    ensures Orderly(HandleAcquire(p, nextReq, backoff), nextReq + 1)
  {
    var i := Pick(p.conns, p.cursor);
    if i >= 0 {
      NewcomerServedInOrder(p.replies, p.conns[i].id, nextReq);
      assert Grant(p, nextReq).replies == p.replies + [Granted(nextReq, p.conns[i].id)];
    } else {
      QueuedInOrder(p.replies, p.waiters, nextReq);
      NewcomerRefusedInOrder(p.replies, p.waiters, DialBackoff, nextReq);
    }
  }

  lemma DialErrorInOrder(p: Pool, clock: Clock, nextReq: nat)
    requires Orderly(p, nextReq)
    ensures Orderly(HandleDialError(p, clock), nextReq)
  {
    if p.waiters != [] {
      RefusedInOrder(p.replies, p.waiters, 0, Reason.DialError, nextReq);
      assert Without(p.waiters, 0) == p.waiters[1..];
    }
    DialOrFlushInOrder(DialErrorRefusal(p), clock, Reason.DialError, nextReq);
  }

  lemma TickInOrder(p: Pool, idle: set<nat>, gone: set<nat>, clock: Clock, nextReq: nat)
    requires Orderly(p, nextReq)
    ensures Orderly(HandleTick(p, idle, gone, clock), nextReq)
  {
    assert [] + p.waiters == p.waiters && [] + Prune(p.waiters, gone) == Prune(p.waiters, gone);
    PrunedInOrder(p.replies, [], p.waiters, gone, nextReq);
    DialOrFlushInOrder(Swept(p, idle, gone), clock, DialBackoff, nextReq);
  }

  lemma DialOkInOrder(p: Pool, c: Conn, backoff: bool, nextReq: nat)
    requires Orderly(p, nextReq)
    ensures Orderly(HandleDialOk(p, c, backoff), nextReq)
  {
    ServeInOrder(WithDialled(p, c), nextReq);
    DialOrFlushInOrder(ServeWaiters(WithDialled(p, c)), Clock(backoff, false), DialBackoff, nextReq);
  }

  lemma ReleaseInOrder(p: Pool, id: nat, clock: Clock, nextReq: nat)
    requires Orderly(p, nextReq)
    ensures Orderly(HandleRelease(p, id, clock), nextReq)
  {
    ServeInOrder(AfterRelease(p, id), nextReq);
    DialOrFlushInOrder(ServeWaiters(AfterRelease(p, id)), clock, DialBackoff, nextReq);
  }

  lemma DialStepInOrder(w: World, a: Action)
    requires Orderly(w.pool, w.nextReq) && Enabled(w, a) && (a.DialOk? || a.DialFails?)
    ensures Orderly(Step(w, a).pool, w.nextReq)
  {
    var p, q := w.pool, Step(w, a).pool;
    match a
    case DialOk(_, _, backoff) =>
      assert q == HandleDialOk(p, Dialled(w, a), backoff);
      DialOkInOrder(p, Dialled(w, a), backoff, w.nextReq);
    case DialFails(clock) =>
      assert q == HandleDialError(p, clock);
      DialErrorInOrder(p, clock, w.nextReq);
  }

  lemma AcquireStepInOrder(w: World, backoff: bool)
    requires NoOvertaking(w.pool) && Orderly(w.pool, w.nextReq) && Enabled(w, Acquire(backoff))
    ensures Orderly(Step(w, Acquire(backoff)).pool, Step(w, Acquire(backoff)).nextReq)
  {
    assert Step(w, Acquire(backoff)).pool == HandleAcquire(w.pool, w.nextReq, backoff);
    AcquireInOrder(w.pool, backoff, w.nextReq);
  }

  lemma OtherStepInOrder(w: World, a: Action)
    requires Orderly(w.pool, w.nextReq) && Enabled(w, a) && !a.Acquire? && !a.DialOk? && !a.DialFails?
    ensures Orderly(Step(w, a).pool, w.nextReq)
  {
    var p, q := w.pool, Step(w, a).pool;
    match a
    case Release(id, clock) =>
      assert q == HandleRelease(p, id, clock);
      ReleaseInOrder(p, id, clock, w.nextReq);
    case Tick(idle, gone, clock) =>
      assert q == HandleTick(p, idle, gone, clock);
      TickInOrder(p, idle, gone, clock, w.nextReq);
    case Close => CloseInOrder(p, w.nextReq);
    case _ => SameQueue(p, q, w.nextReq);
  }

  lemma StepInOrder(w: World, a: Action)
    requires NoOvertaking(w.pool) && Orderly(w.pool, w.nextReq) && Enabled(w, a)
    ensures Orderly(Step(w, a).pool, Step(w, a).nextReq)
  {
    if a.Acquire? {
      AcquireStepInOrder(w, a.backoff);
    } else if a.DialOk? || a.DialFails? {
      DialStepInOrder(w, a);
    } else {
      OtherStepInOrder(w, a);
    }
  }

  lemma CloseInOrder(p: Pool, nextReq: nat)
    requires Orderly(p, nextReq)
    ensures Orderly(HandleClose(p), nextReq)
  {
    AllRefusedInOrder(p.replies, p.waiters, PoolClosed, nextReq);
  }

  lemma SameQueue(p: Pool, q: Pool, nextReq: nat)
    requires Orderly(p, nextReq) && q.waiters == p.waiters && q.replies == p.replies
    ensures Orderly(q, nextReq)
  {
  }

  lemma ClosedIsEmpty(w: World, a: Action)
    requires Enabled(w, a)
    ensures Step(w, a).closed ==> Step(w, a).pool.waiters == []
  {
  }

  lemma {:induction false} RunInOrder(w: World, run: seq<Action>)
    requires Sound(w.pool, w.nextId) && Orderly(w.pool, w.nextReq) && IsRun(w, run)
    requires w.closed ==> w.pool.waiters == []
    ensures Orderly(After(w, run).pool, After(w, run).nextReq)
    ensures After(w, run).closed ==> After(w, run).pool.waiters == []
    decreases |run|
  {
    if run != [] {
      StepKeeps(w, run[0]);
      AcquireSound(w.pool, w.nextReq, false, w.nextId);
      StepInOrder(w, run[0]);
      ClosedIsEmpty(w, run[0]);
      RunInOrder(Step(w, run[0]), run[1..]);
    }
  }

  // -------------------------------------------------------------- main results

  /** In every run each request the actor accepted is waiting or has had its one reply,
      grants go out in the order of arrival, and after Close all have had exactly one. */
  lemma OneReplyEachInOrder(maxConns: nat, perConn: Positive, run: seq<Action>)
    requires maxConns >= 1 && IsRun(Empty(maxConns, perConn), run)
    ensures var w := After(Empty(maxConns, perConn), run);
      && Increasing(GrantedReqs(w.pool.replies) + w.pool.waiters)
      && (forall r: nat :: Answered(w.pool.replies)[r] + multiset(w.pool.waiters)[r] == Bit(r < w.nextReq))
      && (w.closed ==> forall r: nat :: Answered(w.pool.replies)[r] == Bit(r < w.nextReq))
  {
    EmptyIsSound(maxConns, perConn);
    RunInOrder(Empty(maxConns, perConn), run);
    OrderlyReplies(After(Empty(maxConns, perConn), run));
  }

  lemma OrderlyReplies(w: World)
    requires Orderly(w.pool, w.nextReq) && (w.closed ==> w.pool.waiters == [])
    ensures Increasing(GrantedReqs(w.pool.replies) + w.pool.waiters)
    ensures forall r: nat :: Answered(w.pool.replies)[r] + multiset(w.pool.waiters)[r] == Bit(r < w.nextReq)
    ensures w.closed ==> forall r: nat :: Answered(w.pool.replies)[r] == Bit(r < w.nextReq)
  {
  }

  lemma EmptyIsSound(maxConns: nat, perConn: Positive)
    requires maxConns >= 1
    ensures var w := Empty(maxConns, perConn); Sound(w.pool, w.nextId) && Orderly(w.pool, w.nextReq)
  {
  }

  /** In every run live connections and dials stay within the budget, every connection is
      held by exactly as many callers as it counts and by no more than its policy allows, and
      while anyone waits nothing could be handed out, so a newcomer never overtakes. */
  lemma PoolStaysSound(maxConns: nat, perConn: Positive, run: seq<Action>)
    requires maxConns >= 1 && IsRun(Empty(maxConns, perConn), run)
    ensures var p := After(Empty(maxConns, perConn), run).pool;
      && CountLive(p.conns) + p.dials <= p.maxConns
      && (forall i :: 0 <= i < |p.conns| ==> 0 <= p.conns[i].active == p.holders[p.conns[i].id] <= p.perConn)
      && (p.waiters != [] ==> Pick(p.conns, p.cursor) < 0)
  {
    RunKeeps(Empty(maxConns, perConn), run);
    var w := After(Empty(maxConns, perConn), run);
    PickIsLeastLoaded(w.pool.conns, w.pool.cursor);
  }

  /** From a state where a wake-up is owed, a step loses it exactly when LosesWakeUp says of
      the pool before it. */
  lemma WakeUpLostExactlyWhen(w: World, a: Action)
    requires Sound(w.pool, w.nextId) && Enabled(w, a) && Owed(w.pool)
    ensures Owed(Step(w, a).pool) <==> !LosesWakeUp(w.pool, a)
  {
    StepKeeps(w, a);
  }

  /** In every run, up to the first step that loses it and no further, whoever waits is owed
      a wake-up. */
  lemma WakeUpOwed(maxConns: nat, perConn: Positive, run: seq<Action>)
    requires maxConns >= 1 && IsRun(Empty(maxConns, perConn), run)
    ensures OwedThroughout(Empty(maxConns, perConn), run) <==> NeverLoses(Empty(maxConns, perConn), run)
    ensures NeverLoses(Empty(maxConns, perConn), run) ==> Owed(After(Empty(maxConns, perConn), run).pool)
  {
    RunKeeps(Empty(maxConns, perConn), run);
  }

  /** That first step exists: of two dials one fails and opens the backoff, the other brings
      a connection that is already dead, and the caller still queued is neither dialled for
      nor refused. */
  lemma DeadOnArrivalStrands()
    ensures var run := [Acquire(false), Acquire(false), DialFails(Clock(true, true)), DialOk(false, false, true)];
      IsRun(Empty(2, 1), run) && !Owed(After(Empty(2, 1), run).pool)
  {
    var a, b, c, d := Acquire(false), Acquire(false), DialFails(Clock(true, true)), DialOk(false, false, true);
    var w0 := Empty(2, 1);
    var p := w0.pool;
    var refused := [Refused(0, Reason.DialError)];
    var w1 := World(p.(waiters := [0], dials := 1), 0, 1, false);
    var w2 := World(p.(waiters := [0, 1], dials := 2), 0, 2, false);
    var w3 := World(p.(waiters := [1], dials := 1, replies := refused), 0, 2, false);
    var dead := Conn(0, false, false, 0, 1);
    var w4 := World(p.(waiters := [1], conns := [dead], replies := refused), 1, 2, false);
    assert [] + [0] == [0] && Step(w0, a) == w1;
    assert [0] + [1] == [0, 1] && Step(w1, b) == w2;
    assert [0, 1][1..] == [1] && [] + refused == refused && Step(w2, c) == w3;
    DeadIsNotPicked(w3.pool, dead, w4.pool);
    assert Step(w3, d) == w4;
    RunFrom(w3, d, []);
    RunFrom(w2, c, [d]);
    RunFrom(w1, b, [c] + [d]);
    RunFrom(w0, a, [b] + ([c] + [d]));
    assert [d] + [] == [d] && [a] + ([b] + ([c] + [d])) == [a, b, c, d];
  }

  lemma RunFrom(w: World, a: Action, rest: seq<Action>)
    requires Enabled(w, a) && IsRun(Step(w, a), rest)
    ensures IsRun(w, [a] + rest) && After(w, [a] + rest) == After(Step(w, a), rest)
  {
    assert ([a] + rest)[1..] == rest;
  }

  lemma DeadIsNotPicked(p: Pool, c: Conn, q: Pool)
    requires !c.alive && c.cap == p.perConn && p.conns == [] && q == p.(conns := [c], dials := p.dials - 1)
    ensures HandleDialOk(p, c, true) == q
  {
    assert [] + [c] == [c];
    assert At(1, p.cursor % 1, 0) == 0;
    assert Scan([c], p.cursor % 1, 0, -1) == Scan([c], p.cursor % 1, 1, -1) == -1;
  }
}
