/** The HTTP/3 connection pool: one actor that multiplexes callers over connections, least
    loaded first, and dials for a whole batch of waiters at once. This module says what each
    handler does to the pool. */
module H3Pool {
  import opened FixedWidth
  import opened PoolReplies

  type Positive = x: int | x > 0 witness 1

  datatype Conn = Conn(id: nat, alive: bool, goingAway: bool, active: int, cap: nat)

  /** `replies` is every reply the actor has sent, in order. `holders` counts the callers
      that hold each connection: a grant adds one, a release takes one away, also for a
      connection that has left the pool. */
  datatype Pool = Pool(
    maxConns: nat,
    perConn: Positive,  // streams a connection carries, by the pool's own policy
    conns: seq<Conn>,
    waiters: seq<nat>,
    dials: int,
    cursor: nat,
    replies: seq<Reply>,
    holders: multiset<nat>)

  /** The dial backoff as a handler sees it before dialling and before refusing. */
  datatype Clock = Clock(atDial: bool, atFlush: bool)

  // ----------------------------------------------------------------- picking

  /** Counted against the budget: alive, and not told to go away. */
  predicate Live(c: Conn) {
    c.alive && !c.goingAway
  }

  predicate Selectable(c: Conn) {
    Live(c) && c.active < c.cap
  }

  predicate Better(conns: seq<Conn>, i: nat, best: int)
    requires i < |conns| && -1 <= best < |conns|
  {
    best < 0 || conns[i].active < conns[best].active
  }

  /** The k-th place of a scan that begins at `start`. */
  function At(n: nat, start: nat, k: nat): (i: nat)
    requires n > 0
    ensures i < n
  {
    (start + k) % n
  }

  /** The rotated scan from its k-th step, which stops at the first idle connection. */
  function Scan(conns: seq<Conn>, start: nat, k: nat, best: int): (r: int)
    requires conns != [] && k <= |conns| && -1 <= best < |conns|
    ensures -1 <= r < |conns|
    decreases |conns| - k
  {
    if k == |conns| then best
    else
      var i := At(|conns|, start, k);
      if !Selectable(conns[i]) then Scan(conns, start, k + 1, best)
      else if conns[i].active == 0 then i
      else Scan(conns, start, k + 1, if Better(conns, i, best) then i else best)
  }

  /** The same scan without the shortcut. */
  function FullScan(conns: seq<Conn>, start: nat, k: nat, best: int): (r: int)
    requires conns != [] && k <= |conns| && -1 <= best < |conns|
    ensures -1 <= r < |conns|
    decreases |conns| - k
  {
    if k == |conns| then best
    else
      var i := At(|conns|, start, k);
      FullScan(conns, start, k + 1, if Selectable(conns[i]) && Better(conns, i, best) then i else best)
  }

  /** The index picked, or -1. */
  function Pick(conns: seq<Conn>, cursor: nat): (r: int)
    ensures -1 <= r < |conns|
  {
    if conns == [] then -1 else Scan(conns, cursor % |conns|, 0, -1)
  }

  /** An idle pick moves the cursor past itself. */
  function NextCursor(conns: seq<Conn>, cursor: nat): nat {
    var i := Pick(conns, cursor);
    if i >= 0 && conns[i].active == 0 then (i + 1) % |conns| else cursor
  }

  // ---------------------------------------------------------------- counting

  function CountLive(conns: seq<Conn>): nat {
    if conns == [] then 0
    else CountLive(conns[..|conns| - 1]) + if Live(conns[|conns| - 1]) then 1 else 0
  }

  function SpareOf(c: Conn): nat {
    if Selectable(c) then c.cap - c.active else 0
  }

  /** Slots that a pick could still hand out. */
  function Spare(conns: seq<Conn>): nat {
    if conns == [] then 0 else Spare(conns[..|conns| - 1]) + SpareOf(conns[|conns| - 1])
  }

  /** Dead, or told to go away and drained. */
  predicate Retired(c: Conn) {
    !c.alive || (c.goingAway && c.active == 0)
  }

  /** What an eviction takes out: the retired ones, one released and now retired, or idle
      ones. */
  datatype Criterion = AllRetired | Released(id: nat) | Idle(ids: set<nat>)

  predicate Evicts(k: Criterion, c: Conn) {
    match k
    case AllRetired => Retired(c)
    case Released(id) => c.id == id && Retired(c)
    case Idle(ids) => c.active == 0 && c.id in ids
  }

  function Keep(conns: seq<Conn>, k: Criterion): seq<Conn> {
    if conns == [] then []
    else
      var last := conns[|conns| - 1];
      Keep(conns[..|conns| - 1], k) + if Evicts(k, last) then [] else [last]
  }

  // ----------------------------------------------------------------- handlers

  function Grant(p: Pool, req: nat): Pool
    requires Pick(p.conns, p.cursor) >= 0
  {
    var i := Pick(p.conns, p.cursor);
    var c := p.conns[i];
    p.(conns := p.conns[i := c.(active := c.active + 1)], cursor := NextCursor(p.conns, p.cursor),
       replies := p.replies + [Granted(req, c.id)], holders := p.holders + multiset{c.id})
  }

  /** Hands connections to waiters, oldest first, while there are both. */
  function ServeWaiters(p: Pool): Pool
    decreases |p.waiters|
  {
    if p.waiters == [] || Pick(p.conns, p.cursor) < 0 then p
    else ServeWaiters(Grant(p.(waiters := p.waiters[1..]), p.waiters[0]))
  }

  function Room(p: Pool): int {
    p.maxConns - CountLive(p.conns) - p.dials
  }

  function Uncovered(p: Pool): int {
    |p.waiters| - Spare(p.conns) - p.dials * p.perConn
  }

  /** Dials for everything that is not covered, in connections of `perConn` streams. */
  function DialForWaiters(p: Pool, backoff: bool): Pool {
    if p.waiters == [] || backoff || Room(p) <= 0 || Uncovered(p) <= 0 then p
    else p.(dials := p.dials + Min((Uncovered(p) + p.perConn - 1) / p.perConn, Room(p)))
  }

  function RefuseAll(p: Pool, reason: Reason): Pool {
    p.(waiters := [], replies := AllRefused(p.replies, p.waiters, reason))
  }

  function FlushStrandedWaiters(p: Pool, backoff: bool, reason: Reason): Pool {
    if p.waiters == [] || p.dials > 0 || CountLive(p.conns) > 0 || !backoff then p else RefuseAll(p, reason)
  }

  function DialOrFlush(p: Pool, clock: Clock, reason: Reason): Pool {
    FlushStrandedWaiters(DialForWaiters(p, clock.atDial), clock.atFlush, reason)
  }

  function HandleAcquire(p: Pool, req: nat, backoff: bool): Pool {
    if Pick(p.conns, p.cursor) >= 0 then Grant(p, req)
    else
      var live := CountLive(p.conns);
      var queued := p.(waiters := p.waiters + [req]);
      if live + p.dials < p.maxConns && !backoff then queued.(dials := p.dials + 1)
      else if backoff && live == 0 && p.dials == 0 then p.(replies := p.replies + [Refused(req, DialBackoff)])
      else queued
  }

  /** What can happen to one connection: a caller leaves, it dies, its peer says goodbye. */
  datatype Change = Leaves(id: nat) | Dies(id: nat) | GoesAway(id: nat)

  function Changed(c: Conn, ch: Change): Conn {
    if c.id != ch.id then c
    else match ch
      case Leaves(_) => c.(active := c.active - 1)
      case Dies(_) => c.(alive := false)
      case GoesAway(_) => c.(goingAway := true)
  }

  function ChangeIn(conns: seq<Conn>, ch: Change): (r: seq<Conn>)
    ensures |r| == |conns| && forall i :: 0 <= i < |r| ==> r[i] == Changed(conns[i], ch)
  {
    seq(|conns|, i requires 0 <= i < |conns| => Changed(conns[i], ch))
  }

  function HandleRelease(p: Pool, id: nat, clock: Clock): Pool {
    var q := p.(conns := Keep(ChangeIn(p.conns, Leaves(id)), Released(id)), holders := p.holders - multiset{id});
    DialOrFlush(ServeWaiters(q), clock, DialBackoff)
  }

  /** A success ends with the dialling; only a failure goes on to refuse the stranded. */
  function HandleDialOk(p: Pool, c: Conn, backoff: bool): Pool {
    DialForWaiters(ServeWaiters(p.(dials := p.dials - 1, conns := p.conns + [c.(cap := p.perConn)])), backoff)
  }

  /** A failed dial is the first waiter's. */
  function DialErrorRefusal(p: Pool): Pool {
    if p.waiters == [] then p.(dials := p.dials - 1)
    else p.(dials := p.dials - 1, waiters := p.waiters[1..],
            replies := p.replies + [Refused(p.waiters[0], Reason.DialError)])
  }

  function HandleDialError(p: Pool, clock: Clock): Pool {
    DialOrFlush(DialErrorRefusal(p), clock, Reason.DialError)
  }

  /** The pool as a tick leaves it, before it dials. */
  function Swept(p: Pool, idle: set<nat>, gone: set<nat>): Pool {
    p.(conns := Keep(Keep(p.conns, AllRetired), Idle(idle)), waiters := Prune(p.waiters, gone),
       replies := PruneReplies(p.replies, p.waiters, gone))
  }

  function HandleTick(p: Pool, idle: set<nat>, gone: set<nat>, clock: Clock): Pool {
    DialOrFlush(Swept(p, idle, gone), clock, DialBackoff)
  }

  /** Every waiter is refused; dials still out are drained by a goroutine of their own. */
  function HandleClose(p: Pool): Pool {
    RefuseAll(p, PoolClosed).(dials := 0)
  }

  function HandleStats(p: Pool): Pool {
    p.(conns := Keep(p.conns, AllRetired))
  }

  function HandleWarmup(p: Pool, n: nat, backoff: bool): Pool {
    var need := Min(n, p.maxConns) - CountLive(p.conns) - p.dials;
    if need <= 0 || backoff then p else p.(dials := p.dials + need)
  }
}
