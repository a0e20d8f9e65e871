/** The HTTP/1.1 connection pool: one actor that checks connections out exclusively,
    queues callers it cannot serve, dials within a budget and probes idle sockets off the
    actor under a reservation. This module says what each handler does to the pool. */
module H1Pool {
  import opened FixedWidth
  import opened PoolReplies

  datatype Conn = Conn(id: nat, alive: bool, active: int, probing: bool)

  /** `replies` is every reply the actor has sent, in order. `holders` counts the callers
      that hold each connection: a grant adds one, a release takes one away. */
  datatype Pool = Pool(
    maxConns: nat,
    conns: seq<Conn>,
    waiters: seq<nat>,
    dials: int,
    sweeping: bool,
    replies: seq<Reply>,
    holders: multiset<nat>)

  /** The dial backoff as a handler sees it. The source asks the clock twice, once before
      dialling and once before refusing, and time passes between. */
  datatype Clock = Clock(atDial: bool, atFlush: bool)

  // --------------------------------------------------------------- picking

  /** A checkout candidate. */
  predicate Idle(c: Conn) {
    c.alive && c.active < 1 && !c.probing
  }

  /** The first candidate in the list, or its length when there is none. */
  function FirstIdle(conns: seq<Conn>): (i: nat)
    ensures i <= |conns|
    ensures i < |conns| ==> Idle(conns[i])
    ensures forall j :: 0 <= j < i ==> !Idle(conns[j])
  {
    if conns == [] then 0
    else if Idle(conns[0]) then 0
    else 1 + FirstIdle(conns[1..])
  }

  datatype Tally = Live | ReservedIdle

  predicate Counts(t: Tally, c: Conn) {
    match t
    case Live => c.alive
    case ReservedIdle => c.probing && c.alive && c.active < 1
  }

  /** h1CountLive and h1CountReservedIdle. */
  function Count(conns: seq<Conn>, t: Tally): nat {
    if conns == [] then 0
    else Count(conns[..|conns| - 1], t) + if Counts(t, conns[|conns| - 1]) then 1 else 0
  }

  /** What an eviction keeps. */
  datatype Criterion = NotConn(id: nat) | Alive | NotExpired(expired: set<nat>)

  predicate Keeps(k: Criterion, c: Conn) {
    match k
    case NotConn(id) => c.id != id
    case Alive => c.alive
    case NotExpired(expired) => c.probing || c.active != 0 || c.id !in expired
  }

  function KeepIf(conns: seq<Conn>, k: Criterion): seq<Conn> {
    if conns == [] then []
    else
      var last := conns[|conns| - 1];
      KeepIf(conns[..|conns| - 1], k) + if Keeps(k, last) then [last] else []
  }

  // --------------------------------------------------------------- replies

  function Grant(p: Pool, req: nat, i: nat): Pool
    requires i < |p.conns|
  {
    var c := p.conns[i];
    p.(conns := p.conns[i := c.(active := c.active + 1)],
       replies := p.replies + [Granted(req, c.id)],
       holders := p.holders + multiset{c.id})
  }

  function Refuse(p: Pool, req: nat, reason: Reason): Pool {
    p.(replies := p.replies + [Refused(req, reason)])
  }

  /** Hands idle connections to waiters, oldest first, while there are both. */
  function ServeWaiters(p: Pool): Pool
    decreases |p.waiters|
  {
    var i := FirstIdle(p.conns);
    if p.waiters == [] || i == |p.conns| then p
    else ServeWaiters(Grant(p.(waiters := p.waiters[1..]), p.waiters[0], i))
  }

  function RefuseAll(p: Pool, reason: Reason): Pool
    decreases |p.waiters|
  {
    if p.waiters == [] then p
    else RefuseAll(Refuse(p.(waiters := p.waiters[1..]), p.waiters[0], reason), reason)
  }

  /** Drops the waiters in `gone`, each with the one reply it is owed. */
  function PruneFrom(p: Pool, gone: set<nat>, kept: seq<nat>): Pool
    decreases |p.waiters|
  {
    if p.waiters == [] then p.(waiters := kept)
    else
      var w := p.waiters[0];
      var rest := p.(waiters := p.waiters[1..]);
      if w in gone then PruneFrom(Refuse(rest, w, ContextDone), gone, kept)
      else PruneFrom(rest, gone, kept + [w])
  }

  // --------------------------------------------------------------- dialling

  function Uncovered(p: Pool): int {
    |p.waiters| - Count(p.conns, ReservedIdle) - p.dials
  }

  function Room(p: Pool): int {
    p.maxConns - Count(p.conns, Live) - p.dials
  }

  function EnsureDialForWaiters(p: Pool, backoff: bool): Pool {
    if backoff then p
    else
      var n := Min(Uncovered(p), Room(p));
      if n > 0 then p.(dials := p.dials + n) else p
  }

  function FlushStrandedWaiters(p: Pool, backoff: bool, reason: Reason): Pool {
    if p.waiters == [] || p.dials > 0 || Count(p.conns, Live) > 0 || !backoff then p
    else RefuseAll(p, reason)
  }

  /** Every handler that can leave waiters behind ends this way. */
  function DialOrFlush(p: Pool, clock: Clock, reason: Reason): Pool {
    FlushStrandedWaiters(EnsureDialForWaiters(p, clock.atDial), clock.atFlush, reason)
  }

  // --------------------------------------------------------------- handlers

  /** A reserved idle connection is already on its way to this request. */
  predicate Promised(p: Pool) {
    |p.waiters| < Count(p.conns, ReservedIdle)
  }

  predicate DialsForNewcomer(p: Pool, backoff: bool) {
    !Promised(p) && Count(p.conns, Live) + p.dials < p.maxConns && !backoff
  }

  predicate RefusesNewcomer(p: Pool, backoff: bool) {
    !Promised(p) && backoff && Count(p.conns, Live) == 0 && p.dials == 0
  }

  function HandleAcquire(p: Pool, req: nat, backoff: bool): Pool {
    var i := FirstIdle(p.conns);
    if i < |p.conns| then Grant(p, req, i)
    else if RefusesNewcomer(p, backoff) then Refuse(p, req, DialBackoff)
    else p.(waiters := p.waiters + [req], dials := p.dials + if DialsForNewcomer(p, backoff) then 1 else 0)
  }

  function IndexOf(conns: seq<Conn>, id: nat): (i: nat)
    ensures i <= |conns|
    ensures i < |conns| ==> conns[i].id == id
    ensures forall j :: 0 <= j < i ==> conns[j].id != id
  {
    if conns == [] then 0
    else if conns[0].id == id then 0
    else 1 + IndexOf(conns[1..], id)
  }

  /** One caller of the i-th connection has gone. */
  function Lowered(p: Pool, i: nat): Pool
    requires i < |p.conns|
  {
    var c := p.conns[i];
    p.(holders := p.holders - multiset{c.id}, conns := p.conns[i := c.(active := c.active - 1)])
  }

  /** A holder gives connection `id` back; it may have been evicted in the meantime. */
  function Returned(p: Pool, id: nat, keepAlive: bool): Pool {
    var i := IndexOf(p.conns, id);
    if i == |p.conns| then p.(holders := p.holders - multiset{id})
    else
      var q := Lowered(p, i);
      if keepAlive && p.conns[i].alive then q else q.(conns := KeepIf(q.conns, NotConn(id)))
  }

  function HandleRelease(p: Pool, id: nat, keepAlive: bool, clock: Clock): Pool {
    DialOrFlush(ServeWaiters(Returned(p, id, keepAlive)), clock, DialBackoff)
  }

  function HandleDialOk(p: Pool, id: nat, backoff: bool): Pool {
    EnsureDialForWaiters(
      ServeWaiters(p.(dials := p.dials - 1, conns := p.conns + [Conn(id, true, 0, false)])), backoff)
  }

  /** A failed dial refuses the newest waiter, unless the reservations cover them all. */
  function DialErrorRefusal(p: Pool): Pool {
    var q := p.(dials := p.dials - 1);
    var n := |p.waiters|;
    if n > Count(p.conns, ReservedIdle) then
      Refuse(q.(waiters := p.waiters[..n - 1]), p.waiters[n - 1], DialError)
    else q
  }

  function HandleDialError(p: Pool, clock: Clock): Pool {
    DialOrFlush(DialErrorRefusal(p), clock, DialError)
  }

  function Reserve(conns: seq<Conn>): seq<Conn> {
    if conns == [] then []
    else
      var last := conns[|conns| - 1];
      Reserve(conns[..|conns| - 1]) + [if last.active == 0 then last.(probing := true) else last]
  }

  function Candidates(conns: seq<Conn>): set<nat> {
    set i | 0 <= i < |conns| && conns[i].active == 0 :: conns[i].id
  }

  /** Reserves every checked-in connection and sends the sweep out, unless one is out. */
  function StartHealthSweep(p: Pool): Pool {
    if p.sweeping then p
    else p.(conns := Reserve(p.conns), sweeping := Candidates(p.conns) != {})
  }

  /** The maintenance of a tick before the waiters are looked at again. */
  function Swept(p: Pool, expired: set<nat>): Pool {
    StartHealthSweep(p.(conns := KeepIf(KeepIf(p.conns, NotExpired(expired)), Alive)))
  }

  function HandleTick(p: Pool, expired: set<nat>, gone: set<nat>, clock: Clock): Pool {
    DialOrFlush(PruneFrom(Swept(p, expired), gone, []), clock, DialBackoff)
  }

  function HandleStats(p: Pool): Pool {
    p.(conns := KeepIf(p.conns, Alive))
  }

  function Unreserve(conns: seq<Conn>, probed: set<nat>): seq<Conn> {
    if conns == [] then []
    else
      var last := conns[|conns| - 1];
      Unreserve(conns[..|conns| - 1], probed) + [if last.id in probed then last.(probing := false) else last]
  }

  /** Evicts the connections the sweep found dead, one after another. */
  function EvictAll(conns: seq<Conn>, dead: seq<nat>): seq<Conn>
    decreases |dead|
  {
    if dead == [] then conns else EvictAll(KeepIf(conns, NotConn(dead[0])), dead[1..])
  }

  function Unswept(p: Pool, probed: set<nat>, dead: seq<nat>): Pool {
    p.(sweeping := false, conns := EvictAll(Unreserve(p.conns, probed), dead))
  }

  function HandleSweepDone(p: Pool, probed: set<nat>, dead: seq<nat>, clock: Clock): Pool {
    DialOrFlush(ServeWaiters(Unswept(p, probed, dead)), clock, DialBackoff)
  }

  function HandleClose(p: Pool): Pool {
    RefuseAll(p, PoolClosed).(dials := 0)
  }

  /** The environment closes a socket under the pool. */
  function Die(conns: seq<Conn>, id: nat): seq<Conn> {
    var i := IndexOf(conns, id);
    if i == |conns| then conns else conns[i := conns[i].(alive := false)]
  }
}
