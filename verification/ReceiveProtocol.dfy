/** Both ends of the receive direction with the frames in flight between them. The peer
    keeps its own view of the windows and sends DATA only within it; we charge DATA and
    give credit back as ReceiveWindows does. Every interleaving of the two is a run.

    A DATA frame is looked up, checked and charged in sections of their own. While the peer
    has not ended the stream nothing can come between that matters, and it is one step. A
    frame after its END_STREAM can find the struct in other hands, so it is taken apart. */
module ReceiveProtocol {
  import opened FixedWidth
  import opened ReceiveWindows

  /** What a peer puts on the wire for us. DATA is late when the peer had ended the stream
      before. An ACK of the tuner's PING may be unsolicited. */
  datatype FromPeer =
    | Data(id: nat, length: nat, late: bool)
    | Promise(id: nat)
    | ProbeAck

  /** What we put on the wire for the peer; Headers opens the stream at the peer. */
  datatype ToPeer =
    | Headers(id: nat)
    | Credit(update: Update)
    | Reset(id: nat)
    | Probe

  /** What the struct that the reader holds is used for: registered under an id, evicted,
      in the pool, allocated for a request that has no id yet, or given up by that. */
  datatype At =
    | Named(id: nat)
    | Evicted(id: nat, scope: Scope)
    | Pooled(scope: Scope)
    | Waiting(req: nat)
    | Abandoned(scope: Scope)

  /** The reader with a late DATA frame of stream `id`. */
  datatype Reader =
    | Idle
    | Checking(id: nat, length: nat, at: At)   // about to ask whether the stream has ended
    | Charging(id: nat, length: nat, at: At)   // it has not: about to charge the struct
    | Refunding(id: nat, at: At, streamInc: nat, connInc: nat, probe: bool)
    | Blaming(id: nat, at: At)                 // about to reset the stream the struct names

  /** `peerStreams` is the peer's ledger of stream windows and keeps closed streams.
      `unnamed` are the windows of requests that have no id yet, and `pool` is what the
      structs owe that late DATA has charged in the pool. */
  datatype Net = Net(
    us: Windows,
    nextId: nat,
    unnamed: map<nat, Scope>,
    nextReq: nat,
    pool: multiset<nat>,
    reader: Reader,
    peerConn: int,
    peerStreams: map<nat, int>,
    peerEnded: set<nat>,
    inbound: seq<FromPeer>,
    outbound: seq<ToPeer>,
    flowErrors: nat)

  /** `pending` is what the struct owes that is allocated. */
  datatype Action =
    | ClientAllocs(pending: nat)
    | ClientOpens(req: nat)
    | ClientDrops(req: nat)
    | ClientEvicts(id: nat, rst: bool)
    | ClientReceives(malformed: bool, acceptPush: bool, pending: nat)
    | ProbeWriteFails
    | ClientFinds
    | Recycles
    | Reallocs
    | LateChecks
    | LateCharges
    | LateRefunds
    | LateBlames
    | PeerSends(id: nat, length: nat, end: bool)
    | PeerEnds(id: nat)
    | PeerPromises(id: nat)
    | PeerAcks
    | PeerReceives

  // ------------------------------------------------------------------ steps

  function Threshold(n: Net): nat {
    StreamRefundThreshold(n.us.initial)
  }

  function Credits(updates: seq<Update>): seq<ToPeer> {
    seq(|updates|, i requires 0 <= i < |updates| => Credit(updates[i]))
  }

  /** A stream leaves the registry, with or without an RST_STREAM for the peer. */
  function Evict(n: Net, id: nat, rst: bool): Net {
    n.(us := EvictStream(n.us, id), outbound := n.outbound + if rst then [Reset(id)] else [],
       reader := if id in n.us.streams then Moved(n.reader, Named(id), Evicted(id, n.us.streams[id])) else n.reader)
  }

  /** The struct in the reader's hands goes from one use to another. */
  function Moved(r: Reader, from: At, to: At): Reader {
    if !r.Idle? && r.at == from then r.(at := to) else r
  }

  function FlowError(outcome: Outcome): nat {
    if outcome.Settled? then 0 else 1
  }

  /** A DATA frame in one step. A stream absent from the registry costs the connection
      window only. */
  function ReceiveData(n: Net, id: nat, length: nat, malformed: bool): Net {
    var known := id in n.us.streams;
    var r := if known then OnDataReceived(n.us, id, length) else AccountConnRecvOnly(n.us, length);
    var m := n.(
      us := r.next,
      outbound := n.outbound + Credits(r.updates) + (if r.probe then [Probe] else []),
      flowErrors := n.flowErrors + FlowError(r.outcome));
    if known && (malformed || r.outcome.StreamOverrun?) then Evict(m, id, true) else m
  }

  function Receive(n: Net, frame: FromPeer, malformed: bool, acceptPush: bool, pending: nat): Net {
    match frame
    case Data(id, length, _) => ReceiveData(n, id, length, malformed)
    case Promise(id) =>
      if acceptPush then
        n.(us := OpenAs(n.us, id, Scope(ToInt32(n.us.initial), pending)), pool := n.pool - multiset{pending})
      else n.(outbound := n.outbound + [Reset(id)])
    case ProbeAck => n.(us := OnAck(n.us))
  }

  function PeerReceive(n: Net, frame: ToPeer): Net {
    match frame
    case Headers(id) =>
      n.(peerStreams := if id in n.peerStreams then n.peerStreams else n.peerStreams[id := n.us.initial])
    case Credit(u) =>
      if u.id == 0 then
        n.(peerConn := n.peerConn + u.increment,
           flowErrors := n.flowErrors + if n.peerConn + u.increment > MAX_WINDOW then 1 else 0)
      else if u.id in n.peerStreams then
        n.(peerStreams := n.peerStreams[u.id := n.peerStreams[u.id] + u.increment],
           flowErrors := n.flowErrors + if n.peerStreams[u.id] + u.increment > MAX_WINDOW then 1 else 0)
      else n
    case Reset(_) => n
    case Probe => n.(inbound := n.inbound + [ProbeAck])
  }

  /** A struct is as good as new, or owes what it was charged in the pool. */
  predicate Owes(n: Net, pending: nat) {
    pending == 0 || pending in n.pool
  }

  function Allocated(n: Net, pending: nat): Net {
    n.(unnamed := n.unnamed[n.nextReq := Scope(ToInt32(n.us.initial), pending)], nextReq := n.nextReq + 1)
  }

  function RunAlloc(n: Net, pending: nat): Net {
    Allocated(n.(pool := n.pool - multiset{pending}), pending)
  }

  /** The reader is done with the struct. */
  function LetGo(n: Net): Net
    requires !n.reader.Idle?
  {
    n.(reader := Idle, pool := if n.reader.at.Pooled? then n.pool + multiset{n.reader.at.scope.pending} else n.pool)
  }

  /** The first HEADERS of a request names its struct. */
  function RunOpen(n: Net, req: nat): Net
    requires req in n.unnamed
  {
    n.(us := OpenAs(n.us, n.nextId, n.unnamed[req]), unnamed := n.unnamed - {req}, nextId := n.nextId + 2,
       outbound := n.outbound + [Headers(n.nextId)], reader := Moved(n.reader, Waiting(req), Named(n.nextId)))
  }

  /** A request closed before it had an id never goes back to the pool. */
  function RunDrop(n: Net, req: nat): Net
    requires req in n.unnamed
  {
    n.(unnamed := n.unnamed - {req}, reader := Moved(n.reader, Waiting(req), Abandoned(n.unnamed[req])))
  }

  /** The window stays as it was until the struct is allocated; what was owed is cleared
      here, and not then. Only the stream of the frame can have ended, since the reader is
      the one to see others end. */
  function RunRecycle(n: Net): Net
    requires !n.reader.Idle? && n.reader.at.Evicted?
  {
    n.(reader := n.reader.(at := Pooled(Scope(n.reader.at.scope.window, 0))))
  }

  function RunRealloc(n: Net): Net
    requires !n.reader.Idle? && n.reader.at.Pooled?
  {
    Allocated(n, n.reader.at.scope.pending).(reader := n.reader.(at := Waiting(n.nextReq)))
  }

  /** The struct still serves the stream of the frame, or has not been recycled since. */
  predicate Own(r: Reader)
    requires !r.Idle?
  {
    match r.at
    case Named(id) => id == r.id
    case Evicted(id, _) => id == r.id
    case _ => false
  }

  /** The id in the struct. */
  function IdAt(at: At): nat {
    match at
    case Named(id) => id
    case Evicted(id, _) => id
    case _ => 0
  }

  /** A stream that has ended costs the connection window only. */
  function RunCheck(n: Net): Net
    requires n.reader.Checking?
  {
    var Checking(id, length, at) := n.reader;
    if Own(n.reader) then
      var r := AccountConnRecvOnly(n.us, length);
      n.(us := r.next, outbound := n.outbound + Credits(r.updates), flowErrors := n.flowErrors + FlowError(r.outcome),
         reader := Blaming(id, at))
    else n.(reader := Charging(id, length, at))
  }

  predicate Placed(n: Net, at: At) {
    match at
    case Named(id) => id in n.us.streams
    case Waiting(req) => req in n.unnamed
    case _ => true
  }

  /** The window in the struct. */
  function ScopeAt(n: Net, at: At): Scope
    requires Placed(n, at)
  {
    match at
    case Named(id) => n.us.streams[id]
    case Waiting(req) => n.unnamed[req]
    case Evicted(_, scope) => scope
    case Pooled(scope) => scope
    case Abandoned(scope) => scope
  }

  function PutScope(n: Net, sc: Scope): Net
    requires !n.reader.Idle? && Placed(n, n.reader.at)
  {
    match n.reader.at
    case Named(id) => n.(us := OpenAs(n.us, id, sc))
    case Waiting(req) => n.(unnamed := n.unnamed[req := sc])
    case Evicted(id, _) => n.(reader := n.reader.(at := Evicted(id, sc)))
    case Pooled(_) => n.(reader := n.reader.(at := Pooled(sc)))
    case Abandoned(_) => n.(reader := n.reader.(at := Abandoned(sc)))
  }

  /** Both windows are charged: the connection's, and that of the struct. */
  function RunCharge(n: Net): Net
    requires n.reader.Charging? && Placed(n, n.reader.at)
  {
    var id, length := n.reader.id, n.reader.length;
    match Debit(n.us.conn, CONN_THRESHOLD, n.us.connTarget, length)
    case Overrun(c) => LetGo(n).(us := n.us.(conn := c), flowErrors := n.flowErrors + 1)
    case Accepted(c, connInc) =>
      match Debit(ScopeAt(n, n.reader.at), Threshold(n), n.us.streamTarget, length)
      case Overrun(s) =>
        var m := PutScope(n, s);
        m.(us := m.us.(conn := c), flowErrors := n.flowErrors + 1,
           reader := Refunding(id, m.reader.at, 0, connInc, false))
      case Accepted(s, streamInc) =>
        var (t, probe) := TunerOnData(n.us.tuner, length);
        var m := PutScope(n, s);
        m.(us := m.us.(conn := c, tuner := t), reader := Refunding(id, m.reader.at, streamInc, connInc, probe))
  }

  /** The increment computed for the struct is written for the id it has by then. */
  function RunRefund(n: Net): Net
    requires n.reader.Refunding?
  {
    var Refunding(id, at, streamInc, connInc, probe) := n.reader;
    var credits := Credits(Refund(IdAt(at), streamInc) + Refund(0, connInc));
    n.(outbound := n.outbound + credits + (if probe then [Probe] else []), reader := Blaming(id, at))
  }

  /** The stream error names the id in the struct; one for stream 0 comes to nothing. */
  function RunBlame(n: Net): Net
    requires n.reader.Blaming?
  {
    var sid := IdAt(n.reader.at);
    if sid == 0 then LetGo(n) else Evict(LetGo(n), sid, true)
  }

  predicate Late(n: Net) {
    n.inbound != [] && n.inbound[0].Data? && n.inbound[0].late && n.inbound[0].id in n.us.streams
  }

  predicate Enabled(n: Net, a: Action) {
    match a
    case ClientAllocs(pending) => Owes(n, pending)
    case ClientOpens(req) => req in n.unnamed
    case ClientDrops(req) => req in n.unnamed
    case ClientEvicts(id, _) => id in n.us.streams
    case ClientReceives(_, _, pending) => n.reader.Idle? && n.inbound != [] && !Late(n) && Owes(n, pending)
    case ProbeWriteFails => true
    case ClientFinds => n.reader.Idle? && Late(n)
    case Recycles => !n.reader.Idle? && n.reader.at.Evicted? && Own(n.reader)
    case Reallocs => !n.reader.Idle? && n.reader.at.Pooled?
    case LateChecks => n.reader.Checking?
    case LateCharges => n.reader.Charging? && Placed(n, n.reader.at)
    case LateRefunds => n.reader.Refunding?
    case LateBlames => n.reader.Blaming?
    case PeerSends(id, length, _) =>
      id in n.peerStreams && length <= MAX_FRAME && length <= n.peerStreams[id] && length <= n.peerConn
    case PeerEnds(id) => id in n.peerStreams
    case PeerPromises(id) => id % 2 == 0 && id != 0 && id !in n.peerStreams
    case PeerAcks => true
    case PeerReceives => n.outbound != []
  }

  function RunPeerSends(n: Net, id: nat, length: nat, end: bool): Net
    requires id in n.peerStreams
  {
    n.(peerConn := n.peerConn - length,
       peerStreams := n.peerStreams[id := n.peerStreams[id] - length],
       peerEnded := if end then n.peerEnded + {id} else n.peerEnded,
       inbound := n.inbound + [Data(id, length, id in n.peerEnded)])
  }

  function Step(n: Net, a: Action): Net
    requires Enabled(n, a)
  {
    match a
    case ClientAllocs(pending) => RunAlloc(n, pending)
    case ClientOpens(req) => RunOpen(n, req)
    case ClientDrops(req) => RunDrop(n, req)
    case ClientEvicts(id, rst) => Evict(n, id, rst)
    case ClientReceives(malformed, acceptPush, pending) =>
      Receive(n.(inbound := n.inbound[1..]), n.inbound[0], malformed, acceptPush, pending)
    case ProbeWriteFails => n.(us := n.us.(tuner := ProbeFailed(n.us.tuner)))
    case ClientFinds =>
      n.(inbound := n.inbound[1..], reader := Checking(n.inbound[0].id, n.inbound[0].length, Named(n.inbound[0].id)))
    case Recycles => RunRecycle(n)
    case Reallocs => RunRealloc(n)
    case LateChecks => RunCheck(n)
    case LateCharges => RunCharge(n)
    case LateRefunds => RunRefund(n)
    case LateBlames => RunBlame(n)
    case PeerSends(id, length, end) => RunPeerSends(n, id, length, end)
    case PeerEnds(id) => n.(peerEnded := n.peerEnded + {id})
    case PeerPromises(id) =>
      n.(peerStreams := n.peerStreams[id := n.us.initial], inbound := n.inbound + [Promise(id)])
    case PeerAcks => n.(inbound := n.inbound + [ProbeAck])
    case PeerReceives => PeerReceive(n.(outbound := n.outbound[1..]), n.outbound[0])
  }

  function Initial(o: Options): Net {
    Net(Start(o), 1, map[], 0, multiset{}, Idle, CONN_INITIAL, map[], {}, [], [], 0)
  }

  /** Every step of a run was enabled when it was taken. */
  predicate IsRun(n: Net, run: seq<Action>)
    decreases |run|
  {
    run == [] || (Enabled(n, run[0]) && IsRun(Step(n, run[0]), run[1..]))
  }

  function After(n: Net, run: seq<Action>): Net
    requires IsRun(n, run)
    decreases |run|
  {
    if run == [] then n else After(Step(n, run[0]), run[1..])
  }

  predicate InUse(at: At) {
    at.Named? || at.Waiting?
  }

  /** What may be given back for a struct in nobody's use: nothing; or, for a stream that is
      closed, as much as keeps the peer's ledger of it legal. For a struct without an id it
      would go to the connection. */
  predicate Writable(n: Net, at: At, increment: int) {
    increment == 0 ||
    (at.Evicted? && PeerView(n, at.id) + CreditFor(n.outbound, at.id) + increment <= MAX_WINDOW)
  }

  /** A late charge that does no harm: there is nothing to charge, or the struct is in
      nobody's use, the charge does not overrun its window, and what it calls for may be
      given back. */
  predicate Harmless(n: Net)
    requires Enabled(n, LateCharges)
  {
    var sc, length := ScopeAt(n, n.reader.at), n.reader.length;
    length == 0 ||
    (!InUse(n.reader.at) && length <= sc.window &&
     (sc.pending + length < Threshold(n) || Writable(n, n.reader.at, n.us.streamTarget - (sc.window - length))))
  }

  predicate AllHarmless(n: Net, run: seq<Action>)
    requires IsRun(n, run)
    decreases |run|
  {
    run == [] || ((run[0].LateCharges? ==> Harmless(n)) && AllHarmless(Step(n, run[0]), run[1..]))
  }

  // -------------------------------------------------------- bytes in flight

  function Length(f: FromPeer, id: nat): nat {
    if f.Data? && f.id == id then f.length else 0
  }

  /** DATA bytes in flight on one stream. */
  function DataOn(q: seq<FromPeer>, id: nat): nat {
    if q == [] then 0 else Length(q[0], id) + DataOn(q[1..], id)
  }

  /** DATA bytes in flight on the connection. */
  function DataTotal(q: seq<FromPeer>): nat {
    if q == [] then 0 else (if q[0].Data? then q[0].length else 0) + DataTotal(q[1..])
  }

  function Amount(f: ToPeer, id: nat): nat {
    if f.Credit? && f.update.id == id then f.update.increment else 0
  }

  /** Credit in flight to the peer for one window. */
  function CreditFor(q: seq<ToPeer>, id: nat): nat {
    if q == [] then 0 else Amount(q[0], id) + CreditFor(q[1..], id)
  }

  lemma {:induction false} DataOnConcat(a: seq<FromPeer>, b: seq<FromPeer>, id: nat)
    ensures DataOn(a + b, id) == DataOn(a, id) + DataOn(b, id)
  {
    if a == [] {
      assert a + b == b;
    } else {
      assert (a + b)[1..] == a[1..] + b;
      DataOnConcat(a[1..], b, id);
    }
  }

  lemma {:induction false} DataTotalConcat(a: seq<FromPeer>, b: seq<FromPeer>)
    ensures DataTotal(a + b) == DataTotal(a) + DataTotal(b)
  {
    if a == [] {
      assert a + b == b;
    } else {
      assert (a + b)[1..] == a[1..] + b;
      DataTotalConcat(a[1..], b);
    }
  }

  lemma {:induction false} CreditConcat(a: seq<ToPeer>, b: seq<ToPeer>, id: nat)
    ensures CreditFor(a + b, id) == CreditFor(a, id) + CreditFor(b, id)
  {
    if a == [] {
      assert a + b == b;
    } else {
      assert (a + b)[1..] == a[1..] + b;
      CreditConcat(a[1..], b, id);
    }
  }

  lemma {:induction false} CreditsCarryIncrements(updates: seq<Update>, id: nat)
    ensures CreditFor(Credits(updates), id) == Increments(updates, id)
  {
    if updates != [] {
      assert Credits(updates)[1..] == Credits(updates[1..]);
      CreditsCarryIncrements(updates[1..], id);
    }
  }

  // -------------------------------------------------------------- invariant

  /** The peer's view of a stream; a stream it has not heard of yet is at its initial size. */
  function PeerView(n: Net, id: nat): int {
    if id in n.peerStreams then n.peerStreams[id] else n.us.initial
  }

  /** Of the frame in the reader's hands: what is not charged to the connection yet, or the
      increment for it that is not written. */
  function OnHand(n: Net): nat {
    match n.reader
    case Checking(_, length, _) => length
    case Charging(_, length, _) => length
    case Refunding(_, _, _, connInc, _) => connInc
    case _ => 0
  }

  /** The same for a stream. */
  function HandOn(n: Net, id: nat): nat {
    match n.reader
    case Checking(i, length, _) => if i == id then length else 0
    case Charging(i, length, _) => if i == id then length else 0
    case Refunding(_, at, streamInc, _, _) => if at == Named(id) then streamInc else 0
    case _ => 0
  }

  /** And for a request without an id. */
  function HandFor(n: Net, req: nat): nat {
    if n.reader.Refunding? && n.reader.at == Waiting(req) then n.reader.streamInc else 0
  }

  /** Our connection window is the peer's view of it plus everything in flight. */
  ghost predicate ConnAgrees(n: Net) {
    && 0 <= n.peerConn
    && n.us.conn.window == n.peerConn + CreditFor(n.outbound, 0) + DataTotal(n.inbound) + OnHand(n)
  }

  /** The same for a stream window. */
  ghost predicate StreamAgrees(n: Net, id: nat)
    requires id in n.us.streams
  {
    n.us.streams[id].window == PeerView(n, id) + CreditFor(n.outbound, id) + DataOn(n.inbound, id) + HandOn(n, id)
  }

  /** And for the window of a request that the peer has not heard of. */
  ghost predicate UnnamedAgrees(n: Net, req: nat)
    requires req in n.unnamed
  {
    n.unnamed[req].window == n.us.initial + HandFor(n, req)
  }

  /** A stream whose late DATA has been refused, and which is about to be reset for it. */
  predicate Doomed(n: Net, id: nat) {
    n.reader.Blaming? && n.reader.id == id
  }

  /** Both ends agree on every window, and no error has been raised. An increment that is to
      be written belongs to a window of ours, or may be given back all the same. */
  ghost predicate Agrees(n: Net) {
    && n.flowErrors == 0
    && ConnAgrees(n)
    && (forall id :: id in n.us.streams && !Doomed(n, id) ==> StreamAgrees(n, id))
    && (forall req :: req in n.unnamed ==> UnnamedAgrees(n, req))
    && (n.reader.Refunding? && !InUse(n.reader.at) ==> Writable(n, n.reader.at, n.reader.streamInc))
  }

  /** A promise still in flight names a stream we have not registered, and everything the
      peer has spent on it since is behind the promise in the queue. */
  ghost predicate PromiseAgrees(n: Net, k: nat)
    requires k < |n.inbound| && n.inbound[k].Promise?
  {
    var id := n.inbound[k].id;
    && id !in n.us.streams
    && id % 2 == 0 && id != 0 && id in n.peerStreams
    && CreditFor(n.outbound, id) == 0
    && DataOn(n.inbound[..k], id) == 0
    && n.peerStreams[id] + DataOn(n.inbound, id) == n.us.initial
    && (n.reader.Idle? || n.reader.id != id)
    && forall j | 0 <= j < |n.inbound| && j != k :: n.inbound[j] != n.inbound[k]
  }

  ghost predicate InboundKnown(n: Net) {
    forall k :: 0 <= k < |n.inbound| && n.inbound[k].Data? ==>
      n.inbound[k].id in n.peerStreams && n.inbound[k].length <= MAX_FRAME
  }

  /** Credit is for a stream the peer knows, or for one of ours that is closed. */
  ghost predicate OutboundKnown(n: Net) {
    forall k :: 0 <= k < |n.outbound| && n.outbound[k].Credit? && n.outbound[k].update.id != 0 ==>
      var id := n.outbound[k].update.id;
      id in n.peerStreams || (id % 2 == 1 && id < n.nextId && id !in n.us.streams)
  }

  /** Stream ids: ours are odd and below nextId, the peer's are even, and 0 is nobody's. */
  ghost predicate IdsInOrder(n: Net) {
    && n.nextId % 2 == 1
    && (forall id :: id in n.us.streams ==> id != 0 && (id % 2 == 1 ==> id < n.nextId))
    && (forall id :: id in n.us.streams && id % 2 == 0 ==> id in n.peerStreams)
    && (forall id :: id in n.peerStreams ==> id != 0 && (id % 2 == 1 ==> id < n.nextId))
    && (forall k :: 0 <= k < |n.outbound| && n.outbound[k].Headers? ==>
          n.outbound[k].id % 2 == 1 && n.outbound[k].id < n.nextId)
  }

  /** No credit of ours, once delivered, takes a window of the peer past the maximum. */
  ghost predicate LedgerInRange(n: Net, id: nat) {
    0 <= PeerView(n, id) && PeerView(n, id) + CreditFor(n.outbound, id) <= MAX_WINDOW
  }

  /** A struct in nobody's use. */
  ghost predicate Husk(n: Net, sc: Scope) {
    sc.pending < Threshold(n) && 0 <= sc.window <= n.us.streamTarget
  }

  ghost predicate AtOk(n: Net, at: At) {
    match at
    case Named(id) => id in n.us.streams
    case Waiting(req) => req in n.unnamed
    case Evicted(id, scope) => id != 0 && id !in n.us.streams && Husk(n, scope)
    case Pooled(scope) => Husk(n, scope)
    case Abandoned(scope) => Husk(n, scope)
  }

  /** The id in the struct is that of the frame, or one of ours. */
  ghost predicate IdOk(n: Net, id: nat)
    requires !n.reader.Idle?
  {
    id == 0 || id == n.reader.id || (id % 2 == 1 && id < n.nextId)
  }

  /** The frame in hand is of a stream the peer knows; while that is registered the struct
      is its own. */
  ghost predicate ReaderOk(n: Net) {
    !n.reader.Idle? ==>
      && AtOk(n, n.reader.at) && IdOk(n, IdAt(n.reader.at))
      && n.reader.id in n.peerStreams
      && (n.reader.id in n.us.streams ==> n.reader.at == Named(n.reader.id))
      && (n.reader.Checking? || n.reader.Charging? ==> n.reader.length <= MAX_FRAME)
      && (n.reader.Charging? || n.reader.Refunding? ==> !Own(n.reader))
      && (n.reader.Refunding? ==> n.reader.streamInc == 0 || n.reader.at.Evicted?)
  }

  ghost predicate UnnamedOk(n: Net) {
    && (forall req :: req in n.unnamed ==> req < n.nextReq && n.unnamed[req].pending < Threshold(n))
    && (forall pending :: pending in n.pool ==> pending < Threshold(n))
  }

  ghost predicate Inv(n: Net) {
    && Valid(n.us)
    && IdsInOrder(n)
    && InboundKnown(n)
    && OutboundKnown(n)
    && Agrees(n)
    && (forall id: nat :: id != 0 ==> LedgerInRange(n, id))
    && (forall k: nat :: k < |n.inbound| && n.inbound[k].Promise? ==> PromiseAgrees(n, k))
    && UnnamedOk(n)
    && ReaderOk(n)
  }

  // ----------------------------------------------- every step keeps the invariant

  lemma InitialInv(o: Options)
    requires 1 <= o.initialWindow <= MAX_WINDOW
    ensures Inv(Initial(o))
  {
    StartIsValid(o);
  }

  lemma DataOnFront(q: seq<FromPeer>, k: nat, id: nat)
    requires k < |q|
    ensures DataOn(q[..k + 1], id) == Length(q[0], id) + DataOn(q[1..][..k], id)
  {
    assert q[..k + 1][1..] == q[1..][..k];
  }

  /** Queueing a frame for the peer that carries no credit and opens nothing unknown. */
  lemma OutboundInv(n: Net, f: ToPeer)
    requires Inv(n)
    requires f.Reset? || f.Probe?
    ensures Inv(n.(outbound := n.outbound + [f]))
  {
    var m := n.(outbound := n.outbound + [f]);
    forall id: nat ensures CreditFor(m.outbound, id) == CreditFor(n.outbound, id) {
      CreditConcat(n.outbound, [f], id);
    }
    forall id | id in m.us.streams && !Doomed(m, id) ensures StreamAgrees(m, id) {
      assert StreamAgrees(n, id);
    }
    forall req | req in m.unnamed ensures UnnamedAgrees(m, req) {
      assert UnnamedAgrees(n, req);
    }
    forall id: nat | id != 0 ensures LedgerInRange(m, id) {
      assert LedgerInRange(n, id);
    }
    forall k: nat | k < |m.inbound| && m.inbound[k].Promise? ensures PromiseAgrees(m, k) {
      assert PromiseAgrees(n, k);
    }
  }

  /** Nothing between the two ends has changed. */
  ghost predicate SameWire(n: Net, m: Net) {
    && m.inbound == n.inbound && m.outbound == n.outbound && m.peerConn == n.peerConn
    && m.peerStreams == n.peerStreams && m.us.initial == n.us.initial && m.flowErrors == n.flowErrors
  }

  lemma SameWireInv(n: Net, m: Net)
    requires Inv(n) && SameWire(n, m)
    requires Valid(m.us) && IdsInOrder(m) && Agrees(m) && UnnamedOk(m) && ReaderOk(m)
    requires n.nextId <= m.nextId && forall id :: id in m.us.streams ==> id in n.us.streams || id == n.nextId
    requires n.reader.Idle? <==> m.reader.Idle?
    requires !n.reader.Idle? ==> m.reader.id == n.reader.id
    ensures Inv(m)
  {
    forall id: nat | id != 0 ensures LedgerInRange(m, id) {
      assert LedgerInRange(n, id);
    }
    forall k: nat | k < |m.inbound| && m.inbound[k].Promise? ensures PromiseAgrees(m, k) {
      assert PromiseAgrees(n, k);
    }
  }

  lemma EvictedReader(n: Net, id: nat)
    requires Valid(n.us) && IdsInOrder(n) && ReaderOk(n)
    ensures ReaderOk(Evict(n, id, false).(outbound := n.outbound))
  {
    if id in n.us.streams {
      assert StreamBalanced(n.us, id);
    }
  }

  lemma EvictedInv(n: Net, id: nat)
    requires Inv(n)
    ensures Inv(Evict(n, id, false).(outbound := n.outbound))
  {
    var e := Evict(n, id, false).(outbound := n.outbound);
    EvictKeepsValid(n.us, id);
    EvictedReader(n, id);
    forall i | i in e.us.streams && !Doomed(e, i) ensures StreamAgrees(e, i) {
      assert StreamAgrees(n, i);
    }
    forall req | req in e.unnamed ensures UnnamedAgrees(e, req) {
      assert UnnamedAgrees(n, req);
    }
    SameWireInv(n, e);
  }

  lemma EvictInv(n: Net, id: nat, rst: bool)
    requires Inv(n)
    ensures Inv(Evict(n, id, rst))
  {
    var e := Evict(n, id, false).(outbound := n.outbound);
    EvictedInv(n, id);
    assert n.outbound + [] == n.outbound;
    if rst {
      OutboundInv(e, Reset(id));
    }
  }

  lemma AllocPlaces(n: Net, pending: nat)
    requires UnnamedOk(n) && ReaderOk(n) && pending < Threshold(n)
    ensures UnnamedOk(Allocated(n, pending)) && ReaderOk(Allocated(n, pending))
  {
  }

  lemma AllocInv(n: Net, pending: nat)
    requires Inv(n) && pending < Threshold(n)
    ensures Inv(Allocated(n, pending))
  {
    var m := Allocated(n, pending);
    AllocPlaces(n, pending);
    forall id | id in m.us.streams && !Doomed(m, id) ensures StreamAgrees(m, id) {
      assert StreamAgrees(n, id);
    }
    forall req | req in m.unnamed ensures UnnamedAgrees(m, req) {
      assert req != n.nextReq ==> UnnamedAgrees(n, req);
    }
    SameWireInv(n, m);
  }

  lemma DropInv(n: Net, req: nat)
    requires Inv(n) && req in n.unnamed
    ensures Inv(RunDrop(n, req))
  {
    var m := RunDrop(n, req);
    assert UnnamedAgrees(n, req);
    forall id | id in m.us.streams && !Doomed(m, id) ensures StreamAgrees(m, id) {
      assert StreamAgrees(n, id);
    }
    forall r | r in m.unnamed ensures UnnamedAgrees(m, r) {
      assert UnnamedAgrees(n, r);
    }
    SameWireInv(n, m);
  }

  /** The request gets its id, before its HEADERS are queued. */
  function Registered(n: Net, req: nat): Net
    requires req in n.unnamed
  {
    RunOpen(n, req).(outbound := n.outbound)
  }

  lemma NamedAgrees(n: Net, req: nat, id: nat)
    requires Inv(n) && req in n.unnamed
    requires id in Registered(n, req).us.streams && !Doomed(n, id)
    ensures StreamAgrees(Registered(n, req), id)
  {
    if id == n.nextId {
      assert UnnamedAgrees(n, req);
      NoTrafficOn(n, id);
    } else {
      assert StreamAgrees(n, id);
    }
  }

  lemma NamedPlaces(n: Net, req: nat)
    requires IdsInOrder(n) && UnnamedOk(n) && ReaderOk(n) && req in n.unnamed
    ensures var m := Registered(n, req); IdsInOrder(m) && UnnamedOk(m) && ReaderOk(m)
  {
  }

  lemma NamedInv(n: Net, req: nat)
    requires Inv(n) && req in n.unnamed
    ensures Inv(Registered(n, req))
  {
    var m := Registered(n, req);
    assert UnnamedAgrees(n, req);
    OpenAsKeepsValid(n.us, n.nextId, n.unnamed[req].pending);
    NamedPlaces(n, req);
    forall i | i in m.us.streams && !Doomed(m, i) ensures StreamAgrees(m, i) {
      NamedAgrees(n, req, i);
    }
    forall r | r in m.unnamed ensures UnnamedAgrees(m, r) {
      assert UnnamedAgrees(n, r);
    }
    SameWireInv(n, m);
  }

  lemma HeadersInv(n: Net, id: nat)
    requires Inv(n) && id % 2 == 1 && id < n.nextId
    ensures Inv(n.(outbound := n.outbound + [Headers(id)]))
  {
    var m := n.(outbound := n.outbound + [Headers(id)]);
    forall i: nat ensures CreditFor(m.outbound, i) == CreditFor(n.outbound, i) {
      CreditConcat(n.outbound, [Headers(id)], i);
    }
    forall i | i in m.us.streams && !Doomed(m, i) ensures StreamAgrees(m, i) {
      assert StreamAgrees(n, i);
    }
    forall r | r in m.unnamed ensures UnnamedAgrees(m, r) {
      assert UnnamedAgrees(n, r);
    }
    forall i: nat | i != 0 ensures LedgerInRange(m, i) {
      assert LedgerInRange(n, i);
    }
    forall k: nat | k < |m.inbound| && m.inbound[k].Promise? ensures PromiseAgrees(m, k) {
      assert PromiseAgrees(n, k);
    }
  }

  lemma ClientOpensInv(n: Net, req: nat)
    requires Inv(n) && req in n.unnamed
    ensures Inv(RunOpen(n, req))
  {
    NamedInv(n, req);
    HeadersInv(Registered(n, req), n.nextId);
  }

  /** A stream the peer has never heard of, unless it is closed, has nothing in flight. */
  lemma NoTrafficOn(n: Net, id: nat)
    requires InboundKnown(n) && OutboundKnown(n)
    requires id !in n.peerStreams && id != 0 && (id in n.us.streams || id % 2 == 0 || n.nextId <= id)
    ensures DataOn(n.inbound, id) == 0 && CreditFor(n.outbound, id) == 0
  {
    NoDataOn(n.inbound, id);
    NoCreditFor(n.outbound, id);
  }

  lemma {:induction false} NoDataOn(q: seq<FromPeer>, id: nat)
    requires forall k :: 0 <= k < |q| && q[k].Data? ==> q[k].id != id
    ensures DataOn(q, id) == 0
  {
    if q != [] {
      NoDataOn(q[1..], id);
    }
  }

  lemma {:induction false} NoCreditFor(q: seq<ToPeer>, id: nat)
    requires forall k :: 0 <= k < |q| && q[k].Credit? ==> q[k].update.id != id
    ensures CreditFor(q, id) == 0
  {
    if q != [] {
      NoCreditFor(q[1..], id);
    }
  }

  // ---------------------------------------------------------------- the peer's steps

  lemma SentIs(n: Net, id: nat, length: nat, end: bool, i: nat)
    requires id in n.peerStreams
    ensures var m := RunPeerSends(n, id, length, end);
      && PeerView(m, i) + DataOn(m.inbound, i) == PeerView(n, i) + DataOn(n.inbound, i)
      && DataTotal(m.inbound) == DataTotal(n.inbound) + length
  {
    var f := Data(id, length, id in n.peerEnded);
    DataTotalConcat(n.inbound, [f]);
    DataOnConcat(n.inbound, [f], i);
  }

  lemma PromiseAhead(n: Net, id: nat, length: nat, end: bool, k: nat)
    requires id in n.peerStreams && k < |n.inbound| && n.inbound[k].Promise? && PromiseAgrees(n, k)
    ensures PromiseAgrees(RunPeerSends(n, id, length, end), k)
  {
    var m := RunPeerSends(n, id, length, end);
    SentIs(n, id, length, end, n.inbound[k].id);
    assert m.inbound[..k] == n.inbound[..k];
  }

  lemma PeerSendsInv(n: Net, id: nat, length: nat, end: bool)
    requires Inv(n) && Enabled(n, PeerSends(id, length, end))
    ensures Inv(RunPeerSends(n, id, length, end))
  {
    var m := RunPeerSends(n, id, length, end);
    SentIs(n, id, length, end, 0);
    forall i | i in m.us.streams && !Doomed(m, i) ensures StreamAgrees(m, i) {
      assert StreamAgrees(n, i);
      SentIs(n, id, length, end, i);
    }
    forall r | r in m.unnamed ensures UnnamedAgrees(m, r) {
      assert UnnamedAgrees(n, r);
    }
    forall i: nat | i != 0 ensures LedgerInRange(m, i) {
      assert LedgerInRange(n, i);
    }
    forall k: nat | k < |m.inbound| && m.inbound[k].Promise? ensures PromiseAgrees(m, k) {
      PromiseAhead(n, id, length, end, k);
    }
  }

  lemma PromiseQueued(n: Net, id: nat, k: nat)
    requires Inv(n) && Enabled(n, PeerPromises(id)) && k <= |n.inbound|
    requires k < |n.inbound| ==> n.inbound[k].Promise?
    ensures PromiseAgrees(Step(n, PeerPromises(id)), k)
  {
    var m := Step(n, PeerPromises(id));
    NoTrafficOn(n, id);
    forall i: nat ensures DataOn(m.inbound, i) == DataOn(n.inbound, i) {
      DataOnConcat(n.inbound, [Promise(id)], i);
    }
    if k < |n.inbound| {
      assert PromiseAgrees(n, k);
      assert m.inbound[..k] == n.inbound[..k];
    } else {
      assert m.inbound[..k] == n.inbound;
      forall j | 0 <= j < |n.inbound| && n.inbound[j].Promise? ensures n.inbound[j].id != id {
        assert PromiseAgrees(n, j);
      }
    }
  }

  lemma PromisedIds(n: Net, id: nat)
    requires IdsInOrder(n) && InboundKnown(n) && OutboundKnown(n) && ReaderOk(n) && Enabled(n, PeerPromises(id))
    ensures var m := Step(n, PeerPromises(id));
      IdsInOrder(m) && InboundKnown(m) && OutboundKnown(m) && ReaderOk(m)
  {
  }

  lemma PeerPromisesInv(n: Net, id: nat)
    requires Inv(n) && Enabled(n, PeerPromises(id))
    ensures Inv(Step(n, PeerPromises(id)))
  {
    var m := Step(n, PeerPromises(id));
    var f := Promise(id);
    PromisedIds(n, id);
    NoTrafficOn(n, id);
    DataTotalConcat(n.inbound, [f]);
    forall i: nat ensures DataOn(m.inbound, i) == DataOn(n.inbound, i) {
      DataOnConcat(n.inbound, [f], i);
    }
    forall i | i in m.us.streams && !Doomed(m, i) ensures StreamAgrees(m, i) {
      assert StreamAgrees(n, i);
    }
    forall r | r in m.unnamed ensures UnnamedAgrees(m, r) {
      assert UnnamedAgrees(n, r);
    }
    forall i: nat | i != 0 ensures LedgerInRange(m, i) {
      assert LedgerInRange(n, i);
    }
    forall k: nat | k < |m.inbound| && m.inbound[k].Promise? ensures PromiseAgrees(m, k) {
      PromiseQueued(n, id, k);
    }
  }

  lemma AckQueuedInv(n: Net)
    requires Inv(n)
    ensures Inv(n.(inbound := n.inbound + [ProbeAck]))
  {
    var m := n.(inbound := n.inbound + [ProbeAck]);
    DataTotalConcat(n.inbound, [ProbeAck]);
    forall i: nat ensures DataOn(m.inbound, i) == DataOn(n.inbound, i) {
      DataOnConcat(n.inbound, [ProbeAck], i);
    }
    forall i | i in m.us.streams && !Doomed(m, i) ensures StreamAgrees(m, i) {
      assert StreamAgrees(n, i);
    }
    forall r | r in m.unnamed ensures UnnamedAgrees(m, r) {
      assert UnnamedAgrees(n, r);
    }
    forall i: nat | i != 0 ensures LedgerInRange(m, i) {
      assert LedgerInRange(n, i);
    }
    forall k: nat | k < |m.inbound| && m.inbound[k].Promise? ensures PromiseAgrees(m, k) {
      assert PromiseAgrees(n, k);
      assert m.inbound[..k] == n.inbound[..k];
    }
  }

  /** What the peer does with a frame that opens nothing and asks for no answer. */
  function Taken(n: Net): Net
    requires n.outbound != []
  {
    var rest := n.(outbound := n.outbound[1..]);
    if n.outbound[0].Probe? then rest else PeerReceive(rest, n.outbound[0])
  }

  lemma TakenIs(n: Net)
    requires Inv(n) && n.outbound != [] && !n.outbound[0].Headers?
    ensures var m := Taken(n);
      && m == n.(outbound := n.outbound[1..], peerConn := m.peerConn, peerStreams := m.peerStreams)
      && m.peerConn == n.peerConn + CreditFor(n.outbound, 0) - CreditFor(m.outbound, 0)
      && m.peerStreams.Keys == n.peerStreams.Keys
      && (forall id: nat :: CreditFor(m.outbound, id) <= CreditFor(n.outbound, id))
      && (forall id :: id in n.peerStreams ==>
            m.peerStreams[id] == n.peerStreams[id] + CreditFor(n.outbound, id) - CreditFor(m.outbound, id))
  {
    var f := n.outbound[0];
    if f.Credit? && f.update.id in n.peerStreams {
      assert LedgerInRange(n, f.update.id);
    }
  }

  lemma PeerTakesInv(n: Net)
    requires Inv(n) && n.outbound != [] && !n.outbound[0].Headers?
    ensures Inv(Taken(n))
  {
    var m := Taken(n);
    TakenIs(n);
    forall i | i in m.us.streams && !Doomed(m, i) ensures StreamAgrees(m, i) {
      assert StreamAgrees(n, i);
      if i !in n.peerStreams {
        NoTrafficOn(n, i);
      }
    }
    forall r | r in m.unnamed ensures UnnamedAgrees(m, r) {
      assert UnnamedAgrees(n, r);
    }
    forall i: nat | i != 0 ensures LedgerInRange(m, i) {
      assert LedgerInRange(n, i);
    }
    forall k: nat | k < |m.inbound| && m.inbound[k].Promise? ensures PromiseAgrees(m, k) {
      assert PromiseAgrees(n, k);
    }
  }

  lemma PeerOpensInv(n: Net)
    requires Inv(n) && n.outbound != [] && n.outbound[0].Headers?
    ensures Inv(PeerReceive(n.(outbound := n.outbound[1..]), n.outbound[0]))
  {
    var f := n.outbound[0];
    var m := PeerReceive(n.(outbound := n.outbound[1..]), f);
    forall i | i in m.us.streams && !Doomed(m, i) ensures StreamAgrees(m, i) {
      assert StreamAgrees(n, i);
    }
    forall r | r in m.unnamed ensures UnnamedAgrees(m, r) {
      assert UnnamedAgrees(n, r);
    }
    forall i: nat | i != 0 ensures LedgerInRange(m, i) {
      assert LedgerInRange(n, i);
    }
    forall k: nat | k < |m.inbound| && m.inbound[k].Promise? ensures PromiseAgrees(m, k) {
      assert PromiseAgrees(n, k);
    }
  }

  lemma PeerReceivesInv(n: Net)
    requires Inv(n) && n.outbound != []
    ensures Inv(Step(n, PeerReceives))
  {
    var f, rest := n.outbound[0], n.(outbound := n.outbound[1..]);
    if f.Headers? {
      PeerOpensInv(n);
    } else if f.Probe? {
      PeerTakesInv(n);
      AckQueuedInv(rest);
    } else {
      PeerTakesInv(n);
    }
  }

  // ------------------------------------------------------------ frames in one step

  /** The facts left once the first inbound frame is taken off the queue. */
  lemma PoppedPromises(n: Net)
    requires Inv(n) && n.inbound != []
    ensures var q := n.inbound[1..];
            forall k: nat :: k < |q| && q[k].Promise? ==>
              && PromiseAgrees(n, k + 1)
              && DataOn(q[..k], q[k].id) == 0
              && Length(n.inbound[0], q[k].id) == 0
  {
    var q := n.inbound[1..];
    forall k: nat | k < |q| && q[k].Promise?
      ensures PromiseAgrees(n, k + 1) && DataOn(q[..k], q[k].id) == 0 && Length(n.inbound[0], q[k].id) == 0
    {
      assert q[k] == n.inbound[k + 1];
      assert PromiseAgrees(n, k + 1);
      DataOnFront(n.inbound, k, q[k].id);
    }
  }

  /** The state with the first inbound frame, a promise, taken off the queue, accepted or not. */
  function Accepts(n: Net, accept: bool, pending: nat): Net
    requires n.inbound != [] && n.inbound[0].Promise?
  {
    var us := OpenAs(n.us, n.inbound[0].id, Scope(n.us.initial, pending));
    n.(inbound := n.inbound[1..], us := if accept then us else n.us)
  }

  lemma AcceptsInv(n: Net, accept: bool, pending: nat)
    requires Inv(n) && n.reader.Idle? && n.inbound != [] && n.inbound[0].Promise? && pending < Threshold(n)
    ensures Inv(Accepts(n, accept, pending))
  {
    var id := n.inbound[0].id;
    assert PromiseAgrees(n, 0);
    PoppedPromises(n);
    OpenAsKeepsValid(n.us, id, pending);
    var m := Accepts(n, accept, pending);
    forall i | i in m.us.streams && !Doomed(m, i) ensures StreamAgrees(m, i) {
      assert i != id ==> StreamAgrees(n, i);
    }
    forall r | r in m.unnamed ensures UnnamedAgrees(m, r) {
      assert UnnamedAgrees(n, r);
    }
    forall i: nat | i != 0 ensures LedgerInRange(m, i) {
      assert LedgerInRange(n, i);
    }
    forall k: nat | k < |m.inbound| && m.inbound[k].Promise? ensures PromiseAgrees(m, k) {
      assert PromiseAgrees(n, k + 1);
      assert m.inbound[k] != n.inbound[0];
    }
  }

  lemma ReceivePromiseInv(n: Net, malformed: bool, accept: bool, pending: nat)
    requires Inv(n) && n.reader.Idle? && n.inbound != [] && n.inbound[0].Promise? && Owes(n, pending)
    ensures Inv(Receive(n.(inbound := n.inbound[1..]), n.inbound[0], malformed, accept, pending))
  {
    StreamThresholdRefundable(n.us.initial, n.us.streamTarget);
    AcceptsInv(n, accept, pending);
    var m := Accepts(n, accept, pending);
    if accept {
      PoolInv(m, n.pool - multiset{pending});
    } else {
      OutboundInv(m, Reset(n.inbound[0].id));
    }
  }

  lemma ReceiveAckInv(n: Net)
    requires Inv(n) && n.inbound != [] && n.inbound[0].ProbeAck?
    ensures Inv(n.(inbound := n.inbound[1..], us := OnAck(n.us)))
  {
    var m := n.(inbound := n.inbound[1..], us := OnAck(n.us));
    AckKeepsValid(n.us);
    PoppedPromises(n);
    forall i | i in m.us.streams && !Doomed(m, i) ensures StreamAgrees(m, i) {
      assert StreamAgrees(n, i);
    }
    forall r | r in m.unnamed ensures UnnamedAgrees(m, r) {
      assert UnnamedAgrees(n, r);
    }
    forall i: nat | i != 0 ensures LedgerInRange(m, i) {
      assert LedgerInRange(n, i);
    }
    forall k: nat | k < |m.inbound| && m.inbound[k].Promise? ensures PromiseAgrees(m, k) {
      assert PromiseAgrees(n, k + 1);
    }
  }

  /** DATA sent within the peer's view always fits both of our windows. */
  lemma DataFits(n: Net)
    requires Inv(n) && n.reader.Idle? && n.inbound != [] && n.inbound[0].Data?
    ensures var f := n.inbound[0];
            && f.length <= n.us.conn.window
            && (f.id in n.us.streams ==> f.length <= n.us.streams[f.id].window)
  {
    var f := n.inbound[0];
    if f.id in n.us.streams {
      assert StreamAgrees(n, f.id);
      assert LedgerInRange(n, f.id);
    }
  }

  /** The facts about a settled receipt that the rest of the system depends on. */
  ghost predicate SettledBy(w: Windows, f: FromPeer, r: Receipt)
    requires f.Data?
  {
    && Valid(r.next)
    && r.next.initial == w.initial && r.next.streamTarget == w.streamTarget
    && r.next.conn.window == w.conn.window - f.length + Increments(r.updates, 0)
    && r.next.streams.Keys == w.streams.Keys
    && (forall i :: i in w.streams && i != f.id ==> r.next.streams[i] == w.streams[i])
    && (f.id in w.streams ==>
          r.next.streams[f.id].window == w.streams[f.id].window - f.length + Increments(r.updates, f.id))
    && (forall i: nat :: i != 0 && (i != f.id || i !in w.streams) ==> Increments(r.updates, i) == 0)
    && (forall i :: 0 <= i < |r.updates| ==> r.updates[i].id == 0 || r.updates[i].id == f.id)
  }

  /** The state once the accounting for the first inbound frame is done. */
  function Accounted(n: Net, r: Receipt): Net
    requires n.inbound != []
  {
    n.(inbound := n.inbound[1..], us := r.next, outbound := n.outbound + Credits(r.updates))
  }

  lemma SettledFlight(n: Net, r: Receipt, i: nat)
    requires n.inbound != []
    ensures var m := Accounted(n, r);
      && CreditFor(m.outbound, i) == CreditFor(n.outbound, i) + Increments(r.updates, i)
      && DataOn(n.inbound, i) == Length(n.inbound[0], i) + DataOn(m.inbound, i)
  {
    CreditConcat(n.outbound, Credits(r.updates), i);
    CreditsCarryIncrements(r.updates, i);
  }

  lemma SettledLedger(n: Net, r: Receipt, i: nat)
    requires Inv(n) && n.reader.Idle? && n.inbound != [] && n.inbound[0].Data? && i != 0
    requires SettledBy(n.us, n.inbound[0], r)
    ensures i in n.us.streams ==> StreamAgrees(Accounted(n, r), i)
    ensures LedgerInRange(Accounted(n, r), i)
  {
    SettledFlight(n, r, i);
    assert LedgerInRange(n, i);
    if i in n.us.streams {
      assert StreamAgrees(n, i) && StreamBalanced(r.next, i);
    }
  }

  lemma SettledInv(n: Net, r: Receipt)
    requires Inv(n) && n.reader.Idle? && n.inbound != [] && n.inbound[0].Data?
    requires SettledBy(n.us, n.inbound[0], r)
    ensures Inv(Accounted(n, r))
  {
    var m := Accounted(n, r);
    SettledFlight(n, r, 0);
    PoppedPromises(n);
    forall i: nat | i != 0
      ensures LedgerInRange(m, i) && (i in m.us.streams && !Doomed(m, i) ==> StreamAgrees(m, i))
    {
      SettledLedger(n, r, i);
    }
    forall q | q in m.unnamed ensures UnnamedAgrees(m, q) {
      assert UnnamedAgrees(n, q);
    }
    forall k: nat | k < |m.inbound| && m.inbound[k].Promise? ensures PromiseAgrees(m, k) {
      assert PromiseAgrees(n, k + 1);
      SettledFlight(n, r, m.inbound[k].id);
    }
  }

  lemma ProbedInv(n: Net, probe: bool)
    requires Inv(n)
    ensures Inv(n.(outbound := n.outbound + if probe then [Probe] else []))
  {
    if probe {
      OutboundInv(n, Probe);
    } else {
      assert n.outbound + [] == n.outbound;
    }
  }

  lemma UnregisteredDataInv(n: Net, malformed: bool)
    requires Inv(n) && n.reader.Idle? && n.inbound != [] && n.inbound[0].Data?
    requires n.inbound[0].id !in n.us.streams
    ensures Inv(ReceiveData(n.(inbound := n.inbound[1..]), n.inbound[0].id, n.inbound[0].length, malformed))
  {
    var f := n.inbound[0];
    var r := AccountConnRecvOnly(n.us, f.length);
    DataFits(n);
    ConnOnlySettles(n.us, f.length);
    SettledInv(n, r);
    assert n.outbound + Credits(r.updates) + [] == n.outbound + Credits(r.updates);
    assert ReceiveData(n.(inbound := n.inbound[1..]), f.id, f.length, malformed) == Accounted(n, r);
  }

  lemma RegisteredSettledBy(n: Net)
    requires Inv(n) && n.reader.Idle? && n.inbound != [] && n.inbound[0].Data?
    requires n.inbound[0].id in n.us.streams
    ensures SettledBy(n.us, n.inbound[0], OnDataReceived(n.us, n.inbound[0].id, n.inbound[0].length))
    ensures OnDataReceived(n.us, n.inbound[0].id, n.inbound[0].length).outcome.Settled?
  {
    DataFits(n);
    DataSettles(n.us, n.inbound[0].id, n.inbound[0].length);
  }

  lemma RegisteredDataInv(n: Net, malformed: bool)
    requires Inv(n) && n.reader.Idle? && n.inbound != [] && n.inbound[0].Data?
    requires n.inbound[0].id in n.us.streams
    ensures Inv(ReceiveData(n.(inbound := n.inbound[1..]), n.inbound[0].id, n.inbound[0].length, malformed))
  {
    var f := n.inbound[0];
    var r := OnDataReceived(n.us, f.id, f.length);
    RegisteredSettledBy(n);
    SettledInv(n, r);
    var m := Accounted(n, r);
    ProbedInv(m, r.probe);
    var p := m.(outbound := m.outbound + if r.probe then [Probe] else []);
    EvictInv(p, f.id, true);
    RegisteredDataIs(n, malformed, r, p);
  }

  lemma RegisteredDataIs(n: Net, malformed: bool, r: Receipt, p: Net)
    requires n.inbound != [] && n.inbound[0].Data? && n.inbound[0].id in n.us.streams
    requires r == OnDataReceived(n.us, n.inbound[0].id, n.inbound[0].length) && r.outcome.Settled?
    requires p == Accounted(n, r).(outbound := n.outbound + Credits(r.updates) + if r.probe then [Probe] else [])
    ensures ReceiveData(n.(inbound := n.inbound[1..]), n.inbound[0].id, n.inbound[0].length, malformed) ==
            if malformed then Evict(p, n.inbound[0].id, true) else p
  {
  }

  lemma ProbeWriteFailsInv(n: Net)
    requires Inv(n)
    ensures Inv(n.(us := n.us.(tuner := ProbeFailed(n.us.tuner))))
  {
    var m := n.(us := n.us.(tuner := ProbeFailed(n.us.tuner)));
    forall i | i in m.us.streams ensures StreamBalanced(m.us, i) {
      assert StreamBalanced(n.us, i);
    }
    forall i | i in m.us.streams && !Doomed(m, i) ensures StreamAgrees(m, i) {
      assert StreamAgrees(n, i);
    }
    forall r | r in m.unnamed ensures UnnamedAgrees(m, r) {
      assert UnnamedAgrees(n, r);
    }
    SameWireInv(n, m);
  }

  // ---------------------------------------------------------------- late frames

  lemma FindInv(n: Net)
    requires Inv(n) && n.reader.Idle? && Late(n)
    ensures Inv(Step(n, ClientFinds))
  {
    var f := n.inbound[0];
    var m := Step(n, ClientFinds);
    PoppedPromises(n);
    assert forall i: nat :: DataOn(n.inbound, i) == Length(f, i) + DataOn(m.inbound, i);
    forall i | i in m.us.streams && !Doomed(m, i) ensures StreamAgrees(m, i) {
      assert StreamAgrees(n, i);
    }
    forall r | r in m.unnamed ensures UnnamedAgrees(m, r) {
      assert UnnamedAgrees(n, r);
    }
    forall i: nat | i != 0 ensures LedgerInRange(m, i) {
      assert LedgerInRange(n, i);
    }
    forall k: nat | k < |m.inbound| && m.inbound[k].Promise? ensures PromiseAgrees(m, k) {
      assert PromiseAgrees(n, k + 1);
    }
  }

  /** The struct changes hands, or nothing but the reader's own place changes. */
  lemma ReaderInv(n: Net, r: Reader)
    requires Inv(n) && ReaderOk(n.(reader := r)) && !r.Idle? && !n.reader.Idle? && r.id == n.reader.id
    requires OnHand(n.(reader := r)) == OnHand(n)
    requires r.Refunding? && !InUse(r.at) ==> Writable(n, r.at, r.streamInc)
    requires forall id :: id in n.us.streams && !Doomed(n.(reader := r), id) ==>
      !Doomed(n, id) && HandOn(n.(reader := r), id) == HandOn(n, id)
    ensures Inv(n.(reader := r))
  {
    var m := n.(reader := r);
    forall i | i in m.us.streams && !Doomed(m, i) ensures StreamAgrees(m, i) {
      assert StreamAgrees(n, i);
    }
    forall q | q in m.unnamed ensures UnnamedAgrees(m, q) {
      assert UnnamedAgrees(n, q);
    }
    SameWireInv(n, m);
  }

  lemma RecycleInv(n: Net)
    requires Inv(n) && Enabled(n, Recycles)
    ensures Inv(RunRecycle(n))
  {
    StreamThresholdRefundable(n.us.initial, n.us.streamTarget);
    ReaderInv(n, RunRecycle(n).reader);
  }

  /** A struct leaves the pool. */
  lemma PoolInv(n: Net, pool: multiset<nat>)
    requires Inv(n) && forall pending :: pending in pool ==> pending < Threshold(n)
    ensures Inv(n.(pool := pool))
  {
    var m := n.(pool := pool);
    forall i | i in m.us.streams && !Doomed(m, i) ensures StreamAgrees(m, i) {
      assert StreamAgrees(n, i);
    }
    forall q | q in m.unnamed ensures UnnamedAgrees(m, q) {
      assert UnnamedAgrees(n, q);
    }
    SameWireInv(n, m);
  }

  lemma RunAllocInv(n: Net, pending: nat)
    requires Inv(n) && Owes(n, pending)
    ensures Inv(RunAlloc(n, pending))
  {
    StreamThresholdRefundable(n.us.initial, n.us.streamTarget);
    PoolInv(n, n.pool - multiset{pending});
    AllocInv(n.(pool := n.pool - multiset{pending}), pending);
  }

  lemma ReallocInv(n: Net)
    requires Inv(n) && Enabled(n, Reallocs)
    ensures Inv(RunRealloc(n))
  {
    var m := Allocated(n, n.reader.at.scope.pending);
    AllocInv(n, n.reader.at.scope.pending);
    ReaderInv(m, n.reader.(at := Waiting(n.nextReq)));
  }

  /** The stream's late DATA is charged to the connection alone. */
  lemma OwnCheckInv(n: Net)
    requires Inv(n) && n.reader.Checking? && Own(n.reader)
    ensures Inv(RunCheck(n))
  {
    var m := RunCheck(n);
    var r := AccountConnRecvOnly(n.us, n.reader.length);
    ConnOnlySettles(n.us, n.reader.length);
    forall i: nat ensures CreditFor(m.outbound, i) == CreditFor(n.outbound, i) + Increments(r.updates, i) {
      CreditConcat(n.outbound, Credits(r.updates), i);
      CreditsCarryIncrements(r.updates, i);
    }
    forall i | i in m.us.streams && !Doomed(m, i) ensures StreamAgrees(m, i) {
      assert StreamAgrees(n, i);
    }
    forall q | q in m.unnamed ensures UnnamedAgrees(m, q) {
      assert UnnamedAgrees(n, q);
    }
    forall i: nat | i != 0 ensures LedgerInRange(m, i) {
      assert LedgerInRange(n, i);
    }
    forall k: nat | k < |m.inbound| && m.inbound[k].Promise? ensures PromiseAgrees(m, k) {
      assert PromiseAgrees(n, k);
    }
  }

  lemma CheckInv(n: Net)
    requires Inv(n) && n.reader.Checking?
    ensures Inv(RunCheck(n))
  {
    if Own(n.reader) {
      OwnCheckInv(n);
    } else {
      ReaderInv(n, Charging(n.reader.id, n.reader.length, n.reader.at));
    }
  }

  /** The connection's part of a charge. */
  lemma ConnCharge(n: Net)
    requires Inv(n) && Enabled(n, LateCharges)
    ensures var d := Debit(n.us.conn, CONN_THRESHOLD, n.us.connTarget, n.reader.length);
      && d.Accepted? && d.scope.window == n.us.conn.window - n.reader.length + d.refund
      && ConnBalanced(n.us.(conn := d.scope))
  {
    DebitIsBalanced(n.us.conn, CONN_INITIAL, CONN_THRESHOLD, n.us.connTarget, n.reader.length);
  }

  /** What a harmless charge does to the struct. */
  lemma StructCharge(n: Net)
    requires Inv(n) && Enabled(n, LateCharges) && Harmless(n)
    ensures var sc := ScopeAt(n, n.reader.at);
      var d := Debit(sc, Threshold(n), n.us.streamTarget, n.reader.length);
      && d.Accepted? && 0 <= d.scope.window <= n.us.streamTarget && d.scope.pending < Threshold(n)
      && (InUse(n.reader.at) ==> d == Accepted(sc, 0))
      && Writable(n, n.reader.at, d.refund)
  {
    var at := n.reader.at;
    StreamThresholdRefundable(n.us.initial, n.us.streamTarget);
    if at.Named? {
      assert StreamBalanced(n.us, at.id);
    } else if at.Waiting? {
      assert UnnamedAgrees(n, at.req);
    }
  }

  lemma TunerStays(t: Tuner, length: nat)
    requires TunerInRange(t)
    ensures TunerInRange(TunerOnData(t, length).0)
  {
  }

  /** The pool's business is unchanged but for the connection window, the tuner, and the
      scope of a struct that nobody uses. */
  lemma ChargedInv(n: Net, m: Net)
    requires Inv(n) && Enabled(n, LateCharges) && SameWire(n, m)
    requires m.unnamed == n.unnamed && m.nextReq == n.nextReq && m.nextId == n.nextId && m.pool == n.pool
    requires m.us == n.us.(conn := m.us.conn, tuner := m.us.tuner) && TunerInRange(m.us.tuner)
    requires ConnBalanced(m.us)
    requires m.reader.Refunding? && m.reader.id == n.reader.id && Writable(n, m.reader.at, m.reader.streamInc)
    requires m.us.conn.window == n.us.conn.window - n.reader.length + m.reader.connInc
    requires AtOk(m, m.reader.at) && IdOk(m, IdAt(m.reader.at)) && !Own(m.reader)
    ensures Inv(m)
  {
    forall i | i in m.us.streams ensures StreamBalanced(m.us, i) {
      assert StreamBalanced(n.us, i);
    }
    assert n.reader.id !in n.us.streams;
    forall i | i in m.us.streams && !Doomed(m, i) ensures StreamAgrees(m, i) {
      assert StreamAgrees(n, i);
    }
    forall q | q in m.unnamed ensures UnnamedAgrees(m, q) {
      assert UnnamedAgrees(n, q);
    }
    SameWireInv(n, m);
  }

  lemma HarmlessIs(n: Net)
    requires Inv(n) && Enabled(n, LateCharges) && Harmless(n)
    ensures var m := RunCharge(n);
      && m.reader.Refunding? && m.reader.id == n.reader.id && Writable(n, m.reader.at, m.reader.streamInc)
      && m == n.(us := n.us.(conn := m.us.conn, tuner := m.us.tuner), reader := m.reader)
      && m.us.conn.window == n.us.conn.window - n.reader.length + m.reader.connInc
      && ConnBalanced(m.us)
      && m.us.tuner == TunerOnData(n.us.tuner, n.reader.length).0
      && AtOk(m, m.reader.at) && IdOk(m, IdAt(m.reader.at)) && !Own(m.reader)
  {
    ConnCharge(n);
    StructCharge(n);
    var at := n.reader.at;
    if at.Named? {
      assert n.us.streams[at.id := n.us.streams[at.id]] == n.us.streams;
    } else if at.Waiting? {
      assert n.unnamed[at.req := n.unnamed[at.req]] == n.unnamed;
    }
  }

  lemma ChargeInv(n: Net)
    requires Inv(n) && Enabled(n, LateCharges) && Harmless(n)
    ensures Inv(RunCharge(n))
  {
    HarmlessIs(n);
    TunerStays(n.us.tuner, n.reader.length);
    ChargedInv(n, RunCharge(n));
  }

  /** The increments of a late frame are queued. */
  function Refunded(n: Net): Net
    requires n.reader.Refunding?
  {
    var Refunding(id, at, s, c, _) := n.reader;
    n.(outbound := n.outbound + Credits(Refund(IdAt(at), s) + Refund(0, c)), reader := Blaming(id, at))
  }

  lemma RefundedCredit(n: Net, i: nat)
    requires n.reader.Refunding?
    ensures var Refunding(_, at, s, c, _) := n.reader;
      CreditFor(Refunded(n).outbound, i) ==
        CreditFor(n.outbound, i) + (if i == 0 then c else 0) + (if i == IdAt(at) then s else 0)
  {
    var Refunding(_, at, s, c, _) := n.reader;
    var u := Refund(IdAt(at), s) + Refund(0, c);
    CreditConcat(n.outbound, Credits(u), i);
    CreditsCarryIncrements(u, i);
    IncrementsConcat(Refund(IdAt(at), s), Refund(0, c), i);
    RefundIncrements(IdAt(at), s, i);
    RefundIncrements(0, c, i);
  }

  lemma RefundedInv(n: Net)
    requires Inv(n) && n.reader.Refunding?
    ensures Inv(Refunded(n))
  {
    var m := Refunded(n);
    RefundedCredit(n, 0);
    forall i | i in m.us.streams && !Doomed(m, i) ensures StreamAgrees(m, i) {
      assert StreamAgrees(n, i);
      RefundedCredit(n, i);
    }
    forall q | q in m.unnamed ensures UnnamedAgrees(m, q) {
      assert UnnamedAgrees(n, q);
    }
    forall i: nat | i != 0 ensures LedgerInRange(m, i) {
      assert LedgerInRange(n, i);
      RefundedCredit(n, i);
    }
    forall k: nat | k < |m.inbound| && m.inbound[k].Promise? ensures PromiseAgrees(m, k) {
      assert PromiseAgrees(n, k);
      RefundedCredit(n, m.inbound[k].id);
    }
  }

  lemma RefundInv(n: Net)
    requires Inv(n) && n.reader.Refunding?
    ensures Inv(RunRefund(n))
  {
    RefundedInv(n);
    ProbedInv(Refunded(n), n.reader.probe);
  }

  lemma BlameInv(n: Net)
    requires Inv(n) && n.reader.Blaming?
    ensures Inv(RunBlame(n))
  {
    var sid := IdAt(n.reader.at);
    EvictInv(n, sid, true);
    var e := if sid == 0 then n else Evict(n, sid, true);
    LetGoInv(e);
  }

  /** Once the stream of the frame has left the registry the reader's hands are empty. */
  lemma LetGoInv(n: Net)
    requires Inv(n) && n.reader.Blaming? && n.reader.id !in n.us.streams
    ensures Inv(LetGo(n))
  {
    var m := LetGo(n);
    forall i | i in m.us.streams && !Doomed(m, i) ensures StreamAgrees(m, i) {
      assert StreamAgrees(n, i);
    }
    forall q | q in m.unnamed ensures UnnamedAgrees(m, q) {
      assert UnnamedAgrees(n, q);
    }
    forall i: nat | i != 0 ensures LedgerInRange(m, i) {
      assert LedgerInRange(n, i);
    }
    forall k: nat | k < |m.inbound| && m.inbound[k].Promise? ensures PromiseAgrees(m, k) {
      assert PromiseAgrees(n, k);
    }
  }

  // ------------------------------------------------------------------- every step

  lemma ClientReceivesInv(n: Net, malformed: bool, acceptPush: bool, pending: nat)
    requires Inv(n) && Enabled(n, ClientReceives(malformed, acceptPush, pending))
    ensures Inv(Step(n, ClientReceives(malformed, acceptPush, pending)))
  {
    match n.inbound[0]
    case Promise(_) => ReceivePromiseInv(n, malformed, acceptPush, pending);
    case ProbeAck => ReceiveAckInv(n);
    case Data(id, _, _) =>
      if id !in n.us.streams {
        UnregisteredDataInv(n, malformed);
      } else {
        RegisteredDataInv(n, malformed);
      }
  }

  predicate OfPeer(a: Action) {
    a.PeerSends? || a.PeerEnds? || a.PeerPromises? || a.PeerAcks? || a.PeerReceives?
  }

  lemma PeerStepInv(n: Net, a: Action)
    requires Inv(n) && Enabled(n, a) && OfPeer(a)
    ensures Inv(Step(n, a))
  {
    match a
    case PeerSends(id, length, end) => PeerSendsInv(n, id, length, end);
    case PeerEnds(id) => EndedInv(n, id);
    case PeerPromises(id) => PeerPromisesInv(n, id);
    case PeerAcks => AckQueuedInv(n);
    case PeerReceives => PeerReceivesInv(n);
  }

  lemma EndedInv(n: Net, id: nat)
    requires Inv(n)
    ensures Inv(n.(peerEnded := n.peerEnded + {id}))
  {
    var m := n.(peerEnded := n.peerEnded + {id});
    forall i | i in m.us.streams && !Doomed(m, i) ensures StreamAgrees(m, i) {
      assert StreamAgrees(n, i);
    }
    forall q | q in m.unnamed ensures UnnamedAgrees(m, q) {
      assert UnnamedAgrees(n, q);
    }
    SameWireInv(n, m);
  }

  predicate OfLate(a: Action) {
    a.ClientFinds? || a.Recycles? || a.Reallocs? || a.LateChecks? || a.LateCharges? || a.LateRefunds? || a.LateBlames?
  }

  lemma LateStepInv(n: Net, a: Action)
    requires Inv(n) && Enabled(n, a) && OfLate(a) && (a.LateCharges? ==> Harmless(n))
    ensures Inv(Step(n, a))
  {
    match a
    case ClientFinds => FindInv(n);
    case Recycles => RecycleInv(n);
    case Reallocs => ReallocInv(n);
    case LateChecks => CheckInv(n);
    case LateCharges => ChargeInv(n);
    case LateRefunds => RefundInv(n);
    case LateBlames => BlameInv(n);
  }

  lemma ClientStepInv(n: Net, a: Action)
    requires Inv(n) && Enabled(n, a) && !OfLate(a) && !OfPeer(a)
    ensures Inv(Step(n, a))
  {
    match a
    case ClientAllocs(pending) => RunAllocInv(n, pending);
    case ClientOpens(req) => ClientOpensInv(n, req);
    case ClientDrops(req) => DropInv(n, req);
    case ClientEvicts(id, rst) => EvictInv(n, id, rst);
    case ClientReceives(malformed, acceptPush, pending) => ClientReceivesInv(n, malformed, acceptPush, pending);
    case ProbeWriteFails => ProbeWriteFailsInv(n);
  }

  lemma StepInv(n: Net, a: Action)
    requires Inv(n) && Enabled(n, a) && (a.LateCharges? ==> Harmless(n))
    ensures Inv(Step(n, a))
  {
    if OfPeer(a) {
      PeerStepInv(n, a);
    } else if OfLate(a) {
      LateStepInv(n, a);
    } else {
      ClientStepInv(n, a);
    }
  }

  // ----------------------------------------------------------- main results

  lemma {:induction false} RunInv(n: Net, run: seq<Action>)
    requires Inv(n) && IsRun(n, run) && AllHarmless(n, run)
    ensures Inv(After(n, run))
    decreases |run|
  {
    if run != [] {
      StepInv(n, run[0]);
      RunInv(Step(n, run[0]), run[1..]);
    }
  }

  /** With any peer that keeps to its own view of the windows, over every interleaving in
      which late charges do no harm, our windows equal the peer's view plus what is in
      flight, and neither side ever has a flow-control error to raise. */
  lemma NoFlowControlError(o: Options, run: seq<Action>)
    requires 1 <= o.initialWindow <= MAX_WINDOW
    requires IsRun(Initial(o), run) && AllHarmless(Initial(o), run)
    ensures Agrees(After(Initial(o), run))
  {
    InitialInv(o);
    RunInv(Initial(o), run);
  }

  /** Both ends agree after every step of a run. */
  ghost predicate AgreesThroughout(n: Net, run: seq<Action>)
    requires IsRun(n, run)
    decreases |run|
  {
    Agrees(n) && (run == [] || AgreesThroughout(Step(n, run[0]), run[1..]))
  }

  /** What a late charge does to a struct, harmless or not. */
  lemma ChargeOutcome(n: Net)
    requires Inv(n) && Enabled(n, LateCharges)
    ensures var sc, length := ScopeAt(n, n.reader.at), n.reader.length;
      var d := Debit(sc, Threshold(n), n.us.streamTarget, length);
      && (d.Accepted? <==> length <= sc.window)
      && (d.Accepted? ==> d.scope.window == sc.window - length + d.refund)
      && (d.Accepted? && length != 0 ==> (d.refund == 0 <==> sc.pending + length < Threshold(n)))
      && (d.Accepted? && d.refund != 0 ==> d.refund == n.us.streamTarget - (sc.window - length))
  {
    var at := n.reader.at;
    StreamThresholdRefundable(n.us.initial, n.us.streamTarget);
    if at.Named? {
      assert StreamBalanced(n.us, at.id);
    } else if at.Waiting? {
      assert UnnamedAgrees(n, at.req);
    }
  }

  ghost predicate SameView(n: Net, m: Net) {
    && m.inbound == n.inbound && m.outbound == n.outbound
    && m.peerStreams == n.peerStreams && m.us.initial == n.us.initial
  }

  /** The struct is where it was, but for the window in it. */
  predicate SameUse(at: At, now: At) {
    && (InUse(at) ==> now == at)
    && (at.Evicted? ==> now.Evicted? && now.id == at.id)
    && (at.Pooled? || at.Abandoned? ==> now.Pooled? || now.Abandoned?)
  }

  lemma ChargeIs(n: Net)
    requires Inv(n) && Enabled(n, LateCharges)
    ensures var d := Debit(ScopeAt(n, n.reader.at), Threshold(n), n.us.streamTarget, n.reader.length);
      var m := RunCharge(n);
      && SameView(n, m) && m.reader.Refunding? && SameUse(n.reader.at, m.reader.at)
      && Placed(m, m.reader.at) && ScopeAt(m, m.reader.at) == d.scope
      && (d.Overrun? ==> m.flowErrors == n.flowErrors + 1)
      && (d.Accepted? ==> m.reader.streamInc == d.refund)
  {
    ConnCharge(n);
  }

  /** A charge without its increment leaves a window that is in use short. */
  lemma HarmShows(n: Net, m: Net, d: Debited)
    requires Agrees(n) && ReaderOk(n) && Enabled(n, LateCharges) && !Harmless(n)
    requires SameView(n, m) && m.reader.Refunding? && SameUse(n.reader.at, m.reader.at)
    requires Placed(m, m.reader.at) && ScopeAt(m, m.reader.at) == d.scope
    requires if d.Overrun? then m.flowErrors > 0 else m.reader.streamInc == d.refund
    requires d.Accepted? ==> d.scope.window == ScopeAt(n, n.reader.at).window - n.reader.length + d.refund
    requires d.Accepted? ==> n.reader.length <= ScopeAt(n, n.reader.at).window
    requires d.Accepted? ==> (d.refund == 0 <==> ScopeAt(n, n.reader.at).pending + n.reader.length < Threshold(n))
    requires d.Accepted? && d.refund != 0 ==>
      d.refund == n.us.streamTarget - (ScopeAt(n, n.reader.at).window - n.reader.length)
    ensures !Agrees(m)
  {
    var at := n.reader.at;
    if at.Named? {
      assert StreamAgrees(n, at.id);
      assert m.flowErrors != 0 || !StreamAgrees(m, at.id);
    } else if at.Waiting? {
      assert UnnamedAgrees(n, at.req);
      assert m.flowErrors != 0 || !UnnamedAgrees(m, at.req);
    }
  }

  /** The two ends agree after a late charge exactly when it did no harm: there was nothing
      to charge, or the struct was in nobody's use, with room for the charge and nothing to
      give back that may not be. */
  lemma ChargeAgreesExactlyWhenHarmless(n: Net)
    requires Inv(n) && Enabled(n, LateCharges)
    ensures Agrees(Step(n, LateCharges)) <==> Harmless(n)
  {
    if Harmless(n) {
      ChargeInv(n);
    } else {
      ChargeOutcome(n);
      ChargeIs(n);
      HarmShows(n, RunCharge(n), Debit(ScopeAt(n, n.reader.at), Threshold(n), n.us.streamTarget, n.reader.length));
    }
  }

  /** Over every run: both ends agree throughout exactly when no late charge does harm. */
  lemma {:induction false} AgreesExactlyWhenHarmless(n: Net, run: seq<Action>)
    requires Inv(n) && IsRun(n, run)
    ensures AgreesThroughout(n, run) <==> AllHarmless(n, run)
    decreases |run|
  {
    if run != [] {
      var m := Step(n, run[0]);
      if run[0].LateCharges? {
        ChargeAgreesExactlyWhenHarmless(n);
      }
      if run[0].LateCharges? && !Harmless(n) {
        assert !Agrees(m);
      } else {
        StepInv(n, run[0]);
        AgreesExactlyWhenHarmless(m, run[1..]);
      }
    }
  }

  /** The peer sends no DATA on a stream it has ended. */
  predicate Punctual(n: Net, run: seq<Action>)
    requires IsRun(n, run)
    decreases |run|
  {
    run == [] || ((run[0].PeerSends? ==> run[0].id !in n.peerEnded) && Punctual(Step(n, run[0]), run[1..]))
  }

  predicate NothingLate(n: Net) {
    n.reader.Idle? && forall k | 0 <= k < |n.inbound| :: !n.inbound[k].Data? || !n.inbound[k].late
  }

  lemma PunctualStep(n: Net, a: Action)
    requires NothingLate(n) && Enabled(n, a)
    requires a.PeerSends? ==> a.id !in n.peerEnded
    ensures NothingLate(Step(n, a)) && !a.LateCharges?
  {
  }

  lemma {:induction false} PunctualIsHarmless(n: Net, run: seq<Action>)
    requires NothingLate(n) && IsRun(n, run) && Punctual(n, run)
    ensures AllHarmless(n, run)
    decreases |run|
  {
    if run != [] {
      PunctualStep(n, run[0]);
      PunctualIsHarmless(Step(n, run[0]), run[1..]);
    }
  }

  /** A peer that keeps to its windows and sends nothing on a stream it has ended never sees
      the accounts come apart, whatever the client does. */
  lemma PunctualPeerAgrees(o: Options, run: seq<Action>)
    requires 1 <= o.initialWindow <= MAX_WINDOW
    requires IsRun(Initial(o), run) && Punctual(Initial(o), run)
    ensures AgreesThroughout(Initial(o), run)
  {
    InitialInv(o);
    PunctualIsHarmless(Initial(o), run);
    AgreesExactlyWhenHarmless(Initial(o), run);
  }

  /** Once nothing is in flight the peer may send: at least half the default window on the
      connection, and at least one byte, and half the advertised window, on every stream. */
  lemma PeerNeverStalled(o: Options, run: seq<Action>)
    requires 1 <= o.initialWindow <= MAX_WINDOW
    requires IsRun(Initial(o), run) && AllHarmless(Initial(o), run)
    ensures var n := After(Initial(o), run);
      n.inbound == [] && n.outbound == [] && n.reader.Idle? ==>
        && CONN_THRESHOLD <= n.peerConn <= MAX_WINDOW
        && forall id :: id in n.us.streams && id in n.peerStreams ==>
             && Enabled(n, PeerSends(id, 1, false))
             && n.us.initial <= 2 * n.peerStreams[id]
  {
    InitialInv(o);
    RunInv(Initial(o), run);
    var n := After(Initial(o), run);
    if n.inbound == [] && n.outbound == [] && n.reader.Idle? {
      forall id | id in n.us.streams && id in n.peerStreams
        ensures Enabled(n, PeerSends(id, 1, false)) && n.us.initial <= 2 * n.peerStreams[id]
      {
        assert StreamAgrees(n, id) && StreamBalanced(n.us, id);
        StreamThresholdRefundable(n.us.initial, n.us.streamTarget);
      }
    }
  }

  /** The three steps of a late frame that nothing comes between. */
  function Undisturbed(n: Net): Net
    requires Enabled(n, ClientFinds)
  {
    Step(Step(Step(n, ClientFinds), LateChecks), LateBlames)
  }

  lemma UndisturbedIs(n: Net)
    requires Enabled(n, ClientFinds)
    ensures var f, m := n.inbound[0], Undisturbed(n);
      var r := AccountConnRecvOnly(n.us, f.length);
      && m.reader.Idle? && m.inbound == n.inbound[1..]
      && (f.id != 0 ==>
            m.us == EvictStream(r.next, f.id) && m.outbound == n.outbound + Credits(r.updates) + [Reset(f.id)])
  {
  }

  /** DATA after the peer's END_STREAM that finds the stream's own struct: the connection
      alone is charged, the stream is reset, and both ends still agree. */
  lemma DataAfterEndInv(n: Net)
    requires Inv(n) && Enabled(n, ClientFinds)
    ensures Inv(Undisturbed(n))
    ensures var f, m := n.inbound[0], Undisturbed(n);
      var r := AccountConnRecvOnly(n.us, f.length);
      && m.reader.Idle? && m.inbound == n.inbound[1..]
      && m.us == EvictStream(r.next, f.id)
      && m.outbound == n.outbound + Credits(r.updates) + [Reset(f.id)]
  {
    UndisturbedIs(n);
    LateStepInv(n, ClientFinds);
    LateStepInv(Step(n, ClientFinds), LateChecks);
    LateStepInv(Step(Step(n, ClientFinds), LateChecks), LateBlames);
  }

  /** An increment written for a struct without an id goes to the connection, and the two
      ends disagree from then on. */
  lemma RefundAgreesExactlyWhen(n: Net)
    requires n.reader.Refunding? && ConnAgrees(n)
    ensures ConnAgrees(Step(n, LateRefunds)) <==> n.reader.streamInc == 0 || IdAt(n.reader.at) != 0
  {
    var Refunding(id, at, s, c, probe) := n.reader;
    var tail := if probe then [Probe] else [];
    var u := Refund(IdAt(at), s) + Refund(0, c);
    CreditConcat(n.outbound + Credits(u), tail, 0);
    CreditConcat(n.outbound, Credits(u), 0);
    CreditsCarryIncrements(u, 0);
    IncrementsConcat(Refund(IdAt(at), s), Refund(0, c), 0);
    RefundIncrements(IdAt(at), s, 0);
    RefundIncrements(0, c, 0);
  }
}
