/** Outbound flow control as a protocol between this sender and a peer that enforces what it
    has granted. Credit is taken in two steps, the frame it pays for goes out in a third,
    and WINDOW_UPDATE and SETTINGS may land in between. */
module SendProtocol {
  import opened FixedWidth
  import opened SendCredit

  /** Both ends' accounts of one stream: ours, and after them the peer's. */
  datatype Account = Account(
    open: bool,
    window: int,         // s.sendWindow
    granted: nat,        // WINDOW_UPDATE credit that reached us
    debited: nat,
    emitted: nat,
    peerGranted: nat,    // credit the peer has sent
    received: nat,
    cell: nat,           // the struct that holds s.sendWindow
    strayIn: nat,        // another stream's credit that landed here
    strayOut: nat)       // another stream's debit that landed here

  datatype ToPeer = Data(id: nat, len: nat) | Ack
  datatype FromPeer = Settings(value: nat) | Credit(id: nat, inc: nat)

  /** The holder of fcOutMu between its reading of the windows and its debits. */
  datatype Hold = Free | Taking(id: nat, debit: nat)

  /** The reader between looking a stream up for its credit and applying it. */
  datatype Crediting = NoCredit | Landing(id: nat, inc: nat)

  /** Credit a writer has been given and has not put on the wire. */
  datatype Loan = Loan(id: nat, len: nat)

  /** `history` is the peer's: the initial window it has had acknowledged, then those it
      has sent since. It enforces the largest of them. A struct whose stream is closed may
      be opened for another; whoever still holds it credits or debits that one. */
  datatype Net = Net(
    initial: nat,
    conn: Account,
    streams: map<nat, Account>,
    owner: map<nat, nat>,   // the stream each struct was last opened for
    hold: Hold,
    crediting: Crediting,
    loans: seq<Loan>,
    wasted: nat,            // debits of the connection whose writer found its stream gone
    unacked: nat,        // SETTINGS applied, acknowledgement not written yet
    toPeer: seq<ToPeer>,
    fromPeer: seq<FromPeer>,
    history: seq<nat>,
    overrun: bool,
    dead: bool)

  datatype Action =
    | Open(id: nat, cell: nat)
    | CloseStream(id: nat)
    | Take(id: nat, want: int, pad: int)
    | TakeAll(id: nat, want: int, pad: int)
    | Debit
    | Emit(i: nat)
    | WriteAck
    | Receive
    | Lands
    | PeerSets(value: nat)
    | PeerCredits(id: nat, inc: nat)
    | PeerReceives

  function NewAccount(window: int, cell: nat): Account {
    Account(true, window, 0, 0, 0, 0, 0, cell, 0, 0)
  }

  const START := Net(DEFAULT_WINDOW, NewAccount(DEFAULT_WINDOW, 0), map[], map[], Free, NoCredit, [], 0, 0, [], [],
                     [DEFAULT_WINDOW], false, false)

  function Limit(history: seq<nat>): nat
    requires history != []
  {
    if |history| == 1 then history[0]
    else
      var rest := Limit(history[1..]);
      if history[0] > rest then history[0] else rest
  }

  predicate IsOpen(n: Net, id: nat) {
    id in n.streams && n.streams[id].open
  }

  /** The open stream a struct serves, or 0. */
  function Serves(n: Net, cell: nat): nat {
    if cell in n.owner && IsOpen(n, n.owner[cell]) then n.owner[cell] else 0
  }

  predicate Enabled(n: Net, a: Action) {
    !n.dead &&
    match a
    case Open(id, cell) => id != 0 && id !in n.streams && Serves(n, cell) == 0
    case CloseStream(id) => IsOpen(n, id)
    case Take(id, want, pad) =>
      && n.hold.Free? && IsOpen(n, id) && 0 < want && 0 <= pad
      && Min(n.streams[id].window, n.conn.window) > pad
    case TakeAll(id, want, pad) =>
      && n.hold.Free? && IsOpen(n, id) && 0 < want && 0 <= pad
      && Covers(n.streams[id].window, n.conn.window, want, pad)
    case Debit => n.hold.Taking? && n.hold.id in n.streams
    case Emit(i) => i < |n.loans|
    case WriteAck => n.unacked > 0
    case Receive =>
      n.crediting.NoCredit? && n.fromPeer != [] && (n.fromPeer[0].Credit? && n.fromPeer[0].id == 0 ==> n.hold.Free?)
    case Lands => n.crediting.Landing? && n.crediting.id in n.streams
    case PeerSets(_) => true
    case PeerCredits(id, inc) => 0 < inc && (id == 0 || id in n.streams)
    case PeerReceives => n.toPeer != []
  }

  function AddEmitted(streams: map<nat, Account>, id: nat, len: nat): map<nat, Account> {
    if id in streams then streams[id := streams[id].(emitted := streams[id].emitted + len)] else streams
  }

  function AddReceived(streams: map<nat, Account>, id: nat, len: nat): map<nat, Account> {
    if id in streams then streams[id := streams[id].(received := streams[id].received + len)] else streams
  }

  function AddPeerGranted(streams: map<nat, Account>, id: nat, inc: nat): map<nat, Account> {
    if id in streams then streams[id := streams[id].(peerGranted := streams[id].peerGranted + inc)] else streams
  }

  function Paid(a: Account, debit: nat): Account {
    a.(window := a.window - debit, debited := a.debited + debit)
  }

  /** The struct has been opened for another stream since the windows were read. */
  predicate DebitStrays(n: Net)
    requires n.hold.Taking? && n.hold.id in n.streams
  {
    Serves(n, n.streams[n.hold.id].cell) !in {0, n.hold.id}
  }

  /** The second window is debited without another look at the lifetime. A writer whose
      struct has changed hands finds that out before it writes, and the credit is lost. */
  function RunDebit(n: Net): Net
    requires n.hold.Taking? && n.hold.id in n.streams
  {
    var id, d := n.hold.id, n.hold.debit;
    var m := n.(hold := Free, conn := Paid(n.conn, d));
    if DebitStrays(n) then
      var on := Serves(n, n.streams[id].cell);
      var a := n.streams[on];
      m.(streams := n.streams[on := a.(window := a.window - d, strayOut := a.strayOut + d)], wasted := n.wasted + d)
    else
      m.(streams := n.streams[id := Paid(n.streams[id], d)], loans := n.loans + [Loan(id, d)])
  }

  function RunEmit(n: Net, i: nat): Net
    requires i < |n.loans|
  {
    var Loan(id, len) := n.loans[i];
    n.(loans := n.loans[..i] + n.loans[i + 1..],
       conn := n.conn.(emitted := n.conn.emitted + len),
       streams := AddEmitted(n.streams, id, len),
       toPeer := n.toPeer + [Data(id, len)])
  }

  predicate Fits(n: Net, value: nat) {
    && value <= MAX_WINDOW
    && forall id :: id in n.streams && n.streams[id].open ==>
         n.streams[id].window + value - n.initial <= MAX_WINDOW
  }

  function RunSettings(n: Net, value: nat): Net {
    if !Fits(n, value) then n.(dead := true)
    else
      n.(initial := value, unacked := n.unacked + 1,
         streams := map id | id in n.streams :: Shifted(n.streams[id], value - n.initial))
  }

  function Shifted(a: Account, delta: int): Account {
    if a.open then a.(window := a.window + delta) else a
  }

  function Credited(a: Account, inc: nat): Account {
    a.(window := a.window + inc, granted := a.granted + inc)
  }

  /** A credit for the connection is applied at once; one for a stream is looked up, and a
      late one is ignored. */
  function RunCredit(n: Net, id: nat, inc: nat): Net {
    if id == 0 then
      if n.conn.window + inc > MAX_WINDOW then n.(dead := true) else n.(conn := Credited(n.conn, inc))
    else if !IsOpen(n, id) then n
    else n.(crediting := Landing(id, inc))
  }

  /** The struct has been opened for another stream since the lookup. */
  predicate CreditStrays(n: Net)
    requires n.crediting.Landing? && n.crediting.id in n.streams
  {
    Serves(n, n.streams[n.crediting.id].cell) !in {0, n.crediting.id}
  }

  function Strayed(a: Account, inc: nat): Account {
    a.(window := a.window + inc, strayIn := a.strayIn + inc)
  }

  /** The credit goes to the window of the struct, whatever stream that serves by now. An
      overflow is the error of the stream the frame named. */
  function RunLand(n: Net): Net
    requires n.crediting.Landing? && n.crediting.id in n.streams
  {
    var id, inc := n.crediting.id, n.crediting.inc;
    var m := n.(crediting := NoCredit);
    var on := Serves(n, n.streams[id].cell);
    if on == 0 then m
    else if n.streams[on].window + inc > MAX_WINDOW then
      if on == id then m.(streams := n.streams[id := n.streams[id].(open := false)]) else m
    else if on == id then m.(streams := n.streams[id := Credited(n.streams[id], inc)])
    else m.(streams := n.streams[on := Strayed(n.streams[on], inc)])
  }

  function RunReceive(n: Net): Net
    requires n.fromPeer != []
  {
    var m := n.(fromPeer := n.fromPeer[1..]);
    match n.fromPeer[0]
    case Settings(value) => RunSettings(m, value)
    case Credit(id, inc) => RunCredit(m, id, inc)
  }

  function RunPeerCredits(n: Net, id: nat, inc: nat): Net {
    var m := n.(fromPeer := n.fromPeer + [Credit(id, inc)]);
    if id == 0 then m.(conn := n.conn.(peerGranted := n.conn.peerGranted + inc))
    else m.(streams := AddPeerGranted(n.streams, id, inc))
  }

  /** The peer takes a DATA frame only within what it has granted. */
  predicate Within(n: Net, id: nat, len: nat) {
    && id in n.streams && n.history != []
    && n.streams[id].received + len <= Limit(n.history) + n.streams[id].peerGranted
    && n.conn.received + len <= DEFAULT_WINDOW + n.conn.peerGranted
  }

  function RunPeerReceives(n: Net): Net
    requires n.toPeer != []
  {
    var m := n.(toPeer := n.toPeer[1..]);
    match n.toPeer[0]
    case Ack => m.(history := if n.history == [] then [] else n.history[1..])
    case Data(id, len) =>
      m.(overrun := n.overrun || !Within(n, id, len),
         conn := n.conn.(received := n.conn.received + len),
         streams := AddReceived(n.streams, id, len))
  }

  function RunTake(n: Net, id: nat, want: nat, pad: nat): Net
    requires id in n.streams && Min(n.streams[id].window, n.conn.window) > pad
  {
    n.(hold := Taking(id, Min(want, Min(n.streams[id].window, n.conn.window) - pad) + pad))
  }

  /** The window is seeded afresh, so what landed on the struct in between is forgotten. */
  function RunOpen(n: Net, id: nat, cell: nat): Net {
    n.(streams := n.streams[id := NewAccount(n.initial, cell)], owner := n.owner[cell := id])
  }

  function RunCloseStream(n: Net, id: nat): Net
    requires id in n.streams
  {
    n.(streams := n.streams[id := n.streams[id].(open := false)])
  }

  function RunAck(n: Net): Net
    requires n.unacked > 0
  {
    n.(unacked := n.unacked - 1, toPeer := n.toPeer + [Ack])
  }

  function RunPeerSets(n: Net, value: nat): Net {
    n.(history := n.history + [value], fromPeer := n.fromPeer + [Settings(value)])
  }

  function Step(n: Net, a: Action): Net
    requires Enabled(n, a)
  {
    match a
    case Open(id, cell) => RunOpen(n, id, cell)
    case CloseStream(id) => RunCloseStream(n, id)
    case Take(id, want, pad) => RunTake(n, id, want, pad)
    case TakeAll(id, want, pad) => n.(hold := Taking(id, want + pad))
    case Debit => RunDebit(n)
    case Emit(i) => RunEmit(n, i)
    case WriteAck => RunAck(n)
    case Receive => RunReceive(n)
    case Lands => RunLand(n)
    case PeerSets(value) => RunPeerSets(n, value)
    case PeerCredits(id, inc) => RunPeerCredits(n, id, inc)
    case PeerReceives => RunPeerReceives(n)
  }

  predicate IsRun(start: Net, run: seq<Action>)
    decreases |run|
  {
    run == [] || (Enabled(start, run[0]) && IsRun(Step(start, run[0]), run[1..]))
  }

  function After(start: Net, run: seq<Action>): Net
    requires IsRun(start, run)
    decreases |run|
  {
    if run == [] then start else After(Step(start, run[0]), run[1..])
  }

  /** The frame about to go out is still covered by the window as it is now: no SETTINGS
      has taken back, since its credit was taken, what it needs. */
  predicate StillCovered(n: Net, a: Action) {
    a.Emit? && a.i < |n.loans| && n.loans[a.i].id in n.streams ==>
      var s := n.streams[n.loans[a.i].id];
      s.emitted + n.loans[a.i].len <= n.initial + s.granted
  }

  predicate AllCovered(start: Net, run: seq<Action>)
    requires IsRun(start, run)
    decreases |run|
  {
    run == [] || (StillCovered(start, run[0]) && AllCovered(Step(start, run[0]), run[1..]))
  }

  // ---------------------------------------------------------------- counting

  function Bytes(frames: seq<ToPeer>, id: nat): nat {
    if frames == [] then 0
    else (if frames[0].Data? && frames[0].id == id then frames[0].len else 0) + Bytes(frames[1..], id)
  }

  function AllBytes(frames: seq<ToPeer>): nat {
    if frames == [] then 0 else (if frames[0].Data? then frames[0].len else 0) + AllBytes(frames[1..])
  }

  function Acks(frames: seq<ToPeer>): nat {
    if frames == [] then 0 else (if frames[0].Ack? then 1 else 0) + Acks(frames[1..])
  }

  function Credits(msgs: seq<FromPeer>, id: nat): nat {
    if msgs == [] then 0
    else (if msgs[0].Credit? && msgs[0].id == id then msgs[0].inc else 0) + Credits(msgs[1..], id)
  }

  function Values(msgs: seq<FromPeer>): seq<nat> {
    if msgs == [] then []
    else (if msgs[0].Settings? then [msgs[0].value] else []) + Values(msgs[1..])
  }

  function Lent(loans: seq<Loan>, id: nat): nat {
    if loans == [] then 0 else (if loans[0].id == id then loans[0].len else 0) + Lent(loans[1..], id)
  }

  function AllLent(loans: seq<Loan>): nat {
    if loans == [] then 0 else loans[0].len + AllLent(loans[1..])
  }

  lemma {:induction false} FramesAppend(frames: seq<ToPeer>, f: ToPeer, id: nat)
    ensures Bytes(frames + [f], id) == Bytes(frames, id) + Bytes([f], id)
    ensures AllBytes(frames + [f]) == AllBytes(frames) + AllBytes([f])
    ensures Acks(frames + [f]) == Acks(frames) + Acks([f])
  {
    if frames == [] {
      assert frames + [f] == [f];
    } else {
      assert (frames + [f])[1..] == frames[1..] + [f];
      FramesAppend(frames[1..], f, id);
    }
  }

  lemma {:induction false} MessagesAppend(msgs: seq<FromPeer>, m: FromPeer, id: nat)
    ensures Credits(msgs + [m], id) == Credits(msgs, id) + Credits([m], id)
    ensures Values(msgs + [m]) == Values(msgs) + Values([m])
  {
    if msgs == [] {
      assert msgs + [m] == [m];
    } else {
      assert (msgs + [m])[1..] == msgs[1..] + [m];
      MessagesAppend(msgs[1..], m, id);
    }
  }

  lemma {:induction false} LoanAppend(loans: seq<Loan>, l: Loan, id: nat)
    ensures Lent(loans + [l], id) == Lent(loans, id) + (if l.id == id then l.len else 0)
    ensures AllLent(loans + [l]) == AllLent(loans) + l.len
  {
    if loans == [] {
      assert loans + [l] == [l];
    } else {
      assert (loans + [l])[1..] == loans[1..] + [l];
      LoanAppend(loans[1..], l, id);
    }
  }

  lemma {:induction false} LoanRemove(loans: seq<Loan>, i: nat, id: nat)
    requires i < |loans|
    ensures Lent(loans[..i] + loans[i + 1..], id) == Lent(loans, id) - (if loans[i].id == id then loans[i].len else 0)
    ensures AllLent(loans[..i] + loans[i + 1..]) == AllLent(loans) - loans[i].len
  {
    if i == 0 {
      assert loans[..0] + loans[1..] == loans[1..];
    } else {
      assert (loans[..i] + loans[i + 1..])[1..] == loans[1..][..i - 1] + loans[1..][i..];
      LoanRemove(loans[1..], i - 1, id);
    }
  }

  lemma {:induction false} LimitCovers(history: seq<nat>, k: nat)
    requires k < |history|
    ensures Limit(history) >= history[k]
  {
    if k > 0 {
      LimitCovers(history[1..], k - 1);
    }
  }

  lemma {:induction false} LimitGrows(history: seq<nat>, v: nat)
    requires history != []
    ensures Limit(history + [v]) >= Limit(history)
  {
    if |history| > 1 {
      assert (history + [v])[1..] == history[1..] + [v];
      LimitGrows(history[1..], v);
    }
  }

  // ------------------------------------------------------------ the invariant

  /** What has come to a stream's window beyond its initial size. */
  function Gain(a: Account): int {
    a.granted + a.strayIn - a.debited - a.strayOut
  }

  /** Credit looked up and not applied yet. */
  function InHand(n: Net, id: nat): nat {
    if n.crediting.Landing? && n.crediting.id == id then n.crediting.inc else 0
  }

  predicate Balanced(n: Net, a: Account, id: nat) {
    && (a.open ==> a.window == n.initial + Gain(a) && a.window <= MAX_WINDOW)
    && (a.open ==> Gain(a) >= -MAX_WINDOW)
    && a.granted + Credits(n.fromPeer, id) + InHand(n, id) <= a.peerGranted
    && a.debited == a.emitted + Lent(n.loans, id)
    && a.emitted == a.received + Bytes(n.toPeer, id)
  }

  predicate ConnBalanced(n: Net) {
    && n.conn.window == DEFAULT_WINDOW + n.conn.granted - n.conn.debited
    && 0 <= n.conn.window <= MAX_WINDOW
    && n.conn.granted + Credits(n.fromPeer, 0) <= n.conn.peerGranted
    && n.conn.debited == n.conn.emitted + AllLent(n.loans) + n.wasted
    && n.conn.emitted == n.conn.received + AllBytes(n.toPeer)
  }

  predicate HoldOk(n: Net) {
    n.hold.Taking? ==>
      var id, d := n.hold.id, n.hold.debit;
      && id in n.streams && d <= n.conn.window
      && (n.streams[id].open ==> Gain(n.streams[id]) - d >= -MAX_WINDOW)
      && (DebitStrays(n) ==> Gain(n.streams[Serves(n, n.streams[id].cell)]) >= 0)
  }

  /** No two open streams are in one struct. */
  predicate OwnersOk(n: Net) {
    && (forall id :: id in n.streams && n.streams[id].open ==>
          n.streams[id].cell in n.owner && n.owner[n.streams[id].cell] == id)
    && (forall c :: c in n.owner ==> n.owner[c] in n.streams)
    && (n.crediting.Landing? ==> n.crediting.id in n.streams && n.crediting.id != 0)
  }

  /** What the peer has sent and not had acknowledged is what is on its way to us, what we
      have applied and not acknowledged, and what our acknowledgement is on its way for. */
  predicate HistoryOk(n: Net) {
    var applied := Acks(n.toPeer) + n.unacked;
    && applied < |n.history|
    && n.history[applied..] == [n.initial] + Values(n.fromPeer)
    && n.initial <= MAX_WINDOW
  }

  predicate Known(n: Net) {
    && 0 !in n.streams
    && (forall i :: 0 <= i < |n.loans| ==> n.loans[i].id in n.streams)
    && (forall i :: 0 <= i < |n.toPeer| && n.toPeer[i].Data? ==> n.toPeer[i].id in n.streams)
    && (forall i :: 0 <= i < |n.fromPeer| && n.fromPeer[i].Credit? && n.fromPeer[i].id != 0 ==>
          n.fromPeer[i].id in n.streams)
  }

  predicate Inv(n: Net) {
    && Known(n) && ConnBalanced(n) && HoldOk(n) && HistoryOk(n) && OwnersOk(n)
    && forall id :: id in n.streams ==> Balanced(n, n.streams[id], id)
  }

  // ------------------------------------------------------- what each step keeps

  lemma {:induction false} Unheard(frames: seq<ToPeer>, id: nat)
    requires forall i :: 0 <= i < |frames| && frames[i].Data? ==> frames[i].id != id
    ensures Bytes(frames, id) == 0
  {
    if frames != [] {
      Unheard(frames[1..], id);
    }
  }

  lemma {:induction false} Uncredited(msgs: seq<FromPeer>, id: nat)
    requires forall i :: 0 <= i < |msgs| && msgs[i].Credit? ==> msgs[i].id != id
    ensures Credits(msgs, id) == 0
  {
    if msgs != [] {
      Uncredited(msgs[1..], id);
    }
  }

  lemma {:induction false} Unlent(loans: seq<Loan>, id: nat)
    requires forall i :: 0 <= i < |loans| ==> loans[i].id != id
    ensures Lent(loans, id) == 0
  {
    if loans != [] {
      Unlent(loans[1..], id);
    }
  }

  lemma OpenKeeps(n: Net, id: nat, cell: nat)
    requires Inv(n) && id != 0 && id !in n.streams && Serves(n, cell) == 0
    ensures Inv(RunOpen(n, id, cell))
  {
    var m := RunOpen(n, id, cell);
    Unheard(n.toPeer, id);
    Uncredited(n.fromPeer, id);
    Unlent(n.loans, id);
    forall j | j in m.streams ensures Balanced(m, m.streams[j], j) {
      assert j in n.streams ==> Balanced(n, n.streams[j], j);
    }
  }

  lemma CloseKeeps(n: Net, id: nat)
    requires Inv(n) && IsOpen(n, id)
    ensures Inv(RunCloseStream(n, id))
  {
    var m := RunCloseStream(n, id);
    forall j | j in m.streams ensures Balanced(m, m.streams[j], j) {
      assert Balanced(n, n.streams[j], j);
    }
  }

  lemma TakeKeeps(n: Net, id: nat, debit: nat)
    requires Inv(n) && IsOpen(n, id) && debit <= n.streams[id].window && debit <= n.conn.window
    ensures Inv(n.(hold := Taking(id, debit)))
  {
  }

  lemma StrayDebitKeeps(n: Net)
    requires Inv(n) && n.hold.Taking? && DebitStrays(n)
    ensures Inv(RunDebit(n))
  {
    var m := RunDebit(n);
    forall id | id in m.streams ensures Balanced(m, m.streams[id], id) {
      assert Balanced(n, n.streams[id], id);
    }
  }

  lemma OwnDebitKeeps(n: Net)
    requires Inv(n) && n.hold.Taking? && !DebitStrays(n)
    ensures Inv(RunDebit(n))
  {
    var m := RunDebit(n);
    var l := Loan(n.hold.id, n.hold.debit);
    forall id | id in m.streams ensures Balanced(m, m.streams[id], id) {
      LoanAppend(n.loans, l, id);
      assert Balanced(n, n.streams[id], id);
    }
    LoanAppend(n.loans, l, 0);
  }

  lemma DebitKeeps(n: Net)
    requires Inv(n) && n.hold.Taking?
    ensures Inv(RunDebit(n))
  {
    if DebitStrays(n) {
      StrayDebitKeeps(n);
    } else {
      OwnDebitKeeps(n);
    }
  }

  lemma EmitOne(n: Net, i: nat, id: nat)
    requires i < |n.loans| && id in n.streams && Balanced(n, n.streams[id], id)
    ensures var m := RunEmit(n, i); Balanced(m, m.streams[id], id)
  {
    LoanRemove(n.loans, i, id);
    FramesAppend(n.toPeer, Data(n.loans[i].id, n.loans[i].len), id);
  }

  lemma EmitKeeps(n: Net, i: nat)
    requires Inv(n) && i < |n.loans|
    ensures Inv(RunEmit(n, i))
  {
    var m := RunEmit(n, i);
    var f := Data(n.loans[i].id, n.loans[i].len);
    forall id | id in m.streams ensures Balanced(m, m.streams[id], id) {
      EmitOne(n, i, id);
    }
    LoanRemove(n.loans, i, 0);
    FramesAppend(n.toPeer, f, 0);
  }

  lemma AckKeeps(n: Net)
    requires Inv(n) && n.unacked > 0
    ensures Inv(RunAck(n))
  {
    var m := RunAck(n);
    forall id | id in m.streams ensures Balanced(m, m.streams[id], id) {
      FramesAppend(n.toPeer, Ack, id);
      assert Balanced(n, n.streams[id], id);
    }
    FramesAppend(n.toPeer, Ack, 0);
  }

  lemma PeerSetsKeeps(n: Net, v: nat)
    requires Inv(n)
    ensures Inv(RunPeerSets(n, v))
  {
    var m := RunPeerSets(n, v);
    forall id | id in m.streams ensures Balanced(m, m.streams[id], id) {
      MessagesAppend(n.fromPeer, Settings(v), id);
      assert Balanced(n, n.streams[id], id);
    }
    MessagesAppend(n.fromPeer, Settings(v), 0);
    var k := Acks(n.toPeer) + n.unacked;
    assert m.history[k..] == n.history[k..] + [v];
    assert Values([Settings(v)]) == [v];
  }

  lemma PeerCreditsConnKeeps(n: Net, inc: nat)
    requires Inv(n)
    ensures Inv(RunPeerCredits(n, 0, inc))
  {
    var m := RunPeerCredits(n, 0, inc);
    var c := Credit(0, inc);
    forall j | j in m.streams ensures Balanced(m, m.streams[j], j) {
      MessagesAppend(n.fromPeer, c, j);
      assert Balanced(n, n.streams[j], j);
    }
    MessagesAppend(n.fromPeer, c, 0);
    assert Values([c]) == [];
    assert Values(n.fromPeer) + [] == Values(n.fromPeer);
  }

  lemma PeerCreditsOne(n: Net, id: nat, inc: nat, j: nat)
    requires id != 0 && j in n.streams && Balanced(n, n.streams[j], j)
    ensures var m := RunPeerCredits(n, id, inc); Balanced(m, m.streams[j], j)
  {
    MessagesAppend(n.fromPeer, Credit(id, inc), j);
  }

  lemma PeerCreditsStreamKeeps(n: Net, id: nat, inc: nat)
    requires Inv(n) && id in n.streams
    ensures Inv(RunPeerCredits(n, id, inc))
  {
    var m := RunPeerCredits(n, id, inc);
    var c := Credit(id, inc);
    assert id != 0;
    assert m == n.(fromPeer := n.fromPeer + [c], streams := AddPeerGranted(n.streams, id, inc));
    forall j | j in m.streams ensures Balanced(m, m.streams[j], j) {
      PeerCreditsOne(n, id, inc, j);
    }
    MessagesAppend(n.fromPeer, c, 0);
    assert Values([c]) == [];
    assert Values(n.fromPeer) + [] == Values(n.fromPeer);
  }

  lemma PeerCreditsKeeps(n: Net, id: nat, inc: nat)
    requires Inv(n) && (id == 0 || id in n.streams)
    ensures Inv(RunPeerCredits(n, id, inc))
  {
    if id == 0 {
      PeerCreditsConnKeeps(n, inc);
    } else {
      PeerCreditsStreamKeeps(n, id, inc);
    }
  }

  lemma ShiftOne(n: Net, v: nat, id: nat)
    requires n.fromPeer != [] && n.fromPeer[0] == Settings(v) && !RunReceive(n).dead
    requires id in n.streams && Balanced(n, n.streams[id], id)
    ensures var m := RunReceive(n); Balanced(m, m.streams[id], id)
  {
  }

  lemma SettingsKeeps(n: Net, v: nat)
    requires Inv(n) && n.fromPeer != [] && n.fromPeer[0] == Settings(v)
    ensures Inv(RunReceive(n)) || RunReceive(n).dead
  {
    var m := RunReceive(n);
    if !m.dead {
      forall id | id in m.streams ensures Balanced(m, m.streams[id], id) {
        ShiftOne(n, v, id);
      }
      var k := Acks(n.toPeer) + n.unacked;
      assert n.history[k..][1..] == n.history[k + 1..];
      assert [v] + Values(n.fromPeer[1..]) == Values(n.fromPeer);
      assert ([n.initial] + Values(n.fromPeer))[1..] == Values(n.fromPeer);
    }
  }

  lemma ConnCreditKeeps(n: Net, inc: nat)
    requires Inv(n) && n.fromPeer != [] && n.fromPeer[0] == Credit(0, inc) && n.hold.Free?
    ensures var m := n.(fromPeer := n.fromPeer[1..]);
      n.conn.window + inc <= MAX_WINDOW ==> Inv(m.(conn := Credited(n.conn, inc)))
  {
    var m := n.(fromPeer := n.fromPeer[1..], conn := Credited(n.conn, inc));
    forall j | j in m.streams ensures Balanced(m, m.streams[j], j) {
      assert Balanced(n, n.streams[j], j);
    }
    assert Values(n.fromPeer) == Values(n.fromPeer[1..]);
  }

  /** A credit for a stream that is looked up, or comes too late. */
  lemma StreamCreditKeeps(n: Net, id: nat, inc: nat)
    requires Inv(n) && n.crediting.NoCredit? && n.fromPeer != [] && n.fromPeer[0] == Credit(id, inc) && id != 0
    ensures var m := n.(fromPeer := n.fromPeer[1..]);
      Inv(m) && (IsOpen(n, id) ==> Inv(m.(crediting := Landing(id, inc))))
  {
    var m := n.(fromPeer := n.fromPeer[1..]);
    forall j | j in m.streams ensures Balanced(m, m.streams[j], j) {
      assert Balanced(n, n.streams[j], j);
    }
    assert Values(n.fromPeer) == Values(n.fromPeer[1..]);
    assert Inv(m);
    var k := m.(crediting := Landing(id, inc));
    forall j | j in k.streams ensures Balanced(k, k.streams[j], j) {
      assert Balanced(n, n.streams[j], j);
    }
  }

  lemma ReceiveKeeps(n: Net)
    requires Inv(n) && Enabled(n, Receive)
    ensures Inv(RunReceive(n)) || RunReceive(n).dead
  {
    match n.fromPeer[0]
    case Settings(v) => SettingsKeeps(n, v);
    case Credit(id, inc) =>
      if id == 0 {
        ConnCreditKeeps(n, inc);
      } else {
        StreamCreditKeeps(n, id, inc);
      }
  }

  /** The credit in hand is gone, and at most one stream's window, its grants or its strays,
      or its being open, have changed with it. */
  lemma LandedKeeps(n: Net, on: nat, a: Account)
    requires Inv(n) && n.crediting.Landing? && on in n.streams
    requires a == n.streams[on].(window := a.window, granted := a.granted, strayIn := a.strayIn, open := a.open)
    requires a.open ==> n.streams[on].open
    requires a.open ==> a.window - n.streams[on].window == Gain(a) - Gain(n.streams[on]) >= 0 && a.window <= MAX_WINDOW
    requires a.granted <= n.streams[on].granted + InHand(n, on)
    ensures Inv(n.(crediting := NoCredit, streams := n.streams[on := a]))
  {
    var m := n.(crediting := NoCredit, streams := n.streams[on := a]);
    forall j | j in m.streams ensures Balanced(m, m.streams[j], j) {
      assert Balanced(n, n.streams[j], j);
    }
  }

  lemma LandKeeps(n: Net)
    requires Inv(n) && n.crediting.Landing?
    ensures Inv(RunLand(n))
  {
    var id, inc := n.crediting.id, n.crediting.inc;
    var on := Serves(n, n.streams[id].cell);
    if on == 0 {
      LandedKeeps(n, id, n.streams[id]);
      assert n.streams[id := n.streams[id]] == n.streams;
    } else if n.streams[on].window + inc > MAX_WINDOW {
      if on == id {
        LandedKeeps(n, id, n.streams[id].(open := false));
      } else {
        LandedKeeps(n, on, n.streams[on]);
        assert n.streams[on := n.streams[on]] == n.streams;
      }
    } else if on == id {
      LandedKeeps(n, id, Credited(n.streams[id], inc));
    } else {
      LandedKeeps(n, on, Strayed(n.streams[on], inc));
    }
  }

  lemma AckArrives(n: Net)
    requires Inv(n) && n.toPeer != [] && n.toPeer[0].Ack?
    ensures Inv(n.(toPeer := n.toPeer[1..], history := n.history[1..]))
  {
    var m := n.(toPeer := n.toPeer[1..], history := n.history[1..]);
    forall j | j in m.streams ensures Balanced(m, m.streams[j], j) {
      assert Balanced(n, n.streams[j], j);
    }
    var k := Acks(m.toPeer) + m.unacked;
    assert m.history[k..] == n.history[k + 1..];
  }

  lemma DataArrives(n: Net)
    requires Inv(n) && n.toPeer != [] && n.toPeer[0].Data?
    ensures Inv(RunPeerReceives(n))
  {
    var m := RunPeerReceives(n);
    forall j | j in m.streams ensures Balanced(m, m.streams[j], j) {
      assert Balanced(n, n.streams[j], j);
    }
  }

  lemma PeerReceivesKeeps(n: Net)
    requires Inv(n) && n.toPeer != []
    ensures Inv(RunPeerReceives(n))
  {
    if n.toPeer[0].Ack? {
      AckArrives(n);
    } else {
      DataArrives(n);
    }
  }

  /** The steps of the peer and of the reader. */
  predicate Arrives(a: Action) {
    a.Receive? || a.Lands? || a.PeerSets? || a.PeerCredits? || a.PeerReceives?
  }

  lemma SenderStepKeeps(n: Net, a: Action)
    requires Inv(n) && Enabled(n, a) && !Arrives(a)
    ensures Inv(Step(n, a))
  {
    match a
    case Open(id, cell) => OpenKeeps(n, id, cell);
    case CloseStream(id) => CloseKeeps(n, id);
    case Take(_, _, _) => TakeStepKeeps(n, a);
    case TakeAll(_, _, _) => TakeStepKeeps(n, a);
    case Debit => DebitKeeps(n);
    case Emit(i) => EmitKeeps(n, i);
    case WriteAck => AckKeeps(n);
  }

  lemma TakeStepKeeps(n: Net, a: Action)
    requires Inv(n) && Enabled(n, a) && (a.Take? || a.TakeAll?)
    ensures Inv(Step(n, a))
  {
    if a.Take? {
      TakeKeeps(n, a.id, Min(a.want, Min(n.streams[a.id].window, n.conn.window) - a.pad) + a.pad);
    } else {
      TakeKeeps(n, a.id, a.want + a.pad);
    }
  }

  lemma ArrivalKeeps(n: Net, a: Action)
    requires Inv(n) && Enabled(n, a) && Arrives(a)
    ensures Inv(Step(n, a)) || Step(n, a).dead
  {
    match a
    case Receive => ReceiveKeeps(n);
    case Lands => LandKeeps(n);
    case PeerSets(v) => PeerSetsKeeps(n, v);
    case PeerCredits(id, inc) => PeerCreditsKeeps(n, id, inc);
    case PeerReceives => PeerReceivesKeeps(n);
  }

  lemma StepKeeps(n: Net, a: Action)
    requires Inv(n) && Enabled(n, a)
    ensures Inv(Step(n, a)) || Step(n, a).dead
  {
    if Arrives(a) {
      ArrivalKeeps(n, a);
    } else {
      SenderStepKeeps(n, a);
    }
  }

  lemma {:induction false} RunKeeps(start: Net, run: seq<Action>)
    requires Inv(start) && IsRun(start, run)
    ensures Inv(After(start, run)) || After(start, run).dead
    decreases |run|
  {
    if run != [] {
      var next := Step(start, run[0]);
      StepKeeps(start, run[0]);
      if next.dead {
        assert run[1..] == [];
      } else {
        RunKeeps(next, run[1..]);
      }
    }
  }

  lemma StartInv()
    ensures Inv(START)
  {
    assert START.history[0..] == [DEFAULT_WINDOW] + Values([]);
  }

  // ---------------------------------------------- nothing in flight overruns

  /** The peer will take this frame when it gets to it. */
  predicate Welcome(n: Net, p: nat)
    requires p < |n.toPeer|
  {
    n.toPeer[p].Data? ==>
      var id, k := n.toPeer[p].id, Acks(n.toPeer[..p]);
      && id in n.streams && k < |n.history|
      && n.streams[id].received + Bytes(n.toPeer[..p + 1], id) <= Limit(n.history[k..]) + n.streams[id].peerGranted
  }

  predicate AllWelcome(n: Net) {
    !n.overrun && forall p :: 0 <= p < |n.toPeer| ==> Welcome(n, p)
  }

  /** Everything a frame's welcome depends on is as it was. */
  predicate PeerSame(n: Net, m: Net) {
    && m.toPeer == n.toPeer && m.history == n.history && m.overrun == n.overrun
    && (forall id :: id in n.streams ==> id in m.streams && m.streams[id].received == n.streams[id].received)
    && (forall id :: id in n.streams && id in m.streams ==> m.streams[id].peerGranted >= n.streams[id].peerGranted)
  }

  lemma SameWelcome(n: Net, m: Net)
    requires AllWelcome(n) && PeerSame(n, m)
    ensures AllWelcome(m)
  {
    forall p | 0 <= p < |m.toPeer| ensures Welcome(m, p) {
      assert Welcome(n, p);
    }
  }

  /** The frame about to go out is within the largest initial window the peer must still
      honour when it gets to it, and all the credit it has given so far. */
  predicate Tolerated(n: Net, i: nat)
    requires i < |n.loans|
  {
    var id, k := n.loans[i].id, Acks(n.toPeer);
    && id in n.streams && k < |n.history|
    && n.streams[id].emitted + n.loans[i].len <= Limit(n.history[k..]) + n.streams[id].peerGranted
  }

  lemma LastWelcome(n: Net, i: nat)
    requires Inv(n) && i < |n.loans|
    ensures Welcome(RunEmit(n, i), |n.toPeer|) <==> Tolerated(n, i)
  {
    var m := RunEmit(n, i);
    var Loan(id, len) := n.loans[i];
    var last := |n.toPeer|;
    assert m.toPeer[..last] == n.toPeer && m.toPeer[..last + 1] == m.toPeer;
    FramesAppend(n.toPeer, Data(id, len), id);
    assert Balanced(n, n.streams[id], id);
  }

  lemma EarlierWelcome(n: Net, i: nat, p: nat)
    requires i < |n.loans| && p < |n.toPeer| && Welcome(n, p)
    ensures Welcome(RunEmit(n, i), p)
  {
    var m := RunEmit(n, i);
    assert m.toPeer[..p] == n.toPeer[..p] && m.toPeer[..p + 1] == n.toPeer[..p + 1];
  }

  lemma EmitExact(n: Net, i: nat)
    requires Inv(n) && AllWelcome(n) && i < |n.loans|
    ensures AllWelcome(RunEmit(n, i)) <==> Tolerated(n, i)
  {
    LastWelcome(n, i);
    forall p | 0 <= p < |n.toPeer| ensures Welcome(RunEmit(n, i), p) {
      EarlierWelcome(n, i, p);
    }
  }

  /** What our own windows cover the peer tolerates. With every SETTINGS acknowledged, and
      nothing on its way from the peer, it tolerates no more. */
  lemma CoveredIsTolerated(n: Net, i: nat)
    requires Inv(n) && i < |n.loans|
    ensures StillCovered(n, Emit(i)) ==> Tolerated(n, i)
    ensures Settled(n, n.loans[i].id) && Tolerated(n, i) ==> StillCovered(n, Emit(i))
  {
    var id, k := n.loans[i].id, Acks(n.toPeer);
    assert Balanced(n, n.streams[id], id);
    assert n.history[k..][n.unacked] == n.history[k + n.unacked..][0] == n.initial;
    LimitCovers(n.history[k..], n.unacked);
    assert Settled(n, id) ==> n.history[k..] == [n.initial];
  }

  /** Both ends have the same view of what a stream may be sent. */
  predicate Settled(n: Net, id: nat) {
    n.unacked == 0 && n.fromPeer == [] && (id in n.streams ==> n.streams[id].granted == n.streams[id].peerGranted)
  }

  lemma EmitWelcome(n: Net, i: nat)
    requires Inv(n) && AllWelcome(n) && i < |n.loans| && StillCovered(n, Emit(i))
    ensures AllWelcome(RunEmit(n, i))
  {
    CoveredIsTolerated(n, i);
    EmitExact(n, i);
  }

  lemma AckWelcome(n: Net, m: Net)
    requires AllWelcome(n) && m == n.(unacked := m.unacked, toPeer := n.toPeer + [Ack])
    ensures AllWelcome(m)
  {
    forall p | 0 <= p < |m.toPeer| ensures Welcome(m, p) {
      if p < |n.toPeer| {
        assert Welcome(n, p);
        assert m.toPeer[..p] == n.toPeer[..p] && m.toPeer[..p + 1] == n.toPeer[..p + 1];
      }
    }
  }

  lemma PeerSetsWelcome(n: Net, v: nat, m: Net)
    requires AllWelcome(n) && m == n.(history := n.history + [v], fromPeer := m.fromPeer)
    ensures AllWelcome(m)
  {
    forall p | 0 <= p < |m.toPeer| ensures Welcome(m, p) {
      assert Welcome(n, p);
      if n.toPeer[p].Data? {
        var k := Acks(n.toPeer[..p]);
        assert m.history[k..] == n.history[k..] + [v];
        LimitGrows(n.history[k..], v);
      }
    }
  }

  lemma NextWelcome(n: Net, p: nat)
    requires Inv(n) && p + 1 < |n.toPeer|
    ensures Welcome(RunPeerReceives(n), p) <==> Welcome(n, p + 1)
  {
    var m := RunPeerReceives(n);
    assert n.toPeer[..p + 1][1..] == m.toPeer[..p];
    assert n.toPeer[..p + 2][1..] == m.toPeer[..p + 1];
    if n.toPeer[0].Ack? {
      var k := Acks(m.toPeer[..p]);
      assert k < |m.history| ==> m.history[k..] == n.history[k + 1..];
    }
  }

  lemma FirstWelcome(n: Net)
    requires Inv(n) && n.toPeer != [] && n.toPeer[0].Data?
    ensures Within(n, n.toPeer[0].id, n.toPeer[0].len) <==> Welcome(n, 0)
  {
    var id, len := n.toPeer[0].id, n.toPeer[0].len;
    assert Bytes(n.toPeer[..1], id) == len by {
      assert n.toPeer[..1][1..] == [];
    }
    assert n.toPeer[..0] == [] && n.history[0..] == n.history;
    assert AllBytes(n.toPeer) >= len;
    assert n.conn.received + len <= DEFAULT_WINDOW + n.conn.peerGranted;
  }

  /** The peer's view of the frames still in flight does not change as it receives. */
  lemma ArrivalWelcome(n: Net)
    requires Inv(n) && n.toPeer != []
    ensures AllWelcome(RunPeerReceives(n)) <==> AllWelcome(n)
  {
    var m := RunPeerReceives(n);
    forall p | 0 <= p < |m.toPeer| ensures Welcome(m, p) <==> Welcome(n, p + 1) {
      NextWelcome(n, p);
    }
    if n.toPeer[0].Data? {
      FirstWelcome(n);
    }
    if AllWelcome(m) {
      forall p | 0 <= p < |n.toPeer| ensures Welcome(n, p) {
        if p > 0 {
          assert Welcome(m, p - 1);
        }
      }
    }
  }

  /** The peer receives the next k frames. */
  function Drain(k: nat): seq<Action> {
    if k == 0 then [] else [PeerReceives] + Drain(k - 1)
  }

  lemma {:induction false} DrainExact(n: Net)
    requires Inv(n) && !n.dead
    ensures IsRun(n, Drain(|n.toPeer|)) && (After(n, Drain(|n.toPeer|)).overrun <==> !AllWelcome(n))
    decreases |n.toPeer|
  {
    if n.toPeer != [] {
      var m := RunPeerReceives(n);
      PeerReceivesKeeps(n);
      ArrivalWelcome(n);
      DrainExact(m);
      assert Drain(|n.toPeer|)[1..] == Drain(|m.toPeer|);
    }
  }

  /** A step of ours that puts nothing on the wire. */
  lemma QuietSame(n: Net, a: Action)
    requires Enabled(n, a) && (a.Open? || a.CloseStream? || a.Take? || a.TakeAll? || a.Debit?)
    ensures PeerSame(n, Step(n, a))
  {
  }

  lemma CreditSame(n: Net, a: Action)
    requires Enabled(n, a) && (a.Receive? || a.Lands? || a.PeerCredits?)
    ensures PeerSame(n, Step(n, a))
  {
  }

  lemma StepWelcome(n: Net, a: Action)
    requires Inv(n) && AllWelcome(n) && Enabled(n, a) && StillCovered(n, a)
    ensures AllWelcome(Step(n, a))
  {
    var m := Step(n, a);
    if a.Open? || a.CloseStream? || a.Take? || a.TakeAll? || a.Debit? {
      QuietSame(n, a);
      SameWelcome(n, m);
    } else if a.Receive? || a.Lands? || a.PeerCredits? {
      CreditSame(n, a);
      SameWelcome(n, m);
    } else if a.Emit? {
      EmitWelcome(n, a.i);
      assert m == RunEmit(n, a.i);
    } else if a.PeerReceives? {
      ArrivalWelcome(n);
      assert m == RunPeerReceives(n);
    } else if a.WriteAck? {
      AckWelcome(n, m);
    } else {
      PeerSetsWelcome(n, a.value, m);
    }
  }

  lemma {:induction false} RunWelcome(start: Net, run: seq<Action>)
    requires Inv(start) && AllWelcome(start) && IsRun(start, run) && AllCovered(start, run)
    ensures !After(start, run).overrun
    decreases |run|
  {
    if run != [] {
      var next := Step(start, run[0]);
      StepKeeps(start, run[0]);
      StepWelcome(start, run[0]);
      if next.dead {
        assert run[1..] == [];
      } else {
        RunWelcome(next, run[1..]);
      }
    }
  }

  // ------------------------------------------------------------- main results

  /** In every run, while the connection stands, each open stream's window is the peer's
      current initial window, plus the credit received, minus the credit taken, plus and
      minus what strayed there from a stream that had its struct before; so it is exact if
      and only if the strays cancel out. It stays within 2^31-1 of zero and the connection
      window is never negative, so no conversion to 32 bits changes a value. */
  lemma WindowsAreExact(run: seq<Action>, id: nat)
    requires IsRun(START, run) && !After(START, run).dead
    ensures var n := After(START, run);
      && 0 <= n.conn.window <= MAX_WINDOW
      && n.conn.window == DEFAULT_WINDOW + n.conn.granted - n.conn.debited
      && (IsOpen(n, id) ==> -MAX_WINDOW <= n.streams[id].window <= MAX_WINDOW)
      && (IsOpen(n, id) ==>
            var a := n.streams[id];
            && a.window == n.initial + a.granted + a.strayIn - a.debited - a.strayOut
            && (a.window == n.initial + a.granted - a.debited <==> a.strayIn == a.strayOut))
  {
    StartInv();
    RunKeeps(START, run);
    var n := After(START, run);
    if IsOpen(n, id) {
      assert Balanced(n, n.streams[id], id);
    }
  }

  /** In every run in which each frame is still covered when it goes out, the peer never
      receives a byte beyond what it has granted, on any stream or on the connection. */
  lemma PeerNeverOverrun(run: seq<Action>)
    requires IsRun(START, run) && AllCovered(START, run)
    ensures !After(START, run).overrun
  {
    StartInv();
    RunWelcome(START, run);
  }

  /** Exactly when a frame overruns. With nothing too much in flight before it, the peer
      that receives all that is in flight sees an overrun if and only if the frame is not
      tolerated as it goes out. When both ends agree on the stream, that is if and only if
      our own windows no longer cover it. */
  lemma OverrunsExactlyWhen(n: Net, i: nat)
    requires Inv(n) && AllWelcome(n) && !n.dead && i < |n.loans|
    ensures Overruns(n, [Emit(i)] + Drain(|n.toPeer| + 1)) <==> !Tolerated(n, i)
    ensures Settled(n, n.loans[i].id) ==> (Tolerated(n, i) <==> StillCovered(n, Emit(i)))
  {
    var m := RunEmit(n, i);
    var run := [Emit(i)] + Drain(|n.toPeer| + 1);
    EmitKeeps(n, i);
    EmitExact(n, i);
    DrainExact(m);
    assert run[0] == Emit(i) && run[1..] == Drain(|m.toPeer|);
    CoveredIsTolerated(n, i);
  }

  /** Exactly when a credit strays: another stream's window rises with it if and only if
      the struct looked up has been opened for that stream since, and there is room. */
  lemma CreditStraysExactlyWhen(n: Net, on: nat)
    requires Inv(n) && Enabled(n, Lands) && on in n.streams
    ensures Step(n, Lands).streams[on].strayIn == n.streams[on].strayIn +
      if CreditStrays(n) && on == Serves(n, n.streams[n.crediting.id].cell)
         && n.streams[on].window + n.crediting.inc <= MAX_WINDOW
      then n.crediting.inc else 0
    ensures CreditStrays(n) ==> !IsOpen(n, n.crediting.id)
  {
    assert Step(n, Lands) == RunLand(n);
  }

  /** Exactly when a debit strays; its writer then puts nothing on the wire. */
  lemma DebitStraysExactlyWhen(n: Net, on: nat)
    requires Inv(n) && Enabled(n, Debit) && on in n.streams
    ensures Step(n, Debit).streams[on].strayOut == n.streams[on].strayOut +
      if DebitStrays(n) && on == Serves(n, n.streams[n.hold.id].cell) then n.hold.debit else 0
    ensures DebitStrays(n) ==> !IsOpen(n, n.hold.id) && Step(n, Debit).loans == n.loans
  {
    assert Step(n, Debit) == RunDebit(n);
  }

  /** A window that is not below its stray credit when the frame goes out is enough; so is
      one that is not negative, where no credit strayed. */
  lemma NonNegativeCovers(n: Net, i: nat)
    requires Inv(n) && i < |n.loans| && IsOpen(n, n.loans[i].id)
    requires n.streams[n.loans[i].id].window >= n.streams[n.loans[i].id].strayIn
    ensures StillCovered(n, Emit(i))
  {
    var id := n.loans[i].id;
    assert Balanced(n, n.streams[id], id);
    LoanRemove(n.loans, i, id);
  }

  // --------------------------------------------------------- the condition binds

  /** One stream, after it took a hundred bytes of credit. */
  function Lent100(initial: nat, loans: seq<Loan>, unacked: nat, emitted: nat, received: nat,
                   toPeer: seq<ToPeer>, fromPeer: seq<FromPeer>, history: seq<nat>): Net {
    Net(initial, Account(true, DEFAULT_WINDOW - 100, 0, 100, emitted, 0, received, 0, 0, 0),
        map[1 := Account(true, initial - 100, 0, 100, emitted, 0, received, 0, 0, 0)], map[0 := 1],
        Free, NoCredit, loans, 0, unacked, toPeer, fromPeer, history, false, false)
  }

  predicate Overruns(n: Net, run: seq<Action>) {
    IsRun(n, run) && After(n, run).overrun
  }

  lemma OverrunsFrom(n: Net, a: Action, rest: seq<Action>)
    requires Enabled(n, a) && Overruns(Step(n, a), rest)
    ensures Overruns(n, [a] + rest)
  {
    assert ([a] + rest)[1..] == rest;
  }

  lemma DataAfterAck()
    ensures Overruns(Lent100(0, [], 0, 100, 0, [Ack, Data(1, 100)], [], [DEFAULT_WINDOW, 0]),
                     [PeerReceives, PeerReceives])
  {
    var n := Lent100(0, [], 0, 100, 0, [Ack, Data(1, 100)], [], [DEFAULT_WINDOW, 0]);
    var m := Lent100(0, [], 0, 100, 0, [Data(1, 100)], [], [0]);
    assert Step(n, PeerReceives) == m;
    assert !Within(m, 1, 100);
    assert Overruns(Step(m, PeerReceives), []);
    OverrunsFrom(m, PeerReceives, []);
    OverrunsFrom(n, PeerReceives, [PeerReceives]);
    assert [PeerReceives] + [] == [PeerReceives];
    assert [PeerReceives] + [PeerReceives] == [PeerReceives, PeerReceives];
  }

  lemma AckOvertakes()
    ensures Overruns(Lent100(0, [Loan(1, 100)], 1, 0, 0, [], [], [DEFAULT_WINDOW, 0]),
                     [WriteAck, Emit(0), PeerReceives, PeerReceives])
  {
    DataAfterAck();
    var n := Lent100(0, [Loan(1, 100)], 1, 0, 0, [], [], [DEFAULT_WINDOW, 0]);
    var m := Lent100(0, [Loan(1, 100)], 0, 0, 0, [Ack], [], [DEFAULT_WINDOW, 0]);
    assert Step(n, WriteAck) == m;
    assert Step(m, Emit(0)) == Lent100(0, [], 0, 100, 0, [Ack, Data(1, 100)], [], [DEFAULT_WINDOW, 0]);
    OverrunsFrom(m, Emit(0), [PeerReceives, PeerReceives]);
    OverrunsFrom(n, WriteAck, [Emit(0)] + [PeerReceives, PeerReceives]);
    assert [WriteAck] + ([Emit(0)] + [PeerReceives, PeerReceives]) == [WriteAck, Emit(0), PeerReceives, PeerReceives];
  }

  const TAIL := [WriteAck, Emit(0), PeerReceives, PeerReceives]

  lemma SettingsApplied()
    ensures Overruns(Lent100(DEFAULT_WINDOW, [Loan(1, 100)], 0, 0, 0, [], [Settings(0)], [DEFAULT_WINDOW, 0]),
                     [Receive] + TAIL)
  {
    AckOvertakes();
    var m := Lent100(DEFAULT_WINDOW, [Loan(1, 100)], 0, 0, 0, [], [Settings(0)], [DEFAULT_WINDOW, 0]);
    var k := Lent100(0, [Loan(1, 100)], 1, 0, 0, [], [], [DEFAULT_WINDOW, 0]);
    assert RunReceive(m).streams == k.streams;
    assert Step(m, Receive) == k;
    OverrunsFrom(m, Receive, TAIL);
  }

  lemma SettingsLand()
    ensures Overruns(Lent100(DEFAULT_WINDOW, [Loan(1, 100)], 0, 0, 0, [], [], [DEFAULT_WINDOW]),
                     [PeerSets(0), Receive] + TAIL)
  {
    SettingsApplied();
    var n := Lent100(DEFAULT_WINDOW, [Loan(1, 100)], 0, 0, 0, [], [], [DEFAULT_WINDOW]);
    var m := Lent100(DEFAULT_WINDOW, [Loan(1, 100)], 0, 0, 0, [], [Settings(0)], [DEFAULT_WINDOW, 0]);
    assert Step(n, PeerSets(0)) == m;
    OverrunsFrom(n, PeerSets(0), [Receive] + TAIL);
    assert [PeerSets(0)] + ([Receive] + TAIL) == [PeerSets(0), Receive] + TAIL;
  }

  /** Without the condition it fails: a writer takes credit, the peer's lowered initial
      window is applied and acknowledged, and only then does the paid frame go out. */
  lemma AcknowledgedDecreaseOverruns()
    ensures Overruns(START, [Open(1, 0), Take(1, 100, 0), Debit, PeerSets(0), Receive,
                             WriteAck, Emit(0), PeerReceives, PeerReceives])
  {
    SettingsLand();
    var rest := [PeerSets(0), Receive] + TAIL;
    var n1 := START.(streams := map[1 := NewAccount(DEFAULT_WINDOW, 0)], owner := map[0 := 1]);
    var n2 := n1.(hold := Taking(1, 100));
    var n3 := Lent100(DEFAULT_WINDOW, [Loan(1, 100)], 0, 0, 0, [], [], [DEFAULT_WINDOW]);
    assert Step(START, Open(1, 0)) == n1;
    assert Step(n1, Take(1, 100, 0)) == n2;
    assert Step(n2, Debit) == n3;
    OverrunsFrom(n2, Debit, rest);
    OverrunsFrom(n1, Take(1, 100, 0), [Debit] + rest);
    OverrunsFrom(START, Open(1, 0), [Take(1, 100, 0)] + ([Debit] + rest));
    assert [Open(1, 0)] + ([Take(1, 100, 0)] + ([Debit] + rest)) ==
           [Open(1, 0), Take(1, 100, 0), Debit, PeerSets(0), Receive, WriteAck, Emit(0), PeerReceives, PeerReceives];
  }

  // ------------------------------------------------------------- a credit that strays

  /** The peer's initial window is zero, and both ends know. */
  function Zero(streams: map<nat, Account>, owner: map<nat, nat>): Net {
    Net(0, NewAccount(DEFAULT_WINDOW, 0), streams, owner, Free, NoCredit, [], 0, 0, [], [], [0], false, false)
  }

  /** Stream 1, its side of the exchange over, with a hundred bytes of credit from the peer. */
  const FIRST := NewAccount(0, 0).(peerGranted := 100)
  const THIRD := NewAccount(0, 0)

  /** A hundred bytes lent to a stream that the peer has granted nothing. */
  lemma SentBeyond(n: Net)
    requires !n.dead && n.loans == [Loan(3, 100)] && n.toPeer == [] && n.history == [0]
    requires 3 in n.streams && n.streams[3].received == n.streams[3].peerGranted == 0
    ensures Overruns(n, [Emit(0), PeerReceives])
  {
    var m := RunEmit(n, 0);
    assert m.toPeer[0] == Data(3, 100) && m.streams[3].received == m.streams[3].peerGranted == 0;
    assert !Within(m, 3, 100);
    var k := RunPeerReceives(m);
    assert k.overrun;
    assert Overruns(k, []);
    OverrunsFrom(m, PeerReceives, []);
    assert [PeerReceives] + [] == [PeerReceives];
    OverrunsFrom(n, Emit(0), [PeerReceives]);
    assert [Emit(0)] + [PeerReceives] == [Emit(0), PeerReceives];
  }

  lemma PaidByStray(n: Net)
    requires !n.dead && n.hold.Free? && n.loans == [] && n.toPeer == [] && n.history == [0]
    requires IsOpen(n, 3) && n.streams[3].received == n.streams[3].peerGranted == 0
    requires n.streams[3].window == 100 <= n.conn.window && Serves(n, n.streams[3].cell) == 3
    ensures Overruns(n, SPEND)
  {
    var m := n.(hold := Taking(3, 100));
    assert RunTake(n, 3, 100, 0) == m;
    assert !DebitStrays(m);
    var k := RunDebit(m);
    assert k.loans == [Loan(3, 100)];
    SentBeyond(k);
    OverrunsFrom(m, Debit, [Emit(0), PeerReceives]);
    OverrunsFrom(n, Take(3, 100, 0), [Debit] + [Emit(0), PeerReceives]);
    assert [Take(3, 100, 0)] + ([Debit] + [Emit(0), PeerReceives]) == SPEND;
  }

  const SPEND := [Take(3, 100, 0), Debit, Emit(0), PeerReceives]

  lemma LandsThere()
    ensures Overruns(Zero(map[1 := FIRST.(open := false), 3 := THIRD], map[0 := 3]).(crediting := Landing(1, 100)),
                     [Lands] + SPEND)
  {
    var n := Zero(map[1 := FIRST.(open := false), 3 := THIRD], map[0 := 3]).(crediting := Landing(1, 100));
    assert CreditStrays(n) && Serves(n, 0) == 3;
    PaidByStray(RunLand(n));
    OverrunsFrom(n, Lands, SPEND);
  }

  lemma LandsOnTheNext()
    ensures Overruns(Zero(map[1 := FIRST], map[0 := 1]).(crediting := Landing(1, 100)),
                     [CloseStream(1), Open(3, 0), Lands] + SPEND)
  {
    LandsThere();
    var n := Zero(map[1 := FIRST], map[0 := 1]).(crediting := Landing(1, 100));
    var n1 := Zero(map[1 := FIRST.(open := false)], map[0 := 1]).(crediting := Landing(1, 100));
    assert Step(n, CloseStream(1)) == n1;
    assert Step(n1, Open(3, 0)) ==
           Zero(map[1 := FIRST.(open := false), 3 := THIRD], map[0 := 3]).(crediting := Landing(1, 100));
    OverrunsFrom(n1, Open(3, 0), [Lands] + SPEND);
    OverrunsFrom(n, CloseStream(1), [Open(3, 0)] + ([Lands] + SPEND));
    assert [CloseStream(1)] + ([Open(3, 0)] + ([Lands] + SPEND)) == [CloseStream(1), Open(3, 0), Lands] + SPEND;
  }

  const LAND := [CloseStream(1), Open(3, 0), Lands] + SPEND

  lemma LooksUp()
    ensures Overruns(Zero(map[], map[]), [Open(1, 0), PeerCredits(1, 100), Receive] + LAND)
  {
    LandsOnTheNext();
    var n := Zero(map[], map[]);
    var n1 := Zero(map[1 := NewAccount(0, 0)], map[0 := 1]);
    var n2 := Zero(map[1 := FIRST], map[0 := 1]).(fromPeer := [Credit(1, 100)]);
    assert Step(n, Open(1, 0)) == n1;
    assert [] + [Credit(1, 100)] == [Credit(1, 100)];
    assert Step(n1, PeerCredits(1, 100)) == n2;
    assert [Credit(1, 100)][1..] == [];
    assert Step(n2, Receive) == Zero(map[1 := FIRST], map[0 := 1]).(crediting := Landing(1, 100));
    OverrunsFrom(n2, Receive, LAND);
    OverrunsFrom(n1, PeerCredits(1, 100), [Receive] + LAND);
    OverrunsFrom(n, Open(1, 0), [PeerCredits(1, 100)] + ([Receive] + LAND));
    assert [Open(1, 0)] + ([PeerCredits(1, 100)] + ([Receive] + LAND)) ==
           [Open(1, 0), PeerCredits(1, 100), Receive] + LAND;
  }

  /** A run that overruns with no SETTINGS in flight and no window ever negative: a credit
      is looked up for a stream that then ends, its struct is opened for the next request,
      and the credit lands there. */
  lemma StrayCreditOverruns()
    ensures Overruns(START, [PeerSets(0), Receive, WriteAck, PeerReceives] +
                            ([Open(1, 0), PeerCredits(1, 100), Receive] + LAND))
  {
    LooksUp();
    var rest := [Open(1, 0), PeerCredits(1, 100), Receive] + LAND;
    var n1 := START.(history := [DEFAULT_WINDOW, 0], fromPeer := [Settings(0)]);
    var n2 := START.(history := [DEFAULT_WINDOW, 0], initial := 0, unacked := 1);
    var n3 := n2.(unacked := 0, toPeer := [Ack]);
    assert [DEFAULT_WINDOW] + [0] == [DEFAULT_WINDOW, 0] && [] + [Settings(0)] == [Settings(0)];
    assert Step(START, PeerSets(0)) == n1;
    assert [Settings(0)][1..] == [];
    assert RunReceive(n1).streams == map[];
    assert Step(n1, Receive) == n2;
    assert [] + [Ack] == [Ack];
    assert Step(n2, WriteAck) == n3;
    assert [Ack][1..] == [] && [DEFAULT_WINDOW, 0][1..] == [0];
    assert Step(n3, PeerReceives) == Zero(map[], map[]);
    OverrunsFrom(n3, PeerReceives, rest);
    OverrunsFrom(n2, WriteAck, [PeerReceives] + rest);
    OverrunsFrom(n1, Receive, [WriteAck] + ([PeerReceives] + rest));
    OverrunsFrom(START, PeerSets(0), [Receive] + ([WriteAck] + ([PeerReceives] + rest)));
    assert [PeerSets(0)] + ([Receive] + ([WriteAck] + ([PeerReceives] + rest))) ==
           [PeerSets(0), Receive, WriteAck, PeerReceives] + rest;
  }
}
