/** Runs of one stream struct through any number of lifetimes, with every goroutine that
    can hold it: the application's senders, receivers and closers, the connection's reader,
    the overflow goroutine, and whoever is about to retire or recycle it. A step is one
    critical section. */
module StreamRuns {
  import opened StreamLifecycle

  /** A goroutine between two critical sections, holding the struct. */
  datatype Task =
    | Heading(gen: nat, end: bool)    // HEADERS writer past its door
    | Sending(gen: nat, end: bool)    // DATA writer past its door, possibly parked
    | Sent(gen: nat)                  // END_STREAM is out, the local end is not latched
    | Retiring(gen: nat, id: nat)     // latched, has not read s.w yet
    | Marking(id: nat)                // about to enter markStreamDone
    | Finishing(gen: nat)             // in markStreamDone, between its two sections
    | Recycling(gen: nat)             // decided to recycle
    | Cancelling(gen: nat)            // Close abandoned the stream, has not read s.id yet
    | Unassigned(gen: nat)            // Close found no id
    | Resetting(id: nat)              // wrote RST_STREAM, about to release the slot
    | Overflowing(gen: nat)           // background RST after an overflow
    | Receiving(gen: nat)             // inside Recv

  /** What the reader looked up: the frame's stream, the lifetime the struct was in, and
      whether the peer had ended that stream by then. */
  datatype Lookup = Lookup(id: nat, gen: nat, late: bool)

  /** The connection's reader goroutine. It holds the struct, not the lifetime. */
  datatype Reader =
    | Away
    | Found(f: Lookup)                     // DATA, has not asked whether the stream ended
    | Charging(f: Lookup)                  // it had not; about to charge the window
    | Charged(f: Lookup)                   // about to ask whether a response has begun
    | Delivering(f: Lookup, block: bool)   // about to deliver DATA, or to decode and deliver a block
    | Crediting(f: Lookup)                 // WINDOW_UPDATE, about to raise the send window
    | Refusing(f: Lookup)                  // about to read s.id for a stream error
    | Blaming(id: nat)                     // has read it, about to look it up
    | Announcing(id: nat)                  // overflowed, about to announce the reset
    | TearingDown(id: nat, rst: bool)      // about to end it with a reset
    | Gone                                 // the connection is down

  /** `idOf` is the wire id each lifetime got. `wire` records, for each handle, the id of
      every frame it put on the wire, and `received` the id of the frame behind every event
      it got. `charged` records the lifetime whose window paid for each DATA frame,
      `blamed` the id each stream error named, and `credited` the lifetime whose send window
      each WINDOW_UPDATE raised, all with the id of the frame. */
  datatype Sys = Sys(
    s: Stream,
    live: bool,
    registered: bool,
    pool: nat,                   // copies of the struct in the pool
    tasks: multiset<Task>,
    reader: Reader,
    idOf: map<nat, nat>,
    wire: seq<(nat, nat)>,
    received: seq<(nat, nat)>,
    charged: seq<(nat, nat)>,
    blamed: seq<(nat, nat)>,
    credited: seq<(nat, nat)>,
    closedHandles: set<nat>,     // lifetimes whose Close took effect
    lateReset: bool,             // a reset landed after the recycle was decided
    lostWriter: bool)            // a retiring sender found s.w gone

  /** The application's senders. */
  datatype SendAction =
    | HeadersDoor(gen: nat, end: bool)
    | EmitHeaders(gen: nat, end: bool, id: nat)
    | DataDoor(gen: nat, end: bool)
    | EmitData(gen: nat, end: bool, last: bool)
    | SendStops(gen: nat, end: bool)
    | EndsLocal(gen: nat)
    | Retires(gen: nat, id: nat)

  /** The application's other uses of a handle. */
  datatype HandleAction =
    | Alloc
    | AppCloses(gen: nat)
    | CancelReadsId(gen: nat)
    | RecvEnters(gen: nat)
    | RecvTakes(gen: nat)
    | RecvLeaves(gen: nat)

  /** Retirement and recycling, on whichever goroutine they fall. */
  datatype ConnAction =
    | AllocPushed(id: nat)
    | Marks(id: nat)
    | Finishes(gen: nat)
    | PutsBack(gen: nat)
    | ReleasesUnassigned(gen: nat)
    | ReleasesSlot(id: nat)
    | OverflowResets(gen: nat)

  /** The connection's reader. */
  datatype ReadAction =
    | Finds(id: nat)
    | FindsForHeaders(id: nat)
    | FindsForReset(id: nat)
    | FindsForCredit(id: nat)
    | Checks
    | Charges(overrun: bool)
    | Credits(overflow: bool)
    | Admits(misfit: bool)                              // the declared length was not met
    | Delivers(end: bool, empty: bool, final: bool)
    | Rejects
    | Blames
    | LooksUp
    | Announces
    | TearsDown
    | Dies

  datatype Action =
    | Sender(send: SendAction)
    | Holder(use: HandleAction)
    | Keeper(work: ConnAction)
    | Net(read: ReadAction)

  function Swap(y: Sys, done: Task, next: multiset<Task>): Sys {
    y.(tasks := y.tasks - multiset{done} + next)
  }

  function Put(y: Sys): Sys {
    y.(live := false, pool := y.pool + 1, lateReset := false)
  }

  /** A recycle is decided and not yet done. */
  predicate Decided(y: Sys) {
    Recycling(y.s.gen) in y.tasks || y.s.recycleWanted || (y.s.connDone && !y.s.appClosed)
  }

  /** The application has been given the handle of this lifetime. */
  predicate Minted(y: Sys, gen: nat) {
    1 <= gen && (gen < y.s.gen || (gen == y.s.gen && y.live))
  }

  predicate SendEnabled(y: Sys, a: SendAction) {
    match a
    case HeadersDoor(gen, _) => Minted(y, gen)
    case EmitHeaders(gen, end, id) =>
      && Heading(gen, end) in y.tasks
      && (y.s.id == 0 ==> id != 0 && id !in y.idOf.Values)
    case DataDoor(gen, _) => Minted(y, gen)
    case EmitData(gen, end, _) => Sending(gen, end) in y.tasks
    case SendStops(gen, end) => Sending(gen, end) in y.tasks || Heading(gen, end) in y.tasks
    case EndsLocal(gen) => Sent(gen) in y.tasks
    case Retires(gen, id) => Retiring(gen, id) in y.tasks
  }

  predicate HandleEnabled(y: Sys, a: HandleAction) {
    match a
    case Alloc => y.pool > 0
    case AppCloses(gen) => Minted(y, gen)
    case CancelReadsId(gen) => Cancelling(gen) in y.tasks
    case RecvEnters(gen) => Minted(y, gen)
    case RecvTakes(gen) => Receiving(gen) in y.tasks && y.s.events != []
    case RecvLeaves(gen) => Receiving(gen) in y.tasks
  }

  predicate ConnEnabled(y: Sys, a: ConnAction) {
    match a
    case AllocPushed(id) => y.pool > 0 && id != 0 && id !in y.idOf.Values
    case Marks(id) => Marking(id) in y.tasks
    case Finishes(gen) => Finishing(gen) in y.tasks
    case PutsBack(gen) => Recycling(gen) in y.tasks
    case ReleasesUnassigned(gen) => Unassigned(gen) in y.tasks
    case ReleasesSlot(id) => Resetting(id) in y.tasks
    case OverflowResets(gen) => Overflowing(gen) in y.tasks
  }

  predicate ReadEnabled(y: Sys, a: ReadAction) {
    match a
    case Finds(id) => y.reader.Away? && y.registered && y.s.id == id
    case FindsForHeaders(id) => y.reader.Away? && y.registered && y.s.id == id
    case FindsForReset(id) => y.reader.Away? && y.registered && y.s.id == id
    case FindsForCredit(id) => y.reader.Away? && y.registered && y.s.id == id
    case Checks => y.reader.Found?
    case Charges(_) => y.reader.Charging?
    case Credits(_) => y.reader.Crediting?
    case Admits(_) => y.reader.Charged?
    case Delivers(_, _, _) => y.reader.Delivering?
    case Rejects => y.reader.Delivering? && y.reader.block
    case Blames => y.reader.Refusing?
    case LooksUp => y.reader.Blaming?
    case Announces => y.reader.Announcing?
    case TearsDown => y.reader.TearingDown?
    case Dies => y.reader.Away? || y.reader.Found? || y.reader.Charging? || y.reader.Delivering?
  }

  predicate Enabled(y: Sys, a: Action) {
    match a
    case Sender(b) => SendEnabled(y, b)
    case Holder(b) => HandleEnabled(y, b)
    case Keeper(b) => ConnEnabled(y, b)
    case Net(b) => ReadEnabled(y, b)
  }

  /** A send of this handle that carries, or comes before, its END_STREAM is under way. */
  predicate Ending(y: Sys, gen: nat) {
    || Heading(gen, true) in y.tasks || Heading(gen, false) in y.tasks
    || Sending(gen, true) in y.tasks || Sent(gen) in y.tasks
  }

  /** What the two ends promise: no field block is delivered that the peer sent after its
      END_STREAM, and the application runs at most one send of a handle that is a HEADERS
      send or carries END_STREAM at a time. */
  predicate Conformant(y: Sys, a: Action) {
    match a
    case Net(Delivers(_, _, _)) => y.reader.Delivering? && y.reader.block ==> !y.reader.f.late
    case Sender(HeadersDoor(gen, _)) => !Ending(y, gen)
    case Sender(DataDoor(gen, end)) => end ==> !Ending(y, gen)
    case _ => true
  }

  function RunEmitHeaders(y: Sys, gen: nat, end: bool, id: nat): Sys {
    var assigns := y.s.id == 0;
    var used := if assigns then id else y.s.id;
    Swap(y.(s := y.s.(id := used), registered := y.registered || assigns,
            idOf := if assigns then y.idOf[y.s.gen := id] else y.idOf, wire := y.wire + [(gen, used)]),
         Heading(gen, end), if end then multiset{Sent(gen)} else multiset{})
  }

  /** The lifetime and the id are read again together before each frame. */
  function RunEmitData(y: Sys, gen: nat, end: bool, last: bool): Sys {
    var mine := y.s.gen == gen && y.s.id != 0;
    var z := y.(wire := if mine then y.wire + [(gen, y.s.id)] else y.wire);
    if mine && !last then z
    else Swap(z, Sending(gen, end), if mine && end then multiset{Sent(gen)} else multiset{})
  }

  function RunMark(y: Sys, id: nat): Sys {
    var z := Swap(y, Marking(id), multiset{});
    if y.registered && y.s.id == id && MarksEnded(y.s) then
      z.(s := ReleaseSlot(y.s), registered := false, tasks := z.tasks + multiset{Finishing(y.s.gen)})
    else z
  }

  function RunFinish(y: Sys, gen: nat): Sys {
    var (t, recycle) := Rendezvous(y.s);
    Swap(y.(s := t), Finishing(gen), if recycle then multiset{Recycling(gen)} else multiset{})
  }

  /** releaseInflight by id: a no-op unless this struct is registered under it. */
  function RunRelease(y: Sys, done: Task, id: nat): Sys {
    var mine := y.registered && y.s.id == id;
    Swap(y.(s := y.s.(inflightDone := y.s.inflightDone || mine),
            registered := if mine then y.s.inflightDone else y.registered), done, multiset{})
  }

  function RunClose(y: Sys, gen: nat): Sys {
    var r := CloseOutcome(y.s, gen);
    y.(s := Close(y.s, gen),
       closedHandles := if r.Stale? then y.closedHandles else y.closedHandles + {gen},
       tasks := if r.Recycles? then y.tasks + multiset{Recycling(gen)}
                else if r.Abandons? then y.tasks + multiset{Cancelling(gen)}
                else y.tasks)
  }

  function RunCancel(y: Sys, gen: nat): Sys {
    if y.s.id == 0 then Swap(y, Cancelling(gen), multiset{Unassigned(gen)})
    else Swap(y.(wire := y.wire + [(gen, y.s.id)]), Cancelling(gen), multiset{Resetting(y.s.id)})
  }

  function RunOverflow(y: Sys, gen: nat): Sys {
    if y.s.id == 0 then Swap(y.(s := ReleaseSlot(y.s)), Overflowing(gen), multiset{})
    else RunRelease(y.(wire := y.wire + [(gen, y.s.id)]), Overflowing(gen), y.s.id)
  }

  /** The delivery itself, before the retirement that an END_STREAM calls for. A final block
      is noted with it: only the reader reads the note. */
  function Delivery(y: Sys, id: nat, end: bool, empty: bool, final: bool): Sys {
    var overflows := PushOutcome(y.s, end, empty).Overflowed?;
    y.(s := DeliverEnd(y.s, id, end, empty).(headersReceived := y.s.headersReceived || final),
       reader := if overflows then Announcing(id) else Away,
       tasks := if overflows then y.tasks + multiset{Overflowing(y.s.gen)} else y.tasks)
  }

  /** DATA is retired by the frame's id, a block by the id the struct has now. */
  function RunDeliver(y: Sys, id: nat, block: bool, end: bool, empty: bool, final: bool): Sys {
    var z := Delivery(y, id, end, empty && !block, final && block);
    if end then z.(tasks := z.tasks + multiset{Marking(if block then y.s.id else id)}) else z
  }

  /** The reset itself, refused when the struct names another stream by now. */
  function Torn(y: Sys, id: nat): Sys {
    y.(s := EndWithReset(y.s, id), reader := Away,
       lateReset := y.lateReset || (y.s.id == id && Decided(y)))
  }

  /** `rst` tells a stream error of ours, which writes RST_STREAM, from a reset or a GOAWAY
      of the peer's. */
  function RunTearDown(y: Sys, id: nat, rst: bool): Sys {
    var z := Torn(y, id);
    if rst then z.(tasks := z.tasks + multiset{Resetting(id)})
    else if y.s.id == id then z.(tasks := z.tasks + multiset{Marking(id)})
    else z
  }

  function RunAlloc(y: Sys): Sys
    requires y.pool > 0
  {
    y.(s := Allocate(y.s), live := true, pool := y.pool - 1)
  }

  function RunAllocPushed(y: Sys, id: nat): Sys
    requires y.pool > 0
  {
    y.(s := Allocate(y.s).(id := id, pushed := true), live := true, pool := y.pool - 1,
       registered := true, idOf := y.idOf[y.s.gen := id])
  }

  function RunDoor(y: Sys, gen: nat, past: Task): Sys {
    if MaySend(y.s, gen) then y.(tasks := y.tasks + multiset{past}) else y
  }

  function RunStop(y: Sys, gen: nat, end: bool): Sys {
    Swap(y, if Sending(gen, end) in y.tasks then Sending(gen, end) else Heading(gen, end), multiset{})
  }

  function RunEndLocal(y: Sys, gen: nat): Sys {
    Swap(y.(s := y.s.(localEnded := true)), Sent(gen), multiset{Retiring(gen, y.s.id)})
  }

  function RunRetire(y: Sys, gen: nat, id: nat): Sys {
    if y.s.hasWriter then Swap(y, Retiring(gen, id), multiset{Marking(id)})
    else Swap(y, Retiring(gen, id), multiset{}).(lostWriter := true)
  }

  function RunRecycle(y: Sys, gen: nat): Sys {
    var z := Swap(y.(s := RecycleStream(y.s)), Recycling(gen), multiset{});
    if y.s.recvActive > 0 then z else Put(z)
  }

  function RunUnassigned(y: Sys, gen: nat): Sys {
    Swap(y.(s := ReleaseSlot(y.s)), Unassigned(gen), multiset{})
  }

  function RunRecvEnter(y: Sys, gen: nat): Sys {
    if MayReceive(y.s, gen) then
      y.(s := y.s.(recvActive := y.s.recvActive + 1), tasks := y.tasks + multiset{Receiving(gen)})
    else y
  }

  function RunRecvTake(y: Sys, gen: nat): Sys
    requires y.s.events != []
  {
    y.(s := y.s.(events := y.s.events[1..]), received := y.received + [(gen, y.s.events[0].from)])
  }

  function RunRecvLeave(y: Sys, gen: nat): Sys {
    var z := Swap(y.(s := RecvLeave(y.s)), Receiving(gen), multiset{});
    if LastOut(y.s) then Put(z) else z
  }

  function Looked(y: Sys, id: nat): Lookup {
    Lookup(id, y.s.gen, y.s.remoteEnded)
  }

  function RunCheck(y: Sys, f: Lookup): Sys {
    y.(reader := if y.s.remoteEnded then Refusing(f) else Charging(f))
  }

  /** The window of whatever lifetime the struct is in pays. */
  function RunCharge(y: Sys, f: Lookup, overrun: bool): Sys {
    y.(charged := y.charged + [(y.s.gen, f.id)], reader := if overrun then Refusing(f) else Charged(f))
  }

  /** So does the send window, without a look at the lifetime. An overflow is an error of
      the stream the frame named. */
  function RunCredit(y: Sys, f: Lookup, overflow: bool): Sys {
    if overflow then y.(reader := Blaming(f.id))
    else y.(credited := y.credited + [(y.s.gen, f.id)], reader := Away)
  }

  function RunAdmit(y: Sys, f: Lookup, misfit: bool): Sys {
    y.(reader := if y.s.headersReceived && !misfit then Delivering(f, false) else Refusing(f))
  }

  /** A stream error names the stream by the id the struct has now. */
  function RunBlame(y: Sys, f: Lookup): Sys {
    y.(blamed := y.blamed + [(f.id, y.s.id)], reader := Blaming(y.s.id))
  }

  /** It is looked up again; RST_STREAM goes out in any case, but not for id 0. */
  function RunLookUp(y: Sys, id: nat): Sys {
    if y.registered && y.s.id == id then y.(reader := TearingDown(id, true))
    else y.(reader := Away, tasks := if id == 0 then y.tasks else y.tasks + multiset{Resetting(id)})
  }

  function RunAnnounce(y: Sys, id: nat): Sys {
    y.(s := Announce(y.s, id), reader := Away)
  }

  function RunDeath(y: Sys): Sys {
    y.(s := if y.registered then ShutDown(y.s) else y.s, reader := Gone)
  }

  function SendStep(y: Sys, a: SendAction): Sys
    requires SendEnabled(y, a)
  {
    match a
    case HeadersDoor(gen, end) => RunDoor(y, gen, Heading(gen, end))
    case EmitHeaders(gen, end, id) => RunEmitHeaders(y, gen, end, id)
    case DataDoor(gen, end) => RunDoor(y, gen, Sending(gen, end))
    case EmitData(gen, end, last) => RunEmitData(y, gen, end, last)
    case SendStops(gen, end) => RunStop(y, gen, end)
    case EndsLocal(gen) => RunEndLocal(y, gen)
    case Retires(gen, id) => RunRetire(y, gen, id)
  }

  function HandleStep(y: Sys, a: HandleAction): Sys
    requires HandleEnabled(y, a)
  {
    match a
    case Alloc => RunAlloc(y)
    case AppCloses(gen) => RunClose(y, gen)
    case CancelReadsId(gen) => RunCancel(y, gen)
    case RecvEnters(gen) => RunRecvEnter(y, gen)
    case RecvTakes(gen) => RunRecvTake(y, gen)
    case RecvLeaves(gen) => RunRecvLeave(y, gen)
  }

  function ConnStep(y: Sys, a: ConnAction): Sys
    requires ConnEnabled(y, a)
  {
    match a
    case AllocPushed(id) => RunAllocPushed(y, id)
    case Marks(id) => RunMark(y, id)
    case Finishes(gen) => RunFinish(y, gen)
    case PutsBack(gen) => RunRecycle(y, gen)
    case ReleasesUnassigned(gen) => RunUnassigned(y, gen)
    case ReleasesSlot(id) => RunRelease(y, Resetting(id), id)
    case OverflowResets(gen) => RunOverflow(y, gen)
  }

  function ReadStep(y: Sys, a: ReadAction): Sys
    requires ReadEnabled(y, a)
  {
    match a
    case Finds(id) => y.(reader := Found(Looked(y, id)))
    case FindsForHeaders(id) => y.(reader := Delivering(Looked(y, id), true))
    case FindsForReset(id) => y.(reader := TearingDown(id, false))
    case FindsForCredit(id) => y.(reader := Crediting(Looked(y, id)))
    case Checks => RunCheck(y, y.reader.f)
    case Charges(overrun) => RunCharge(y, y.reader.f, overrun)
    case Credits(overflow) => RunCredit(y, y.reader.f, overflow)
    case Admits(misfit) => RunAdmit(y, y.reader.f, misfit)
    case Delivers(end, empty, final) => RunDeliver(y, y.reader.f.id, y.reader.block, end, empty, final)
    case Rejects => y.(reader := Refusing(y.reader.f))
    case Blames => RunBlame(y, y.reader.f)
    case LooksUp => RunLookUp(y, y.reader.id)
    case Announces => RunAnnounce(y, y.reader.id)
    case TearsDown => RunTearDown(y, y.reader.id, y.reader.rst)
    case Dies => RunDeath(y)
  }

  function Step(y: Sys, a: Action): Sys
    requires Enabled(y, a)
  {
    match a
    case Sender(b) => SendStep(y, b)
    case Holder(b) => HandleStep(y, b)
    case Keeper(b) => ConnStep(y, b)
    case Net(b) => ReadStep(y, b)
  }

  function Start(capacity: nat): Sys {
    Sys(NewStream(capacity), false, false, 1, multiset{}, Away, map[], [], [], [], [], [], {}, false, false)
  }

  // --------------------------------------------------------------------- runs

  /** A run of any length; in a strict one both ends keep what they promise. */
  predicate IsRun(start: Sys, run: seq<Action>, strict: bool)
    decreases |run|, 0
  {
    run == [] ||
    (var (before, a) := (run[..|run| - 1], run[|run| - 1]);
     && IsRun(start, before, strict)
     && Enabled(After(start, before, strict), a)
     && (strict ==> Conformant(After(start, before, strict), a)))
  }

  function After(start: Sys, run: seq<Action>, strict: bool): Sys
    requires IsRun(start, run, strict)
    decreases |run|, 1
  {
    if run == [] then start
    else Step(After(start, run[..|run| - 1], strict), run[|run| - 1])
  }

  ghost predicate Reachable(y: Sys, strict: bool) {
    exists capacity: nat, run :: IsRun(Start(capacity), run, strict) && After(Start(capacity), run, strict) == y
  }

  lemma StartReachable(capacity: nat, strict: bool)
    ensures Reachable(Start(capacity), strict)
  {
    assert IsRun(Start(capacity), [], strict) && After(Start(capacity), [], strict) == Start(capacity);
  }

  lemma StepReachable(y: Sys, a: Action, strict: bool)
    requires Reachable(y, strict) && Enabled(y, a) && (strict ==> Conformant(y, a))
    ensures Reachable(Step(y, a), strict)
  {
    var capacity: nat, run :| IsRun(Start(capacity), run, strict) && After(Start(capacity), run, strict) == y;
    var next := run + [a];
    assert next[..|next| - 1] == run;
    assert IsRun(Start(capacity), next, strict) && After(Start(capacity), next, strict) == Step(y, a);
  }
}
