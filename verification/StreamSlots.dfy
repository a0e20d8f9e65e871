/** All the stream structs of one connection, with the two counters that bound them: our own
    requests against the peer's limit, and pushed streams against ours. */
module StreamSlots {
  import opened StreamLifecycle
  import opened StreamRuns
  import opened StreamInvariant
  import opened StreamFrames

  datatype Conn = Conn(
    structs: seq<Sys>,
    inflight: nat,
    pushInflight: nat,
    nextId: nat,
    lastPromised: nat)

  /** `limit` is what NewStream or the promise is measured against at that moment. */
  datatype Event =
    | Built(capacity: nat)                         // a struct the pool did not have
    | Moved(k: nat, action: Action, limit: nat)

  /** The slot a step hands back, and the counter its code charges it to. */
  datatype Freed = Nothing | Own | Pushed

  function ByOrigin(s: Stream): Freed {
    if s.inflightDone then Nothing else if s.pushed then Pushed else Own
  }

  function Frees(y: Sys, a: Action): Freed {
    match a
    case Keeper(Marks(id)) =>
      if y.registered && y.s.id == id && MarksEnded(y.s) then ByOrigin(y.s) else Nothing
    case Keeper(ReleasesSlot(id)) =>
      if y.registered && y.s.id == id then ByOrigin(y.s) else Nothing
    case Keeper(ReleasesUnassigned(_)) => if y.s.inflightDone then Nothing else Own
    case Keeper(OverflowResets(_)) =>
      if y.s.id == 0 then (if y.s.inflightDone then Nothing else Own)
      else if y.registered then ByOrigin(y.s) else Nothing
    case _ => Nothing
  }

  /** releaseSlotLocked and its siblings refuse to go below zero. */
  function Lowered(n: nat): nat {
    if n > 0 then n - 1 else n
  }

  predicate Assigns(y: Sys, a: Action) {
    match a
    case Sender(EmitHeaders(_, _, _)) => y.s.id == 0
    case _ => false
  }

  predicate Allowed(c: Conn, e: Event) {
    match e
    case Built(_) => true
    case Moved(k, a, limit) =>
      && k < |c.structs| && Enabled(c.structs[k], a) && Conformant(c.structs[k], a)
      && (Assigns(c.structs[k], a) ==> a.send.id == c.nextId)
      && (a == Holder(Alloc) ==> c.inflight < limit)
      && (a.Keeper? && a.work.AllocPushed? ==>
            c.pushInflight < limit && a.work.id % 2 == 0 && a.work.id > c.lastPromised)
  }

  function Apply(c: Conn, e: Event): Conn
    requires Allowed(c, e)
  {
    match e
    case Built(capacity) => c.(structs := c.structs + [Start(capacity)])
    case Moved(k, a, _) =>
      var y := c.structs[k];
      var d := c.(structs := c.structs[k := Step(y, a)]);
      if a == Holder(Alloc) then d.(inflight := c.inflight + 1)
      else if a.Keeper? && a.work.AllocPushed? then
        d.(pushInflight := c.pushInflight + 1, lastPromised := a.work.id)
      else if Assigns(y, a) then d.(nextId := c.nextId + 2)
      else match Frees(y, a)
        case Own => d.(inflight := Lowered(c.inflight))
        case Pushed => d.(pushInflight := Lowered(c.pushInflight))
        case Nothing => d
  }

  const FRESH := Conn([], 0, 0, 1, 0)

  predicate IsRun(events: seq<Event>)
    decreases |events|, 0
  {
    events == [] ||
    (IsRun(events[..|events| - 1]) && Allowed(After(events[..|events| - 1]), events[|events| - 1]))
  }

  function After(events: seq<Event>): Conn
    requires IsRun(events)
    decreases |events|, 1
  {
    if events == [] then FRESH else Apply(After(events[..|events| - 1]), events[|events| - 1])
  }

  // ---------------------------------------------------------------- counting

  /** This struct is a request, or a pushed stream, that still has its slot. */
  function Slot(y: Sys, pushed: bool): nat {
    Bit(y.live && y.s.pushed == pushed && !y.s.inflightDone)
  }

  function Slots(structs: seq<Sys>, pushed: bool): nat {
    if structs == [] then 0
    else Slots(structs[..|structs| - 1], pushed) + Slot(structs[|structs| - 1], pushed)
  }

  lemma {:induction false} SlotsUpdate(structs: seq<Sys>, k: nat, z: Sys, pushed: bool)
    requires k < |structs|
    ensures Slots(structs[k := z], pushed) == Slots(structs, pushed) - Slot(structs[k], pushed) + Slot(z, pushed)
    ensures Slot(structs[k], pushed) <= Slots(structs, pushed)
  {
    var n := |structs| - 1;
    if k == n {
      assert structs[k := z][..n] == structs[..n];
    } else {
      assert structs[k := z][..n] == structs[..n][k := z];
      SlotsUpdate(structs[..n], k, z, pushed);
    }
  }

  // ------------------------------------------------ one struct's contribution

  function Delta(y: Sys, a: Action, pushed: bool): int {
    if a == Holder(Alloc) && !pushed then 1
    else if a.Keeper? && a.work.AllocPushed? && pushed then 1
    else if Frees(y, a) == (if pushed then Pushed else Own) then -1
    else 0
  }

  lemma SendSlot(y: Sys, a: SendAction, pushed: bool)
    requires SendEnabled(y, a)
    ensures Slot(SendStep(y, a), pushed) == Slot(y, pushed)
  {
  }

  lemma HandleSlot(y: Sys, a: HandleAction, pushed: bool)
    requires Inv(y) && HandleEnabled(y, a)
    ensures Slot(HandleStep(y, a), pushed) == Slot(y, pushed) + Delta(y, Holder(a), pushed)
  {
    if a.RecvLeaves? && LastOut(y.s) {
      assert Tokens(y) == 1;
    }
  }

  lemma PutSlot(y: Sys, gen: nat, pushed: bool)
    requires Inv(y) && Recycling(gen) in y.tasks
    ensures Slot(RunRecycle(y, gen), pushed) == Slot(y, pushed)
  {
    assert TaskOk(y, Recycling(gen));
    assert Tokens(y) == 1;
  }

  lemma MarkSlot(y: Sys, id: nat, pushed: bool)
    requires Inv(y)
    ensures Slot(RunMark(y, id), pushed) == Slot(y, pushed) + Delta(y, Keeper(Marks(id)), pushed)
  {
  }

  lemma ReleaseIdSlot(y: Sys, done: Task, id: nat, pushed: bool)
    requires Inv(y)
    ensures Slot(RunRelease(y, done, id), pushed) == Slot(y, pushed) + Delta(y, Keeper(ReleasesSlot(id)), pushed)
  {
  }

  /** A stream without an id is never a pushed one, so it is charged to the right counter. */
  lemma UnassignedSlot(y: Sys, gen: nat, pushed: bool)
    requires Inv(y) && Unassigned(gen) in y.tasks
    ensures Slot(RunUnassigned(y, gen), pushed) == Slot(y, pushed) + Delta(y, Keeper(ReleasesUnassigned(gen)), pushed)
  {
    assert TaskOk(y, Unassigned(gen));
  }

  lemma OverflowSlot(y: Sys, gen: nat, pushed: bool)
    requires Inv(y) && Overflowing(gen) in y.tasks
    ensures Slot(RunOverflow(y, gen), pushed) == Slot(y, pushed) + Delta(y, Keeper(OverflowResets(gen)), pushed)
  {
    assert TaskOk(y, Overflowing(gen));
  }

  lemma ConnSlot(y: Sys, a: ConnAction, pushed: bool)
    requires Inv(y) && ConnEnabled(y, a)
    ensures Slot(ConnStep(y, a), pushed) == Slot(y, pushed) + Delta(y, Keeper(a), pushed)
  {
    match a
    case AllocPushed(id) =>
    case Marks(id) => MarkSlot(y, id, pushed);
    case Finishes(gen) =>
    case PutsBack(gen) => PutSlot(y, gen, pushed);
    case ReleasesUnassigned(gen) => UnassignedSlot(y, gen, pushed);
    case ReleasesSlot(id) => ReleaseIdSlot(y, Resetting(id), id, pushed);
    case OverflowResets(gen) => OverflowSlot(y, gen, pushed);
  }

  lemma DeliverySlot(y: Sys, id: nat, block: bool, end: bool, empty: bool, final: bool, pushed: bool)
    ensures Slot(RunDeliver(y, id, block, end, empty, final), pushed) == Slot(y, pushed)
  {
  }

  lemma TearDownSlot(y: Sys, id: nat, rst: bool, pushed: bool)
    ensures Slot(RunTearDown(y, id, rst), pushed) == Slot(y, pushed)
  {
  }

  lemma ReadSlot(y: Sys, a: ReadAction, pushed: bool)
    requires ReadEnabled(y, a)
    ensures Slot(ReadStep(y, a), pushed) == Slot(y, pushed)
  {
    match a
    case Delivers(end, empty, final) =>
      DeliverySlot(y, y.reader.f.id, y.reader.block, end, empty, final, pushed);
    case TearsDown => TearDownSlot(y, y.reader.id, y.reader.rst, pushed);
    case _ =>
  }

  lemma StepSlot(y: Sys, a: Action, pushed: bool)
    requires Inv(y) && Enabled(y, a)
    ensures Slot(Step(y, a), pushed) == Slot(y, pushed) + Delta(y, a, pushed)
  {
    match a
    case Sender(b) => SendSlot(y, b, pushed);
    case Holder(b) => HandleSlot(y, b, pushed);
    case Keeper(b) => ConnSlot(y, b, pushed);
    case Net(b) => ReadSlot(y, b, pushed);
  }

  // ------------------------------------------------------------ the connection

  predicate Issued(c: Conn, id: nat) {
    id != 0 && (if id % 2 == 1 then id < c.nextId else id <= c.lastPromised)
  }

  predicate AllIssued(c: Conn, y: Sys) {
    forall id :: id in y.idOf.Values ==> Issued(c, id)
  }

  predicate Apart(y: Sys, z: Sys) {
    y.idOf.Values !! z.idOf.Values
  }

  predicate IdsSeparate(c: Conn) {
    && c.nextId % 2 == 1
    && (forall k :: 0 <= k < |c.structs| ==> AllIssued(c, c.structs[k]))
    && (forall j, k :: 0 <= j < k < |c.structs| ==> Apart(c.structs[j], c.structs[k]))
  }

  predicate Counted(c: Conn) {
    && c.inflight == Slots(c.structs, false)
    && c.pushInflight == Slots(c.structs, true)
  }

  predicate ConnInv(c: Conn) {
    && (forall k :: 0 <= k < |c.structs| ==> Inv(c.structs[k]))
    && IdsSeparate(c)
    && Counted(c)
  }

  lemma CountKept(c: Conn, e: Event)
    requires ConnInv(c) && Allowed(c, e)
    ensures Counted(Apply(c, e))
  {
    var d := Apply(c, e);
    match e
    case Built(capacity) =>
      assert d.structs[..|d.structs| - 1] == c.structs;
    case Moved(k, a, _) =>
      CountMoved(c, e, false);
      CountMoved(c, e, true);
  }

  lemma CountMoved(c: Conn, e: Event, pushed: bool)
    requires e.Moved? && Allowed(c, e) && Inv(c.structs[e.k])
    requires (if pushed then c.pushInflight else c.inflight) == Slots(c.structs, pushed)
    ensures var d := Apply(c, e); (if pushed then d.pushInflight else d.inflight) == Slots(d.structs, pushed)
  {
    var y, z := c.structs[e.k], Step(c.structs[e.k], e.action);
    StepSlot(y, e.action, pushed);
    SlotsUpdate(c.structs, e.k, z, pushed);
    Stepped(c, e);
    CounterMoves(c, e, pushed);
  }

  lemma CounterMoves(c: Conn, e: Event, pushed: bool)
    requires e.Moved? && Allowed(c, e)
    ensures var d, n := Apply(c, e), Delta(c.structs[e.k], e.action, pushed);
      var before := if pushed then c.pushInflight else c.inflight;
      (if pushed then d.pushInflight else d.inflight) == if n < 0 then Lowered(before) else before + n
  {
  }

  /** The id a step gives its struct, or 0. */
  function NewId(y: Sys, a: Action): nat {
    if Assigns(y, a) then a.send.id
    else if a.Keeper? && a.work.AllocPushed? then a.work.id
    else 0
  }

  lemma StepIds(y: Sys, a: Action)
    requires Enabled(y, a)
    ensures Step(y, a).idOf.Values <= y.idOf.Values + (if NewId(y, a) == 0 then {} else {NewId(y, a)})
  {
    match a
    case Sender(b) => SendFrame(y, b);
    case Holder(b) => HandleFrame(y, b);
    case Keeper(b) => ConnFrame(y, b);
    case Net(b) => ReadFrame(y, b);
  }

  /** A fresh id stays clear of every struct. */
  lemma Disjoined(c: Conn, d: Conn, k: nat, id: nat)
    requires IdsSeparate(c) && k < |c.structs| == |d.structs| && d.structs == c.structs[k := d.structs[k]]
    requires d.structs[k].idOf.Values <= c.structs[k].idOf.Values + (if id == 0 then {} else {id})
    requires d.nextId % 2 == 1 && c.nextId <= d.nextId && c.lastPromised <= d.lastPromised
    requires id != 0 ==> !Issued(c, id) && Issued(d, id)
    ensures IdsSeparate(d)
  {
    forall j | 0 <= j < |d.structs| ensures AllIssued(d, d.structs[j]) {
      assert AllIssued(c, c.structs[j]);
    }
    forall i, j | 0 <= i < j < |d.structs| ensures Apart(d.structs[i], d.structs[j]) {
      assert Apart(c.structs[i], c.structs[j]);
      assert AllIssued(c, c.structs[i]) && AllIssued(c, c.structs[j]);
    }
  }

  lemma NewIdIsFresh(c: Conn, e: Event)
    requires IdsSeparate(c) && e.Moved? && Allowed(c, e)
    ensures var id, d := NewId(c.structs[e.k], e.action), Apply(c, e);
      && d.nextId % 2 == 1 && c.nextId <= d.nextId && c.lastPromised <= d.lastPromised
      && d.structs == c.structs[e.k := Step(c.structs[e.k], e.action)]
      && (id != 0 ==> !Issued(c, id) && Issued(d, id))
  {
  }

  lemma BuiltIds(c: Conn, capacity: nat)
    requires IdsSeparate(c)
    ensures IdsSeparate(c.(structs := c.structs + [Start(capacity)]))
  {
    var d := c.(structs := c.structs + [Start(capacity)]);
    assert Start(capacity).idOf.Values == {};
    forall j | 0 <= j < |d.structs| ensures AllIssued(d, d.structs[j]) {
      assert j < |c.structs| ==> AllIssued(c, c.structs[j]);
    }
  }

  lemma IdsKept(c: Conn, e: Event)
    requires IdsSeparate(c) && Allowed(c, e)
    ensures IdsSeparate(Apply(c, e))
  {
    match e
    case Built(capacity) => BuiltIds(c, capacity);
    case Moved(k, a, _) =>
      NewIdIsFresh(c, e);
      StepIds(c.structs[k], a);
      Disjoined(c, Apply(c, e), k, NewId(c.structs[k], a));
  }

  lemma Stepped(c: Conn, e: Event)
    requires e.Moved? && Allowed(c, e)
    ensures Apply(c, e).structs == c.structs[e.k := Step(c.structs[e.k], e.action)]
  {
  }

  lemma StructsKept(c: Conn, e: Event)
    requires (forall k :: 0 <= k < |c.structs| ==> Inv(c.structs[k])) && Allowed(c, e)
    ensures forall k :: 0 <= k < |Apply(c, e).structs| ==> Inv(Apply(c, e).structs[k])
  {
    var d := Apply(c, e);
    if e.Built? {
      RunKeeps(e.capacity, []);
    } else {
      StepKeeps(c.structs[e.k], e.action);
      Stepped(c, e);
    }
  }

  lemma {:induction false} RunInv(events: seq<Event>)
    requires IsRun(events)
    ensures ConnInv(After(events))
    decreases |events|
  {
    if events != [] {
      var c, e := After(events[..|events| - 1]), events[|events| - 1];
      RunInv(events[..|events| - 1]);
      CountKept(c, e);
      IdsKept(c, e);
      StructsKept(c, e);
    }
  }

  // ------------------------------------------------------------- main results

  /** In every run the counters are exact: as many as there are requests, or pushed
      streams, that have not given their slot back. So NewStream is refused exactly when
      that many are open, and the guards against going below zero never act. */
  lemma SlotsAreExact(events: seq<Event>, e: Event)
    requires IsRun(events) && Allowed(After(events), e)
    ensures After(events).inflight == Slots(After(events).structs, false)
    ensures After(events).pushInflight == Slots(After(events).structs, true)
    ensures e.Moved? && Frees(After(events).structs[e.k], e.action).Own? ==> After(events).inflight > 0
    ensures e.Moved? && Frees(After(events).structs[e.k], e.action).Pushed? ==> After(events).pushInflight > 0
  {
    RunInv(events);
    var c := After(events);
    if e.Moved? {
      var y := c.structs[e.k];
      StepSlot(y, e.action, false);
      StepSlot(y, e.action, true);
      SlotsUpdate(c.structs, e.k, y, false);
      SlotsUpdate(c.structs, e.k, y, true);
    }
  }

  predicate OneName(c: Conn, j: nat, k: nat)
    requires j < |c.structs| && k < |c.structs|
  {
    forall g, h :: g in c.structs[j].idOf && h in c.structs[k].idOf ==>
      (c.structs[j].idOf[g] == c.structs[k].idOf[h] <==> (j == k && g == h))
  }

  /** In every run each stream id names one lifetime of one struct, and the next id to be
      given out names none yet. */
  lemma IdsNameOneRequest(events: seq<Event>, j: nat, k: nat)
    requires IsRun(events) && j < |After(events).structs| && k < |After(events).structs|
    ensures OneName(After(events), j, k)
    ensures After(events).nextId !in After(events).structs[k].idOf.Values
  {
    RunInv(events);
    var c := After(events);
    assert AllIssued(c, c.structs[k]);
    NamesDiffer(c, j, k);
  }

  lemma NamesDiffer(c: Conn, j: nat, k: nat)
    requires ConnInv(c) && j < |c.structs| && k < |c.structs|
    ensures OneName(c, j, k)
  {
    if j == k {
      NamesDifferWithin(c.structs[k]);
    } else {
      assert if j < k then Apart(c.structs[j], c.structs[k]) else Apart(c.structs[k], c.structs[j]);
      forall g, h | g in c.structs[j].idOf && h in c.structs[k].idOf
        ensures c.structs[j].idOf[g] != c.structs[k].idOf[h]
      {
        assert c.structs[j].idOf[g] in c.structs[j].idOf.Values;
        assert c.structs[k].idOf[h] in c.structs[k].idOf.Values;
      }
    }
  }

  lemma NamesDifferWithin(y: Sys)
    requires Inv(y)
    ensures forall g, h :: g in y.idOf && h in y.idOf ==> (y.idOf[g] == y.idOf[h] <==> g == h)
  {
    assert Assigned(y.idOf, y.s.gen, y.s.id);
  }
}
