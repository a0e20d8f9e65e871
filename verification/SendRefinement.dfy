/** The sending half as an object takes the steps of the two-party protocol: what holds in
    every run of the protocol holds of the windows the object keeps. */
module SendRefinement {
  import opened FixedWidth
  import opened SendCredit
  import opened SendProtocol

  /** The object's windows are those of the protocol's open streams. */
  ghost predicate Shows(w: Sender, n: Net)
    reads w
  {
    && w.initial == n.initial && w.conn == n.conn.window
    && (forall id :: id in w.windows <==> IsOpen(n, id))
    && (forall id :: id in w.windows ==> w.windows[id] == n.streams[id].window)
  }

  method OpenStep(w: Sender, ghost n: Net, id: nat, ghost cell: nat)
    requires w.Valid() && Shows(w, n) && Enabled(n, Action.Open(id, cell))
    modifies w`windows
    ensures w.Valid() && Shows(w, Step(n, Action.Open(id, cell)))
  {
    w.Open(id);
  }

  method DropStep(w: Sender, ghost n: Net, id: nat)
    requires w.Valid() && Shows(w, n) && Enabled(n, CloseStream(id))
    modifies w`windows
    ensures w.Valid() && Shows(w, Step(n, CloseStream(id)))
  {
    w.Drop(id);
  }

  /** A grant is the protocol's reading of the windows and its debit, at one go; without
      one the writer parks and nothing has happened. */
  method TakeStep(w: Sender, ghost n: Net, id: nat, want: int, pad: int) returns (k: int, ghost m: Net)
    requires w.Valid() && Shows(w, n) && OwnersOk(n) && IsOpen(n, id) && n.hold.Free? && !n.dead
    requires 0 !in n.streams && 0 < want <= MAX_WINDOW && 0 <= pad <= MAX_WINDOW
    modifies w`conn, w`windows
    ensures w.Valid() && Shows(w, m)
    ensures k > 0 <==> Enabled(n, Take(id, want, pad))
    ensures m == if k > 0 then RunDebit(RunTake(n, id, want, pad)) else n
    ensures k > 0 ==> m.loans == n.loans + [Loan(id, k + pad)]
  {
    var why;
    k, why := w.AcquireOnce(id, want, pad, MayGoOn);
    m := n;
    if k > 0 {
      m := RunDebit(RunTake(n, id, want, pad));
    }
  }

  method TakeAllStep(w: Sender, ghost n: Net, id: nat, want: int, pad: int) returns (r: Credit, ghost m: Net)
    requires w.Valid() && Shows(w, n) && OwnersOk(n) && IsOpen(n, id) && n.hold.Free? && !n.dead
    requires 0 !in n.streams && 0 < want && 0 <= pad
    modifies w`conn, w`windows
    ensures w.Valid() && Shows(w, m)
    ensures r.Granted? <==> Enabled(n, TakeAll(id, want, pad))
    ensures m == if r.Granted? then RunDebit(Step(n, TakeAll(id, want, pad))) else n
  {
    r := w.TryAcquireAll(id, want, pad, MayGoOn);
    m := n;
    if r.Granted? {
      m := RunDebit(Step(n, TakeAll(id, want, pad)));
    }
  }

  /** A credit is applied, ends the connection, is ignored, or is looked up, as there. */
  method CreditStep(w: Sender, ghost n: Net, id: nat, inc: nat) returns (r: Update)
    requires w.Valid() && Shows(w, n) && inc < TWO_32 && !n.dead && n.crediting.NoCredit?
    modifies w`conn
    ensures w.Valid()
    ensures r.ConnOverflow? <==> RunCredit(n, id, inc).dead
    ensures r.Found? <==> RunCredit(n, id, inc).crediting.Landing?
    ensures !r.ConnOverflow? ==> Shows(w, RunCredit(n, id, inc))
  {
    r := w.OnWindowUpdate(id, inc, false);
  }

  /** And lands on whatever stream the struct serves then. An overflow closes the stream the
      frame named, if that is still the one. */
  method LandStep(w: Sender, ghost n: Net, id: nat, inc: nat, on: nat) returns (r: Update)
    requires w.Valid() && Shows(w, n) && inc < TWO_32 && n.crediting == Landing(id, inc) && id in n.streams
    requires on == Serves(n, n.streams[id].cell) && 0 !in n.streams
    modifies w`windows
    ensures w.Valid() && Shows(w, RunLand(n))
  {
    r := w.CreditStruct(on, inc);
    if r.StreamOverflow? && on == id {
      w.Drop(id);
    }
  }

  /** So is a change of the initial window, on every open stream alike. */
  method SettingsStep(w: Sender, ghost n: Net, value: nat) returns (r: Applied)
    requires w.Valid() && Shows(w, n) && !n.dead
    modifies w`initial, w`windows
    ensures r.FlowControlError? <==> RunSettings(n, value).dead
    ensures r.Done? ==> w.Valid() && Shows(w, RunSettings(n, value))
    ensures !r.ProtocolError?
  {
    var pairs := [Pair(InitialWindowSize, value)];
    r := w.ApplyPeerSettings(pairs);
    OneInitial(value, n.initial);
    assert w.LegalInitials(pairs) <==> value <= MAX_WINDOW by {
      assert pairs[0] == Pair(InitialWindowSize, value);
    }
    SettingsFit(n, value);
  }

  lemma OneInitial(value: nat, old0: int)
    ensures NewInitial([Pair(InitialWindowSize, value)], old0) == value
  {
  }

  lemma SettingsFit(n: Net, value: nat)
    requires !n.dead
    ensures RunSettings(n, value).dead <==>
      !(value <= MAX_WINDOW && forall id :: IsOpen(n, id) ==> n.streams[id].window + value - n.initial <= MAX_WINDOW)
  {
  }
}
