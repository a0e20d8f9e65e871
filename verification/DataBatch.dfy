/** Many requests in one write: each entry is sent without waiting, or reports why not. */
module DataBatch {
  import opened FixedWidth
  import opened FrameCodec
  import opened SendCredit
  import opened DataFrames
  import opened DataSend

  datatype Verdict = Ok | StaleStream | StreamClosed | PushedReadOnly | NoCredit | TooLarge | ConnLost(code: nat)

  /** Anything but the connection's own failure is one entry's problem. */
  predicate Fatal(v: Verdict) {
    v.ConnLost?
  }

  /** One entry as the send finds it: the verdict of its door, the stream it names, whether
      its lifetime ends while its HEADERS are encoded, and where the transport gives out. */
  datatype Entry = Entry(
    door: Verdict,
    id: nat,
    hasFields: bool,
    staleAfterHeaders: bool,
    atCredit: Standing,   // what the credit call finds of the stream
    body: seq<Byte>,
    end: bool,
    headersFail: bool,
    bodyFails: bool)

  datatype Written = Headers(id: nat, end: bool) | Data(id: nat, frame: Frame)

  function DataOf(id: nat, frames: seq<Frame>): seq<Written> {
    if frames == [] then [] else [Data(id, frames[0])] + DataOf(id, frames[1..])
  }

  /** Flow-controlled bytes in what was written. */
  function Charged(out: seq<Written>): nat {
    if out == [] then 0 else (if out[0].Data? then out[0].frame.len else 0) + Charged(out[1..])
  }

  predicate WellFormed(e: Entry, w: map<nat, int>) {
    !Fatal(e.door) && e.door != NoCredit && (e.id != 0 ==> e.id in w) && !e.atCredit.Cancelled?
  }

  function WindowOf(w: map<nat, int>, id: nat): int {
    if id in w then w[id] else 0
  }

  function HeadersOf(e: Entry): seq<Written> {
    if e.hasFields then [Headers(e.id, e.end && e.body == [])] else []
  }

  /** A credit call that does not wait has no context to be cancelled by. */
  function Refusal(s: Standing): Verdict {
    match s
    case ConnClosed => ConnLost(2)
    case Stale => StaleStream
    case _ => Verdict.StreamClosed
  }

  /** The entry's own verdict, given the windows it finds. */
  function Judge(e: Entry, stream: int, conn: int, limit: nat, pad: nat): Verdict
    requires limit > 0
  {
    if e.door != Ok then e.door
    else if e.hasFields && e.headersFail then ConnLost(0)
    else if e.staleAfterHeaders then StaleStream
    else if e.id == 0 then Verdict.StreamClosed
    else if e.body == [] then
      if e.end && !e.hasFields && e.bodyFails then ConnLost(1) else Ok
    else if !e.atCredit.MayGoOn? then Refusal(e.atCredit)
    else if !Covers(stream, conn, Cost(CutAll(e.body, limit, pad, e.end)), 0) then NoCredit
    else if e.bodyFails then ConnLost(1)
    else Ok
  }

  /** Nothing but credit stands between the entry and the wire. */
  predicate Sound(e: Entry) {
    e.door == Ok && !(e.hasFields && e.headersFail) && !e.staleAfterHeaders && e.id != 0
  }

  /** Both windows cover the body with the padding of each of its frames. */
  predicate Affords(e: Entry, stream: int, conn: int, limit: nat, pad: nat)
    requires limit > 0
  {
    var price := |e.body| + pad * ((|e.body| + limit - 1) / limit);
    price <= stream && price <= conn
  }

  /** Every verdict, both ways, on the entry and the windows. A sound entry is accepted if and
      only if its body is empty, or the stream may go on and both windows cover it, and the
      transport takes it. It lacks credit if and only if that cover alone is missing. An
      entry that is not sound has the verdict of what is wrong first. */
  lemma JudgeIsExact(e: Entry, stream: int, conn: int, limit: nat, pad: nat)
    requires limit > 0 && e.door != NoCredit
    ensures var v := Judge(e, stream, conn, limit, pad);
      var ready := e.body == [] || (e.atCredit.MayGoOn? && Affords(e, stream, conn, limit, pad));
      var writes := e.body != [] || (e.end && !e.hasFields);
      && (v == Ok <==> Sound(e) && ready && !(writes && e.bodyFails))
      && (v == NoCredit <==>
            Sound(e) && e.body != [] && e.atCredit.MayGoOn? && !Affords(e, stream, conn, limit, pad))
      && (Sound(e) && ready && writes && e.bodyFails ==> v == ConnLost(1))
      && (Sound(e) && e.body != [] && !e.atCredit.MayGoOn? ==>
            v == (match e.atCredit
                  case ConnClosed => ConnLost(2)
                  case Stale => StaleStream
                  case _ => Verdict.StreamClosed))
      && (e.door != Ok ==> v == e.door)
      && (e.door == Ok && e.hasFields && e.headersFail ==> v == ConnLost(0))
      && (e.door == Ok && !(e.hasFields && e.headersFail) && !Sound(e) ==>
            v == if e.staleAfterHeaders then StaleStream else Verdict.StreamClosed)
  {
    PaidInFull(e.body, limit, pad, e.end);
  }

  /** What a sound entry puts on the wire. */
  function Wire(e: Entry, limit: nat, pad: nat): seq<Written>
    requires limit > 0
  {
    HeadersOf(e) + BodyWire(e, limit, pad)
  }

  function BodyWire(e: Entry, limit: nat, pad: nat): seq<Written>
    requires limit > 0
  {
    if e.body != [] then DataOf(e.id, CutAll(e.body, limit, pad, e.end))
    else if e.end && !e.hasFields then [Data(e.id, Frame([], 0, true))]
    else []
  }

  /** What an entry leaves on the wire, by its verdict. */
  function WrittenBy(e: Entry, v: Verdict, limit: nat, pad: nat): seq<Written>
    requires limit > 0
  {
    if v == Ok then Wire(e, limit, pad) else if e.door != Ok then [] else HeadersOf(e)
  }

  /** The same bytes, on one stream. */
  function ChargedOn(out: seq<Written>, id: nat): nat {
    if out == [] then 0
    else (if out[0].Data? && out[0].id == id then out[0].frame.len else 0) + ChargedOn(out[1..], id)
  }

  lemma {:induction false} ChargedOnSum(a: seq<Written>, b: seq<Written>, id: nat)
    ensures ChargedOn(a + b, id) == ChargedOn(a, id) + ChargedOn(b, id)
  {
    if a == [] {
      assert a + b == b;
    } else {
      assert (a + b)[1..] == a[1..] + b;
      ChargedOnSum(a[1..], b, id);
    }
  }

  lemma {:induction false} ChargedOnOne(out: seq<Written>, own: nat, id: nat)
    requires forall k :: 0 <= k < |out| ==> out[k].id == own
    ensures ChargedOn(out, id) == if id == own then Charged(out) else 0
  {
    if out != [] {
      ChargedOnOne(out[1..], own, id);
    }
  }

  lemma {:induction false} DataOfIs(id: nat, frames: seq<Frame>)
    ensures forall k :: 0 <= k < |DataOf(id, frames)| ==> DataOf(id, frames)[k].id == id
  {
    if frames != [] {
      DataOfIs(id, frames[1..]);
    }
  }

  lemma WrittenIsOwn(e: Entry, v: Verdict, limit: nat, pad: nat, id: nat)
    requires limit > 0
    ensures var out := WrittenBy(e, v, limit, pad);
      ChargedOn(out, id) == if id == e.id then Charged(out) else 0
  {
    DataOfIs(e.id, CutAll(e.body, limit, pad, e.end));
    ChargedOnOne(WrittenBy(e, v, limit, pad), e.id, id);
  }

  lemma {:induction false} ChargedSum(a: seq<Written>, b: seq<Written>)
    ensures Charged(a + b) == Charged(a) + Charged(b)
  {
    if a == [] {
      assert a + b == b;
    } else {
      assert (a + b)[1..] == a[1..] + b;
      ChargedSum(a[1..], b);
    }
  }

  lemma {:induction false} ChargedData(id: nat, frames: seq<Frame>)
    ensures Charged(DataOf(id, frames)) == Cost(frames)
  {
    if frames != [] {
      assert DataOf(id, frames)[1..] == DataOf(id, frames[1..]);
      ChargedData(id, frames[1..]);
    }
  }

  /** The payload bytes in what was written. */
  function BodyOf(out: seq<Written>): seq<Byte> {
    if out == [] then [] else (if out[0].Data? then out[0].frame.payload else []) + BodyOf(out[1..])
  }

  predicate EndsStream(w: Written) {
    match w
    case Headers(_, end) => end
    case Data(_, frame) => frame.end
  }

  lemma {:induction false} BodyOfData(id: nat, frames: seq<Frame>)
    ensures BodyOf(DataOf(id, frames)) == Payload(frames)
    ensures |DataOf(id, frames)| == |frames|
    ensures forall k :: 0 <= k < |frames| ==> DataOf(id, frames)[k] == Data(id, frames[k])
  {
    if frames != [] {
      assert DataOf(id, frames)[1..] == DataOf(id, frames[1..]);
      BodyOfData(id, frames[1..]);
      forall k | 0 <= k < |frames| ensures DataOf(id, frames)[k] == Data(id, frames[k]) {
        assert k > 0 ==> frames[k] == frames[1..][k - 1];
      }
    }
  }

  /** An accepted entry is on the wire whole: its HEADERS first if it has fields, then DATA
      that carries its body, all on its stream. END_STREAM is on the last frame if it was
      asked for, and on no other. */
  lemma WireIsWhole(e: Entry, limit: nat, pad: nat)
    requires limit > 0
    ensures var out := Wire(e, limit, pad);
      && BodyOf(out) == e.body
      && (forall k :: 0 <= k < |out| ==> out[k].id == e.id && (out[k].Headers? <==> k == 0 && e.hasFields))
      && (e.hasFields || e.body != [] || e.end ==> out != [] && EndsStream(out[|out| - 1]) == e.end)
      && (forall k :: 0 <= k < |out| - 1 ==> !EndsStream(out[k]))
  {
    var out, data := Wire(e, limit, pad), BodyWire(e, limit, pad);
    DataIsWhole(e, limit, pad);
    if e.hasFields {
      assert out == [Headers(e.id, e.end && e.body == [])] + data && out[1..] == data;
      assert forall k :: 1 <= k < |out| ==> out[k] == data[k - 1];
    } else {
      assert out == data;
    }
  }

  lemma FramesAreWhole(id: nat, frames: seq<Frame>, limit: nat, pad: nat)
    requires WellCut(frames, limit, pad)
    ensures var out := DataOf(id, frames);
      && |out| == |frames| && BodyOf(out) == Payload(frames)
      && (forall k :: 0 <= k < |out| ==> out[k].Data? && out[k].id == id)
      && (out != [] ==> (EndsStream(out[|out| - 1]) <==> Ends(frames)))
      && (forall k :: 0 <= k < |out| - 1 ==> !EndsStream(out[k]))
  {
    BodyOfData(id, frames);
  }

  /** The same of what follows the HEADERS. */
  lemma DataIsWhole(e: Entry, limit: nat, pad: nat)
    requires limit > 0
    ensures var out := BodyWire(e, limit, pad);
      && BodyOf(out) == e.body
      && (forall k :: 0 <= k < |out| ==> out[k].Data? && out[k].id == e.id)
      && (out != [] <==> e.body != [] || (e.end && !e.hasFields))
      && (out != [] ==> EndsStream(out[|out| - 1]) == e.end)
      && (forall k :: 0 <= k < |out| - 1 ==> !EndsStream(out[k]))
  {
    if e.body != [] {
      CutAllIsFaithful(e.body, limit, pad, e.end);
      FramesAreWhole(e.id, CutAll(e.body, limit, pad, e.end), limit, pad);
    }
  }

  lemma ChargedHeaders(e: Entry)
    ensures Charged(HeadersOf(e)) == 0
  {
  }

  /** An entry that is accepted is written whole and pays exactly for its DATA. One refused
      at its door writes nothing, one without credit at most its HEADERS, and neither touches
      a window. */
  method SendEntry(w: Sender, e: Entry, maxFrame: nat, pad: nat) returns (v: Verdict, out: seq<Written>)
    requires w.Valid() && WellFormed(e, w.windows)
    requires FRAME_FLOOR <= maxFrame <= FRAME_CEIL && pad <= PAD_MAX
    modifies w`conn, w`windows
    ensures w.Valid() && w.windows.Keys == old(w.windows).Keys
    ensures v == Judge(e, WindowOf(old(w.windows), e.id), old(w.conn), Effective(maxFrame, pad), pad)
    ensures Sound(e) && !e.bodyFails ==>
      var affords := Affords(e, WindowOf(old(w.windows), e.id), old(w.conn), Effective(maxFrame, pad), pad);
      && (v == Ok <==> e.body == [] || (e.atCredit.MayGoOn? && affords))
      && (v == NoCredit <==> e.body != [] && e.atCredit.MayGoOn? && !affords)
    ensures !Fatal(v) ==> out == WrittenBy(e, v, Effective(maxFrame, pad), pad)
    ensures !Fatal(v) ==> w.conn == old(w.conn) - Charged(out)
    ensures !Fatal(v) ==> forall id :: id in w.windows ==>
      w.windows[id] == old(w.windows)[id] - (if id == e.id then Charged(out) else 0)
  {
    out := [];
    JudgeIsExact(e, WindowOf(w.windows, e.id), w.conn, Effective(maxFrame, pad), pad);
    if e.door != Ok {
      return e.door, out;
    }
    var limit := Effective(maxFrame, pad);
    if e.hasFields {
      if e.headersFail {
        return ConnLost(0), out;
      }
      out := HeadersOf(e);
    }
    ChargedHeaders(e);
    if e.staleAfterHeaders {
      return StaleStream, out;
    }
    if e.id == 0 {
      return Verdict.StreamClosed, out;
    }
    if e.body == [] {
      if !e.end || e.hasFields {
        return Ok, out;
      }
      if e.bodyFails {
        return ConnLost(1), out;
      }
      ChargedSum(out, [Data(e.id, Frame([], 0, true))]);
      return Ok, out + [Data(e.id, Frame([], 0, true))];
    }
    var cursor := new DataVec.Single(e.body);
    var credit, frames := EmitBody(w, e.id, cursor, maxFrame, pad, e.end, e.atCredit);
    if credit.Denied? {
      return Refusal(credit.why), out;
    }
    if credit.Short? {
      return NoCredit, out;
    }
    if e.bodyFails {
      return ConnLost(1), out;
    }
    ChargedSum(out, DataOf(e.id, frames));
    ChargedData(e.id, frames);
    return Ok, out + DataOf(e.id, frames);
  }

  /** What the first entries leave on the wire. */
  function BatchWire(batch: seq<Entry>, errs: seq<Verdict>, limit: nat, pad: nat): seq<Written>
    requires limit > 0 && |errs| == |batch|
  {
    if batch == [] then []
    else
      var n := |batch| - 1;
      BatchWire(batch[..n], errs[..n], limit, pad) + WrittenBy(batch[n], errs[n], limit, pad)
  }

  /** The verdict an entry deserves after those before it were paid for. */
  function Deserved(batch: seq<Entry>, errs: seq<Verdict>, i: nat, windows: map<nat, int>, conn: int,
                    limit: nat, pad: nat): Verdict
    requires limit > 0 && i < |batch| && i <= |errs|
  {
    var before := BatchWire(batch[..i], errs[..i], limit, pad);
    var id := batch[i].id;
    Judge(batch[i], WindowOf(windows, id) - ChargedOn(before, id), conn - Charged(before), limit, pad)
  }

  /** No window has moved but by what is on the wire. */
  predicate PaidFor(now: map<nat, int>, start: map<nat, int>, out: seq<Written>) {
    && now.Keys == start.Keys
    && forall id :: id in now ==> now[id] == start[id] - ChargedOn(out, id)
  }

  lemma PaidForMore(start: map<nat, int>, before: map<nat, int>, after: map<nat, int>, out: seq<Written>,
                    e: Entry, v: Verdict, limit: nat, pad: nat)
    requires limit > 0 && PaidFor(before, start, out) && after.Keys == before.Keys
    requires forall id :: id in after ==>
      after[id] == before[id] - (if id == e.id then Charged(WrittenBy(e, v, limit, pad)) else 0)
    ensures PaidFor(after, start, out + WrittenBy(e, v, limit, pad))
  {
    var more := WrittenBy(e, v, limit, pad);
    forall id | id in after ensures after[id] == start[id] - ChargedOn(out + more, id) {
      ChargedOnSum(out, more, id);
      WrittenIsOwn(e, v, limit, pad, id);
    }
  }

  predicate Judged(batch: seq<Entry>, errs: seq<Verdict>, windows: map<nat, int>, conn: int, limit: nat, pad: nat)
    requires limit > 0
  {
    && |errs| <= |batch|
    && forall i :: 0 <= i < |errs| ==> errs[i] == Deserved(batch, errs[..i], i, windows, conn, limit, pad)
  }

  lemma JudgedMore(batch: seq<Entry>, errs: seq<Verdict>, v: Verdict, windows: map<nat, int>, conn: int,
                   limit: nat, pad: nat)
    requires limit > 0 && |errs| < |batch| && Judged(batch, errs, windows, conn, limit, pad)
    requires v == Deserved(batch, errs, |errs|, windows, conn, limit, pad)
    ensures Judged(batch, errs + [v], windows, conn, limit, pad)
  {
    var next := errs + [v];
    forall i | 0 <= i < |next| ensures next[i] == Deserved(batch, next[..i], i, windows, conn, limit, pad) {
      assert next[..i] == errs[..i];
      if i == |errs| {
        assert next[..i] == errs;
      }
    }
  }

  /** So far nothing has failed, and the windows have paid for exactly what is out. */
  predicate Settled(batch: seq<Entry>, errs: seq<Verdict>, out: seq<Written>, windows: map<nat, int>, conn: int,
                    limit: nat, pad: nat, now: map<nat, int>, connNow: int)
    requires limit > 0
  {
    && Judged(batch, errs, windows, conn, limit, pad)
    && (forall i :: 0 <= i < |errs| ==> !Fatal(errs[i]))
    && out == BatchWire(batch[..|errs|], errs, limit, pad)
    && connNow == conn - Charged(out) && PaidFor(now, windows, out)
  }

  lemma DeservedNow(batch: seq<Entry>, errs: seq<Verdict>, out: seq<Written>, windows: map<nat, int>, conn: int,
                    limit: nat, pad: nat, now: map<nat, int>, connNow: int)
    requires limit > 0 && |errs| < |batch| && WellFormed(batch[|errs|], windows)
    requires Settled(batch, errs, out, windows, conn, limit, pad, now, connNow)
    ensures Deserved(batch, errs, |errs|, windows, conn, limit, pad) ==
            Judge(batch[|errs|], WindowOf(now, batch[|errs|].id), connNow, limit, pad)
  {
    assert errs[..|errs|] == errs;
  }

  lemma SettledMore(batch: seq<Entry>, errs: seq<Verdict>, out: seq<Written>, windows: map<nat, int>, conn: int,
                    limit: nat, pad: nat, now: map<nat, int>, connNow: int, v: Verdict,
                    after: map<nat, int>, connAfter: int)
    requires limit > 0 && |errs| < |batch| && !Fatal(v)
    requires Settled(batch, errs, out, windows, conn, limit, pad, now, connNow)
    requires v == Deserved(batch, errs, |errs|, windows, conn, limit, pad)
    requires after.Keys == now.Keys
    requires var more := Charged(WrittenBy(batch[|errs|], v, limit, pad));
      && connAfter == connNow - more
      && forall id :: id in after ==> after[id] == now[id] - (if id == batch[|errs|].id then more else 0)
    ensures Settled(batch, errs + [v], out + WrittenBy(batch[|errs|], v, limit, pad), windows, conn, limit, pad,
                    after, connAfter)
  {
    var n, e := |errs|, batch[|errs|];
    var next, more := errs + [v], WrittenBy(e, v, limit, pad);
    JudgedMore(batch, errs, v, windows, conn, limit, pad);
    PaidForMore(windows, now, after, out, e, v, limit, pad);
    ChargedSum(out, more);
    assert batch[..n + 1][..n] == batch[..n] && next[..n] == errs;
  }

  /** The entries up to the first fatal one are each judged and sent in turn. */
  method SendEach(w: Sender, batch: seq<Entry>, maxFrame: nat, pad: nat)
    returns (errs: seq<Verdict>, out: seq<Written>)
    requires w.Valid() && FRAME_FLOOR <= maxFrame <= FRAME_CEIL && pad <= PAD_MAX
    requires forall i :: 0 <= i < |batch| ==> WellFormed(batch[i], w.windows)
    modifies w`conn, w`windows
    ensures w.Valid() && Judged(batch, errs, old(w.windows), old(w.conn), Effective(maxFrame, pad), pad)
    ensures forall i :: 0 <= i < |errs| - 1 ==> !Fatal(errs[i])
    ensures |errs| < |batch| ==> errs != [] && Fatal(errs[|errs| - 1])
    ensures errs == [] || !Fatal(errs[|errs| - 1]) ==>
      Settled(batch, errs, out, old(w.windows), old(w.conn), Effective(maxFrame, pad), pad, w.windows, w.conn)
  {
    errs, out := [], [];
    ghost var limit := Effective(maxFrame, pad);
    while |errs| < |batch|
      invariant w.Valid()
      invariant Settled(batch, errs, out, old(w.windows), old(w.conn), limit, pad, w.windows, w.conn)
      decreases |batch| - |errs|
    {
      ghost var now, connNow := w.windows, w.conn;
      DeservedNow(batch, errs, out, old(w.windows), old(w.conn), limit, pad, now, connNow);
      var v, more := SendEntry(w, batch[|errs|], maxFrame, pad);
      JudgedMore(batch, errs, v, old(w.windows), old(w.conn), limit, pad);
      if Fatal(v) {
        return errs + [v], out;
      }
      SettledMore(batch, errs, out, old(w.windows), old(w.conn), limit, pad, now, connNow, v, w.windows, w.conn);
      errs, out := errs + [v], out + more;
    }
  }

  method FillRest(own: seq<Verdict>, n: nat, fatal: Verdict) returns (errs: seq<Verdict>)
    requires |own| <= n
    ensures |errs| == n && errs[..|own|] == own
    ensures forall i :: |own| <= i < n ==> errs[i] == fatal
  {
    errs := own;
    while |errs| < n
      invariant |own| <= |errs| <= n && errs[..|own|] == own
      invariant forall i :: |own| <= i < |errs| ==> errs[i] == fatal
      decreases n - |errs|
    {
      errs := errs + [fatal];
    }
  }

  /** The streams whose END_STREAM went out. */
  method Retire(batch: seq<Entry>, errs: seq<Verdict>) returns (retired: set<nat>)
    requires |errs| == |batch|
    ensures forall i: nat :: i in retired <==> i < |batch| && errs[i] == Ok && batch[i].end
  {
    retired := {};
    for n := 0 to |batch|
      invariant forall i: nat :: i in retired <==> i < n && errs[i] == Ok && batch[i].end
    {
      if errs[n] == Ok && batch[n].end {
        retired := retired + {n};
      }
    }
  }

  predicate NoneFatal(errs: seq<Verdict>) {
    forall i :: 0 <= i < |errs| ==> !Fatal(errs[i])
  }

  /** Every entry up to the first fatal one has the verdict it deserves, and every entry
      after it carries that failure, so that a caller can resubmit exactly those. */
  predicate Reported(batch: seq<Entry>, errs: seq<Verdict>, k: nat, windows: map<nat, int>, conn: int,
                     limit: nat, pad: nat)
    requires limit > 0
  {
    && |errs| == |batch| && k <= |errs|
    && Judged(batch, errs[..k], windows, conn, limit, pad)
    && (forall i :: 0 <= i < k - 1 ==> !Fatal(errs[i]))
    && (forall i :: k <= i < |errs| ==> k > 0 && Fatal(errs[k - 1]) && errs[i] == errs[k - 1])
  }

  method SendBatch(w: Sender, batch: seq<Entry>, maxFrame: nat, pad: nat, flushFails: bool)
    returns (errs: seq<Verdict>, out: seq<Written>, retired: set<nat>, fatal: Verdict)
    requires w.Valid() && FRAME_FLOOR <= maxFrame <= FRAME_CEIL && pad <= PAD_MAX
    requires forall i :: 0 <= i < |batch| ==> WellFormed(batch[i], w.windows)
    modifies w`conn, w`windows
    ensures exists k :: Reported(batch, errs, k, old(w.windows), old(w.conn), Effective(maxFrame, pad), pad)
    ensures NoneFatal(errs) ==>
      Settled(batch, errs, out, old(w.windows), old(w.conn), Effective(maxFrame, pad), pad, w.windows, w.conn)
    ensures |errs| == |batch| && forall i: nat :: i in retired <==> i < |batch| && errs[i] == Ok && batch[i].end
    ensures fatal == Ok <==> !flushFails && NoneFatal(errs)
  {
    var own;
    own, out := SendEach(w, batch, maxFrame, pad);
    fatal := Ok;
    if own != [] && Fatal(own[|own| - 1]) {
      fatal := own[|own| - 1];
    }
    errs := FillRest(own, |batch|, fatal);
    assert errs[..|own|] == own && (|own| == |batch| ==> errs == own);
    assert forall i :: 0 <= i < |own| ==> errs[i] == own[i];
    assert Reported(batch, errs, |own|, old(w.windows), old(w.conn), Effective(maxFrame, pad), pad);
    if fatal == Ok && flushFails {
      fatal := ConnLost(3);
    }
    retired := Retire(batch, errs);
  }
}
