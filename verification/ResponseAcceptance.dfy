/** Which responses come through whole: a response is delivered frame by frame, without a
    reset, exactly when its field blocks and DATA make up a well-formed response. */
module ResponseAcceptance {
  import opened Basics
  import opened ResponseFields
  import opened ResponseEvents

  /** What arrives on a stream: a decoded field block, or DATA. */
  datatype Arrival = Head(fields: seq<Field>, end: bool) | Data(len: nat, end: bool)

  ghost function FrameOf(a: Arrival, trailer: bool): Frame {
    match a
    case Head(fields, end) => BlockOf(fields, trailer, end)
    case Data(len, end) => Body(len, end)
  }

  /** The handler over a sequence of arrivals, up to the first END_STREAM or error. */
  ghost function Handle(s: State, arrivals: seq<Arrival>): (State, seq<Event>)
    decreases |arrivals|
  {
    if arrivals == [] || s.ended || s.failed then (s, [])
    else
      var (t, r) := Take(s, FrameOf(arrivals[0], s.headersReceived));
      if r.Reset? then (t, [])
      else
        var (u, events) := Handle(t, arrivals[1..]);
        (u, [r.event] + events)
  }

  // ------------------------------------------------------- well-formed responses

  /** A status of three characters that begins with 1. */
  predicate OneXX(v: string) {
    |v| == 3 && v[0] == '1'
  }

  /** A status, first and once, and then regular fields. */
  predicate ResponseHead(fields: seq<Field>) {
    && fields != [] && fields[0].name == ":status" && ValidValue(fields[0].value)
    && forall i :: 1 <= i < |fields| ==> Regular(fields[i])
  }

  predicate InterimHead(a: Arrival) {
    a.Head? && !a.end && ResponseHead(a.fields) && OneXX(a.fields[0].value)
  }

  predicate FinalHead(a: Arrival) {
    a.Head? && ResponseHead(a.fields) && !OneXX(a.fields[0].value)
  }

  predicate TrailerHead(a: Arrival) {
    a.Head? && a.end && forall i :: 0 <= i < |a.fields| ==> Regular(a.fields[i])
  }

  /** A declared length is of no account for a HEAD request and for 204 and 304. */
  predicate Exempt(v: string, isHead: bool) {
    isHead || Number(v) == Some(204) || Number(v) == Some(304)
  }

  /** Every Content-Length of the block is the same number, and that is `n`; unless there is
      none, or the response has no content by definition. */
  predicate LengthHolds(fields: seq<Field>, isHead: bool, n: nat)
    requires fields != []
  {
    Exempt(fields[0].value, isHead) ||
    forall i :: 0 <= i < |fields| && fields[i].name == "content-length" ==> Number(fields[i].value) == Some(n)
  }

  function DataBytes(arrivals: seq<Arrival>): nat {
    if arrivals == [] then 0 else (if arrivals[0].Data? then arrivals[0].len else 0) + DataBytes(arrivals[1..])
  }

  /** END_STREAM is on nothing but the last. */
  predicate EndsLast(arrivals: seq<Arrival>) {
    forall i :: 0 <= i < |arrivals| && arrivals[i].end ==> i == |arrivals| - 1
  }

  predicate Complete(arrivals: seq<Arrival>) {
    arrivals != [] && arrivals[|arrivals| - 1].end
  }

  /** What may follow the final block: DATA, and a trailer section that ends the stream. */
  predicate Rest(arrivals: seq<Arrival>) {
    EndsLast(arrivals) && forall i :: 0 <= i < |arrivals| ==> arrivals[i].Data? || TrailerHead(arrivals[i])
  }

  /** The response, or as much of it as has come, when `seen` interim blocks came before: `k`
      more of them, the final one, the rest; and once it is complete, the declared length
      holds of its DATA. */
  predicate Fits(arrivals: seq<Arrival>, isHead: bool, seen: nat, k: nat) {
    && seen + k <= MAX_INTERIM && k <= |arrivals|
    && (forall i :: 0 <= i < k ==> InterimHead(arrivals[i]))
    && (k < |arrivals| ==>
          && FinalHead(arrivals[k])
          && (arrivals[k].end ==> k == |arrivals| - 1) && Rest(arrivals[k + 1..])
          && (Complete(arrivals) ==> LengthHolds(arrivals[k].fields, isHead, DataBytes(arrivals[k + 1..]))))
  }

  /** The event of an arrival of such a response. */
  function EventOf(arrivals: seq<Arrival>, k: nat, i: nat): Event
    requires i < |arrivals|
  {
    if i < k then Interim
    else if i == k then Final(arrivals[i].end)
    else match arrivals[i]
      case Data(len, end) => Content(len, end)
      case Head(_, _) => Trailers
  }

  // ------------------------------------------------------------ fields and blocks

  /** What the handler makes of a response block, on its fields. */
  lemma BlockSays(fields: seq<Field>)
    requires WellFormed(fields, false)
    ensures Informational(fields) <==> OneXX(fields[0].value)
    ensures forall isHead :: HasContent(NumericStatus(fields), isHead) <==> !Exempt(fields[0].value, isHead)
  {
    assert StatusText(fields) == Some(fields[0].value);
  }

  lemma LengthSays(fields: seq<Field>, isHead: bool, n: nat)
    requires WellFormed(fields, false)
    ensures (LengthOf(fields).Absent? || !HasContent(NumericStatus(fields), isHead) || LengthOf(fields) == Declared(n))
      <==> LengthHolds(fields, isHead, n)
  {
    BlockSays(fields);
    if Declares(fields, n) {
      LengthIs(fields, n);
    } else if exists m :: Declares(fields, m) {
      var m :| Declares(fields, m);
      LengthIs(fields, m);
    }
  }

  // ------------------------------------------------------------- after the final block

  /** A response whose final block had these fields, with `got` bytes of DATA since. */
  ghost predicate Started(s: State, fields: seq<Field>) {
    && WellFormed(fields, false) && !s.ended && !s.failed && s.headersReceived
    && s.status == NumericStatus(fields) && s.length == LengthOf(fields)
  }

  predicate RestFits(fields: seq<Field>, isHead: bool, got: nat, arrivals: seq<Arrival>)
    requires fields != []
  {
    Rest(arrivals) && (Complete(arrivals) ==> LengthHolds(fields, isHead, got + DataBytes(arrivals)))
  }

  /** The state that such a rest leaves. */
  function Since(s: State, arrivals: seq<Arrival>): State {
    s.(bodyLen := s.bodyLen + DataBytes(arrivals), ended := Complete(arrivals))
  }

  ghost predicate RestDelivered(s: State, arrivals: seq<Arrival>) {
    var (t, events) := Handle(s, arrivals);
    && t == Since(s, arrivals) && |events| == |arrivals|
    && forall i :: 0 <= i < |arrivals| ==> events[i] == EventOf([Data(0, false)] + arrivals, 0, i + 1)
  }

  lemma TakeRest(s: State, fields: seq<Field>, a: Arrival)
    requires Started(s, fields)
    ensures var (t, r) := Take(s, FrameOf(a, true));
      && (r.Delivered? <==> RestFits(fields, s.isHead, s.bodyLen, [a]))
      && (r.Delivered? ==> t == Since(s, [a]) && r.event == EventOf([Data(0, false), a], 0, 1))
      && (r.Reset? ==> r.code == Protocol)
  {
    assert [a][1..] == [] && DataBytes([a]) == if a.Data? then a.len else 0;
    LengthSays(fields, s.isHead, s.bodyLen + DataBytes([a]));
    if RestFits(fields, s.isHead, s.bodyLen, [a]) {
      assert [a][0].Data? || TrailerHead([a][0]);
    }
  }

  lemma RestInFront(a: Arrival, more: seq<Arrival>)
    ensures Rest([a] + more) <==> Rest([a]) && Rest(more) && (a.end ==> more == [])
  {
    var all := [a] + more;
    assert all[0] == a && forall i :: 0 <= i < |more| ==> more[i] == all[i + 1];
    if Rest(all) {
      assert EndsLast(more);
      assert Rest([a]) by {
        assert all[0].Data? || TrailerHead(all[0]);
      }
    }
  }

  lemma RestSplit(fields: seq<Field>, isHead: bool, got: nat, arrivals: seq<Arrival>)
    requires fields != [] && arrivals != []
    ensures var a, more := arrivals[0], arrivals[1..];
      RestFits(fields, isHead, got, arrivals) <==>
        && RestFits(fields, isHead, got, [a]) && (a.end ==> more == [])
        && RestFits(fields, isHead, got + DataBytes([a]), more)
  {
    var a, more := arrivals[0], arrivals[1..];
    assert [a][1..] == [] && DataBytes([a]) == if a.Data? then a.len else 0;
    RestInFront(a, more);
    assert arrivals == [a] + more;
    assert more != [] ==> (Complete(arrivals) <==> Complete(more));
  }

  lemma {:induction false} RestAccepted(s: State, fields: seq<Field>, arrivals: seq<Arrival>)
    requires Started(s, fields)
    ensures |Handle(s, arrivals).1| == |arrivals| <==> RestFits(fields, s.isHead, s.bodyLen, arrivals)
    ensures RestFits(fields, s.isHead, s.bodyLen, arrivals) ==> RestDelivered(s, arrivals)
    ensures |Handle(s, arrivals).1| <= |arrivals|
    decreases |arrivals|
  {
    if arrivals != [] {
      var a, more := arrivals[0], arrivals[1..];
      assert [a][1..] == [] && DataBytes([a]) == if a.Data? then a.len else 0;
      TakeRest(s, fields, a);
      RestSplit(fields, s.isHead, s.bodyLen, arrivals);
      var (t, r) := Take(s, FrameOf(a, true));
      if r.Delivered? {
        if a.end {
          assert Handle(t, more) == (t, []);
        } else {
          RestAccepted(t, fields, more);
          assert more != [] ==> (Complete(arrivals) <==> Complete(more));
        }
      }
    }
  }

  // ------------------------------------------------------------ up to the final block

  predicate Awaiting(s: State) {
    !s.headersReceived && !s.ended && !s.failed && s.bodyLen == 0
  }

  /** The state after `k` interim blocks and, if it has come, the final one and the rest. */
  ghost function Left(s: State, arrivals: seq<Arrival>, k: nat): State
    requires k <= |arrivals| && (k < |arrivals| ==> arrivals[k].Head?)
  {
    var t := s.(interims := s.interims + k);
    if k == |arrivals| then t
    else
      var fields := arrivals[k].fields;
      t.(headersReceived := true, status := NumericStatus(fields), length := LengthOf(fields),
         bodyLen := DataBytes(arrivals[k + 1..]), ended := Complete(arrivals))
  }

  ghost predicate DeliveredAs(s: State, arrivals: seq<Arrival>, k: nat)
    requires k <= |arrivals| && (k < |arrivals| ==> arrivals[k].Head?)
  {
    var (t, events) := Handle(s, arrivals);
    && t == Left(s, arrivals, k) && |events| == |arrivals|
    && forall i :: 0 <= i < |arrivals| ==> events[i] == EventOf(arrivals, k, i)
  }

  lemma TakeInterim(s: State, a: Arrival)
    requires Awaiting(s) && InterimHead(a)
    ensures var (t, r) := Take(s, FrameOf(a, false));
      if s.interims < MAX_INTERIM then t == s.(interims := s.interims + 1) && r == Delivered(Interim)
      else r == Reset(Calm)
  {
    BlockSays(a.fields);
  }

  lemma TakeFinal(s: State, a: Arrival)
    requires Awaiting(s) && FinalHead(a)
    ensures var (t, r) := Take(s, FrameOf(a, false));
      && (r == if a.end && !LengthHolds(a.fields, s.isHead, 0) then Reset(Protocol) else Delivered(Final(a.end)))
      && (r.Delivered? ==> t == Left(s, [a], 0) && (!a.end ==> Started(t, a.fields)))
  {
    BlockSays(a.fields);
    LengthSays(a.fields, s.isHead, 0);
    assert [a][1..] == [];
  }

  lemma TakeOther(s: State, a: Arrival)
    requires Awaiting(s) && !InterimHead(a) && !FinalHead(a)
    ensures Take(s, FrameOf(a, false)).1 == Reset(Protocol)
  {
    if a.Head? && WellFormed(a.fields, false) {
      BlockSays(a.fields);
    }
  }

  /** An interim block in front. */
  lemma FitsMore(arrivals: seq<Arrival>, isHead: bool, seen: nat, k: nat)
    requires arrivals != [] && InterimHead(arrivals[0])
    ensures Fits(arrivals, isHead, seen, k + 1) <==> Fits(arrivals[1..], isHead, seen + 1, k)
    ensures !Fits(arrivals, isHead, seen, 0)
  {
    var more := arrivals[1..];
    if Fits(arrivals, isHead, seen, k + 1) || Fits(more, isHead, seen + 1, k) {
      assert forall i :: 0 <= i < |more| ==> more[i] == arrivals[i + 1];
      assert forall i :: 0 < i < |arrivals| ==> arrivals[i] == more[i - 1];
      if k < |more| {
        assert more[k + 1..] == arrivals[k + 2..];
      }
      assert more != [] ==> (Complete(more) <==> Complete(arrivals));
    }
  }

  lemma InterimAccepted(s: State, arrivals: seq<Arrival>, k: nat)
    requires Awaiting(s) && arrivals != [] && InterimHead(arrivals[0]) && s.interims < MAX_INTERIM
    requires Fits(arrivals[1..], s.isHead, s.interims + 1, k)
    requires DeliveredAs(s.(interims := s.interims + 1), arrivals[1..], k)
    ensures Fits(arrivals, s.isHead, s.interims, k + 1) && DeliveredAs(s, arrivals, k + 1)
  {
    var more := arrivals[1..];
    FitsMore(arrivals, s.isHead, s.interims, k);
    TakeInterim(s, arrivals[0]);
    assert k < |more| ==> more[k + 1..] == arrivals[k + 2..] && (Complete(more) <==> Complete(arrivals));
    forall i | 0 <= i < |arrivals| ensures Handle(s, arrivals).1[i] == EventOf(arrivals, k + 1, i) {
      assert i > 0 ==> arrivals[i] == more[i - 1];
    }
  }

  lemma FinalAccepted(s: State, arrivals: seq<Arrival>)
    requires Awaiting(s) && s.interims <= MAX_INTERIM && arrivals != [] && FinalHead(arrivals[0])
    ensures |Handle(s, arrivals).1| == |arrivals| <==> Fits(arrivals, s.isHead, s.interims, 0)
    ensures Fits(arrivals, s.isHead, s.interims, 0) ==> DeliveredAs(s, arrivals, 0)
    ensures |Handle(s, arrivals).1| <= |arrivals|
  {
    var a, more := arrivals[0], arrivals[1..];
    TakeFinal(s, a);
    var (t, r) := Take(s, FrameOf(a, false));
    if r.Delivered? {
      if a.end {
        assert Handle(t, more) == (t, []);
        assert more == [] ==> arrivals == [a];
      } else {
        RestAccepted(t, a.fields, more);
        assert more != [] ==> (Complete(more) <==> Complete(arrivals));
        if RestFits(a.fields, s.isHead, 0, more) {
          assert RestDelivered(t, more);
        }
      }
    }
  }

  /** Only a final block in front fits without more interim ones. */
  lemma FitsNow(arrivals: seq<Arrival>, isHead: bool, seen: nat, k: nat)
    requires arrivals != [] && !InterimHead(arrivals[0]) && Fits(arrivals, isHead, seen, k)
    ensures k == 0 && FinalHead(arrivals[0])
  {
  }

  ghost predicate Well(arrivals: seq<Arrival>, isHead: bool, seen: nat) {
    exists k: nat :: Fits(arrivals, isHead, seen, k)
  }

  lemma FitsLess(arrivals: seq<Arrival>, isHead: bool, seen: nat, k: nat)
    requires arrivals != [] && InterimHead(arrivals[0]) && Fits(arrivals, isHead, seen, k)
    ensures k > 0 && seen < MAX_INTERIM && Fits(arrivals[1..], isHead, seen + 1, k - 1)
    ensures Well(arrivals[1..], isHead, seen + 1)
  {
    FitsMore(arrivals, isHead, seen, 0);
    assert k > 0;
    FitsMore(arrivals, isHead, seen, k - 1);
  }

  /** What is proved of every sequence of arrivals. */
  ghost predicate Decided(s: State, arrivals: seq<Arrival>) {
    && (|Handle(s, arrivals).1| == |arrivals| <==> Well(arrivals, s.isHead, s.interims))
    && (forall k: nat :: Fits(arrivals, s.isHead, s.interims, k) ==> DeliveredAs(s, arrivals, k))
    && |Handle(s, arrivals).1| <= |arrivals|
  }

  lemma DecidedInterim(s: State, arrivals: seq<Arrival>)
    requires Awaiting(s) && arrivals != [] && InterimHead(arrivals[0]) && s.interims < MAX_INTERIM
    requires Decided(s.(interims := s.interims + 1), arrivals[1..])
    ensures Decided(s, arrivals)
  {
    var more, t := arrivals[1..], s.(interims := s.interims + 1);
    TakeInterim(s, arrivals[0]);
    assert |Handle(s, arrivals).1| == 1 + |Handle(t, more).1|;
    if Well(more, s.isHead, t.interims) {
      var k: nat :| Fits(more, s.isHead, t.interims, k);
      InterimAccepted(s, arrivals, k);
    }
    forall k: nat | Fits(arrivals, s.isHead, s.interims, k)
      ensures Well(more, s.isHead, t.interims) && DeliveredAs(s, arrivals, k)
    {
      InterimInFront(s, arrivals, k);
    }
  }

  lemma InterimInFront(s: State, arrivals: seq<Arrival>, k: nat)
    requires Awaiting(s) && arrivals != [] && InterimHead(arrivals[0])
    requires Fits(arrivals, s.isHead, s.interims, k)
    requires Decided(s.(interims := s.interims + 1), arrivals[1..])
    ensures Well(arrivals[1..], s.isHead, s.interims + 1) && DeliveredAs(s, arrivals, k)
  {
    FitsLess(arrivals, s.isHead, s.interims, k);
    InterimAccepted(s, arrivals, k - 1);
  }

  /** The interim block after the hundredth. */
  lemma DecidedCalm(s: State, arrivals: seq<Arrival>)
    requires Awaiting(s) && arrivals != [] && InterimHead(arrivals[0]) && s.interims >= MAX_INTERIM
    ensures Decided(s, arrivals)
  {
    TakeInterim(s, arrivals[0]);
    if Well(arrivals, s.isHead, s.interims) {
      var k: nat :| Fits(arrivals, s.isHead, s.interims, k);
      FitsLess(arrivals, s.isHead, s.interims, k);
    }
  }

  lemma DecidedOther(s: State, arrivals: seq<Arrival>)
    requires Awaiting(s) && s.interims <= MAX_INTERIM && arrivals != [] && !InterimHead(arrivals[0])
    ensures Decided(s, arrivals)
  {
    forall k: nat | Fits(arrivals, s.isHead, s.interims, k) ensures k == 0 && FinalHead(arrivals[0]) {
      FitsNow(arrivals, s.isHead, s.interims, k);
    }
    if FinalHead(arrivals[0]) {
      FinalAccepted(s, arrivals);
    } else {
      TakeOther(s, arrivals[0]);
    }
  }

  lemma {:induction false} Accepted(s: State, arrivals: seq<Arrival>)
    requires Awaiting(s) && s.interims <= MAX_INTERIM
    ensures Decided(s, arrivals)
    decreases |arrivals|
  {
    if arrivals == [] {
      assert Fits([], s.isHead, s.interims, 0);
    } else if !InterimHead(arrivals[0]) {
      DecidedOther(s, arrivals);
    } else if s.interims < MAX_INTERIM {
      Accepted(s.(interims := s.interims + 1), arrivals[1..]);
      DecidedInterim(s, arrivals);
    } else {
      DecidedCalm(s, arrivals);
    }
  }

  // ------------------------------------------------------------------ main results

  /** Every arrival is delivered, with no reset, if and only if the arrivals are a well-formed
      response, or the beginning of one: at most a hundred interim blocks, a final block,
      DATA, and trailers that end it, whose declared length, if it binds, is that of the
      DATA. Then each arrival is delivered as the event it is, and the stream has ended if
      and only if the response is complete. */
  lemma ResponseAcceptedExactlyWhen(isHead: bool, arrivals: seq<Arrival>)
    ensures |Handle(Fresh(isHead), arrivals).1| == |arrivals| <==> exists k: nat :: Fits(arrivals, isHead, 0, k)
    ensures forall k: nat :: Fits(arrivals, isHead, 0, k) ==>
      var (t, events) := Handle(Fresh(isHead), arrivals);
      && !t.failed && |events| == |arrivals|
      && (forall i :: 0 <= i < |arrivals| ==> events[i] == EventOf(arrivals, k, i))
      && (t.ended <==> Complete(arrivals))
  {
    Accepted(Fresh(isHead), arrivals);
    assert Well(arrivals, isHead, 0) <==> exists k: nat :: Fits(arrivals, isHead, 0, k);
    forall k: nat | Fits(arrivals, isHead, 0, k) ensures DeliveredAs(Fresh(isHead), arrivals, k) {
    }
  }

  /** What the arrival that breaks a response off is told: ENHANCE_YOUR_CALM for the interim
      block after the hundredth, STREAM_CLOSED for DATA after the end, and PROTOCOL_ERROR
      for anything else. */
  lemma RefusedWith(isHead: bool, arrivals: seq<Arrival>, k: nat, a: Arrival)
    requires Fits(arrivals, isHead, 0, k)
    ensures var s := Handle(Fresh(isHead), arrivals).0;
      var r := Take(s, FrameOf(a, s.headersReceived)).1;
      if Complete(arrivals) then a.Data? ==> r == Reset(Closed)
      else r.Reset? ==> r.code == if k == |arrivals| == MAX_INTERIM && InterimHead(a) then Calm else Protocol
  {
    Accepted(Fresh(isHead), arrivals);
    assert DeliveredAs(Fresh(isHead), arrivals, k);
    var s := Handle(Fresh(isHead), arrivals).0;
    if !Complete(arrivals) {
      if k < |arrivals| {
        TakeRest(s, arrivals[k].fields, a);
      } else if InterimHead(a) {
        TakeInterim(s, a);
      } else if FinalHead(a) {
        TakeFinal(s, a);
      } else {
        TakeOther(s, a);
      }
    }
  }
}
