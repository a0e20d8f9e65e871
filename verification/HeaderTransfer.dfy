/** Writing a field block and reading it back. */
module HeaderTransfer {
  import opened FixedWidth
  import opened Basics
  import opened FrameCodec
  import opened HeaderBlocks

  // ------------------------------------------------------------------ writing

  datatype WriteResult = Written | InvalidStream | FrameTooLarge

  class Framer {
    const maxFrameSize: nat
    var out: Bytes

    constructor (max: nat)
      ensures maxFrameSize == max && out == []
    {
      maxFrameSize, out := max, [];
    }

    method WriteHeaders(id: nat, fragment: Bytes, endHeaders: bool, endStream: bool, pad: Byte, prio: Option<Priority>)
      returns (r: WriteResult)
      modifies this`out
      ensures var f := Headers(id, fragment, endHeaders, endStream, pad, prio);
        && (r.InvalidStream? <==> id == 0)
        && (r.FrameTooLarge? <==> id != 0 && |PayloadOf(f)| > maxFrameSize)
        && out == if r.Written? then old(out) + Encode(f) else old(out)
    {
      if id == 0 {
        return InvalidStream;
      }
      var flags := 0;
      if endStream {
        flags := flags + 1;
      }
      if endHeaders {
        flags := flags + 4;
      }
      if pad > 0 {
        flags := flags + 8;
      }
      if prio.Some? {
        flags := flags + 32;
      }
      var total := |fragment| + pad as int;
      if pad > 0 {
        total := total + 1;
      }
      if prio.Some? {
        total := total + 5;
      }
      ghost var f := Headers(id, fragment, endHeaders, endStream, pad, prio);
      assert total == |PayloadOf(f)| && flags == FlagsOf(f);
      if total > maxFrameSize {
        return FrameTooLarge;
      }
      var bytes := PutHeader(Header(total, HEADERS, flags, id));
      if pad > 0 {
        bytes := bytes + [pad];
      }
      if prio.Some? {
        bytes := bytes + PutPriority(prio.value);
      }
      bytes := bytes + fragment;
      if pad > 0 {
        bytes := bytes + Zeros(pad);
      }
      assert bytes == Encode(f);
      out := out + bytes;
      return Written;
    }

    method WriteContinuation(id: nat, endHeaders: bool, fragment: Bytes) returns (r: WriteResult)
      modifies this`out
      ensures r.InvalidStream? <==> id == 0
      ensures r.FrameTooLarge? <==> id != 0 && |fragment| > maxFrameSize
      ensures out == if r.Written? then old(out) + Encode(Continuation(id, fragment, endHeaders)) else old(out)
    {
      if id == 0 {
        return InvalidStream;
      }
      if |fragment| > maxFrameSize {
        return FrameTooLarge;
      }
      out := out + PutHeader(Header(|fragment|, CONTINUATION, if endHeaders then 4 else 0, id)) + fragment;
      assert out == old(out) + Encode(Continuation(id, fragment, endHeaders));
      return Written;
    }

    method WriteContinuations(id: nat, block: Bytes, maxFrame: nat)
      requires 0 < id && 0 < maxFrame <= maxFrameSize
      modifies this`out
      ensures out == old(out) + EncodeAll(Continuations(id, block, maxFrame))
    {
      var rest := block;
      ghost var whole := old(out) + EncodeAll(Continuations(id, block, maxFrame));
      while |rest| > 0
        invariant out + EncodeAll(Continuations(id, rest, maxFrame)) == whole
        decreases |rest|
      {
        var n := |rest|;
        if n > maxFrame {
          n := maxFrame;
        }
        OneContinuation(out, id, rest, maxFrame, n);
        var r := WriteContinuation(id, n == |rest|, rest[..n]);
        rest := rest[n..];
      }
    }

    method Budget(maxFrame: nat, pad: Byte, prio: Option<Priority>) returns (budget: int)
      requires FRAME_FLOOR <= maxFrame
      ensures budget == maxFrame - Overhead(pad, prio)
    {
      budget := maxFrame;
      if pad > 0 {
        budget := budget - (1 + pad as int);
      }
      if prio.Some? {
        budget := budget - 5;
      }
      if budget <= 0 {
        budget := 1;
      }
    }

    /** Every frame fits, so the writer never refuses one half-way through a block. */
    method WriteHeaderBlock(id: nat, block: Bytes, end: bool, prio: Option<Priority>, pad: Byte, maxFrame: nat)
      returns (r: WriteResult)
      requires FRAME_FLOOR <= maxFrame <= maxFrameSize
      modifies this`out
      ensures r == if id == 0 then InvalidStream else Written
      ensures out == if id == 0 then old(out) else old(out) + EncodeAll(Plan(id, block, end, pad, prio, maxFrame))
    {
      var budget := Budget(maxFrame, pad, prio);
      PlanBytes(id, block, end, pad, prio, maxFrame, budget);
      if |block| <= budget {
        r := WriteHeaders(id, block, true, end, pad, prio);
      } else {
        r := WriteSplit(id, block, end, pad, prio, maxFrame, budget);
      }
    }

    method WriteSplit(id: nat, block: Bytes, end: bool, pad: Byte, prio: Option<Priority>, maxFrame: nat, budget: nat)
      returns (r: WriteResult)
      requires 0 < maxFrame <= maxFrameSize && budget < |block|
      requires |PayloadOf(Headers(id, block[..budget], false, end, pad, prio))| <= maxFrame
      modifies this`out
      ensures r == if id == 0 then InvalidStream else Written
      ensures id == 0 ==> out == old(out)
      ensures id != 0 ==> out == old(out) + (Encode(Headers(id, block[..budget], false, end, pad, prio))
                                             + EncodeAll(Continuations(id, block[budget..], maxFrame)))
    {
      r := WriteHeaders(id, block[..budget], false, end, pad, prio);
      if r.Written? {
        Regroup(old(out), Encode(Headers(id, block[..budget], false, end, pad, prio)),
                EncodeAll(Continuations(id, block[budget..], maxFrame)));
        WriteContinuations(id, block[budget..], maxFrame);
      }
    }
  }

  lemma PlanBytes(id: nat, block: Bytes, end: bool, pad: Byte, prio: Option<Priority>, maxFrame: nat, budget: int)
    requires maxFrame >= FRAME_FLOOR && budget == maxFrame - Overhead(pad, prio)
    ensures |block| <= budget ==>
      && |PayloadOf(Headers(id, block, true, end, pad, prio))| <= maxFrame
      && EncodeAll(Plan(id, block, end, pad, prio, maxFrame)) == Encode(Headers(id, block, true, end, pad, prio))
    ensures |block| > budget ==>
      && |PayloadOf(Headers(id, block[..budget], false, end, pad, prio))| <= maxFrame
      && EncodeAll(Plan(id, block, end, pad, prio, maxFrame)) ==
         Encode(Headers(id, block[..budget], false, end, pad, prio)) +
         EncodeAll(Continuations(id, block[budget..], maxFrame))
  {
    var plan := Plan(id, block, end, pad, prio, maxFrame);
    if |block| <= budget {
      assert plan[1..] == [] && EncodeAll(plan) == Encode(plan[0]) + [];
    } else {
      assert plan[1..] == Continuations(id, block[budget..], maxFrame);
    }
  }

  lemma OneContinuation(out: Bytes, id: nat, rest: Bytes, maxFrame: nat, n: nat)
    requires maxFrame > 0 && rest != [] && n == Min(|rest|, maxFrame)
    ensures out + EncodeAll(Continuations(id, rest, maxFrame)) ==
            (out + Encode(Continuation(id, rest[..n], n == |rest|))) + EncodeAll(Continuations(id, rest[n..], maxFrame))
  {
    assert Continuations(id, rest, maxFrame)[1..] == Continuations(id, rest[n..], maxFrame);
  }

  // ------------------------------------------------------------------ reading

  /** The framer's continuity state and the handler's unfinished block. */
  datatype Reading = Reading(
    expecting: bool,
    stream: nat,
    pendingStream: nat,
    pending: Bytes,
    pendingEnd: bool)

  datatype Event = Quiet | Block(id: nat, block: Bytes, end: bool)

  datatype Error =
    TooLarge | ContinuationExpected | UnexpectedContinuation | ZeroStream | BadPadding | ShortPriority | Calm

  datatype Took = Failed(error: Error) | Accepted(r: Reading, event: Event)

  datatype Read = Incomplete | Refused(error: Error) | Got(r: Reading, event: Event, rest: Bytes)

  predicate Continues(r: Reading, h: Header) {
    if r.expecting then h.kind == CONTINUATION && h.id == r.stream else h.kind != CONTINUATION
  }

  function OnHeaders(r: Reading, h: Header, payload: Bytes): Took {
    if h.id == 0 then Failed(ZeroStream)
    else
      var body := if Has(h.flags, 8) then StripPadding(payload) else Some(payload);
      if body.None? then Failed(BadPadding)
      else if Has(h.flags, 32) && |body.value| < PRIORITY_SIZE then Failed(ShortPriority)
      else
        var block := if Has(h.flags, 32) then body.value[PRIORITY_SIZE..] else body.value;
        var s := r.(expecting := !Has(h.flags, 4), stream := h.id);
        if Has(h.flags, 4) then Accepted(s, Block(h.id, block, Has(h.flags, 1)))
        else Accepted(s.(pendingStream := h.id, pending := block, pendingEnd := Has(h.flags, 1)), Quiet)
  }

  function OnContinuation(r: Reading, h: Header, payload: Bytes, maxHeader: nat): Took {
    if h.id == 0 then Failed(ZeroStream)
    else
      var s := r.(expecting := r.expecting && !Has(h.flags, 4));
      if r.pendingStream != h.id then Accepted(s, Quiet)
      else
        var all := r.pending + payload;
        if |all| > maxHeader then Failed(Calm)
        else Accepted(s.(pending := all), if Has(h.flags, 4) then Block(h.id, all, r.pendingEnd) else Quiet)
  }

  /** A frame of another kind leaves the block state alone. */
  function Take(r: Reading, h: Header, payload: Bytes, maxHeader: nat): Took {
    if !Continues(r, h) then Failed(if r.expecting then ContinuationExpected else UnexpectedContinuation)
    else if h.kind == HEADERS then OnHeaders(r, h, payload)
    else if h.kind == CONTINUATION then OnContinuation(r, h, payload, maxHeader)
    else Accepted(r, Quiet)
  }

  function ReadFrame(r: Reading, b: Bytes, maxFrame: nat, maxHeader: nat): Read {
    if |b| < HEADER_SIZE then Incomplete
    else
      var h := GetHeader(b);
      if h.length > maxFrame then Refused(TooLarge)
      else if |b| - HEADER_SIZE < h.length then Incomplete
      else match Take(r, h, b[HEADER_SIZE..HEADER_SIZE + h.length], maxHeader)
        case Failed(e) => Refused(e)
        case Accepted(s, event) => Got(s, event, b[HEADER_SIZE + h.length..])
  }

  /** Reads a given number of frames and collects the blocks they complete. */
  datatype Harvest = Harvest(r: Reading, blocks: seq<Event>, rest: Bytes) | Broken(error: Error) | Starved

  function ReadFrames(r: Reading, b: Bytes, n: nat, blocks: seq<Event>, maxFrame: nat, maxHeader: nat): Harvest
    decreases n
  {
    if n == 0 then Harvest(r, blocks, b)
    else match ReadFrame(r, b, maxFrame, maxHeader)
      case Incomplete => Starved
      case Refused(e) => Broken(e)
      case Got(s, event, rest) =>
        ReadFrames(s, rest, n - 1, if event.Quiet? then blocks else blocks + [event], maxFrame, maxHeader)
  }

  /** The framer and the handler behind it, one frame at a time. */
  class Reader {
    const maxHeader: nat
    var expecting: bool
    var stream: nat
    var pendingStream: nat
    var pending: Bytes
    var pendingEnd: bool

    function View(): Reading
      reads this
    {
      Reading(expecting, stream, pendingStream, pending, pendingEnd)
    }

    constructor (max: nat)
      ensures maxHeader == max && !View().expecting
    {
      maxHeader, expecting, stream, pendingStream, pending, pendingEnd := max, false, 0, 0, [], false;
    }

    method CheckContinuity(h: Header) returns (ok: bool)
      ensures ok <==> Continues(View(), h)
    {
      if expecting {
        return h.kind == CONTINUATION && h.id == stream;
      }
      return h.kind != CONTINUATION;
    }

    method HandleHeaders(h: Header, payload: Bytes) returns (t: Took)
      modifies this
      ensures t == OnHeaders(old(View()), h, payload)
      ensures t.Accepted? ==> View() == t.r
    {
      if h.id == 0 {
        return Failed(ZeroStream);
      }
      var body := payload;
      if Has(h.flags, 8) {
        var stripped := StripPadding(payload);
        if stripped.None? {
          return Failed(BadPadding);
        }
        body := stripped.value;
      }
      if Has(h.flags, 32) {
        if |body| < PRIORITY_SIZE {
          return Failed(ShortPriority);
        }
        body := body[PRIORITY_SIZE..];
      }
      var event := Quiet;
      if Has(h.flags, 4) {
        event := Block(h.id, body, Has(h.flags, 1));
      } else {
        pendingStream, pending, pendingEnd := h.id, body, Has(h.flags, 1);
      }
      expecting, stream := !Has(h.flags, 4), h.id;
      return Accepted(View(), event);
    }

    method HandleContinuation(h: Header, payload: Bytes) returns (t: Took)
      modifies this
      ensures t == OnContinuation(old(View()), h, payload, maxHeader)
      ensures t.Accepted? ==> View() == t.r
    {
      if h.id == 0 {
        return Failed(ZeroStream);
      }
      var event := Quiet;
      if pendingStream == h.id {
        var all := pending + payload;
        if |all| > maxHeader {
          return Failed(Calm);
        }
        pending := all;
        if Has(h.flags, 4) {
          event := Block(h.id, all, pendingEnd);
        }
      }
      if Has(h.flags, 4) {
        expecting := false;
      }
      return Accepted(View(), event);
    }

    method Dispatch(h: Header, payload: Bytes) returns (t: Took)
      modifies this
      ensures t == Take(old(View()), h, payload, maxHeader)
      ensures t.Accepted? ==> View() == t.r
    {
      var ok := CheckContinuity(h);
      if !ok {
        return Failed(if expecting then ContinuationExpected else UnexpectedContinuation);
      }
      if h.kind == HEADERS {
        t := HandleHeaders(h, payload);
      } else if h.kind == CONTINUATION {
        t := HandleContinuation(h, payload);
      } else {
        t := Accepted(View(), Quiet);
      }
    }
  }

  // ------------------------------------------------------------- any bytes at all

  /** Of any bytes: with a whole frame in hand it is taken, exactly to its end; one longer than
      the limit is refused by its header; and short of that more is awaited. */
  lemma ReadIsExact(r: Reading, b: Bytes, maxFrame: nat, maxHeader: nat)
    ensures var read := ReadFrame(r, b, maxFrame, maxHeader);
      if |b| < 9 then read == Incomplete
      else
        var length := b[0] as int * 65536 + b[1] as int * 256 + b[2] as int;
        if length > maxFrame then read == Refused(TooLarge)
        else if |b| < 9 + length then read == Incomplete
        else
          match Take(r, GetHeader(b), b[9..9 + length], maxHeader)
          case Failed(e) => read == Refused(e)
          case Accepted(s, event) => read == Got(s, event, b[9 + length..])
  {
    if |b| >= 9 {
      HeaderReads(b);
    }
  }

  /** The rule of section 6.10 of RFC 7540, both ways: while a block is open, nothing but a
      CONTINUATION on its stream is taken; and no CONTINUATION otherwise. A frame of another
      kind between blocks changes nothing. */
  lemma ContinuityIsExact(r: Reading, h: Header, payload: Bytes, maxHeader: nat)
    ensures var t := Take(r, h, payload, maxHeader);
      && (t == Failed(ContinuationExpected) <==> r.expecting && !(h.kind as int == 9 && h.id == r.stream))
      && (t == Failed(UnexpectedContinuation) <==> !r.expecting && h.kind as int == 9)
      && (!r.expecting && h.kind as int != 9 && h.kind as int != 1 ==> t == Accepted(r, Quiet))
  {
  }

  /** A HEADERS frame between blocks opens or completes one if and only if it is on a stream,
      its padding, if it has any, fits, and its priority, if it has one, is whole. */
  lemma HeadersTakenExactly(r: Reading, h: Header, payload: Bytes, maxHeader: nat)
    requires !r.expecting && h.kind as int == 1
    ensures var padded, prio := h.flags as int / 8 % 2 == 1, h.flags as int / 32 % 2 == 1;
      var t := Take(r, h, payload, maxHeader);
      var size := |payload| - if padded && payload != [] then 1 + payload[0] as int else 0;
      var fits := (padded ==> payload != [] && size >= 0) && (prio ==> size >= 5);
      && (t.Accepted? <==> h.id != 0 && fits)
      && (t.Accepted? ==>
            && (t.r.expecting <==> h.flags as int / 4 % 2 == 0) && t.r.stream == h.id
            && var from := (if padded then 1 else 0) + (if prio then 5 else 0);
               var block := payload[from..(if padded then 1 else 0) + size];
               if t.r.expecting then
                 t.event == Quiet && t.r.pending == block && t.r.pendingStream == h.id
                 && t.r.pendingEnd == (h.flags as int % 2 == 1)
               else t.event == Block(h.id, block, h.flags as int % 2 == 1))
  {
    if h.flags as int / 8 % 2 == 1 {
      StripIsExact(payload);
    }
  }

  // ---------------------------------------------------------------- round trip

  function HeaderOf(f: Frame): Header {
    Header(|PayloadOf(f)|, KindOf(f), FlagsOf(f), f.id)
  }

  /** A frame comes off the wire as it was put there. */
  lemma FrameBack(r: Reading, f: Frame, rest: Bytes, maxFrame: nat, maxHeader: nat)
    requires f.id < TWO_31 && |PayloadOf(f)| <= maxFrame <= FRAME_CEIL
    ensures ReadFrame(r, Encode(f) + rest, maxFrame, maxHeader) ==
      match Take(r, HeaderOf(f), PayloadOf(f), maxHeader) {
        case Failed(e) => Refused(e)
        case Accepted(s, event) => Got(s, event, rest)
      }
  {
    RawBack(HeaderOf(f), PayloadOf(f), rest);
  }

  lemma RawBack(h: Header, payload: Bytes, rest: Bytes)
    requires h.length == |payload| < TWO_24 && h.id < TWO_31
    ensures var b := (PutHeader(h) + payload) + rest;
      && GetHeader(b) == h
      && b[HEADER_SIZE..HEADER_SIZE + |payload|] == payload
      && b[HEADER_SIZE + |payload|..] == rest
  {
    assert (PutHeader(h) + payload) + rest == PutHeader(h) + (payload + rest);
    HeaderBack(h, payload + rest);
  }

  /** Padding and priority come off, and the fragment is what is left. */
  lemma HeadersBack(r: Reading, f: Frame)
    requires f.Headers? && f.id != 0
    ensures OnHeaders(r, HeaderOf(f), PayloadOf(f)) ==
      var s := r.(expecting := !f.endHeaders, stream := f.id);
      if f.endHeaders then Accepted(s, Block(f.id, f.fragment, f.endStream))
      else Accepted(s.(pendingStream := f.id, pending := f.fragment, pendingEnd := f.endStream), Quiet)
  {
    FlagsBack(f);
    var body := PrioBytes(f.prio) + f.fragment;
    if f.pad > 0 {
      StripBack(body, f.pad, Zeros(f.pad));
    }
    assert f.prio.Some? ==> body[PRIORITY_SIZE..] == f.fragment;
    assert f.prio.None? ==> body == f.fragment;
  }

  /** Reading on after the first frames. */
  lemma ReadOneMore(r: Reading, f: Frame, more: seq<Frame>, rest: Bytes, blocks: seq<Event>,
                    maxFrame: nat, maxHeader: nat)
    requires f.id < TWO_31 && |PayloadOf(f)| <= maxFrame <= FRAME_CEIL
    ensures ReadFrames(r, EncodeAll([f] + more) + rest, 1 + |more|, blocks, maxFrame, maxHeader) ==
      match Take(r, HeaderOf(f), PayloadOf(f), maxHeader) {
        case Failed(e) => Broken(e)
        case Accepted(s, event) =>
          ReadFrames(s, EncodeAll(more) + rest, |more|, if event.Quiet? then blocks else blocks + [event],
                     maxFrame, maxHeader)
      }
  {
    assert ([f] + more)[1..] == more;
    assert EncodeAll([f] + more) + rest == Encode(f) + (EncodeAll(more) + rest);
    FrameBack(r, f, EncodeAll(more) + rest, maxFrame, maxHeader);
  }

  lemma {:induction false} ContinuationsBack(id: nat, got: Bytes, todo: Bytes, end: bool, rest: Bytes,
                                             maxFrame: nat, maxHeader: nat)
    requires 0 < id < TWO_31 && todo != [] && FRAME_FLOOR <= maxFrame <= FRAME_CEIL
    ensures var fs := Continuations(id, todo, maxFrame);
      ReadFrames(Reading(true, id, id, got, end), EncodeAll(fs) + rest, |fs|, [], maxFrame, maxHeader) ==
      if |got + todo| > maxHeader then Broken(Calm)
      else Harvest(Reading(false, id, id, got + todo, end), [Block(id, got + todo, end)], rest)
    decreases |todo|
  {
    var n := Min(|todo|, maxFrame);
    var f, more := Continuation(id, todo[..n], n == |todo|), Continuations(id, todo[n..], maxFrame);
    var r := Reading(true, id, id, got, end);
    ContinuationTaken(id, got, todo[..n], end, n == |todo|, maxHeader);
    ReadOneMore(r, f, more, rest, [], maxFrame, maxHeader);
    assert (got + todo[..n]) + todo[n..] == got + todo;
    if |got + todo[..n]| <= maxHeader {
      if n == |todo| {
        assert more == [] && EncodeAll(more) + rest == rest && todo[..n] == todo;
      } else {
        ContinuationsBack(id, got + todo[..n], todo[n..], end, rest, maxFrame, maxHeader);
      }
    }
  }

  lemma ContinuationTaken(id: nat, got: Bytes, part: Bytes, end: bool, last: bool, maxHeader: nat)
    requires 0 < id
    ensures var f := Continuation(id, part, last);
      Take(Reading(true, id, id, got, end), HeaderOf(f), PayloadOf(f), maxHeader) ==
      if |got + part| > maxHeader then Failed(Calm)
      else Accepted(Reading(!last, id, id, got + part, end), if last then Block(id, got + part, end) else Quiet)
  {
    FlagsBack(Continuation(id, part, last));
  }

  /** Any block, cut by the writer with any padding and priority and read back by a reader
      that is between blocks, arrives byte for byte as one block on its stream with its
      END_STREAM, and leaves the reader between blocks. It is refused if and only if it took
      more than one frame and is larger than the reader accumulates. */
  lemma BlockComesBack(r: Reading, id: nat, block: Bytes, end: bool, pad: Byte, prio: Option<Priority>, rest: Bytes,
                       maxFrame: nat, maxHeader: nat)
    requires !r.expecting && 0 < id < TWO_31 && FRAME_FLOOR <= maxFrame <= FRAME_CEIL
    ensures var fs := Plan(id, block, end, pad, prio, maxFrame);
      var h := ReadFrames(r, EncodeAll(fs) + rest, |fs|, [], maxFrame, maxHeader);
      if |fs| > 1 && |block| > maxHeader then h == Broken(Calm)
      else h.Harvest? && h.blocks == [Block(id, block, end)] && h.rest == rest && !h.r.expecting
  {
    var fs, budget := Plan(id, block, end, pad, prio, maxFrame), maxFrame - Overhead(pad, prio);
    PlanIsWellFormed(id, block, end, pad, prio, maxFrame);
    var f, more := fs[0], fs[1..];
    assert fs == [f] + more;
    HeadersBack(r, f);
    ReadOneMore(r, f, more, rest, [], maxFrame, maxHeader);
    if |block| <= budget {
      assert more == [] && EncodeAll(more) + rest == rest;
    } else {
      assert more == Continuations(id, block[budget..], maxFrame);
      assert block[..budget] + block[budget..] == block;
      ContinuationsBack(id, block[..budget], block[budget..], end, rest, maxFrame, maxHeader);
    }
  }
}
