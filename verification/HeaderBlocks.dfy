/** A field block on the wire: cut into HEADERS and CONTINUATION frames by the writer and
    reassembled, under the continuity rule of section 6.10 of RFC 7540, by the reader. */
module HeaderBlocks {
  import opened FixedWidth
  import opened Basics
  import opened FrameCodec

  const HEADERS: Byte := 1
  const CONTINUATION: Byte := 9

  datatype Frame =
    | Headers(id: nat, fragment: Bytes, endHeaders: bool, endStream: bool, pad: Byte, prio: Option<Priority>)
    | Continuation(id: nat, fragment: Bytes, endHeaders: bool)

  function Bit(b: bool, bit: nat): nat {
    if b then bit else 0
  }

  /** END_STREAM 0x1, END_HEADERS 0x4, PADDED 0x8, PRIORITY 0x20. */
  function FlagsOf(f: Frame): Byte {
    match f
    case Headers(_, _, endHeaders, endStream, pad, prio) =>
      Bit(endStream, 1) + Bit(endHeaders, 4) + Bit(pad > 0, 8) + Bit(prio.Some?, 32)
    case Continuation(_, _, endHeaders) => Bit(endHeaders, 4)
  }

  predicate Has(flags: Byte, bit: nat)
    requires bit > 0
  {
    flags as int / bit % 2 == 1
  }

  lemma FlagsBack(f: Frame)
    ensures Has(FlagsOf(f), 4) == f.endHeaders
    ensures f.Headers? ==> Has(FlagsOf(f), 1) == f.endStream
    ensures f.Headers? ==> Has(FlagsOf(f), 8) == (f.pad > 0)
    ensures f.Headers? ==> Has(FlagsOf(f), 32) == f.prio.Some?
  {
  }

  /** The flag bits of section 6.2 of RFC 7540. */
  lemma FlagBits(f: Frame)
    ensures f.Headers? ==>
      FlagsOf(f) as int == (if f.endStream then 0x1 else 0) + (if f.endHeaders then 0x4 else 0)
                           + (if f.pad > 0 then 0x8 else 0) + (if f.prio.Some? then 0x20 else 0)
    ensures f.Continuation? ==> FlagsOf(f) as int == if f.endHeaders then 0x4 else 0
    ensures KindOf(f) as int == if f.Headers? then 0x1 else 0x9
  {
  }

  function PrioBytes(prio: Option<Priority>): Bytes {
    if prio.Some? then PutPriority(prio.value) else []
  }

  function PayloadOf(f: Frame): Bytes {
    match f
    case Headers(_, fragment, _, _, pad, prio) =>
      if pad > 0 then [pad] + (PrioBytes(prio) + fragment) + Zeros(pad) else PrioBytes(prio) + fragment
    case Continuation(_, fragment, _) => fragment
  }

  function KindOf(f: Frame): Byte {
    if f.Headers? then HEADERS else CONTINUATION
  }

  function Encode(f: Frame): Bytes {
    PutHeader(Header(|PayloadOf(f)|, KindOf(f), FlagsOf(f), f.id)) + PayloadOf(f)
  }

  function EncodeAll(fs: seq<Frame>): Bytes {
    if fs == [] then [] else Encode(fs[0]) + EncodeAll(fs[1..])
  }

  // ------------------------------------------------------------------ cutting

  function Overhead(pad: Byte, prio: Option<Priority>): (n: nat)
    ensures n <= 261
  {
    (if pad > 0 then 1 + pad as int else 0) + (if prio.Some? then PRIORITY_SIZE else 0)
  }

  function Continuations(id: nat, rest: Bytes, maxFrame: nat): seq<Frame>
    requires maxFrame > 0
    decreases |rest|
  {
    if rest == [] then []
    else
      var n := Min(|rest|, maxFrame);
      [Continuation(id, rest[..n], n == |rest|)] + Continuations(id, rest[n..], maxFrame)
  }

  function Plan(id: nat, block: Bytes, end: bool, pad: Byte, prio: Option<Priority>, maxFrame: nat): seq<Frame>
    requires maxFrame >= FRAME_FLOOR
  {
    var budget := maxFrame - Overhead(pad, prio);
    if |block| <= budget then [Headers(id, block, true, end, pad, prio)]
    else [Headers(id, block[..budget], false, end, pad, prio)] + Continuations(id, block[budget..], maxFrame)
  }

  function Fragments(fs: seq<Frame>): Bytes {
    if fs == [] then [] else fs[0].fragment + Fragments(fs[1..])
  }

  /** END_HEADERS on the last frame and nowhere else, all on one stream, none too long. */
  predicate Run(fs: seq<Frame>, id: nat, maxFrame: nat) {
    forall k :: 0 <= k < |fs| ==>
      fs[k].id == id && (fs[k].endHeaders <==> k == |fs| - 1) && |PayloadOf(fs[k])| <= maxFrame
  }

  lemma {:induction false} ContinuationsRun(id: nat, rest: Bytes, maxFrame: nat)
    requires maxFrame > 0
    ensures Run(Continuations(id, rest, maxFrame), id, maxFrame)
    ensures Fragments(Continuations(id, rest, maxFrame)) == rest
    ensures forall k :: 0 <= k < |Continuations(id, rest, maxFrame)| ==>
      Continuations(id, rest, maxFrame)[k].Continuation?
    ensures rest != [] ==> Continuations(id, rest, maxFrame) != []
    decreases |rest|
  {
    if rest != [] {
      var n := Min(|rest|, maxFrame);
      var first, more := Continuation(id, rest[..n], n == |rest|), Continuations(id, rest[n..], maxFrame);
      ContinuationsRun(id, rest[n..], maxFrame);
      var fs := [first] + more;
      assert fs[1..] == more;
      assert rest[..n] + rest[n..] == rest;
      forall k | 0 <= k < |fs|
        ensures fs[k].id == id && (fs[k].endHeaders <==> k == |fs| - 1) && |PayloadOf(fs[k])| <= maxFrame
      {
        if k > 0 {
          assert fs[k] == more[k - 1];
        }
      }
    }
  }

  /** The block is cut into its own bytes, in order: one HEADERS frame that alone may carry
      END_STREAM, then CONTINUATIONs, END_HEADERS on the last of them only. */
  lemma PlanIsWellFormed(id: nat, block: Bytes, end: bool, pad: Byte, prio: Option<Priority>, maxFrame: nat)
    requires maxFrame >= FRAME_FLOOR
    ensures var fs := Plan(id, block, end, pad, prio, maxFrame);
      && Run(fs, id, maxFrame)
      && Fragments(fs) == block
      && fs != [] && fs[0].Headers? && fs[0].endStream == end
      && forall k :: 1 <= k < |fs| ==> fs[k].Continuation?
  {
    var budget := maxFrame - Overhead(pad, prio);
    var fs := Plan(id, block, end, pad, prio, maxFrame);
    if |block| <= budget {
      assert fs[1..] == [] && Fragments(fs) == block + [];
    } else {
      var more := Continuations(id, block[budget..], maxFrame);
      ContinuationsRun(id, block[budget..], maxFrame);
      assert fs[1..] == more;
      assert block[..budget] + block[budget..] == block;
      forall k | 0 <= k < |fs|
        ensures fs[k].id == id && (fs[k].endHeaders <==> k == |fs| - 1) && |PayloadOf(fs[k])| <= maxFrame
      {
        if k > 0 {
          assert fs[k] == more[k - 1];
        }
      }
    }
  }
}
