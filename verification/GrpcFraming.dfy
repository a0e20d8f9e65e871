/** gRPC's length-prefixed messages, and the decoder that reassembles them from chunks. */
module GrpcFraming {
  import opened FixedWidth

  type Bytes = seq<Byte>

  const PREFIX := 5
  const DEFAULT_MAX := 4194304

  function BigEndian(n: nat): (r: Bytes)
    requires n < TWO_32
    ensures |r| == 4
  {
    [n / 0x100_0000, n / 0x1_0000 % 256, n / 256 % 256, n % 256]
  }

  function FromBigEndian(b: Bytes): (n: nat)
    requires |b| == 4
    ensures n < TWO_32
  {
    (b[0] as int) * 0x100_0000 + (b[1] as int) * 0x1_0000 + (b[2] as int) * 256 + b[3] as int
  }

  lemma BigEndianBack(n: nat)
    requires n < TWO_32
    ensures FromBigEndian(BigEndian(n)) == n
  {
    assert n == n / 256 * 256 + n % 256;
    assert n / 256 == n / 0x1_0000 * 256 + n / 256 % 256;
    assert n / 0x1_0000 == n / 0x100_0000 * 256 + n / 0x1_0000 % 256;
  }

  lemma FromBigEndianBack(b: Bytes)
    requires |b| == 4
    ensures BigEndian(FromBigEndian(b)) == b
  {
    var n := FromBigEndian(b);
    assert n / 256 == (b[0] as int) * 0x1_0000 + (b[1] as int) * 256 + b[2] as int;
    assert n / 0x1_0000 == (b[0] as int) * 256 + b[1] as int;
  }

  /** The five bytes in front of a message. */
  function Prefix(len: nat): (r: Bytes)
    requires len < TWO_32
    ensures |r| == PREFIX
  {
    [0] + BigEndian(len)
  }

  /** A byte of zero for uncompressed, and the length, most significant byte first. */
  lemma PrefixLayout(len: nat)
    requires len < TWO_32
    ensures var p := Prefix(len);
      p[0] == 0 && len == p[1] as int * 16777216 + p[2] as int * 65536 + p[3] as int * 256 + p[4] as int
  {
    BigEndianBack(len);
    assert Prefix(len)[1..] == BigEndian(len);
  }

  function Frame(m: Bytes): Bytes
    requires |m| < TWO_32
  {
    Prefix(|m|) + m
  }

  predicate Sendable(ms: seq<Bytes>, limit: nat) {
    forall k :: 0 <= k < |ms| ==> |ms[k]| <= limit && |ms[k]| < TWO_32
  }

  function Wire(ms: seq<Bytes>): Bytes
    requires forall k :: 0 <= k < |ms| ==> |ms[k]| < TWO_32
  {
    if ms == [] then [] else Frame(ms[0]) + Wire(ms[1..])
  }

  /** A prefix that the length field cannot describe is refused. `spare` is what the buffer
      has room for behind `dst`: with fewer than five bytes it is replaced by a new one, and
      what it held is gone. So it appends if and only if there is room, or nothing to lose. */
  method AppendMessagePrefix(dst: Bytes, spare: nat, len: nat) returns (ok: bool, out: Bytes)
    ensures ok <==> len < TWO_32
    ensures ok ==> (out == dst + Prefix(len) <==> dst == [] || spare >= PREFIX)
    ensures ok && spare < PREFIX ==> out == Prefix(len)
  {
    if len > 0xffff_ffff {
      return false, [];
    }
    out := if spare < PREFIX then [] else dst;
    out := out + [0];
    out := out + BigEndian(len);
    ok := true;
    assert spare < PREFIX ==> out == Prefix(len) && |dst + Prefix(len)| == |dst| + |out|;
  }

  method AppendMessage(dst: Bytes, m: Bytes) returns (ok: bool, out: Bytes)
    ensures ok <==> |m| < TWO_32
    ensures ok ==> out == dst + Frame(m)
  {
    if |m| > 0xffff_ffff {
      return false, [];
    }
    out := dst + [0];
    out := out + BigEndian(|m|);
    out := out + m;
    ok := true;
  }

  // ------------------------------------------------------------------ parsing

  datatype Parsed = More | Compressed | TooLarge | Message(m: Bytes, rest: Bytes)

  /** What the pending bytes begin with. */
  function Parse(b: Bytes, limit: nat): Parsed {
    if |b| < PREFIX then More
    else if b[0] != 0 then Compressed
    else
      var n := FromBigEndian(b[1..PREFIX]);
      if n > limit then TooLarge
      else if |b| - PREFIX < n then More
      else Message(b[PREFIX..PREFIX + n], b[PREFIX + n..])
  }

  /** Bytes that begin with a framed message, or break off inside one. */
  lemma ParseFrame(b: Bytes, m: Bytes, after: Bytes, limit: nat)
    requires |m| < TWO_32 && |m| <= limit && b <= Frame(m) + after
    ensures |b| < |Frame(m)| ==> Parse(b, limit) == More
    ensures |b| >= |Frame(m)| ==> Parse(b, limit) == Message(m, b[|Frame(m)|..]) && b[|Frame(m)|..] <= after
  {
    var w := Frame(m) + after;
    if |b| >= PREFIX {
      assert w[..PREFIX] == Prefix(|m|);
      assert b[..PREFIX] == Prefix(|m|);
      assert b[0] == Prefix(|m|)[0] == 0;
      assert b[1..PREFIX] == b[..PREFIX][1..] == BigEndian(|m|);
      BigEndianBack(|m|);
      if |b| >= |Frame(m)| {
        assert b[PREFIX..PREFIX + |m|] == w[PREFIX..PREFIX + |m|] == m;
        assert b[|Frame(m)|..] == w[|Frame(m)|..|b|];
        assert w[|Frame(m)|..] == after;
      }
    }
  }

  /** A message above the limit is refused by its prefix, before its bytes are awaited. */
  lemma OversizeIsRefused(b: Bytes, m: Bytes, after: Bytes, limit: nat)
    requires limit < |m| < TWO_32 && b <= Frame(m) + after
    ensures Parse(b, limit) == if |b| < PREFIX then More else TooLarge
  {
    if |b| >= PREFIX {
      assert (Frame(m) + after)[..PREFIX] == Prefix(|m|);
      assert b[..PREFIX] == Prefix(|m|);
      assert b[0] == Prefix(|m|)[0] == 0;
      assert b[1..PREFIX] == b[..PREFIX][1..] == BigEndian(|m|);
      BigEndianBack(|m|);
    }
  }

  /** The bytes begin with an uncompressed prefix that declares this length. */
  predicate Declares(b: Bytes, n: nat) {
    n < TWO_32 && Prefix(n) <= b
  }

  lemma DeclaredIs(b: Bytes, n: nat)
    requires |b| >= PREFIX && b[0] == 0
    ensures Declares(b, FromBigEndian(b[1..PREFIX]))
    ensures Declares(b, n) ==> n == FromBigEndian(b[1..PREFIX])
  {
    FromBigEndianBack(b[1..PREFIX]);
    assert b[..PREFIX] == [0] + b[1..PREFIX];
    if Declares(b, n) {
      assert b[..PREFIX] == Prefix(n);
      assert b[1..PREFIX] == b[..PREFIX][1..] == BigEndian(n);
      BigEndianBack(n);
    }
  }

  /** Of any bytes whatever: a message is delivered if and only if they begin with the frame
      of that message and it is within the limit. A whole prefix is refused as compressed if
      and only if its first byte is not 0, and as too large if and only if it declares more
      than the limit. Otherwise more is asked for, and only short of a whole frame. */
  lemma ParseIsExact(b: Bytes, limit: nat)
    ensures forall m, rest ::
      Parse(b, limit) == Message(m, rest) <==> |m| < TWO_32 && |m| <= limit && b == Frame(m) + rest
    ensures Parse(b, limit).Compressed? <==> |b| >= PREFIX && b[0] != 0
    ensures Parse(b, limit).TooLarge? <==> exists n: nat :: Declares(b, n) && n > limit
    ensures Parse(b, limit).More? <==>
      |b| < PREFIX || exists n: nat :: Declares(b, n) && n <= limit && |b| < PREFIX + n
  {
    forall m, rest
      ensures Parse(b, limit) == Message(m, rest) <==> |m| < TWO_32 && |m| <= limit && b == Frame(m) + rest
    {
      ParseMessage(b, m, rest, limit);
    }
    forall n: nat | Declares(b, n)
      ensures b[0] == 0 && n == FromBigEndian(b[1..PREFIX])
    {
      assert b[0] == Prefix(n)[0];
      DeclaredIs(b, n);
    }
    if |b| >= PREFIX && b[0] == 0 {
      DeclaredIs(b, 0);
    }
  }

  lemma ParseMessage(b: Bytes, m: Bytes, rest: Bytes, limit: nat)
    ensures Parse(b, limit) == Message(m, rest) <==> |m| < TWO_32 && |m| <= limit && b == Frame(m) + rest
  {
    if Parse(b, limit) == Message(m, rest) {
      DeclaredIs(b, |m|);
      assert b == b[..PREFIX] + b[PREFIX..PREFIX + |m|] + b[PREFIX + |m|..];
    } else if |m| < TWO_32 && |m| <= limit && b == Frame(m) + rest {
      ParseFrame(b, m, rest, limit);
    }
  }

  // ------------------------------------------------------------------ decoding

  datatype Op = Feed(chunk: Bytes) | Ask

  datatype State = State(pending: Bytes, out: seq<Bytes>, failed: bool)

  function Act(s: State, op: Op, limit: nat): State {
    match op
    case Feed(chunk) => s.(pending := s.pending + chunk)
    case Ask =>
      match Parse(s.pending, limit)
      case More => s
      case Message(m, rest) => s.(pending := rest, out := s.out + [m])
      case _ => s.(failed := true)
  }

  function Run(s: State, ops: seq<Op>, limit: nat): State
    decreases |ops|
  {
    if ops == [] then s else Run(Act(s, ops[0], limit), ops[1..], limit)
  }

  function Fed(ops: seq<Op>): Bytes {
    if ops == [] then [] else (if ops[0].Feed? then ops[0].chunk else []) + Fed(ops[1..])
  }

  /** Where a stream of messages stands: some delivered, the rest begun by what is pending. */
  predicate Begun(s: State, ms: seq<Bytes>) {
    && (forall k :: 0 <= k < |ms| ==> |ms[k]| < TWO_32)
    && s.out <= ms && s.pending <= Wire(ms[|s.out|..])
  }

  predicate OnTrack(s: State, ms: seq<Bytes>, limit: nat) {
    Begun(s, ms) && Sendable(ms, limit) && !s.failed
  }

  /** The bytes that are still to come. */
  function ToCome(s: State, ms: seq<Bytes>): Bytes
    requires Begun(s, ms)
  {
    Wire(ms[|s.out|..])[|s.pending|..]
  }

  lemma AskOnTrack(s: State, ms: seq<Bytes>, limit: nat)
    requires OnTrack(s, ms, limit)
    ensures OnTrack(Act(s, Ask, limit), ms, limit)
    ensures ToCome(Act(s, Ask, limit), ms) == ToCome(s, ms)
    ensures s.pending == Wire(ms[|s.out|..]) && s.out != ms ==> |Act(s, Ask, limit).out| == |s.out| + 1
  {
    var k := |s.out|;
    if k < |ms| {
      var left := ms[k..];
      assert left[1..] == ms[k + 1..];
      ParseFrame(s.pending, left[0], Wire(left[1..]), limit);
      var t := Act(s, Ask, limit);
      if |s.pending| >= |Frame(left[0])| {
        assert s.out + [ms[k]] == ms[..k + 1];
        var f := |Frame(left[0])|;
        assert Wire(left)[|s.pending|..] == Wire(left[1..])[|s.pending| - f..];
      }
    }
  }

  lemma FeedOnTrack(s: State, ms: seq<Bytes>, limit: nat, chunk: Bytes)
    requires OnTrack(s, ms, limit) && chunk <= ToCome(s, ms)
    ensures OnTrack(Act(s, Feed(chunk), limit), ms, limit)
    ensures ToCome(Act(s, Feed(chunk), limit), ms) == ToCome(s, ms)[|chunk|..]
  {
    var w := Wire(ms[|s.out|..]);
    assert w == s.pending + ToCome(s, ms);
    assert s.pending + chunk == w[..|s.pending| + |chunk|];
  }

  lemma {:induction false} RunOnTrack(s: State, ops: seq<Op>, ms: seq<Bytes>, limit: nat)
    requires OnTrack(s, ms, limit) && Fed(ops) <= ToCome(s, ms)
    ensures OnTrack(Run(s, ops, limit), ms, limit)
    ensures ToCome(Run(s, ops, limit), ms) == ToCome(s, ms)[|Fed(ops)|..]
    decreases |ops|
  {
    if ops != [] {
      var t := Act(s, ops[0], limit);
      match ops[0]
      case Feed(chunk) =>
        assert chunk == Fed(ops)[..|chunk|];
        FeedOnTrack(s, ms, limit, chunk);
        assert Fed(ops[1..]) == Fed(ops)[|chunk|..];
        RunOnTrack(t, ops[1..], ms, limit);
      case Ask =>
        AskOnTrack(s, ms, limit);
        assert Fed(ops) == Fed(ops[1..]);
        RunOnTrack(t, ops[1..], ms, limit);
    }
  }

  const FRESH := State([], [], false)

  lemma {:induction false} WireConcat(ms: seq<Bytes>, m: Bytes)
    requires |m| < TWO_32 && forall k :: 0 <= k < |ms| ==> |ms[k]| < TWO_32
    ensures Wire(ms + [m]) == Wire(ms) + Frame(m)
  {
    if ms == [] {
      assert [m][1..] == [] && Frame(m) + [] == Frame(m);
    } else {
      assert (ms + [m])[1..] == ms[1..] + [m];
      WireConcat(ms[1..], m);
    }
  }

  /** The bytes begin with a prefix that is compressed or declares more than the limit. */
  ghost predicate Refused(b: Bytes, limit: nat) {
    |b| >= PREFIX && (b[0] != 0 || exists n: nat :: Declares(b, n) && n > limit)
  }

  /** The bytes that have come in are those of the messages delivered, and what is pending. */
  ghost predicate Accounted(s: State, fed: Bytes, limit: nat) {
    && Sendable(s.out, limit)
    && fed == Wire(s.out) + s.pending
    && (s.failed ==> Refused(s.pending, limit))
  }

  lemma AskAccounted(s: State, fed: Bytes, limit: nat)
    requires Accounted(s, fed, limit)
    ensures Accounted(Act(s, Ask, limit), fed, limit)
  {
    ParseIsExact(s.pending, limit);
    match Parse(s.pending, limit)
    case Message(m, rest) =>
      WireConcat(s.out, m);
      assert Wire(s.out) + (Frame(m) + rest) == Wire(s.out) + Frame(m) + rest;
    case _ =>
  }

  lemma FeedAccounted(s: State, fed: Bytes, limit: nat, chunk: Bytes)
    requires Accounted(s, fed, limit)
    ensures Accounted(Act(s, Feed(chunk), limit), fed + chunk, limit)
  {
    assert Wire(s.out) + s.pending + chunk == Wire(s.out) + (s.pending + chunk);
    if s.failed && s.pending[0] == 0 {
      var n: nat :| Declares(s.pending, n) && n > limit;
      assert Declares(s.pending + chunk, n);
    }
  }

  lemma {:induction false} RunAccounted(s: State, fed: Bytes, ops: seq<Op>, limit: nat)
    requires Accounted(s, fed, limit)
    ensures Accounted(Run(s, ops, limit), fed + Fed(ops), limit)
    decreases |ops|
  {
    if ops == [] {
      assert fed + [] == fed;
    } else {
      match ops[0]
      case Feed(chunk) =>
        FeedAccounted(s, fed, limit, chunk);
        RunAccounted(Act(s, ops[0], limit), fed + chunk, ops[1..], limit);
        assert fed + chunk + Fed(ops[1..]) == fed + Fed(ops);
      case Ask =>
        AskAccounted(s, fed, limit);
        assert Fed(ops) == Fed(ops[1..]);
        RunAccounted(Act(s, ops[0], limit), fed, ops[1..], limit);
    }
  }

  /** Whatever bytes come in, cut and asked for in any way: they are the frames of the
      messages delivered, none above the limit, followed by what is pending; and the next
      question fails if and only if that begins with a prefix that is compressed or declares
      too much. */
  lemma NothingElseComesThrough(limit: nat, ops: seq<Op>)
    ensures var s := Run(FRESH, ops, limit);
      && Accounted(s, Fed(ops), limit)
      && (Act(s, Ask, limit).failed <==> Refused(s.pending, limit))
  {
    assert [] + Fed(ops) == Fed(ops);
    RunAccounted(FRESH, [], ops, limit);
    ParseIsExact(Run(FRESH, ops, limit).pending, limit);
  }

  /** However the bytes of some messages are cut into chunks and however the questions fall
      between them, the decoder never fails and what it has delivered are the first of those
      messages. Once all the bytes are in and it has nothing more to give, they are all of
      them. */
  lemma MessagesComeThrough(ms: seq<Bytes>, limit: nat, ops: seq<Op>)
    requires Sendable(ms, limit) && Fed(ops) <= Wire(ms)
    ensures var s := Run(FRESH, ops, limit);
      && !s.failed && s.out <= ms
      && (Fed(ops) == Wire(ms) && Act(s, Ask, limit) == s ==> s.out == ms && s.pending == [])
  {
    assert ms[0..] == ms && Wire(ms)[0..] == Wire(ms);
    assert OnTrack(FRESH, ms, limit);
    RunOnTrack(FRESH, ops, ms, limit);
    var s := Run(FRESH, ops, limit);
    if Fed(ops) == Wire(ms) {
      assert ToCome(s, ms) == [];
      assert s.pending == Wire(ms[|s.out|..]);
      AskOnTrack(s, ms, limit);
    }
  }

  /** `slab` is the pooled buffer behind a borrowed chunk; a cold pool has none to give. */
  datatype Slab = NoSlab | Slab(name: nat)

  class Decoder {
    var buf: Bytes
    var off: nat
    var max: int
    var own: Bytes
    var borrowed: Slab
    var borrowing: bool
    var returned: seq<Slab>          // slabs handed back, in order
    ghost var accepted: seq<Slab>    // slabs taken over, in order

    ghost predicate Valid()
      reads this
    {
      && off <= |buf|
      && (!borrowing ==> buf == own)
      && accepted == returned + (if borrowing then [borrowed] else [])
    }

    ghost function Pending(): Bytes
      requires Valid()
      reads this
    {
      buf[off..]
    }

    function Limit(): (r: nat)
      reads this
      ensures max > 0 ==> r == max
      ensures max <= 0 ==> r == DEFAULT_MAX
    {
      if max <= 0 then DEFAULT_MAX else max
    }

    constructor (limit: int)
      ensures Valid() && Pending() == [] && accepted == [] && max == limit
    {
      buf, off, max, own, borrowed, borrowing, returned := [], 0, limit, [], NoSlab, false, [];
      accepted := [];
    }

    /** What is undelivered moves to the decoder's own buffer; the slab goes back. */
    method EndBorrow()
      requires Valid()
      modifies this`buf, this`off, this`own, this`borrowed, this`borrowing, this`returned
      ensures Valid() && !borrowing && Pending() == old(Pending())
      ensures returned == accepted
    {
      if !borrowing {
        return;
      }
      own := buf[off..];
      buf, off := own, 0;
      returned := returned + [borrowed];
      borrowed, borrowing := NoSlab, false;
    }

    /** Taken exactly when nothing is pending; the bytes then are the chunk's own. */
    method PushBorrowed(chunk: Bytes, slab: Slab) returns (taken: bool)
      requires Valid()
      modifies this
      ensures Valid() && max == old(max)
      ensures taken <==> chunk != [] && old(Pending()) == []
      ensures Pending() == if taken then old(Pending()) + chunk else old(Pending())
      ensures accepted == if taken then old(accepted) + [slab] else old(accepted)
      ensures returned == if taken then old(accepted) else old(returned)
    {
      if |chunk| == 0 || |buf| - off != 0 {
        return false;
      }
      EndBorrow();
      buf, off := chunk, 0;
      borrowed, borrowing := slab, true;
      accepted := accepted + [slab];
      return true;
    }

    /** Slides what is undelivered to the front once half the buffer is spent. */
    method Compact()
      requires Valid() && !borrowing
      modifies this`buf, this`off, this`own
      ensures Valid() && Pending() == old(Pending())
      ensures off == 0 || off * 2 < |own|
    {
      if off == 0 {
        return;
      }
      if off == |own| {
        own := [];
        buf, off := own, 0;
      } else if off * 2 >= |own| {
        own := own[off..];
        buf, off := own, 0;
      }
    }

    /** The chunk is copied, and the buffer is never more than twice what it holds. */
    method Push(chunk: Bytes)
      requires Valid()
      modifies this
      ensures Valid() && max == old(max) && Pending() == old(Pending()) + chunk
      ensures accepted == old(accepted)
      ensures chunk != [] ==> !borrowing && returned == accepted && |own| <= 2 * |Pending()|
    {
      if |chunk| == 0 {
        return;
      }
      EndBorrow();
      Compact();
      own := own + chunk;
      buf := own;
    }

    method Next() returns (r: Parsed)
      requires Valid()
      modifies this`off
      ensures Valid()
      ensures r == Parse(old(Pending()), Limit())
      ensures Pending() == if r.Message? then r.rest else old(Pending())
      ensures r.Message? ==> |r.m| < TWO_32 && |r.m| <= Limit() && old(Pending()) == Frame(r.m) + Pending()
    {
      var avail := buf[off..];
      if |avail| < PREFIX {
        return More;
      }
      if avail[0] != 0 {
        return Compressed;
      }
      var n := FromBigEndian(avail[1..PREFIX]);
      if n > Limit() {
        return TooLarge;
      }
      if |avail| - PREFIX < n {
        return More;
      }
      off := off + PREFIX + n;
      assert buf[off..] == avail[PREFIX + n..];
      ParseIsExact(avail, Limit());
      return Message(avail[PREFIX..PREFIX + n], avail[PREFIX + n..]);
    }

    /** After this every slab ever accepted has been returned once. */
    method Release()
      requires Valid()
      modifies this
      ensures Valid() && returned == accepted == old(accepted) && Pending() == old(Pending())
    {
      EndBorrow();
    }
  }

  /** One call of the decoder as the specification sees it. */
  method Perform(d: Decoder, op: Op, borrow: bool, slab: Slab, ghost s: State) returns (r: Parsed, ghost t: State)
    requires d.Valid() && s.pending == d.Pending()
    modifies d
    ensures d.Valid() && d.max == old(d.max)
    ensures t == Act(s, op, d.Limit()) && t.pending == d.Pending()
    ensures op.Ask? ==> r == Parse(s.pending, d.Limit())
  {
    t := Act(s, op, d.Limit());
    r := More;
    match op
    case Feed(chunk) =>
      var taken := false;
      if borrow {
        taken := d.PushBorrowed(chunk, slab);
      }
      if !taken {
        d.Push(chunk);
      }
    case Ask =>
      r := d.Next();
  }
}
