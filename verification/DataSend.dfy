/** Sending DATA: the cursor over the caller's buffers and the loops that walk it. */
module DataSend {
  import opened FixedWidth
  import opened FrameCodec
  import opened Basics
  import opened SendCredit
  import opened DataFrames

  const PAD_MAX := 256

  /** The windows a writer finds when its wait for credit is over. A send that stops finding
      any was cancelled, reset or lost its connection; `lost` says that the stream turned out
      to be gone after the credit had been taken. */
  datatype Turn = Turn(stream: int, conn: int, lost: bool)

  predicate Ready(t: Turn, pad: nat) {
    && pad < t.stream <= MAX_WINDOW
    && pad < t.conn <= MAX_WINDOW
  }

  /** What one turn gives a send with `rem` bytes left. */
  function Grant(t: Turn, rem: nat, limit: nat, pad: nat): (n: nat)
    requires 0 < limit <= MAX_WINDOW && pad <= MAX_WINDOW && rem > 0 && Ready(t, pad)
    ensures 0 < n <= rem && n <= limit && n + pad <= t.stream && n + pad <= t.conn
    // and no less than that
    ensures n == rem || n == limit || n + pad == t.stream || n + pad == t.conn
  {
    Acquire(t.stream, t.conn, Min(rem, limit), pad)
  }

  predicate AllReady(turns: seq<Turn>, pad: nat) {
    forall k :: 0 <= k < |turns| ==> Ready(turns[k], pad)
  }

  /** The grants of a send that asks for what is left, a frame at a time. */
  function Grants(rem: nat, limit: nat, pad: nat, turns: seq<Turn>): (g: seq<nat>)
    requires 0 < limit <= MAX_WINDOW && pad <= MAX_WINDOW && AllReady(turns, pad)
    ensures forall k :: 0 <= k < |g| ==> g[k] > 0
  {
    if rem == 0 || turns == [] || turns[0].lost then []
    else
      var n := Grant(turns[0], rem, limit, pad);
      [n] + Grants(rem - n, limit, pad, turns[1..])
  }

  /** The frames of that send. */
  function Sent(p: seq<Byte>, limit: nat, pad: nat, end: bool, turns: seq<Turn>): seq<Frame>
    requires 0 < limit <= MAX_WINDOW && pad <= MAX_WINDOW && AllReady(turns, pad)
  {
    if p == [] || turns == [] || turns[0].lost then []
    else
      var n := Grant(turns[0], |p|, limit, pad);
      [Frame(p[..n], n + pad, end && n == |p|)] + Sent(p[n..], limit, pad, end, turns[1..])
  }

  /** They are the payload cut by those grants: all that depends on how the payload was
      split into buffers is how it is read. */
  lemma {:induction false} SentIsCut(p: seq<Byte>, limit: nat, pad: nat, end: bool, turns: seq<Turn>)
    requires 0 < limit <= MAX_WINDOW && pad <= MAX_WINDOW && AllReady(turns, pad)
    ensures Sent(p, limit, pad, end, turns) == Cut(p, limit, pad, end, Grants(|p|, limit, pad, turns))
    decreases |turns|
  {
    if p != [] && turns != [] && !turns[0].lost {
      var n := Grant(turns[0], |p|, limit, pad);
      var g := Grants(|p|, limit, pad, turns);
      assert g[1..] == Grants(|p[n..]|, limit, pad, turns[1..]);
      SentIsCut(p[n..], limit, pad, end, turns[1..]);
    }
  }

  /** The largest payload that fits a frame beside its padding. */
  function Effective(maxFrame: nat, pad: nat): (r: nat)
    requires FRAME_FLOOR <= maxFrame <= FRAME_CEIL && pad <= PAD_MAX
    ensures r > 0 && r + pad == maxFrame
  {
    if 0 < pad < maxFrame then maxFrame - pad else maxFrame
  }

  /** The bytes from an offset of one buffer on. */
  function RestOf(bufs: seq<seq<Byte>>, i: nat, off: nat): seq<Byte> {
    if i < |bufs| && off <= |bufs[i]| then bufs[i][off..] + Join(bufs[i + 1..]) else []
  }

  lemma RestAtStart(bufs: seq<seq<Byte>>)
    ensures RestOf(bufs, 0, 0) == Join(bufs)
  {
    if bufs != [] {
      assert bufs[0][0..] == bufs[0];
    }
  }

  lemma SkipBuffer(bufs: seq<seq<Byte>>, i: nat)
    requires i < |bufs|
    ensures RestOf(bufs, i, |bufs[i]|) == RestOf(bufs, i + 1, 0)
  {
    if i + 1 < |bufs| {
      assert bufs[i + 1..][1..] == bufs[i + 2..];
      assert bufs[i + 1][0..] == bufs[i + 1];
    }
  }

  lemma TakePiece(bufs: seq<seq<Byte>>, i: nat, off: nat, take: nat)
    requires i < |bufs| && off + take <= |bufs[i]|
    ensures RestOf(bufs, i, off) == bufs[i][off..off + take] + RestOf(bufs, i, off + take)
  {
    var b, later := bufs[i], Join(bufs[i + 1..]);
    SplitAt(b[off..], take);
    assert b[off..][..take] == b[off..off + take] && b[off..][take..] == b[off + take..];
    Regroup(b[off..off + take], b[off + take..], later);
  }

  lemma SplitAt(s: seq<Byte>, k: nat)
    requires k <= |s|
    ensures s == s[..k] + s[k..]
  {
  }

  lemma Shifted(done: seq<Byte>, before: seq<Byte>, piece: seq<Byte>, after: seq<Byte>)
    requires before == piece + after
    ensures done + before == (done + piece) + after
    ensures piece == [] ==> before == after
  {
  }

  class DataVec {
    var scalar: bool
    var single: seq<Byte>
    var bufs: seq<seq<Byte>>
    var i: nat
    var off: nat
    var rem: int

    /** What the cursor has not handed out. */
    ghost function Rest(): seq<Byte>
      reads this
    {
      if scalar then RestOf([single], 0, off) else RestOf(bufs, i, off)
    }

    ghost predicate Valid()
      reads this
    {
      && (scalar ==> off <= |single|)
      && (!scalar ==> i <= |bufs| && (i < |bufs| ==> off <= |bufs[i]|))
      && rem == |Rest()|
    }

    constructor Single(p: seq<Byte>)
      ensures Valid() && Rest() == p
    {
      scalar, single, bufs, i, off, rem := true, p, [], 0, 0, |p|;
      new;
      RestAtStart([p]);
      assert Join([p]) == p + [];
    }

    constructor Vector(parts: seq<seq<Byte>>)
      ensures Valid() && Rest() == Join(parts)
    {
      scalar, single, bufs, i, off := false, [], parts, 0, 0;
      var total := 0;
      for k := 0 to |parts|
        invariant total == |Join(parts)| - |Join(parts[k..])|
      {
        total := total + |parts[k]|;
        assert parts[k..][1..] == parts[k + 1..];
      }
      rem := total;
      new;
      assert parts[|parts|..] == [];
      RestAtStart(parts);
    }

    method NextSingle(n: nat) returns (segs: seq<seq<Byte>>, got: nat)
      requires Valid() && scalar
      modifies this`off, this`rem
      ensures Valid() && got == Min(n, |old(Rest())|)
      ensures Join(segs) == old(Rest())[..got]
      ensures Rest() == old(Rest())[got..]
    {
      segs := [];
      var take: int := n;
      if take > rem {
        take := rem;
      }
      if take > 0 {
        segs := [single[off..off + take]];
        assert Join(segs) == segs[0] + [];
        TakePiece([single], 0, off, take);
        off := off + take;
        rem := rem - take;
      }
      got := take;
    }

    ghost predicate Placed()
      reads this
    {
      !scalar && i <= |bufs| && (i < |bufs| ==> off <= |bufs[i]|)
    }

    /** One turn of the loop: past a spent buffer, or a piece of the one the cursor is in. */
    method Advance(room: nat) returns (piece: seq<Byte>)
      requires Placed() && i < |bufs| && room > 0
      modifies this`i, this`off
      ensures Placed() && |piece| <= room
      ensures old(Rest()) == piece + Rest()
      ensures if piece == [] then i == old(i) + 1 else i == old(i)
    {
      var b := bufs[i];
      if off >= |b| {
        SkipBuffer(bufs, i);
        i, off := i + 1, 0;
        return [];
      }
      var take := |b| - off;
      if take > room {
        take := room;
      }
      piece := b[off..off + take];
      TakePiece(bufs, i, off, take);
      off := off + take;
    }

    method Walk(n: nat) returns (segs: seq<seq<Byte>>, got: nat)
      requires Placed()
      modifies this`i, this`off
      ensures Placed() && got == |Join(segs)| <= n
      ensures Join(segs) + Rest() == old(Rest())
      ensures got < n ==> Rest() == []
    {
      segs, got := [], 0;
      while got < n && i < |bufs|
        invariant Placed() && got == |Join(segs)| <= n
        invariant Join(segs) + Rest() == old(Rest())
        decreases |bufs| - i, n - got
      {
        ghost var before := Rest();
        var piece := Advance(n - got);
        Shifted(Join(segs), before, piece, Rest());
        if piece != [] {
          JoinAppend(segs, piece);
          segs, got := segs + [piece], got + |piece|;
        }
      }
    }

    /** Pieces of the caller's buffers that cover the next `n` bytes, or all that is left. */
    method Next(n: nat) returns (segs: seq<seq<Byte>>, got: nat)
      requires Valid()
      modifies this`i, this`off, this`rem
      ensures Valid()
      ensures got == Min(n, |old(Rest())|)
      ensures Join(segs) == old(Rest())[..got]
      ensures Rest() == old(Rest())[got..]
    {
      if scalar {
        segs, got := NextSingle(n);
      } else {
        segs, got := Walk(n);
        rem := rem - got;
      }
    }
  }

  /** The length of the whole, unless it overflows the machine's integer. */
  method Measure(bufs: seq<seq<Byte>>) returns (total: int, ok: bool)
    requires forall k :: 0 <= k < |bufs| ==> |bufs[k]| < TWO_63
    ensures ok <==> |Join(bufs)| < TWO_63
    ensures ok ==> total == |Join(bufs)|
  {
    total := 0;
    for k := 0 to |bufs|
      invariant 0 <= total < TWO_63 && total + |Join(bufs[k..])| == |Join(bufs)|
    {
      assert bufs[k..][1..] == bufs[k + 1..];
      var next := ToInt64(total + |bufs[k]|);
      if next < 0 {
        return next, false;
      }
      total := next;
    }
    ok := true;
  }

  /** One frame over the next `n` bytes. The cursor never comes up short of a length it was
      asked for, so the frame's header never disagrees with its payload. */
  method EmitFrame(v: DataVec, n: nat, last: bool, pad: nat) returns (f: Frame)
    requires v.Valid() && n <= v.rem
    modifies v
    ensures v.Valid() && v.Rest() == old(v.Rest())[n..]
    ensures f == Frame(old(v.Rest())[..n], n + pad, last)
  {
    var segs, got := v.Next(n);
    assert got == n;
    f := Frame(Join(segs), n + pad, last);
  }

  method TakeAndEmit(v: DataVec, t: Turn, limit: nat, pad: nat, end: bool) returns (f: Frame, n: nat)
    requires v.Valid() && v.rem > 0 && 0 < limit <= MAX_WINDOW && pad <= PAD_MAX && Ready(t, pad)
    modifies v
    ensures n == Grant(t, old(v.rem), limit, pad)
    ensures v.Valid() && v.Rest() == old(v.Rest())[n..]
    ensures f == Frame(old(v.Rest())[..n], n + pad, end && n == old(v.rem))
  {
    var want := v.rem;
    if want > limit {
      want := limit;
    }
    n := Acquire(t.stream, t.conn, want, pad);
    f := EmitFrame(v, n, end && n == v.rem, pad);
  }

  /** What is out and what is to come make up the whole, and what is out has been paid. */
  predicate Underway(frames: seq<Frame>, debited: nat, rest: seq<Byte>, limit: nat, pad: nat, end: bool,
                     left: seq<Turn>, whole: seq<Frame>)
    requires 0 < limit <= MAX_WINDOW && pad <= MAX_WINDOW
  {
    && AllReady(left, pad) && debited == Cost(frames)
    && frames + Sent(rest, limit, pad, end, left) == whole
  }

  /** Some grant finds, when its frame is about to go out, that the stream is gone. */
  predicate SomeLost(turns: seq<Turn>) {
    exists k :: 0 <= k < |turns| && turns[k].lost
  }

  lemma LostLater(turns: seq<Turn>)
    requires turns != []
    ensures SomeLost(turns[1..]) ==> SomeLost(turns)
  {
    if SomeLost(turns[1..]) {
      var k :| 0 <= k < |turns[1..]| && turns[1..][k].lost;
      assert turns[k + 1].lost;
    }
  }

  method SendGranted(v: DataVec, limit: nat, pad: nat, end: bool, turns: seq<Turn>)
    returns (frames: seq<Frame>, debited: nat, left: seq<Turn>)
    requires v.Valid() && 0 < limit <= MAX_WINDOW && pad <= PAD_MAX && AllReady(turns, pad)
    modifies v
    ensures v.Valid()
    ensures Underway(frames, debited, v.Rest(), limit, pad, end, left, Sent(old(v.Rest()), limit, pad, end, turns))
    ensures v.Rest() == [] || left == [] || left[0].lost
    ensures SomeLost(left) ==> SomeLost(turns)
  {
    frames, debited, left := [], 0, turns;
    ghost var whole := Sent(v.Rest(), limit, pad, end, turns);
    while v.rem > 0 && left != [] && !left[0].lost
      invariant v.Valid() && Underway(frames, debited, v.Rest(), limit, pad, end, left, whole)
      invariant SomeLost(left) ==> SomeLost(turns)
      decreases |left|
    {
      ghost var p := v.Rest();
      var f, n := TakeAndEmit(v, left[0], limit, pad, end);
      SentOne(frames, p, limit, pad, end, left, f, n);
      LostLater(left);
      frames, debited, left := frames + [f], debited + n + pad, left[1..];
    }
  }

  /** The send loop: ask for a frame's worth of credit, send what was granted. What it is
      debited it has sent, but for the grant of a stream that was found gone. */
  method SendLoop(v: DataVec, limit: nat, pad: nat, end: bool, turns: seq<Turn>)
    returns (frames: seq<Frame>, debited: nat, wasted: nat)
    requires v.Valid() && 0 < limit <= MAX_WINDOW && pad <= PAD_MAX && AllReady(turns, pad)
    modifies v
    ensures v.Valid()
    ensures frames == Sent(old(v.Rest()), limit, pad, end, turns)
    ensures wasted == 0 || (v.Rest() != [] && SomeLost(turns))
    ensures debited == Cost(frames) + wasted
  {
    var left;
    frames, debited, left := SendGranted(v, limit, pad, end, turns);
    SentNone(frames, v.Rest(), limit, pad, end, left);
    wasted := 0;
    if v.rem > 0 && left != [] {
      wasted := Grant(left[0], v.rem, limit, pad) + pad;
      debited := debited + wasted;
    }
  }

  lemma SentOne(done: seq<Frame>, p: seq<Byte>, limit: nat, pad: nat, end: bool, turns: seq<Turn>, f: Frame, n: nat)
    requires 0 < limit <= MAX_WINDOW && pad <= MAX_WINDOW && AllReady(turns, pad)
    requires p != [] && turns != [] && !turns[0].lost && n == Grant(turns[0], |p|, limit, pad)
    requires f == Frame(p[..n], n + pad, end && n == |p|)
    ensures AllReady(turns[1..], pad)
    ensures done + Sent(p, limit, pad, end, turns) == (done + [f]) + Sent(p[n..], limit, pad, end, turns[1..])
    ensures Cost(done + [f]) == Cost(done) + n + pad
  {
    CostAppend(done, f);
  }

  lemma SentNone(done: seq<Frame>, p: seq<Byte>, limit: nat, pad: nat, end: bool, turns: seq<Turn>)
    requires 0 < limit <= MAX_WINDOW && pad <= MAX_WINDOW && AllReady(turns, pad)
    requires p == [] || turns == [] || turns[0].lost
    ensures done + Sent(p, limit, pad, end, turns) == done
  {
  }

  /** An empty payload is at most a bare END_STREAM, which needs no credit. */
  method WriteDataVec(v: DataVec, maxFrame: nat, pad: nat, end: bool, turns: seq<Turn>)
    returns (frames: seq<Frame>, debited: nat, done: bool)
    requires v.Valid() && FRAME_FLOOR <= maxFrame <= FRAME_CEIL && pad <= PAD_MAX && AllReady(turns, pad)
    modifies v
    ensures v.Valid()
    ensures old(v.Rest()) == [] ==> done && debited == 0 && frames == if end then [Frame([], 0, true)] else []
    ensures old(v.Rest()) != [] ==> frames == Sent(old(v.Rest()), Effective(maxFrame, pad), pad, end, turns)
    ensures done <==> v.Rest() == []
    ensures debited >= Cost(frames) && (done || !SomeLost(turns) ==> debited == Cost(frames))
  {
    if v.rem == 0 {
      return if end then [Frame([], 0, true)] else [], 0, true;
    }
    var wasted;
    frames, debited, wasted := SendLoop(v, Effective(maxFrame, pad), pad, end, turns);
    done := v.rem == 0;
  }

  lemma CutAllOne(sent: seq<Frame>, p: seq<Byte>, limit: nat, pad: nat, end: bool, n: nat)
    requires limit > 0 && p != [] && n == Min(|p|, limit)
    ensures sent + CutAll(p, limit, pad, end) ==
            (sent + [Frame(p[..n], n + pad, end && n == |p|)]) + CutAll(p[n..], limit, pad, end)
  {
  }

  /** The body of a fused or batched send, once its credit is in hand. */
  method EmitAll(v: DataVec, limit: nat, pad: nat, end: bool) returns (frames: seq<Frame>)
    requires v.Valid() && limit > 0
    modifies v
    ensures v.Valid() && v.Rest() == []
    ensures frames == CutAll(old(v.Rest()), limit, pad, end)
  {
    frames := [];
    ghost var whole := CutAll(v.Rest(), limit, pad, end);
    while v.rem > 0
      invariant v.Valid()
      invariant frames + CutAll(v.Rest(), limit, pad, end) == whole
      decreases v.rem
    {
      ghost var p := v.Rest();
      var n := Min(v.rem, limit);
      CutAllOne(frames, p, limit, pad, end, n);
      var f := EmitFrame(v, n, end && n == v.rem, pad);
      frames := frames + [f];
    }
    assert CutAll(v.Rest(), limit, pad, end) == [];
  }

  /** Asks for the whole cost of a body at once, frames and padding. */
  method TakeForBody(w: Sender, id: nat, rem: nat, limit: nat, pad: nat, found: Standing,
                     ghost p: seq<Byte>, ghost end: bool)
    returns (r: Credit, ghost cost: nat)
    requires w.Valid() && id in w.windows && rem == |p| > 0 && limit > 0
    modifies w`conn, w`windows
    ensures w.Valid() && cost == Cost(CutAll(p, limit, pad, end))
    ensures (r.Denied? <==> !found.MayGoOn?) && (r.Denied? ==> r.why == found)
    ensures r.Granted? <==> found.MayGoOn? && Covers(old(w.windows[id]), old(w.conn), cost, 0)
    ensures w.conn == old(w.conn) - (if r.Granted? then cost else 0)
    ensures w.windows == old(w.windows)[id := old(w.windows[id]) - (if r.Granted? then cost else 0)]
  {
    PaidInFull(p, limit, pad, end);
    cost := Cost(CutAll(p, limit, pad, end));
    var count := (rem + limit - 1) / limit;
    Padding(pad, count);
    r := w.TryAcquireAll(id, rem, pad * count, found);
  }

  /** All of the body or none of it: with the credit for every frame and its padding the
      two windows pay exactly what the frames cost, and without it nothing is touched. */
  method EmitBody(w: Sender, id: nat, v: DataVec, maxFrame: nat, pad: nat, end: bool, found: Standing)
    returns (r: Credit, frames: seq<Frame>)
    requires w.Valid() && id in w.windows && v.Valid() && v.rem > 0
    requires FRAME_FLOOR <= maxFrame <= FRAME_CEIL && pad <= PAD_MAX
    modifies w`conn, w`windows, v
    ensures w.Valid() && v.Valid()
    ensures var limit, p := Effective(maxFrame, pad), old(v.Rest());
      && (r.Denied? <==> !found.MayGoOn?) && (r.Denied? ==> r.why == found)
      && (r.Granted? <==>
            found.MayGoOn? && Covers(old(w.windows[id]), old(w.conn), Cost(CutAll(p, limit, pad, end)), 0))
      && frames == if r.Granted? then CutAll(p, limit, pad, end) else []
    ensures w.conn == old(w.conn) - Cost(frames)
    ensures w.windows == old(w.windows)[id := old(w.windows[id]) - Cost(frames)]
    ensures v.Rest() == if r.Granted? then [] else old(v.Rest())
  {
    var limit := Effective(maxFrame, pad);
    ghost var cost;
    r, cost := TakeForBody(w, id, v.rem, limit, pad, found, v.Rest(), end);
    frames := [];
    if r.Granted? {
      frames := EmitAll(v, limit, pad, end);
    }
  }

  datatype Fused = WholeSent | Slow | Stopped(why: Standing) | LostAfterDebit

  /** HEADERS and the whole body in one write, when the credit for all of it is there: then
      both windows pay exactly what the frames cost. Otherwise nothing is paid and the
      ordinary two writes are left to do it. Only a stream found gone after the HEADERS
      has paid for a body that does not go out, and no stream ever gets that back. */
  method WriteFused(w: Sender, id: nat, v: DataVec, maxFrame: nat, pad: nat, end: bool, found: Standing, lost: bool)
    returns (r: Fused, headers: bool, frames: seq<Frame>, ghost wasted: nat)
    requires w.Valid() && id in w.windows && v.Valid()
    requires FRAME_FLOOR <= maxFrame <= FRAME_CEIL && pad <= PAD_MAX
    modifies w`conn, w`windows, v
    ensures w.Valid() && v.Valid()
    ensures old(v.Rest()) == [] ==> r.WholeSent? && headers && frames == [] && wasted == 0
    ensures old(v.Rest()) != [] ==>
      var all := CutAll(old(v.Rest()), Effective(maxFrame, pad), pad, end);
      var covered := found.MayGoOn? && Covers(old(w.windows[id]), old(w.conn), Cost(all), 0);
      && (r.Stopped? <==> !found.MayGoOn?) && (r.Stopped? ==> r.why == found)
      && (r.Slow? <==> found.MayGoOn? && !covered)
      && (r.LostAfterDebit? <==> covered && lost)
      && headers == covered
      && frames == (if covered && !lost then all else [])
      && wasted == (if covered && lost then Cost(all) else 0)
    ensures w.conn == old(w.conn) - (Cost(frames) + wasted)
    ensures w.windows == old(w.windows)[id := old(w.windows[id]) - (Cost(frames) + wasted)]
    ensures v.Rest() == if r.WholeSent? then [] else old(v.Rest())
  {
    if v.rem == 0 {
      return WholeSent, true, [], 0;
    }
    var limit := Effective(maxFrame, pad);
    var credit, cost := TakeForBody(w, id, v.rem, limit, pad, found, v.Rest(), end);
    headers, frames, wasted := false, [], 0;
    match credit
    case Denied(why) => r := Stopped(why);
    case Short => r := Slow;
    case Granted =>
      headers := true;
      if lost {
        wasted := cost;
        r := LostAfterDebit;
      } else {
        frames := EmitAll(v, limit, pad, end);
        r := WholeSent;
      }
  }

  lemma Padding(pad: nat, count: nat)
    ensures pad * count >= 0
  {
  }
}
