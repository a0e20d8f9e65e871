/** How a payload is cut into DATA frames: the reference that the vectored, the fused and
    the batched send paths are measured against. */
module DataFrames {
  import opened FixedWidth
  import opened Basics

  /** `len` is the Length field, the payload with its padding and pad-length octet. */
  datatype Frame = Frame(payload: seq<Byte>, len: nat, end: bool)

  function Join(bufs: seq<seq<Byte>>): seq<Byte> {
    if bufs == [] then [] else bufs[0] + Join(bufs[1..])
  }

  function Payload(frames: seq<Frame>): seq<Byte> {
    if frames == [] then [] else frames[0].payload + Payload(frames[1..])
  }

  function Cost(frames: seq<Frame>): nat {
    if frames == [] then 0 else frames[0].len + Cost(frames[1..])
  }

  /** One frame per grant, each as large as the grant and the limit allow; the send stops
      when the payload or the grants run out. */
  function Cut(p: seq<Byte>, limit: nat, pad: nat, end: bool, grants: seq<nat>): seq<Frame> {
    if p == [] || grants == [] then []
    else
      var n := Min(grants[0], Min(|p|, limit));
      [Frame(p[..n], n + pad, end && n == |p|)] + Cut(p[n..], limit, pad, end, grants[1..])
  }

  /** All the credit up front: every frame but the last is full. */
  function CutAll(p: seq<Byte>, limit: nat, pad: nat, end: bool): seq<Frame>
    requires limit > 0
    decreases |p|
  {
    if p == [] then []
    else
      var n := Min(|p|, limit);
      [Frame(p[..n], n + pad, end && n == |p|)] + CutAll(p[n..], limit, pad, end)
  }

  /** Frames of at most `d` bytes that `n` bytes take. */
  function Count(n: nat, d: nat): nat
    requires d > 0
  {
    if n == 0 then 0 else 1 + Count(n - Min(n, d), d)
  }

  /** Every frame has something in it, fits the limit, and only the last may end the stream. */
  predicate WellCut(frames: seq<Frame>, limit: nat, pad: nat) {
    forall k :: 0 <= k < |frames| ==>
      && 0 < |frames[k].payload| <= limit
      && frames[k].len == |frames[k].payload| + pad
      && (frames[k].end ==> k == |frames| - 1)
  }

  predicate Ends(frames: seq<Frame>) {
    frames != [] && frames[|frames| - 1].end
  }

  lemma Tail(first: Frame, rest: seq<Frame>, limit: nat, pad: nat)
    requires WellCut(rest, limit, pad) && (first.end ==> rest == [])
    requires 0 < |first.payload| <= limit && first.len == |first.payload| + pad
    ensures WellCut([first] + rest, limit, pad)
    ensures Payload([first] + rest) == first.payload + Payload(rest)
    ensures Cost([first] + rest) == first.len + Cost(rest)
    ensures Ends([first] + rest) == if rest == [] then first.end else Ends(rest)
  {
    var frames := [first] + rest;
    assert frames[1..] == rest;
    forall k | 0 <= k < |frames|
      ensures 0 < |frames[k].payload| <= limit && frames[k].len == |frames[k].payload| + pad
      ensures frames[k].end ==> k == |frames| - 1
    {
      if k > 0 {
        assert frames[k] == rest[k - 1];
      }
    }
  }

  /** What goes out first of `p`, and what that leaves. */
  lemma Split(p: seq<Byte>, n: nat, sent: seq<Byte>)
    requires n <= |p| && sent <= p[n..]
    ensures p[..n] + sent <= p
    ensures p[..n] + sent == p <==> sent == p[n..]
  {
    assert p == p[..n] + p[n..];
  }

  lemma {:induction false} CutKeepsBytes(p: seq<Byte>, limit: nat, pad: nat, end: bool, grants: seq<nat>)
    requires limit > 0 && forall k :: 0 <= k < |grants| ==> grants[k] > 0
    ensures WellCut(Cut(p, limit, pad, end, grants), limit, pad)
    ensures Payload(Cut(p, limit, pad, end, grants)) <= p
    decreases |grants|
  {
    if p != [] && grants != [] {
      var n := Min(grants[0], Min(|p|, limit));
      var first := Frame(p[..n], n + pad, end && n == |p|);
      var rest := Cut(p[n..], limit, pad, end, grants[1..]);
      CutKeepsBytes(p[n..], limit, pad, end, grants[1..]);
      assert n == |p| ==> rest == [];
      Tail(first, rest, limit, pad);
      Split(p, n, Payload(rest));
    }
  }

  lemma {:induction false} CutEndsWhenDone(p: seq<Byte>, limit: nat, pad: nat, end: bool, grants: seq<nat>)
    requires limit > 0 && forall k :: 0 <= k < |grants| ==> grants[k] > 0
    ensures Ends(Cut(p, limit, pad, end, grants)) <==>
            end && p != [] && Payload(Cut(p, limit, pad, end, grants)) == p
    decreases |grants|
  {
    if p != [] && grants != [] {
      var n := Min(grants[0], Min(|p|, limit));
      var first := Frame(p[..n], n + pad, end && n == |p|);
      var rest := Cut(p[n..], limit, pad, end, grants[1..]);
      CutKeepsBytes(p[n..], limit, pad, end, grants[1..]);
      CutEndsWhenDone(p[n..], limit, pad, end, grants[1..]);
      assert n == |p| ==> rest == [];
      Tail(first, rest, limit, pad);
      Split(p, n, Payload(rest));
      assert rest == [] ==> Payload(rest) == [];
    }
  }

  /** The bytes on the wire are the payload's own, in order and from its start. They end the
      stream if and only if it was asked for and they are all of it. */
  lemma CutIsFaithful(p: seq<Byte>, limit: nat, pad: nat, end: bool, grants: seq<nat>)
    requires limit > 0 && forall k :: 0 <= k < |grants| ==> grants[k] > 0
    ensures var frames := Cut(p, limit, pad, end, grants);
      && WellCut(frames, limit, pad)
      && Payload(frames) <= p
      && (Ends(frames) <==> end && p != [] && Payload(frames) == p)
      && Cost(frames) == |Payload(frames)| + pad * |frames|
  {
    CutKeepsBytes(p, limit, pad, end, grants);
    CutEndsWhenDone(p, limit, pad, end, grants);
    CostIs(Cut(p, limit, pad, end, grants), limit, pad);
  }

  lemma {:induction false} CutAllIsWellCut(p: seq<Byte>, limit: nat, pad: nat, end: bool)
    requires limit > 0
    ensures WellCut(CutAll(p, limit, pad, end), limit, pad)
    decreases |p|
  {
    if p != [] {
      var n := Min(|p|, limit);
      var rest := CutAll(p[n..], limit, pad, end);
      CutAllIsWellCut(p[n..], limit, pad, end);
      assert n == |p| ==> rest == [];
      Tail(Frame(p[..n], n + pad, end && n == |p|), rest, limit, pad);
    }
  }

  lemma {:induction false} CutAllKeepsBytes(p: seq<Byte>, limit: nat, pad: nat, end: bool)
    requires limit > 0
    ensures Payload(CutAll(p, limit, pad, end)) == p
    decreases |p|
  {
    if p != [] {
      var n := Min(|p|, limit);
      var frames := CutAll(p, limit, pad, end);
      CutAllKeepsBytes(p[n..], limit, pad, end);
      assert frames[1..] == CutAll(p[n..], limit, pad, end) && frames[0].payload == p[..n];
      assert p[..n] + p[n..] == p;
    }
  }

  lemma {:induction false} CutAllCount(p: seq<Byte>, limit: nat, pad: nat, end: bool)
    requires limit > 0
    ensures |CutAll(p, limit, pad, end)| == Count(|p|, limit)
    ensures Ends(CutAll(p, limit, pad, end)) <==> end && p != []
    decreases |p|
  {
    if p != [] {
      var n := Min(|p|, limit);
      CutAllCount(p[n..], limit, pad, end);
    }
  }

  /** With the credit in hand the whole payload goes out, in as few frames as the limit
      allows. */
  lemma CutAllIsFaithful(p: seq<Byte>, limit: nat, pad: nat, end: bool)
    requires limit > 0
    ensures var frames := CutAll(p, limit, pad, end);
      && WellCut(frames, limit, pad)
      && Payload(frames) == p
      && (Ends(frames) <==> end && p != [])
      && |frames| == Count(|p|, limit)
  {
    CutAllIsWellCut(p, limit, pad, end);
    CutAllKeepsBytes(p, limit, pad, end);
    CutAllCount(p, limit, pad, end);
  }

  /** What frames cost is their payload and one padding each. */
  lemma {:induction false} CostIs(frames: seq<Frame>, limit: nat, pad: nat)
    requires WellCut(frames, limit, pad)
    ensures Cost(frames) == |Payload(frames)| + pad * |frames|
  {
    if frames != [] {
      var rest := frames[1..];
      forall k | 0 <= k < |rest| ensures rest[k] == frames[k + 1] {
      }
      CostIs(rest, limit, pad);
      assert pad * |frames| == pad * |rest| + pad;
    }
  }

  lemma DivPlus(a: nat, d: nat)
    requires d > 0
    ensures (a + d) / d == a / d + 1
  {
    var q, r := a / d, a % d;
    assert a == q * d + r;
    assert a + d == (q + 1) * d + r;
    QuotientIs(a + d, d, q + 1, r);
  }

  lemma {:induction false} CountIsCeil(n: nat, d: nat)
    requires d > 0
    ensures Count(n, d) == (n + d - 1) / d
    decreases n
  {
    if n == 0 {
      QuotientIs(d - 1, d, 0, d - 1);
    } else if n <= d {
      QuotientIs(n - 1, d, 0, n - 1);
      DivPlus(n - 1, d);
    } else {
      CountIsCeil(n - d, d);
      DivPlus(n - 1, d);
    }
  }

  /** The price taken in advance for the whole payload is exactly what its frames cost. */
  lemma PaidInFull(p: seq<Byte>, limit: nat, pad: nat, end: bool)
    requires limit > 0
    ensures Cost(CutAll(p, limit, pad, end)) == |p| + pad * ((|p| + limit - 1) / limit)
  {
    CutAllIsFaithful(p, limit, pad, end);
    CostIs(CutAll(p, limit, pad, end), limit, pad);
    CountIsCeil(|p|, limit);
  }

  /** A send that is granted full frames every time puts out the frames of the send that
      has all its credit in advance. */
  lemma {:induction false} FullGrantsCutAll(p: seq<Byte>, limit: nat, pad: nat, end: bool, grants: seq<nat>)
    requires limit > 0 && |grants| >= Count(|p|, limit)
    requires forall k :: 0 <= k < |grants| ==> grants[k] >= limit
    ensures Cut(p, limit, pad, end, grants) == CutAll(p, limit, pad, end)
    decreases |p|
  {
    if p != [] {
      var n := Min(|p|, limit);
      FullGrantsCutAll(p[n..], limit, pad, end, grants[1..]);
    }
  }

  lemma {:induction false} CostAppend(frames: seq<Frame>, f: Frame)
    ensures Cost(frames + [f]) == Cost(frames) + f.len
  {
    if frames == [] {
      assert frames + [f] == [f];
    } else {
      assert (frames + [f])[1..] == frames[1..] + [f];
      CostAppend(frames[1..], f);
    }
  }

  lemma {:induction false} JoinAppend(bufs: seq<seq<Byte>>, b: seq<Byte>)
    ensures Join(bufs + [b]) == Join(bufs) + b
  {
    if bufs == [] {
      assert bufs + [b] == [b];
    } else {
      assert (bufs + [b])[1..] == bufs[1..] + [b];
      JoinAppend(bufs[1..], b);
    }
  }
}
