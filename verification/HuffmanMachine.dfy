/** The table-driven Huffman decoder: four bits at a time, each step looked up in an entry
    that was walked out once. A state is the trie node it stands for. */
module HuffmanMachine {
  import opened FixedWidth
  import opened Basics
  import opened BitStrings
  import opened Huffman
  import opened HuffmanDecoding

  datatype Entry = Entry(syms: seq<Byte>, next: Bits, invalid: bool)

  /** The entry says what walking those four bits from the state does. */
  predicate Tells(t: Table, state: Bits, nib: Bits, e: Entry)
    requires Sized(t)
  {
    Follow(t, Walk([], state), nib) == if e.invalid then None else Some(Walk(e.syms, e.next))
  }

  function BitAt(nib: nat, bit: nat): bool {
    (nib / Pow2(bit)) % 2 == 1
  }

  lemma NibbleBits(nib: nat)
    requires nib < 16
    ensures BitsOf(nib, 4) == [BitAt(nib, 3), BitAt(nib, 2), BitAt(nib, 1), BitAt(nib, 0)]
  {
    assert Pow2(0) == 1 && Pow2(1) == 2 && Pow2(2) == 4 && Pow2(3) == 8;
    assert BitsOf(nib, 1) == [nib % 2 == 1];
    var a := nib / 2;
    var b := a / 2;
    var c := b / 2;
    assert b == nib / 4 && c == nib / 8;
    assert BitsOf(c, 1) == [c % 2 == 1];
    assert BitsOf(b, 2) == BitsOf(c, 1) + [b % 2 == 1];
    assert BitsOf(a, 3) == BitsOf(b, 2) + [a % 2 == 1];
    assert BitsOf(nib, 4) == BitsOf(a, 3) + [nib % 2 == 1];
  }

  lemma {:induction false} FollowOne(t: Table, w: Walk, bits: Bits, b: bool)
    requires Sized(t) && Follow(t, w, bits).Some?
    ensures Follow(t, w, bits + [b]) == Down(t, Follow(t, w, bits).value, b)
  {
    FollowConcat(t, w, bits, [b]);
    assert [b][1..] == [];
  }

  lemma {:induction false} FollowDead(t: Table, w: Walk, a: Bits, b: Bits)
    requires Sized(t) && Follow(t, w, a) == None
    ensures Follow(t, w, a + b) == None
  {
    FollowConcat(t, w, a, b);
  }

  /** One bit of an entry's walk. An entry has room for two symbols. */
  method WalkBit(t: Table, w: Walk, b: bool) returns (r: Option<Walk>)
    requires Sized(t) && |w.out| < 2
    ensures r == Down(t, w, b)
  {
    var p := w.node + [b];
    var s := Leaf(t, p, 257);
    if s == EOS || (s == 257 && !IsNode(t, p)) {
      return None;
    }
    if s < EOS {
      return Some(Walk(w.out + [s], []));
    }
    return Some(Walk(w.out, p));
  }

  /** Four bits never complete two symbols: after one of them fewer bits are left than the
      shortest code has. */
  predicate Room(w: Walk, n: nat) {
    w.out == [] || (|w.out| == 1 && |w.node| < n)
  }

  lemma RoomStays(t: Table, w: Walk, b: bool, n: nat)
    requires Sized(t) && Room(w, n) && n < 4 && Down(t, w, b).Some?
    ensures Room(Down(t, w, b).value, n + 1)
  {
    var p := w.node + [b];
    var s := Leaf(t, p, 257);
    assert s < EOS ==> |p| == t[s].nbits >= 5;
  }

  /** The walk so far along the four bits, and one bit further. */
  lemma Further(t: Table, state: Bits, nib: nat, n: nat, w: Walk)
    requires Sized(t) && nib < 16 && n < 4
    requires Follow(t, Walk([], state), BitsOf(nib, 4)[..n]) == Some(w)
    ensures var d := Down(t, w, BitAt(nib, 3 - n));
      && Follow(t, Walk([], state), BitsOf(nib, 4)[..n + 1]) == d
      && (d == None ==> Follow(t, Walk([], state), BitsOf(nib, 4)) == None)
  {
    var all := BitsOf(nib, 4);
    NibbleBits(nib);
    assert all[..n] + [all[n]] == all[..n + 1];
    FollowOne(t, Walk([], state), all[..n], all[n]);
    if Down(t, w, all[n]) == None {
      FollowDead(t, Walk([], state), all[..n + 1], all[n + 1..]);
      assert all[..n + 1] + all[n + 1..] == all;
    }
  }

  method BuildEntry(t: Table, state: Bits, nib: nat) returns (e: Entry)
    requires Sized(t) && nib < 16
    ensures Tells(t, state, BitsOf(nib, 4), e)
  {
    var w, bit := Walk([], state), 4;
    while bit > 0
      invariant bit <= 4 && Room(w, 4 - bit)
      invariant Follow(t, Walk([], state), BitsOf(nib, 4)[..4 - bit]) == Some(w)
    {
      Further(t, state, nib, 4 - bit, w);
      bit := bit - 1;
      var r := WalkBit(t, w, BitAt(nib, bit));
      if r == None {
        return Entry([], [], true);
      }
      RoomStays(t, w, BitAt(nib, bit), 3 - bit);
      w := r.value;
    }
    assert BitsOf(nib, 4)[..4] == BitsOf(nib, 4);
    e := Entry(w.out, w.node, false);
  }

  lemma ByteHalves(b: Byte)
    ensures ByteBits(b) == BitsOf(b / 16, 4) + BitsOf(b % 16, 4)
  {
    var hi, lo := BitsOf(b / 16, 4), BitsOf(b % 16, 4);
    assert Val(ByteBits(b)) == b by {
      Pow2Eight();
      ValBitsOf(b, 8);
    }
    assert Val(hi + lo) == b by {
      assert Pow2(4) == 16;
      ValBitsOf(b / 16, 4);
      ValBitsOf(b % 16, 4);
      ValConcat(hi, lo);
    }
    ValInjective(ByteBits(b), hi + lo);
  }

  /** What was written before stays in front. */
  lemma {:induction false} FollowBehind(t: Table, out: seq<Byte>, w: Walk, bits: Bits)
    requires Sized(t)
    ensures Follow(t, Walk(out + w.out, w.node), bits) ==
            match Follow(t, w, bits) { case None => None case Some(v) => Some(Walk(out + v.out, v.node)) }
    decreases |bits|
  {
    if bits != [] {
      var d := Down(t, w, bits[0]);
      var p := w.node + [bits[0]];
      var s := Leaf(t, p, 257);
      assert s < EOS ==> out + (w.out + [s]) == (out + w.out) + [s];
      if d.Some? {
        FollowBehind(t, out, d.value, bits[1..]);
      }
    }
  }

  /** One table lookup, appended to what has been decoded. */
  method Look(t: Table, w: Walk, nib: nat) returns (r: Option<Walk>)
    requires Sized(t) && nib < 16
    ensures r == Follow(t, w, BitsOf(nib, 4))
  {
    var e := BuildEntry(t, w.node, nib);
    FollowBehind(t, w.out, Walk([], w.node), BitsOf(nib, 4));
    assert w.out + [] == w.out;
    if e.invalid {
      return None;
    }
    r := Some(Walk(w.out + e.syms, e.next));
  }

  method LookByte(t: Table, w: Walk, b: Byte) returns (r: Option<Walk>)
    requires Sized(t)
    ensures r == Follow(t, w, ByteBits(b))
  {
    ByteHalves(b);
    FollowConcat(t, w, BitsOf(b / 16, 4), BitsOf(b % 16, 4));
    r := Look(t, w, b / 16);
    if r.Some? {
      r := Look(t, r.value, b % 16);
    }
  }

  lemma {:induction false} UnpackTake(src: seq<Byte>, i: nat)
    requires i < |src|
    ensures Unpack(src[..i + 1]) == Unpack(src[..i]) + ByteBits(src[i])
  {
    assert src[..i + 1] == src[..i] + [src[i]];
    UnpackAppend(src[..i], src[i]);
  }

  method HuffmanDecode(t: Table, dst: seq<Byte>, src: seq<Byte>) returns (out: Option<seq<Byte>>)
    requires Sized(t)
    ensures out == match Decoded(t, src) { case None => None case Some(x) => Some(dst + x) }
  {
    var w := Walk([], []);
    for i := 0 to |src|
      invariant Follow(t, Walk([], []), Unpack(src[..i])) == Some(w)
    {
      UnpackTake(src, i);
      FollowConcat(t, Walk([], []), Unpack(src[..i]), ByteBits(src[i]));
      var r := LookByte(t, w, src[i]);
      if r == None {
        DeadStays(t, src, i + 1);
        return None;
      }
      w := r.value;
    }
    assert src[..|src|] == src;
    if MayEnd(w.node) {
      return Some(dst + w.out);
    }
    return None;
  }

  lemma DeadStays(t: Table, src: seq<Byte>, i: nat)
    requires Sized(t) && i <= |src| && Follow(t, Walk([], []), Unpack(src[..i])) == None
    ensures Decoded(t, src) == None
  {
    UnpackConcat(src[..i], src[i..]);
    assert src[..i] + src[i..] == src;
    FollowDead(t, Walk([], []), Unpack(src[..i]), Unpack(src[i..]));
  }
}
