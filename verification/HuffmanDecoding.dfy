/** Decoding the Huffman strings of RFC 7541, and why the coding is unambiguous. A node of
    the decoder's trie is the string of bits that leads to it. */
module HuffmanDecoding {
  import opened FixedWidth
  import opened Basics
  import opened BitStrings
  import opened Huffman

  /** No code of the first `n` symbols begins another. */
  predicate PrefixFree(t: Table, n: nat)
    requires Sized(t) && n <= 257
  {
    forall i, j :: 0 <= i < n && 0 <= j < n && i != j ==> !(CodeBits(t, i) <= CodeBits(t, j))
  }

  predicate NoShortOnes(t: Table)
    requires Sized(t)
  {
    forall s :: 0 <= s < EOS && CodeBits(t, s) == Ones(t[s].nbits) ==> t[s].nbits > 7
  }

  // ------------------------------------------------------------ unambiguous

  lemma {:induction false} AllBitsFromHead(t: Table, src: seq<Byte>)
    requires Sized(t) && src != []
    ensures AllBits(t, src) == CodeBits(t, src[0]) + AllBits(t, src[1..])
  {
    var n, tail := |src| - 1, src[1..];
    if n == 0 {
      assert src[..0] == [] && AllBits(t, []) + CodeBits(t, src[0]) == CodeBits(t, src[0]) + AllBits(t, []);
    } else {
      var mid := AllBits(t, tail[..n - 1]);
      AllBitsFromHead(t, src[..n]);
      assert src[..n][1..] == tail[..n - 1] && tail[n - 1] == src[n];
      Regroup(CodeBits(t, src[0]), mid, CodeBits(t, src[n]));
    }
  }

  /** Two prefixes of one string: one begins the other. */
  lemma Comparable(a: Bits, x: Bits, b: Bits, y: Bits)
    requires a + x == b + y
    ensures a <= b || b <= a
  {
    if |a| <= |b| {
      assert a == (a + x)[..|a|] == b[..|a|];
    } else {
      assert b == (b + y)[..|b|] == a[..|b|];
    }
  }

  /** Only a code longer than any padding is made of ones. */
  lemma OnesAreLong(t: Table, s: nat, x: Bits, k: nat)
    requires Sized(t) && NoShortOnes(t) && s < EOS && CodeBits(t, s) + x == Ones(k)
    ensures k > 7
  {
    var c := CodeBits(t, s);
    assert c == (c + x)[..|c|] == Ones(k)[..|c|] == Ones(|c|);
  }

  lemma {:induction false} SameString(t: Table, x: seq<Byte>, y: seq<Byte>, j: nat, k: nat)
    requires Sized(t) && PrefixFree(t, EOS) && NoShortOnes(t) && j < 8 && k < 8
    requires AllBits(t, x) + Ones(j) == AllBits(t, y) + Ones(k)
    ensures x == y
    decreases |x|
  {
    if x == [] && y != [] {
      AllBitsFromHead(t, y);
      Regroup(CodeBits(t, y[0]), AllBits(t, y[1..]), Ones(k));
      assert AllBits(t, x) + Ones(j) == Ones(j);
      OnesAreLong(t, y[0], AllBits(t, y[1..]) + Ones(k), j);
    } else if x != [] && y == [] {
      AllBitsFromHead(t, x);
      Regroup(CodeBits(t, x[0]), AllBits(t, x[1..]), Ones(j));
      assert AllBits(t, y) + Ones(k) == Ones(k);
      OnesAreLong(t, x[0], AllBits(t, x[1..]) + Ones(j), k);
    } else if x != [] {
      SameFirst(t, x, y, j, k);
      SameString(t, x[1..], y[1..], j, k);
    }
  }

  lemma SameFirst(t: Table, x: seq<Byte>, y: seq<Byte>, j: nat, k: nat)
    requires Sized(t) && PrefixFree(t, EOS) && x != [] && y != []
    requires AllBits(t, x) + Ones(j) == AllBits(t, y) + Ones(k)
    ensures x[0] == y[0] && AllBits(t, x[1..]) + Ones(j) == AllBits(t, y[1..]) + Ones(k)
  {
    var a, b := CodeBits(t, x[0]), CodeBits(t, y[0]);
    var u, v := AllBits(t, x[1..]) + Ones(j), AllBits(t, y[1..]) + Ones(k);
    assert a + u == b + v by {
      AllBitsFromHead(t, x);
      AllBitsFromHead(t, y);
      Regroup(a, AllBits(t, x[1..]), Ones(j));
      Regroup(b, AllBits(t, y[1..]), Ones(k));
    }
    Comparable(a, u, b, v);
    assert x[0] == y[0];
    Cancel(a, u, v);
  }

  lemma Cancel(a: Bits, u: Bits, v: Bits)
    requires a + u == a + v
    ensures u == v
  {
    assert u == (a + u)[|a|..] && v == (a + v)[|a|..];
  }

  /** Distinct strings have distinct encodings, whatever the table, so long as no code
      begins another and none is mistaken for padding. */
  lemma EncodingIsInjective(t: Table, x: seq<Byte>, y: seq<Byte>)
    requires Sized(t) && PrefixFree(t, EOS) && NoShortOnes(t)
    requires Pack(AllBits(t, x)) == Pack(AllBits(t, y))
    ensures x == y
  {
    UnpackPack(AllBits(t, x));
    UnpackPack(AllBits(t, y));
    SameString(t, x, y, PadLen(|AllBits(t, x)|), PadLen(|AllBits(t, y)|));
  }

  // --------------------------------------------------------------- the decoder

  /** The table of RFC 7541: prefix-free with its end-of-string code, which is all ones. */
  predicate Canonical(t: Table) {
    Sized(t) && PrefixFree(t, 257) && t[EOS].nbits == 30 && CodeBits(t, EOS) == Ones(30)
  }

  /** The symbol at a node, or 257. */
  function Leaf(t: Table, p: Bits, n: nat): (s: nat)
    requires Sized(t) && n <= 257
    ensures s == 257 || (s < n && CodeBits(t, s) == p)
    ensures s == 257 ==> forall i :: 0 <= i < n ==> CodeBits(t, i) != p
  {
    if n == 0 then 257 else if CodeBits(t, n - 1) == p then n - 1 else Leaf(t, p, n - 1)
  }

  predicate IsNode(t: Table, p: Bits)
    requires Sized(t)
  {
    exists s :: 0 <= s < 257 && p <= CodeBits(t, s)
  }

  /** Output so far and the node reached. */
  datatype Walk = Walk(out: seq<Byte>, node: Bits)

  /** One bit further down the trie; a leaf emits its symbol and starts again. */
  function Down(t: Table, w: Walk, b: bool): Option<Walk>
    requires Sized(t)
  {
    var p := w.node + [b];
    var s := Leaf(t, p, 257);
    if s < EOS then Some(Walk(w.out + [s], []))
    else if s == EOS || !IsNode(t, p) then None
    else Some(Walk(w.out, p))
  }

  function Follow(t: Table, w: Walk, bits: Bits): Option<Walk>
    requires Sized(t)
    decreases |bits|
  {
    if bits == [] then Some(w)
    else match Down(t, w, bits[0])
      case None => None
      case Some(v) => Follow(t, v, bits[1..])
  }

  /** What may be left when the input ends: nothing, or padding shorter than a byte. */
  predicate MayEnd(node: Bits) {
    node == Ones(|node|) && |node| <= 7
  }

  function Decoded(t: Table, src: seq<Byte>): Option<seq<Byte>>
    requires Sized(t)
  {
    match Follow(t, Walk([], []), Unpack(src))
    case None => None
    case Some(w) => if MayEnd(w.node) then Some(w.out) else None
  }

  lemma {:induction false} FollowConcat(t: Table, w: Walk, a: Bits, b: Bits)
    requires Sized(t)
    ensures Follow(t, w, a + b) ==
            match Follow(t, w, a) { case None => None case Some(v) => Follow(t, v, b) }
    decreases |a|
  {
    if a == [] {
      assert a + b == b;
    } else {
      assert (a + b)[1..] == a[1..] + b;
      match Down(t, w, a[0])
      case None =>
      case Some(v) => FollowConcat(t, v, a[1..], b);
    }
  }

  lemma DownIsSound(t: Table, w: Walk, b: bool)
    requires Sized(t)
    ensures var d := Down(t, w, b);
      d.Some? ==> (AllBits(t, w.out) + w.node) + [b] == AllBits(t, d.value.out) + d.value.node
  {
    var d := Down(t, w, b);
    Regroup(AllBits(t, w.out), w.node, [b]);
    if d.Some? && d.value.out != w.out {
      assert d.value.out[..|w.out|] == w.out;
      assert AllBits(t, d.value.out) + [] == AllBits(t, d.value.out);
    }
  }

  /** Whatever is decoded was there: the codes of the output, then the node reached. */
  lemma {:induction false} FollowIsSound(t: Table, w: Walk, bits: Bits)
    requires Sized(t)
    ensures var r := Follow(t, w, bits);
      r.Some? ==> (AllBits(t, w.out) + w.node) + bits == AllBits(t, r.value.out) + r.value.node
    decreases |bits|
  {
    if bits == [] {
      assert (AllBits(t, w.out) + w.node) + bits == AllBits(t, w.out) + w.node;
    } else {
      var d := Down(t, w, bits[0]);
      if d.Some? {
        DownIsSound(t, w, bits[0]);
        FollowIsSound(t, d.value, bits[1..]);
        Regroup(AllBits(t, w.out) + w.node, [bits[0]], bits[1..]);
        assert [bits[0]] + bits[1..] == bits;
      }
    }
  }

  /** Along a code, short of its end, the decoder only moves. */
  lemma {:induction false} AlongCode(t: Table, out: seq<Byte>, s: nat, k: nat)
    requires Sized(t) && PrefixFree(t, 257) && s < 257 && k < t[s].nbits
    ensures Follow(t, Walk(out, []), CodeBits(t, s)[..k]) == Some(Walk(out, CodeBits(t, s)[..k]))
  {
    var c := CodeBits(t, s);
    if k > 0 {
      AlongCode(t, out, s, k - 1);
      FollowConcat(t, Walk(out, []), c[..k - 1], [c[k - 1]]);
      assert c[..k - 1] + [c[k - 1]] == c[..k];
      NoLeafInside(t, s, k);
      assert Follow(t, Walk(out, c[..k - 1]), [c[k - 1]]) == Some(Walk(out, c[..k])) by {
        assert IsNode(t, c[..k]);
      }
    }
  }

  lemma NoLeafInside(t: Table, s: nat, k: nat)
    requires Sized(t) && PrefixFree(t, 257) && s < 257 && k < t[s].nbits
    ensures Leaf(t, CodeBits(t, s)[..k], 257) == 257
  {
    var c := CodeBits(t, s);
    assert c[..k] <= c;
    forall i | 0 <= i < 257 ensures CodeBits(t, i) != c[..k] {
      assert i != s ==> !(CodeBits(t, i) <= c);
    }
  }

  lemma LeafIs(t: Table, s: nat)
    requires Sized(t) && PrefixFree(t, 257) && s < 257
    ensures Leaf(t, CodeBits(t, s), 257) == s
  {
    var i := Leaf(t, CodeBits(t, s), 257);
    assert CodeBits(t, i) <= CodeBits(t, s);
  }

  lemma WholeCode(t: Table, out: seq<Byte>, s: Byte)
    requires Sized(t) && PrefixFree(t, 257)
    ensures Follow(t, Walk(out, []), CodeBits(t, s)) == Some(Walk(out + [s], []))
  {
    var c, k := CodeBits(t, s), t[s].nbits - 1;
    AlongCode(t, out, s, k);
    FollowConcat(t, Walk(out, []), c[..k], [c[k]]);
    assert c[..k] + [c[k]] == c;
    LeafIs(t, s);
    assert Down(t, Walk(out, c[..k]), c[k]) == Some(Walk(out + [s], []));
  }

  lemma {:induction false} WholeString(t: Table, x: seq<Byte>)
    requires Sized(t) && PrefixFree(t, 257)
    ensures Follow(t, Walk([], []), AllBits(t, x)) == Some(Walk(x, []))
  {
    if x != [] {
      var n := |x| - 1;
      WholeString(t, x[..n]);
      FollowConcat(t, Walk([], []), AllBits(t, x[..n]), CodeBits(t, x[n]));
      WholeCode(t, x[..n], x[n]);
      assert x[..n] + [x[n]] == x;
    }
  }

  lemma Padding(t: Table, x: seq<Byte>, k: nat)
    requires Canonical(t) && k < 8
    ensures Follow(t, Walk(x, []), Ones(k)) == Some(Walk(x, Ones(k)))
  {
    AlongCode(t, x, EOS, k);
    assert CodeBits(t, EOS)[..k] == Ones(k);
  }

  // ------------------------------------------------------------- main result

  /** The decoder accepts exactly what the encoder produces: a byte string decodes to `x`
      if and only if it is the encoding of `x`. */
  lemma DecodesExactlyEncodings(t: Table, src: seq<Byte>, x: seq<Byte>)
    requires Canonical(t)
    ensures Decoded(t, src) == Some(x) <==> src == Pack(AllBits(t, x))
  {
    var bits := AllBits(t, x);
    if src == Pack(bits) {
      UnpackPack(bits);
      WholeString(t, x);
      Padding(t, x, PadLen(|bits|));
      FollowConcat(t, Walk([], []), bits, Ones(PadLen(|bits|)));
      assert Ones(PadLen(|bits|)) == Ones(|Ones(PadLen(|bits|))|);
    }
    if Decoded(t, src) == Some(x) {
      AcceptedIsEncoding(t, src, x);
    }
  }

  lemma AcceptedIsEncoding(t: Table, src: seq<Byte>, x: seq<Byte>)
    requires Canonical(t) && Decoded(t, src) == Some(x)
    ensures src == Pack(AllBits(t, x))
  {
    var bits := AllBits(t, x);
    var w := Follow(t, Walk([], []), Unpack(src)).value;
    FollowIsSound(t, Walk([], []), Unpack(src));
    assert (AllBits(t, []) + []) + Unpack(src) == Unpack(src);
    EncodingFrom(src, bits, |w.node|);
  }

  /** Whole bytes that hold `bits` and less than a byte of ones are `bits` packed. */
  lemma EncodingFrom(src: seq<Byte>, bits: Bits, k: nat)
    requires Unpack(src) == bits + Ones(k) && k <= 7
    ensures src == Pack(bits)
  {
    UnpackLen(src);
    UnpackPack(bits);
    OnePadding(|bits|, k, |src|);
    UnpackInjective(src, Pack(bits));
  }

  lemma OnePadding(n: nat, k: nat, bytes: nat)
    requires k <= 7 && n + k == 8 * bytes
    ensures k == PadLen(n)
  {
  }
}
