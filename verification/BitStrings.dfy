/** Bit strings, most significant bit first, and the numbers they stand for. */
module BitStrings {
  import opened FixedWidth

  type Bits = seq<bool>

  function Pow2(n: nat): (r: nat)
    ensures r > 0
  {
    if n == 0 then 1 else 2 * Pow2(n - 1)
  }

  function Val(bits: Bits): nat {
    if bits == [] then 0
    else 2 * Val(bits[..|bits| - 1]) + (if bits[|bits| - 1] then 1 else 0)
  }

  /** The low `n` bits of a number. */
  function BitsOf(x: nat, n: nat): (r: Bits)
    ensures |r| == n
  {
    if n == 0 then [] else BitsOf(x / 2, n - 1) + [x % 2 == 1]
  }

  function Ones(n: nat): (r: Bits)
    ensures |r| == n && forall k :: 0 <= k < n ==> r[k]
  {
    seq(n, _ => true)
  }

  lemma {:induction false} Pow2Sum(a: nat, b: nat)
    ensures Pow2(a + b) == Pow2(a) * Pow2(b)
  {
    if a > 0 {
      Pow2Sum(a - 1, b);
      assert Pow2(a + b) == 2 * (Pow2(a - 1) * Pow2(b)) == (2 * Pow2(a - 1)) * Pow2(b);
    }
  }

  lemma {:induction false} ValBound(bits: Bits)
    ensures Val(bits) < Pow2(|bits|)
  {
    if bits != [] {
      ValBound(bits[..|bits| - 1]);
    }
  }

  lemma {:induction false} ValBitsOf(x: nat, n: nat)
    requires x < Pow2(n)
    ensures Val(BitsOf(x, n)) == x
  {
    if n > 0 {
      ValBitsOf(x / 2, n - 1);
      var r := BitsOf(x, n);
      assert r[..n - 1] == BitsOf(x / 2, n - 1);
    }
  }

  lemma {:induction false} ValConcat(a: Bits, b: Bits)
    ensures Val(a + b) == Val(a) * Pow2(|b|) + Val(b)
  {
    if b == [] {
      assert a + b == a;
    } else {
      var c := b[..|b| - 1];
      assert (a + b)[..|a + b| - 1] == a + c;
      ValConcat(a, c);
      assert 2 * (Val(a) * Pow2(|c|)) == Val(a) * Pow2(|b|);
    }
  }

  /** Equal values of the same length are the same bits. */
  lemma {:induction false} ValInjective(a: Bits, b: Bits)
    requires |a| == |b| && Val(a) == Val(b)
    ensures a == b
  {
    if a != [] {
      var n := |a| - 1;
      ValInjective(a[..n], b[..n]);
      assert a == a[..n] + [a[n]] && b == b[..n] + [b[n]];
    }
  }

  lemma {:induction false} ValOnes(n: nat)
    ensures Val(Ones(n)) == Pow2(n) - 1
  {
    if n > 0 {
      assert Ones(n)[..n - 1] == Ones(n - 1);
      ValOnes(n - 1);
    }
  }

  lemma Pow2Eight()
    ensures Pow2(8) == 256
  {
    Pow2Sum(4, 4);
    assert Pow2(4) == 16;
  }

  // -------------------------------------------------------------- into bytes

  /** Eight bits a byte, the last byte filled up with ones. */
  function Pack(bits: Bits): seq<Byte>
    decreases |bits|
  {
    if bits == [] then []
    else if |bits| < 8 then [Octet(bits + Ones(8 - |bits|))]
    else [Octet(bits[..8])] + Pack(bits[8..])
  }

  function Octet(bits: Bits): Byte
    requires |bits| == 8
  {
    ValBound(bits);
    Pow2Eight();
    Val(bits)
  }

  function ByteBits(b: Byte): (r: Bits)
    ensures |r| == 8
  {
    BitsOf(b, 8)
  }

  function Unpack(bytes: seq<Byte>): Bits {
    if bytes == [] then [] else ByteBits(bytes[0]) + Unpack(bytes[1..])
  }

  lemma OctetBits(bits: Bits)
    requires |bits| == 8
    ensures ByteBits(Octet(bits)) == bits
  {
    ValBound(bits);
    ValBitsOf(Val(bits), 8);
    ValInjective(BitsOf(Val(bits), 8), bits);
  }

  /** Padding that fills up the last byte. */
  function PadLen(n: nat): (k: nat)
    ensures k < 8 && (n + k) % 8 == 0
  {
    (8 - n % 8) % 8
  }

  lemma UnpackOne(b: Byte, rest: seq<Byte>)
    ensures Unpack([b] + rest) == ByteBits(b) + Unpack(rest)
  {
    assert ([b] + rest)[1..] == rest;
  }

  lemma UnpackShort(bits: Bits)
    requires 0 < |bits| < 8
    ensures Unpack(Pack(bits)) == bits + Ones(8 - |bits|) && |Pack(bits)| == 1
  {
    var full := bits + Ones(8 - |bits|);
    OctetBits(full);
    UnpackOne(Octet(full), []);
    assert [Octet(full)] + [] == Pack(bits);
    assert Unpack([]) == [] && ByteBits(Octet(full)) + [] == full;
  }

  /** Packing only adds the ones that fill up the last byte. */
  lemma {:induction false} UnpackPack(bits: Bits)
    ensures Unpack(Pack(bits)) == bits + Ones(PadLen(|bits|))
    ensures 8 * |Pack(bits)| == |bits| + PadLen(|bits|)
    decreases |bits|
  {
    if bits == [] {
    } else if |bits| < 8 {
      UnpackShort(bits);
    } else {
      var first, rest := bits[..8], bits[8..];
      OctetBits(first);
      UnpackPack(rest);
      UnpackOne(Octet(first), Pack(rest));
      PadLenStep(|rest|);
      assert first + (rest + Ones(PadLen(|rest|))) == bits + Ones(PadLen(|bits|));
    }
  }

  lemma PadLenStep(n: nat)
    ensures PadLen(n + 8) == PadLen(n)
  {
  }

  lemma {:induction false} UnpackLen(bytes: seq<Byte>)
    ensures |Unpack(bytes)| == 8 * |bytes|
  {
    if bytes != [] {
      UnpackLen(bytes[1..]);
    }
  }

  /** Whole bytes of bits pack into those bytes. */
  lemma {:induction false} UnpackInjective(a: seq<Byte>, b: seq<Byte>)
    requires Unpack(a) == Unpack(b)
    ensures a == b
  {
    UnpackLen(a);
    UnpackLen(b);
    if a != [] {
      assert ByteBits(a[0]) == Unpack(a)[..8] == ByteBits(b[0]);
      assert Unpack(a[1..]) == Unpack(a)[8..] == Unpack(b[1..]);
      Pow2Eight();
      ValBitsOf(a[0], 8);
      ValBitsOf(b[0], 8);
      UnpackInjective(a[1..], b[1..]);
    }
  }

  lemma {:induction false} PackConcat(a: Bits, b: Bits)
    requires |a| == 8
    ensures Pack(a + b) == [Octet(a)] + Pack(b)
  {
    assert (a + b)[..8] == a && (a + b)[8..] == b;
  }
}
