/** The Huffman string coding of section 5.2 of RFC 7541, over any table of codes. */
module Huffman {
  import opened FixedWidth
  import opened Basics
  import opened BitStrings

  const EOS := 256

  datatype Code = Code(code: nat, nbits: nat)

  type Table = seq<Code>

  /** One code for each byte value and one for the end of the string. */
  predicate Sized(t: Table) {
    |t| == 257 && forall s :: 0 <= s < 257 ==> 5 <= t[s].nbits <= 30 && t[s].code < Pow2(t[s].nbits)
  }

  function CodeBits(t: Table, s: nat): (r: Bits)
    requires Sized(t) && s < 257
    ensures |r| == t[s].nbits
  {
    BitsOf(t[s].code, t[s].nbits)
  }

  /** The codes of a string, one after the other. */
  function AllBits(t: Table, src: seq<Byte>): Bits
    requires Sized(t)
  {
    if src == [] then [] else AllBits(t, src[..|src| - 1]) + CodeBits(t, src[|src| - 1])
  }

  // ------------------------------------------------- the 64-bit accumulator

  /** The pending bits are the low bits of the accumulator; what is above them is spent. */
  predicate Holds(buf: nat, pending: Bits, spent: int) {
    buf == spent * Pow2(|pending|) + Val(pending)
  }

  lemma MulAssoc(a: int, b: int, c: int)
    ensures a * (b * c) == (a * b) * c
  {
  }

  lemma ShiftArith(x: int, lost: int, spent: int, v: int, m: int, unit: int, whole: int)
    requires x == spent * m + v && whole == unit * m
    ensures x - lost * whole == (spent - lost * unit) * m + v
  {
    MulAssoc(lost, unit, m);
    MulSum(spent, -(lost * unit), m);
  }

  /** Shifting a code in loses bits off the top, but none that are pending. */
  lemma ShiftIn(buf: nat, pending: Bits, spent: int, code: Bits) returns (above: int)
    requires Holds(buf, pending, spent) && |pending| + |code| <= 64
    ensures Holds((buf * Pow2(|code|)) % TWO_64 + Val(code), pending + code, above)
  {
    var n, m := |code|, |pending| + |code|;
    var x, lost, unit := buf * Pow2(n), (buf * Pow2(n)) / TWO_64, Pow2(64 - m);
    above := spent - lost * unit;
    assert x == spent * Pow2(m) + Val(pending) * Pow2(n) by {
      Pow2Sum(|pending|, n);
      MulSum(spent * Pow2(|pending|), Val(pending), Pow2(n));
      MulAssoc(spent, Pow2(|pending|), Pow2(n));
    }
    assert TWO_64 == unit * Pow2(m) by {
      Pow2Sum(64 - m, m);
      Pow2Is64();
    }
    ShiftArith(x, lost, spent, Val(pending) * Pow2(n), Pow2(m), unit, TWO_64);
    ValConcat(pending, code);
  }

  lemma Pow2Is64()
    ensures Pow2(64) == TWO_64
  {
    Pow2Eight();
    Pow2Sum(8, 8);
    Pow2Sum(16, 16);
    Pow2Sum(32, 32);
  }

  lemma TakeArith(buf: int, spent: int, p: nat, hi: nat, lo: nat)
    requires buf == spent * (256 * p) + (hi * p + lo) && lo < p && hi < 256
    ensures buf == (spent * 256 + hi) * p + lo
    ensures (buf / p) % 256 == hi
  {
    MulAssoc(spent, 256, p);
    MulSum(spent * 256, hi, p);
    QuotientIs(buf, p, spent * 256 + hi, lo);
  }

  /** The top eight pending bits come off as a byte. */
  lemma TakeByte(buf: nat, pending: Bits, spent: int)
    requires Holds(buf, pending, spent) && |pending| >= 8
    ensures (buf / Pow2(|pending| - 8)) % 256 == Octet(pending[..8])
    ensures Holds(buf, pending[8..], spent * 256 + Octet(pending[..8]))
  {
    var hi, lo := pending[..8], pending[8..];
    var p, h, l := Pow2(|lo|), Val(hi), Val(lo);
    assert Val(pending) == h * p + l by {
      assert pending == hi + lo;
      ValConcat(hi, lo);
    }
    assert Pow2(|pending|) == 256 * p && h < 256 by {
      Pow2Eight();
      Pow2Sum(8, |lo|);
      ValBound(hi);
    }
    ValBound(lo);
    TakeArith(buf, spent, p, h, l);
  }

  // ----------------------------------------------------------------- encoding

  /** So many of the pending bits are out as bytes; the rest are what the accumulator holds. */
  ghost predicate Emitted(buf: nat, pending: Bits, k: nat, out: seq<Byte>, above: int) {
    k <= |pending| && Unpack(out) == pending[..k] && Holds(buf, pending[k..], above)
  }

  lemma EmitOne(buf: nat, pending: Bits, k: nat, out: seq<Byte>, above: int)
    requires Emitted(buf, pending, k, out, above) && k + 8 <= |pending|
    ensures var b := (buf / Pow2(|pending| - k - 8)) % 256;
      Emitted(buf, pending, k + 8, out + [b], above * 256 + b)
  {
    var rest := pending[k..];
    TakeByte(buf, rest, above);
    NextEight(pending, k);
    UnpackEight(out, pending, k);
  }

  lemma UnpackEight(out: seq<Byte>, pending: Bits, k: nat)
    requires k + 8 <= |pending| && Unpack(out) == pending[..k]
    ensures Unpack(out + [Octet(pending[k..][..8])]) == pending[..k + 8]
  {
    NextEight(pending, k);
    UnpackAppend(out, Octet(pending[k..][..8]));
    OctetBits(pending[k..][..8]);
  }

  /** Whole bytes leave the accumulator. */
  method EmitBytes(buf: nat, nbuf: nat, ghost pending: Bits, ghost spent: int)
    returns (out: seq<Byte>, left: nat, ghost above: int)
    requires nbuf == |pending| && Holds(buf, pending, spent)
    ensures left < 8 && left <= nbuf && Emitted(buf, pending, nbuf - left, out, above)
  {
    out, left, above := [], nbuf, spent;
    assert pending[0..] == pending;
    while left >= 8
      invariant left <= nbuf && Emitted(buf, pending, nbuf - left, out, above)
    {
      EmitOne(buf, pending, nbuf - left, out, above);
      left := left - 8;
      var b := (buf / Pow2(left)) % 256;
      out, above := out + [b], above * 256 + b;
    }
  }

  lemma NextEight(bits: Bits, k: nat)
    requires k + 8 <= |bits|
    ensures bits[..k + 8] == bits[..k] + bits[k..][..8]
    ensures bits[k..][8..] == bits[k + 8..]
  {
  }

  lemma {:induction false} UnpackAppend(bytes: seq<Byte>, b: Byte)
    ensures Unpack(bytes + [b]) == Unpack(bytes) + ByteBits(b)
  {
    if bytes == [] {
      assert bytes + [b] == [b];
      assert Unpack([b]) == ByteBits(b) + [];
    } else {
      assert (bytes + [b])[1..] == bytes[1..] + [b];
      UnpackAppend(bytes[1..], b);
    }
  }

  lemma {:induction false} UnpackConcat(a: seq<Byte>, b: seq<Byte>)
    ensures Unpack(a + b) == Unpack(a) + Unpack(b)
  {
    if a == [] {
      assert a + b == b;
    } else {
      assert (a + b)[1..] == a[1..] + b;
      UnpackConcat(a[1..], b);
    }
  }

  lemma OctetOfByte(b: Byte)
    ensures Octet(ByteBits(b)) == b
  {
    Pow2Eight();
    ValBitsOf(b, 8);
  }

  /** Whole bytes already out, the rest packs as it would have. */
  lemma {:induction false} PackWhole(bytes: seq<Byte>, rest: Bits)
    ensures Pack(Unpack(bytes) + rest) == bytes + Pack(rest)
  {
    if bytes == [] {
      assert Unpack(bytes) + rest == rest;
    } else {
      var tail := Unpack(bytes[1..]) + rest;
      assert Unpack(bytes) + rest == ByteBits(bytes[0]) + tail;
      PackConcat(ByteBits(bytes[0]), tail);
      OctetOfByte(bytes[0]);
      PackWhole(bytes[1..], rest);
    }
  }

  /** One code into the accumulator and out as far as whole bytes go. The OR of the source
      is a sum here: the low bits it falls on have just been shifted clear. */
  method Feed(buf: nat, nbuf: nat, c: Code, ghost pending: Bits, ghost spent: int)
    returns (out: seq<Byte>, next: nat, left: nat, ghost rest: Bits, ghost above: int)
    requires nbuf == |pending| < 8 && Holds(buf, pending, spent) && c.nbits <= 30 && c.code < Pow2(c.nbits)
    ensures left == |rest| < 8 && Holds(next, rest, above)
    ensures Unpack(out) + rest == pending + BitsOf(c.code, c.nbits)
  {
    ghost var code := BitsOf(c.code, c.nbits);
    ValBitsOf(c.code, c.nbits);
    above := ShiftIn(buf, pending, spent, code);
    next := (buf * Pow2(c.nbits)) % TWO_64 + c.code;
    ghost var all := pending + code;
    out, left, above := EmitBytes(next, nbuf + c.nbits, all, above);
    rest := all[|all| - left..];
  }

  method PadLast(buf: nat, nbuf: nat, ghost pending: Bits, ghost spent: int) returns (out: seq<Byte>)
    requires nbuf == |pending| < 8 && Holds(buf, pending, spent)
    ensures out == Pack(pending)
  {
    if nbuf == 0 {
      return [];
    }
    var k := 8 - nbuf;
    ghost var ones := Ones(k);
    ValOnes(k);
    ghost var above := ShiftIn(buf, pending, spent, ones);
    var last := (buf * Pow2(k)) % TWO_64 + (Pow2(k) - 1);
    TakeByte(last, pending + ones, above);
    assert (pending + ones)[..8] == pending + ones;
    assert Pow2(0) == 1;
    out := [last % 256];
  }

  lemma Onward(t: Table, src: seq<Byte>, i: nat, bytes: seq<Byte>, pending: Bits, more: seq<Byte>, rest: Bits)
    requires Sized(t) && i < |src|
    requires Unpack(bytes) + pending == AllBits(t, src[..i])
    requires Unpack(more) + rest == pending + CodeBits(t, src[i])
    ensures Unpack(bytes + more) + rest == AllBits(t, src[..i + 1])
  {
    var code := CodeBits(t, src[i]);
    assert AllBits(t, src[..i + 1]) == AllBits(t, src[..i]) + code by {
      assert src[..i + 1][..i] == src[..i];
    }
    UnpackConcat(bytes, more);
    Regroup(Unpack(bytes), Unpack(more), rest);
    Regroup(Unpack(bytes), pending, code);
  }

  /** The codes of the string, padded with ones to a whole byte. */
  method HuffmanEncode(t: Table, dst: seq<Byte>, src: seq<Byte>) returns (out: seq<Byte>)
    requires Sized(t)
    ensures out == dst + Pack(AllBits(t, src))
  {
    var bytes: seq<Byte>, buf, nbuf := [], 0, 0;
    ghost var pending: Bits, spent: int := [], 0;
    for i := 0 to |src|
      invariant nbuf == |pending| < 8 && Holds(buf, pending, spent)
      invariant Unpack(bytes) + pending == AllBits(t, src[..i])
    {
      var c := t[src[i]];
      var more, next, left;
      ghost var rest, above;
      more, next, left, rest, above := Feed(buf, nbuf, c, pending, spent);
      Onward(t, src, i, bytes, pending, more, rest);
      bytes, buf, nbuf, pending, spent := bytes + more, next, left, rest, above;
    }
    assert src[..|src|] == src;
    var last := PadLast(buf, nbuf, pending, spent);
    PackWhole(bytes, pending);
    out := dst + bytes + last;
  }

  function BitCount(t: Table, src: seq<Byte>): (n: nat)
    requires Sized(t)
    ensures n == |AllBits(t, src)| && n <= 30 * |src|
  {
    if src == [] then 0 else BitCount(t, src[..|src| - 1]) + t[src[|src| - 1]].nbits
  }

  /** Computed without encoding, for any string a slice can hold. */
  method HuffmanEncodedLen(t: Table, src: seq<Byte>) returns (n: nat)
    requires Sized(t) && 30 * |src| < TWO_64 - 8
    ensures n == |Pack(AllBits(t, src))|
  {
    var bits := 0;
    for i := 0 to |src|
      invariant bits == BitCount(t, src[..i])
    {
      assert src[..i + 1][..i] == src[..i];
      bits := ToUint64(bits + t[src[i]].nbits);
    }
    assert src[..|src|] == src;
    UnpackPack(AllBits(t, src));
    n := ToUint64(bits + 7) / 8;
  }
}
