/** The byte layout of HTTP/2 frames: the nine-octet header, the priority section and the
    padding of sections 4.1, 6.1 and 6.3 of RFC 7540. */
module FrameCodec {
  import opened FixedWidth
  import opened Basics

  type Bytes = seq<Byte>

  /** The bounds of SETTINGS_MAX_FRAME_SIZE. */
  const FRAME_FLOOR := 16384
  const FRAME_CEIL := 16777215

  const TWO_24 := 0x100_0000

  /** The low 24 bits, big-endian. */
  function PutUint24(v: nat): (r: Bytes)
    ensures |r| == 3
  {
    [v / 0x1_0000 % 256, v / 256 % 256, v % 256]
  }

  function GetUint24(b: Bytes): nat
    requires |b| >= 3
  {
    (b[0] as int) * 0x1_0000 + (b[1] as int) * 256 + b[2] as int
  }

  /** The low 31 bits, big-endian, the reserved bit clear. */
  function PutUint31(v: nat): (r: Bytes)
    ensures |r| == 4 && r[0] < 128
  {
    [v / TWO_24 % 128, v / 0x1_0000 % 256, v / 256 % 256, v % 256]
  }

  function GetUint31(b: Bytes): nat
    requires |b| >= 4
  {
    (b[0] as int) % 128 * TWO_24 + (b[1] as int) * 0x1_0000 + (b[2] as int) * 256 + b[3] as int
  }

  lemma Uint24Back(v: nat)
    requires v < TWO_24
    ensures GetUint24(PutUint24(v)) == v
  {
  }

  lemma Uint31Back(v: nat)
    ensures GetUint31(PutUint31(v)) == v % TWO_31
  {
    var a, b, c := v / 256, v / 0x1_0000, v / TWO_24;
    assert v == a * 256 + v % 256;
    assert a == b * 256 + a % 256;
    assert b == c * 256 + b % 256;
    assert c == c / 128 * 128 + c % 128;
  }

  datatype Header = Header(length: nat, kind: Byte, flags: Byte, id: nat)

  const HEADER_SIZE := 9

  function PutHeader(h: Header): (r: Bytes)
    ensures |r| == HEADER_SIZE
  {
    PutUint24(h.length) + [h.kind, h.flags] + PutUint31(h.id)
  }

  function GetHeader(b: Bytes): Header
    requires |b| >= HEADER_SIZE
  {
    Header(GetUint24(b[..3]), b[3], b[4], GetUint31(b[5..9]))
  }

  lemma HeaderBack(h: Header, after: Bytes)
    requires h.length < TWO_24 && h.id < TWO_31
    ensures GetHeader(PutHeader(h) + after) == h
  {
    var b := PutHeader(h) + after;
    assert b[..3] == PutUint24(h.length) && b[3] == h.kind && b[4] == h.flags;
    assert b[5..9] == PutUint31(h.id);
    Uint24Back(h.length);
    Uint31Back(h.id);
  }

  /** The layout of section 4.1 of RFC 7540: a 24-bit length, the type, the flags, and under
      a reserved bit that is sent clear a 31-bit stream identifier, each most significant
      octet first. */
  lemma HeaderLayout(h: Header)
    requires h.length < TWO_24 && h.id < TWO_31
    ensures var b := PutHeader(h);
      && h.length == b[0] as int * 65536 + b[1] as int * 256 + b[2] as int
      && b[3] == h.kind && b[4] == h.flags && b[5] < 128
      && h.id == b[5] as int * 16777216 + b[6] as int * 65536 + b[7] as int * 256 + b[8] as int
  {
    var b := PutHeader(h);
    assert b[..3] == PutUint24(h.length) && b[5..9] == PutUint31(h.id);
    Uint24Back(h.length);
    Uint31Back(h.id);
  }

  /** The reserved bit is ignored when it is read. */
  lemma HeaderReads(b: Bytes)
    requires |b| >= HEADER_SIZE
    ensures var h := GetHeader(b);
      && h.length == b[0] as int * 65536 + b[1] as int * 256 + b[2] as int < TWO_24
      && h.kind == b[3] && h.flags == b[4]
      && h.id == b[5] as int % 128 * 16777216 + b[6] as int * 65536 + b[7] as int * 256 + b[8] as int < TWO_31
  {
  }

  /** Writing into a caller's buffer. */
  method WriteFrameHeader(b: array<Byte>, h: Header)
    requires b.Length >= HEADER_SIZE
    modifies b
    ensures b[..HEADER_SIZE] == PutHeader(h)
    ensures b[HEADER_SIZE..] == old(b[HEADER_SIZE..])
  {
    b[0], b[1], b[2] := h.length / 0x1_0000 % 256, h.length / 256 % 256, h.length % 256;
    b[3] := h.kind;
    b[4] := h.flags;
    b[5], b[6], b[7], b[8] := h.id / TWO_24 % 128, h.id / 0x1_0000 % 256, h.id / 256 % 256, h.id % 256;
  }

  datatype Priority = Priority(dependency: nat, exclusive: bool, weight: Byte)

  const PRIORITY_SIZE := 5

  /** A 31-bit dependency under the exclusive bit, then the weight. */
  function PutPriority(p: Priority): (r: Bytes)
    ensures |r| == PRIORITY_SIZE
  {
    var d := PutUint31(p.dependency);
    [if p.exclusive then d[0] + 128 else d[0]] + d[1..] + [p.weight]
  }

  function GetPriority(b: Bytes): Priority
    requires |b| >= PRIORITY_SIZE
  {
    Priority(GetUint31(b[..4]), b[0] >= 128, b[4])
  }

  /** A dependency out of range is masked, and never leaks into the exclusive bit. */
  lemma PriorityBack(p: Priority)
    ensures GetPriority(PutPriority(p)) == p.(dependency := p.dependency % TWO_31)
  {
    var b, d := PutPriority(p), PutUint31(p.dependency);
    Uint31Back(p.dependency);
    assert b[..4] == [b[0]] + d[1..];
    assert b[0] % 128 == d[0];
  }

  /** The payload of a padded frame, between its pad-length octet and its padding. */
  function StripPadding(raw: Bytes): Option<Bytes> {
    if raw == [] || raw[0] as int > |raw| - 1 then None
    else Some(raw[1..|raw| - raw[0]])
  }

  /** Padding comes off any payload if and only if it has the length that its first octet
      says, and what is left is what lies between. */
  lemma StripIsExact(raw: Bytes)
    ensures StripPadding(raw).None? <==> raw == [] || |raw| < 1 + raw[0] as int
    ensures StripPadding(raw).Some? ==>
      exists padding :: raw == [raw[0]] + StripPadding(raw).value + padding && |padding| == raw[0]
  {
    if StripPadding(raw).Some? {
      var padding := raw[|raw| - raw[0]..];
      assert raw == [raw[0]] + StripPadding(raw).value + padding;
    }
  }

  function Zeros(n: nat): (r: Bytes)
    ensures |r| == n
  {
    seq(n, _ => 0)
  }

  /** Any padding of the stated length comes off, and only that. */
  lemma StripBack(body: Bytes, pad: Byte, padding: Bytes)
    requires |padding| == pad
    ensures StripPadding([pad] + body + padding) == Some(body)
  {
    var raw := [pad] + body + padding;
    assert raw[1..|raw| - pad] == body;
  }
}
