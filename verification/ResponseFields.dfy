/** What a decoded response field block must look like, and what its Content-Length says. */
module ResponseFields {
  import opened FixedWidth
  import opened Basics

  datatype Field = Field(name: string, value: string)

  const MAX_INT64 := 0x7fff_ffff_ffff_ffff

  // ------------------------------------------------------------------ numbers

  predicate Digits(b: string) {
    forall i :: 0 <= i < |b| ==> '0' <= b[i] <= '9'
  }

  function Decimal(b: string): (n: nat)
    requires Digits(b)
  {
    if b == [] then 0 else 10 * Decimal(b[..|b| - 1]) + (b[|b| - 1] as int - '0' as int)
  }

  lemma {:induction false} DecimalGrows(b: string, i: nat)
    requires Digits(b) && i <= |b|
    ensures Decimal(b[..i]) <= Decimal(b)
    decreases |b|
  {
    if i < |b| {
      var c := b[..|b| - 1];
      DecimalGrows(c, i);
      assert c[..i] == b[..i];
    } else {
      assert b[..i] == b;
    }
  }

  /** A run of digits whose value fits, and nothing else. */
  function Number(b: string): Option<nat> {
    if b != [] && Digits(b) && Decimal(b) <= MAX_INT64 then Some(Decimal(b)) else None
  }

  /** The overflow test comes before the multiplication, so no numeral ever wraps. */
  method ParseDecimalDigits(b: string) returns (r: Option<nat>)
    ensures r == Number(b)
  {
    if |b| == 0 {
      return None;
    }
    var n := 0;
    for i := 0 to |b|
      invariant Digits(b[..i]) && n == Decimal(b[..i]) && n <= MAX_INT64
    {
      if b[i] < '0' || b[i] > '9' {
        return None;
      }
      assert b[..i + 1][..i] == b[..i];
      var d := b[i] as int - '0' as int;
      if n > (MAX_INT64 - d) / 10 {
        if Digits(b) {
          DecimalGrows(b, i + 1);
        }
        return None;
      }
      n := ToInt64(n * 10 + d);
    }
    assert b[..|b|] == b;
    return Some(n);
  }

  // -------------------------------------------------------------- Content-Length

  datatype Length = Absent | Invalid | Declared(n: nat)

  predicate IsLength(f: Field) {
    f.name == "content-length"
  }

  /** Every declaration parses and they all agree. */
  predicate Declares(fields: seq<Field>, n: nat) {
    && (exists i :: 0 <= i < |fields| && IsLength(fields[i]))
    && (forall i :: 0 <= i < |fields| && IsLength(fields[i]) ==> Number(fields[i].value) == Some(n))
  }

  predicate Mentions(fields: seq<Field>) {
    exists i :: 0 <= i < |fields| && IsLength(fields[i])
  }

  /** Absent, one number however often it is repeated, or not to be believed. */
  ghost function LengthOf(fields: seq<Field>): Length {
    if !Mentions(fields) then Absent
    else if exists n :: Declares(fields, n) then (var n :| Declares(fields, n); Declared(n))
    else Invalid
  }

  lemma LengthIs(fields: seq<Field>, n: nat)
    requires Declares(fields, n)
    ensures LengthOf(fields) == Declared(n)
  {
    var i :| 0 <= i < |fields| && IsLength(fields[i]);
    assert Number(fields[i].value) == Some(n);
  }

  method ResponseContentLength(fields: seq<Field>) returns (r: Length)
    ensures r == LengthOf(fields)
  {
    r := Absent;
    for i := 0 to |fields|
      invariant r.Absent? || r.Declared?
      invariant r.Absent? <==> !Mentions(fields[..i])
      invariant r.Declared? ==> Declares(fields[..i], r.n)
    {
      if IsLength(fields[i]) {
        var v := ParseDecimalDigits(fields[i].value);
        if v.None? || (r.Declared? && v.value != r.n) {
          Contradiction(fields, i, r);
          return Invalid;
        }
        Extends(fields, i, v.value);
        r := Declared(v.value);
      } else {
        Skips(fields, i);
      }
    }
    assert fields[..|fields|] == fields;
    if r.Declared? {
      LengthIs(fields, r.n);
    }
  }

  lemma Extends(fields: seq<Field>, i: nat, n: nat)
    requires i < |fields| && IsLength(fields[i]) && Number(fields[i].value) == Some(n)
    requires Mentions(fields[..i]) ==> Declares(fields[..i], n)
    ensures Declares(fields[..i + 1], n)
  {
    var more := fields[..i + 1];
    assert more[i] == fields[i];
    forall j | 0 <= j < |more| && IsLength(more[j]) ensures Number(more[j].value) == Some(n) {
      if j < i {
        assert fields[..i][j] == more[j];
      }
    }
  }

  lemma Skips(fields: seq<Field>, i: nat)
    requires i < |fields| && !IsLength(fields[i])
    ensures Mentions(fields[..i + 1]) <==> Mentions(fields[..i])
    ensures forall n :: Declares(fields[..i], n) ==> Declares(fields[..i + 1], n)
  {
    var less, more := fields[..i], fields[..i + 1];
    assert forall j :: 0 <= j < i ==> less[j] == more[j];
    if Mentions(less) {
      var j :| 0 <= j < |less| && IsLength(less[j]);
      assert IsLength(more[j]);
    }
  }

  lemma Contradiction(fields: seq<Field>, i: nat, r: Length)
    requires i < |fields| && IsLength(fields[i])
    requires r.Declared? ==> Declares(fields[..i], r.n)
    requires var v := Number(fields[i].value); v.None? || (r.Declared? && v.value != r.n)
    ensures Mentions(fields) && forall n :: !Declares(fields, n)
  {
    if r.Declared? {
      var j :| 0 <= j < i && IsLength(fields[..i][j]);
      assert fields[j] == fields[..i][j];
    }
  }

  // ------------------------------------------------------------------ :status

  /** The value of the first :status, if any. */
  function StatusText(fields: seq<Field>): Option<string> {
    if fields == [] then None
    else if fields[0].name == ":status" then Some(fields[0].value)
    else StatusText(fields[1..])
  }

  function NumericStatus(fields: seq<Field>): nat {
    match StatusText(fields)
    case None => 0
    case Some(v) =>
      match Number(v)
      case None => 0
      case Some(n) => if n > 599 then 0 else n
  }

  predicate Informational(fields: seq<Field>) {
    match StatusText(fields)
    case None => false
    case Some(v) => |v| == 3 && v[0] == '1'
  }

  method FindStatus(fields: seq<Field>) returns (r: Option<string>)
    ensures r == StatusText(fields)
  {
    for i := 0 to |fields|
      invariant StatusText(fields) == StatusText(fields[i..])
    {
      assert fields[i..][1..] == fields[i + 1..];
      if fields[i].name == ":status" {
        return Some(fields[i].value);
      }
    }
    return None;
  }

  method ReadStatus(fields: seq<Field>) returns (status: nat, informational: bool)
    ensures status == NumericStatus(fields) && informational == Informational(fields)
  {
    var v := FindStatus(fields);
    if v.None? {
      return 0, false;
    }
    var n := ParseDecimalDigits(v.value);
    status := if n.None? || n.value > 599 then 0 else n.value;
    informational := |v.value| == 3 && v.value[0] == '1';
  }

  // ------------------------------------------------------------- well-formedness

  predicate NameChar(c: char) {
    || 'a' <= c <= 'z' || '0' <= c <= '9'
    || c in {'!', '#', '$', '%', '&', '\'', '*', '+', '-', '.', '^', '_', '`', '|', '~'}
  }

  predicate ValidName(name: string) {
    name != [] && forall i :: 0 <= i < |name| ==> NameChar(name[i])
  }

  predicate Space(c: char) {
    c == ' ' || c == '\t'
  }

  predicate ValidValue(v: string) {
    && (forall i :: 0 <= i < |v| ==> v[i] != '\0' && v[i] != '\n' && v[i] != '\r')
    && (v != [] ==> !Space(v[0]) && !Space(v[|v| - 1]))
  }

  predicate Forbidden(name: string) {
    name in {"connection", "transfer-encoding", "keep-alive", "upgrade", "proxy-connection", "te"}
  }

  predicate Pseudo(f: Field) {
    f.name != [] && f.name[0] == ':'
  }

  predicate Regular(f: Field) {
    !Pseudo(f) && ValidName(f.name) && ValidValue(f.value) && !Forbidden(f.name)
  }

  /** A response is its status, first and once, and then regular fields; a trailer section is
      regular fields alone. */
  predicate WellFormed(fields: seq<Field>, trailer: bool) {
    if trailer then forall i :: 0 <= i < |fields| ==> Regular(fields[i])
    else
      && fields != [] && fields[0].name == ":status" && ValidValue(fields[0].value)
      && forall i :: 1 <= i < |fields| ==> Regular(fields[i])
  }

  method ValidFieldName(name: string) returns (ok: bool)
    ensures ok <==> ValidName(name)
  {
    if |name| == 0 {
      return false;
    }
    for i := 0 to |name|
      invariant forall j :: 0 <= j < i ==> NameChar(name[j])
    {
      if !NameChar(name[i]) {
        return false;
      }
    }
    return true;
  }

  method ValidFieldValue(v: string) returns (ok: bool)
    ensures ok <==> ValidValue(v)
  {
    for i := 0 to |v|
      invariant forall j :: 0 <= j < i ==> v[j] != '\0' && v[j] != '\n' && v[j] != '\r'
    {
      if v[i] == '\0' || v[i] == '\n' || v[i] == '\r' {
        return false;
      }
    }
    if |v| > 0 {
      if Space(v[0]) || Space(v[|v| - 1]) {
        return false;
      }
    }
    return true;
  }

  /** One pass with two flags decides it. */
  method ValidateResponseFields(fields: seq<Field>, trailer: bool) returns (ok: bool)
    ensures ok <==> WellFormed(fields, trailer)
  {
    var sawRegular, sawStatus := false, false;
    for i := 0 to |fields|
      invariant sawStatus ==> !trailer && i > 0 && fields[0].name == ":status" && ValidValue(fields[0].value)
      invariant !sawStatus && i > 0 ==> !Pseudo(fields[0])
      invariant sawRegular <==> i > (if sawStatus then 1 else 0)
      invariant forall j :: (if sawStatus then 1 else 0) <= j < i ==> Regular(fields[j])
    {
      var f := fields[i];
      if |f.name| > 0 && f.name[0] == ':' {
        if sawRegular || trailer || f.name != ":status" || sawStatus {
          return false;
        }
        var good := ValidFieldValue(f.value);
        if !good {
          return false;
        }
        sawStatus := true;
      } else {
        var name := ValidFieldName(f.name);
        var value := ValidFieldValue(f.value);
        if !name || !value || Forbidden(f.name) {
          return false;
        }
        sawRegular := true;
      }
    }
    return trailer || sawStatus;
  }
}
