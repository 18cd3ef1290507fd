/**
 Integer fields of 1 to 64 bits anywhere in a string of bits.

 Fields are written and read bit by bit; increments wrap around, saturate or fail
 when the value does not fit its width.
 */
module Bitfield {
  import opened Options
  import opened Bits
  import opened Powers

  // ------------------------------------------------------------- reading a field

  /** The `n` bits from `off` on as a number, the first one most significant. */
  function Field(s: seq<Octet>, off: nat, n: nat): (v: nat)
    ensures v < Pow2(n)
  {
    if n == 0 then 0 else 2 * Field(s, off, n - 1) + (if Padded(s, off + n - 1) then 1 else 0)
  }

  /** Bit `k` of a number, counted from the least significant. */
  predicate NumBit(v: nat, k: nat) { (v / Pow2(k)) % 2 == 1 }

  /** The signed number that `n` bits stand for in two's complement. */
  function Signed(u: nat, n: nat): int
    requires n > 0
  {
    if u >= Pow2(n - 1) then u - Pow2(n) else u
  }

  lemma FieldStep(p: seq<Octet>, offset: nat, j: nat)
    requires offset + j < 8 * |p|
    ensures Field(p, offset, j + 1) == 2 * Field(p, offset, j) + if BitIn(p[(offset + j) / 8], (offset + j) % 8) then 1 else 0
  {
  }

  method GetUnsignedBitfield(p: seq<Octet>, offset: nat, bits: nat) returns (value: nat)
    requires offset + bits <= 8 * |p| && bits <= 64
    ensures value == Field(p, offset, bits)
  {
    value := 0;
    var j := 0;
    while j < bits
      invariant 0 <= j <= bits && value == Field(p, offset, j)
    {
      FieldStep(p, offset, j);
      var byte, r := (offset + j) / 8, (offset + j) % 8;
      var bitval := if BitIn(p[byte], r) then 1 else 0;
      value := 2 * value + bitval;
      j := j + 1;
    }
  }

  lemma TopBit(u: nat, n: nat)
    requires 0 < n && u < Pow2(n)
    ensures NumBit(u, n - 1) <==> u >= Pow2(n - 1)
  {
    var h := Pow2(n - 1);
    if u >= h { DivModUnique(u, h, 1, u - h); } else { DivModUnique(u, h, 0, u); }
  }

  method GetSignedBitfield(p: seq<Octet>, offset: nat, bits: nat) returns (value: int)
    requires offset + bits <= 8 * |p| && 1 <= bits <= 64
    ensures value == Signed(Field(p, offset, bits), bits) && IsI64(value)
  {
    var u := GetUnsignedBitfield(p, offset, bits);
    TopBit(u, bits);
    Pow2Is64();
    Pow2Grows(bits, 64);
    value := ToI64(u);
    if bits < 64 {
      Pow2Grows(bits, 63);
      if NumBit(u, bits - 1) { value := value - Pow2(bits); }
    }
  }

  // ------------------------------------------------------------- writing a field

  /** One byte with bit `r` set to `v`. */
  function WithBit(b: Octet, r: nat, v: bool): Octet
    requires r < 8
  {
    (b & !Mask(r)) | (if v then Mask(r) else 0)
  }

  lemma MasksApart(r: nat, q: nat)
    requires r < 8 && q < 8 && r != q
    ensures Mask(r) & Mask(q) == 0
  {
  }

  lemma MaskNotZero(r: nat)
    requires r < 8
    ensures Mask(r) != 0
  {
  }

  lemma MaskedSet(b: Octet, m: Octet)
    requires m != 0
    ensures ((b & !m) | m) & m != 0 && ((b & !m) | 0) & m == 0
  {
  }

  lemma MaskedKept(b: Octet, m: Octet, k: Octet)
    requires m & k == 0
    ensures ((b & !m) | m) & k == b & k && ((b & !m) | 0) & k == b & k
  {
  }

  lemma WithBitSets(b: Octet, r: nat, v: bool, q: nat)
    requires r < 8 && q < 8
    ensures BitIn(WithBit(b, r, v), q) == if q == r then v else BitIn(b, q)
  {
    if q == r {
      MaskNotZero(r);
      MaskedSet(b, Mask(r));
    } else {
      MasksApart(r, q);
      MaskedKept(b, Mask(r), Mask(q));
    }
  }

  /** Bits from `off` on hold the first `m` of the `n` bits of `v`; all others are as before. */
  ghost predicate Written(s: seq<Octet>, s': seq<Octet>, off: nat, n: nat, v: nat, m: nat)
    requires m <= n
  {
    && |s'| == |s|
    && forall i: nat :: i < 8 * |s| ==> Bit(s', i) == if off <= i < off + m then NumBit(v, n - 1 - (i - off)) else Bit(s, i)
  }

  lemma WriteStep(s: seq<Octet>, s0: seq<Octet>, s1: seq<Octet>, off: nat, n: nat, v: nat, m: nat)
    requires m < n && Written(s, s0, off, n, v, m) && off + m < 8 * |s|
    requires var k, r := (off + m) / 8, (off + m) % 8;
             s1 == s0[k := WithBit(s0[k], r, NumBit(v, n - 1 - m))]
    ensures Written(s, s1, off, n, v, m + 1)
  {
    var k, r := (off + m) / 8, (off + m) % 8;
    forall i: nat | i < 8 * |s| ensures Bit(s1, i) == if i == off + m then NumBit(v, n - 1 - m) else Bit(s0, i) {
      if i / 8 == k { WithBitSets(s0[k], r, NumBit(v, n - 1 - m), i % 8); }
    }
  }

  method SetUnsignedBitfield(p: array<Octet>, offset: nat, bits: nat, value: nat)
    requires offset + bits <= 8 * p.Length && bits <= 64
    modifies p
    ensures Written(old(p[..]), p[..], offset, bits, value, bits)
  {
    var j := 0;
    while j < bits
      invariant 0 <= j <= bits && Written(old(p[..]), p[..], offset, bits, value, j)
    {
      var byte, r := (offset + j) / 8, (offset + j) % 8;
      ghost var before := p[..];
      p[byte] := WithBit(p[byte], r, NumBit(value, bits - 1 - j));
      WriteStep(old(p[..]), before, p[..], offset, bits, value, j);
      j := j + 1;
    }
  }

  method SetSignedBitfield(p: array<Octet>, offset: nat, bits: nat, value: int)
    requires offset + bits <= 8 * p.Length && bits <= 64
    modifies p
    ensures Written(old(p[..]), p[..], offset, bits, ToU64(value), bits)
  {
    SetUnsignedBitfield(p, offset, bits, ToU64(value));
  }

  lemma HalfMod(w: nat, p: nat)
    requires p > 0
    ensures 2 * ((w / 2) % p) + w % 2 == w % (2 * p)
  {
    var a, b := w / 2, w % 2;
    Split(a, p);
    var q, r := a / p, a % p;
    assert w == q * (2 * p) + (2 * r + b);
    DivModUnique(w, 2 * p, q, 2 * r + b);
  }

  lemma DivTwice(v: nat, k: nat)
    ensures v / Pow2(k + 1) == (v / Pow2(k)) / 2
  {
    var p := Pow2(k);
    Split(v, p);
    Split(v / p, 2);
    var q, r := (v / p) / 2, (v / p) % 2;
    assert v == q * (2 * p) + (r * p + v % p);
    DivModUnique(v, 2 * p, q, r * p + v % p);
  }

  lemma PrefixStep(v: nat, n: nat, m: nat)
    requires 0 < m <= n
    ensures (v / Pow2(n - m)) % Pow2(m) == 2 * ((v / Pow2(n - (m - 1))) % Pow2(m - 1)) + (if NumBit(v, n - m) then 1 else 0)
  {
    DivTwice(v, n - m);
    HalfMod(v / Pow2(n - m), Pow2(m - 1));
  }

  /** Reading the first `m` of the bits just written gives the leading bits of the value. */
  lemma {:induction false} ReadBackPrefix(s: seq<Octet>, s': seq<Octet>, off: nat, n: nat, v: nat, m: nat)
    requires m <= n && Written(s, s', off, n, v, n) && off + n <= 8 * |s|
    ensures Field(s', off, m) == (v / Pow2(n - m)) % Pow2(m)
    decreases m
  {
    if m > 0 {
      ReadBackPrefix(s, s', off, n, v, m - 1);
      PrefixStep(v, n, m);
      assert Padded(s', off + m - 1) == Bit(s', off + m - 1) == NumBit(v, n - m);
    }
  }

  /** Reading back what was written gives its residue modulo two to the width. */
  lemma ReadBack(s: seq<Octet>, s': seq<Octet>, off: nat, n: nat, v: nat)
    requires Written(s, s', off, n, v, n) && off + n <= 8 * |s|
    ensures Field(s', off, n) == v % Pow2(n)
  {
    ReadBackPrefix(s, s', off, n, v, n);
    assert Pow2(0) == 1;
  }

  // ------------------------------------------------------------- overflow checks

  datatype OverflowType = Wrap | Sat | Fail

  /** `code` is 0 when the value fits, 1 for overflow, -1 for underflow; `limit` is what to store instead (not set by Fail). */
  datatype Check = Check(code: int, limit: int)

  function CheckUnsigned(value: nat, incr: int, bits: nat, ow: OverflowType): Check
    requires 1 <= bits <= 63
  {
    var max := Pow2(bits) - 1;
    var maxincr, minincr := ToI64(max - value), ToI64(0 - value);
    var wrapped := ToU64(value + incr) % Pow2(bits);
    if value > max || (incr > 0 && incr > maxincr) then Check(1, if ow == Wrap then wrapped else max)
    else if incr < 0 && incr < minincr then if ow == Wrap then Check(1, wrapped) else Check(-1, 0)
    else Check(0, 0)
  }

  function CheckSigned(value: int, incr: int, bits: nat, ow: OverflowType): Check
    requires 1 <= bits <= 64
  {
    var max := Pow2(bits - 1) - 1;
    var min := -max - 1;
    var maxincr, minincr := ToI64(max - value), ToI64(min - value);
    var wrapped := Signed(ToU64(value + incr) % Pow2(bits), bits);
    if value > max || (bits != 64 && incr > maxincr) || (value >= 0 && incr > 0 && incr > maxincr)
    then Check(1, if ow == Wrap then wrapped else max)
    else if value < min || (bits != 64 && incr < minincr) || (value < 0 && incr < 0 && incr < minincr)
    then if ow == Wrap then Check(1, wrapped) else Check(-1, min)
    else Check(0, 0)
  }

  /** The range of a field. */
  function Low(sign: bool, bits: nat): int
    requires bits >= 1
  {
    if sign then 0 - Pow2(bits - 1) else 0
  }

  function High(sign: bool, bits: nat): int
    requires bits >= 1
  {
    if sign then Pow2(bits - 1) - 1 else Pow2(bits) - 1
  }

  predicate Fits(sign: bool, bits: nat, x: int)
    requires bits >= 1
  {
    Low(sign, bits) <= x <= High(sign, bits)
  }

  /** The number in the range that is congruent to `x` modulo two to the width. */
  function Residue(sign: bool, bits: nat, x: int): int
    requires bits >= 1
  {
    if sign then Signed(x % Pow2(bits), bits) else x % Pow2(bits)
  }

  function Clamp(sign: bool, bits: nat, x: int): int
    requires bits >= 1
  {
    if x < Low(sign, bits) then Low(sign, bits) else if x > High(sign, bits) then High(sign, bits) else x
  }

  /** Saturation gives the nearest number of the range. */
  lemma ClampIsNearest(sign: bool, bits: nat, x: int, y: int)
    requires bits >= 1 && Fits(sign, bits, y)
    ensures var c := Clamp(sign, bits, x);
            Fits(sign, bits, c) && (x - y <= 0 ==> 0 <= c - x <= y - x) && (x - y >= 0 ==> 0 <= x - c <= x - y)
  {
  }

  /** What a result of `x` should leave in the field; None when it is refused. */
  function Meant(sign: bool, bits: nat, ow: OverflowType, x: int): Option<int>
    requires bits >= 1
  {
    if Fits(sign, bits, x) then Some(x)
    else match ow
      case Wrap => Some(Residue(sign, bits, x))
      case Sat => Some(Clamp(sign, bits, x))
      case Fail => None
  }

  /** The code's result: the checked value, or nothing. */
  function Checked(c: Check, ow: OverflowType, x: int): Option<int> {
    if c.code == 0 then Some(x) else if ow == Fail then None else Some(c.limit)
  }

  /** The residue is in range, congruent to `x`, and `x` itself when that fits. */
  lemma ResidueIsRight(sign: bool, bits: nat, x: int)
    requires bits >= 1
    ensures Fits(sign, bits, Residue(sign, bits, x)) && Residue(sign, bits, x) % Pow2(bits) == x % Pow2(bits)
    ensures Fits(sign, bits, x) ==> Residue(sign, bits, x) == x
  {
    var p, r := Pow2(bits), x % Pow2(bits);
    Split(x, p);
    DivModUnique(r, p, 0, r);
    DivModUnique(r - p, p, -1, r);
    if 0 <= x < p { DivModUnique(x, p, 0, x); }
    if -p <= x < 0 { DivModUnique(x, p, -1, x + p); }
  }

  lemma Widths(bits: nat)
    requires 1 <= bits <= 64
    ensures Pow2(bits) <= TWO64 && Pow2(bits - 1) <= TWO63 && (bits <= 63 ==> Pow2(bits) <= TWO63)
  {
    Pow2Is64();
    Pow2Grows(bits, 64);
    Pow2Grows(bits - 1, 63);
    if bits <= 63 { Pow2Grows(bits, 63); }
  }

  lemma Wrapped(x: int, bits: nat)
    requires bits <= 64
    ensures ToU64(x) % Pow2(bits) == x % Pow2(bits)
  {
    Pow2Is64();
    ModMod(x, bits, 64);
  }

  /** INCRBY on an unsigned field is exact: the true sum, its residue, its clamp, or a refusal. */
  lemma UnsignedIncrementExact(before: nat, incr: int, bits: nat, ow: OverflowType)
    requires 1 <= bits <= 63 && Fits(false, bits, before) && IsI64(incr)
    ensures Checked(CheckUnsigned(before, incr, bits, ow), ow, before + incr) == Meant(false, bits, ow, before + incr)
  {
    Widths(bits);
    Wrapped(before + incr, bits);
  }

  /** INCRBY on a signed field is exact for every width up to 64. */
  lemma SignedIncrementExact(before: int, incr: int, bits: nat, ow: OverflowType)
    requires 1 <= bits <= 64 && Fits(true, bits, before) && IsI64(incr)
    ensures Checked(CheckSigned(before, incr, bits, ow), ow, before + incr) == Meant(true, bits, ow, before + incr)
  {
    Widths(bits);
    Pow2Is64();
    Wrapped(before + incr, bits);
  }

  /** What the check makes of a value to be stored: the wrapped difference to the maximum misleads it far below the range. */
  lemma SignedSetCode(value: int, bits: nat, ow: OverflowType)
    requires 1 <= bits <= 64 && IsI64(value)
    ensures var c := CheckSigned(value, 0, bits, ow);
            && (c.code == 0 <==> Fits(true, bits, value))
            && (!Fits(true, bits, value) ==> c.limit == if ow == Wrap then Residue(true, bits, value)
                                                        else if value > 0 || High(true, bits) - value >= TWO63 then High(true, bits)
                                                        else Low(true, bits))
  {
    Widths(bits);
    Pow2Is64();
    Wrapped(value, bits);
  }

  /** SET on a signed field stores what is meant, except that a value far below the range saturates to the maximum. */
  lemma SignedSetExactIff(value: int, bits: nat, ow: OverflowType)
    requires 1 <= bits <= 64 && IsI64(value)
    ensures Checked(CheckSigned(value, 0, bits, ow), ow, value) == Meant(true, bits, ow, value)
            <==> !(ow == Sat && bits < 64 && High(true, bits) - value >= TWO63)
  {
    SignedSetCode(value, bits, ow);
    Widths(bits);
    Pow2Is64();
  }

  /** SET on an unsigned field reads a negative argument as a huge one: it saturates to the maximum, not to zero. */
  lemma UnsignedSetExactIff(value: int, bits: nat, ow: OverflowType)
    requires 1 <= bits <= 63 && IsI64(value)
    ensures Checked(CheckUnsigned(ToU64(value), 0, bits, ow), ow, value) == Meant(false, bits, ow, value)
            <==> !(ow == Sat && value < 0)
  {
    Widths(bits);
    Wrapped(value, bits);
    Wrapped(ToU64(value), bits);
  }

  /** The smallest 64-bit number, stored with saturation in eight signed bits, becomes 127 instead of -128. */
  lemma SignedSetSaturatesWrong()
    ensures Checked(CheckSigned(-TWO63, 0, 8, Sat), Sat, -TWO63) == Some(127)
    ensures Meant(true, 8, Sat, -TWO63) == Some(-128)
  {
    assert Pow2(4) == 16;
    Pow2Add(4, 3);
    Pow2Add(4, 4);
  }

  /** -1, stored with saturation in eight unsigned bits, becomes 255 instead of 0. */
  lemma UnsignedSetSaturatesWrong()
    ensures Checked(CheckUnsigned(ToU64(-1), 0, 8, Sat), Sat, -1) == Some(255)
    ensures Meant(false, 8, Sat, -1) == Some(0)
  {
    assert Pow2(4) == 16;
    Pow2Add(4, 4);
  }

  // --------------------------------------------------------------- the operations

  function FieldValue(sign: bool, s: seq<Octet>, off: nat, bits: nat): int
    requires bits >= 1
  {
    if sign then Signed(Field(s, off, bits), bits) else Field(s, off, bits)
  }

  predicate Width(sign: bool, bits: nat) { 1 <= bits <= if sign then 64 else 63 }

  /** No bit outside the field differs. */
  ghost predicate OthersKept(s: seq<Octet>, s': seq<Octet>, off: nat, n: nat) {
    |s'| == |s| && forall i: nat :: i < 8 * |s| && !(off <= i < off + n) ==> Bit(s', i) == Bit(s, i)
  }

  lemma FieldValueFits(sign: bool, s: seq<Octet>, off: nat, bits: nat)
    requires bits >= 1
    ensures Fits(sign, bits, FieldValue(sign, s, off, bits))
  {
  }

  lemma WrittenValue(sign: bool, s: seq<Octet>, s': seq<Octet>, off: nat, bits: nat, x: int)
    requires Width(sign, bits) && off + bits <= 8 * |s| && Fits(sign, bits, x) && Written(s, s', off, bits, ToU64(x), bits)
    ensures FieldValue(sign, s', off, bits) == x && OthersKept(s, s', off, bits)
  {
    ReadBack(s, s', off, bits, ToU64(x));
    Wrapped(x, bits);
    ResidueIsRight(sign, bits, x);
  }

  lemma MeantFits(sign: bool, bits: nat, ow: OverflowType, x: int)
    requires bits >= 1
    ensures Meant(sign, bits, ow, x).Some? ==> Fits(sign, bits, Meant(sign, bits, ow, x).value)
  {
    ResidueIsRight(sign, bits, x);
  }

  method GetField(sign: bool, p: array<Octet>, offset: nat, bits: nat) returns (value: int)
    requires Width(sign, bits) && offset + bits <= 8 * p.Length
    ensures value == FieldValue(sign, p[..], offset, bits)
  {
    if sign { value := GetSignedBitfield(p[..], offset, bits); } else { value := GetUnsignedBitfield(p[..], offset, bits); }
  }

  /** Store a value that fits. */
  method StoreField(sign: bool, p: array<Octet>, offset: nat, bits: nat, x: int)
    requires Width(sign, bits) && offset + bits <= 8 * p.Length && Fits(sign, bits, x)
    modifies p
    ensures FieldValue(sign, p[..], offset, bits) == x && OthersKept(old(p[..]), p[..], offset, bits)
  {
    if sign { SetSignedBitfield(p, offset, bits, x); } else { SetUnsignedBitfield(p, offset, bits, ToU64(x)); }
    WrittenValue(sign, old(p[..]), p[..], offset, bits, x);
  }

  /** The result of the check of an INCRBY. */
  function IncrCheck(sign: bool, bits: nat, ow: OverflowType, before: int, incr: int): Check
    requires Width(sign, bits) && (!sign ==> before >= 0)
  {
    if sign then CheckSigned(before, incr, bits, ow) else CheckUnsigned(before, incr, bits, ow)
  }

  lemma IncrementExact(sign: bool, bits: nat, ow: OverflowType, before: int, incr: int)
    requires Width(sign, bits) && Fits(sign, bits, before) && IsI64(incr)
    ensures Checked(IncrCheck(sign, bits, ow, before, incr), ow, before + incr) == Meant(sign, bits, ow, before + incr)
    ensures var m := Meant(sign, bits, ow, before + incr);
            m.Some? ==> Fits(sign, bits, m.value)
  {
    if sign { SignedIncrementExact(before, incr, bits, ow); } else { UnsignedIncrementExact(before, incr, bits, ow); }
    MeantFits(sign, bits, ow, before + incr);
  }

  /** INCRBY: the reply and the field are the true sum, its residue or its clamp; a refusal changes nothing. */
  method IncrBy(sign: bool, p: array<Octet>, offset: nat, bits: nat, incr: int, ow: OverflowType) returns (reply: Option<int>)
    requires Width(sign, bits) && offset + bits <= 8 * p.Length && IsI64(incr)
    modifies p
    ensures reply == Meant(sign, bits, ow, FieldValue(sign, old(p[..]), offset, bits) + incr)
    ensures reply.None? ==> p[..] == old(p[..])
    ensures reply.Some? ==> FieldValue(sign, p[..], offset, bits) == reply.value && OthersKept(old(p[..]), p[..], offset, bits)
  {
    var oldval := GetField(sign, p, offset, bits);
    FieldValueFits(sign, p[..], offset, bits);
    var check := IncrCheck(sign, bits, ow, oldval, incr);
    IncrementExact(sign, bits, ow, oldval, incr);
    var newval := if check.code != 0 then check.limit else oldval + incr;
    if !(check.code != 0 && ow == Fail) {
      StoreField(sign, p, offset, bits, newval);
      return Some(newval);
    } else {
      return None;
    }
  }

  /** The result of the check of a SET. */
  function SetCheck(sign: bool, bits: nat, ow: OverflowType, value: int): Check
    requires Width(sign, bits)
  {
    if sign then CheckSigned(value, 0, bits, ow) else CheckUnsigned(ToU64(value), 0, bits, ow)
  }

  lemma SetFits(sign: bool, bits: nat, ow: OverflowType, value: int)
    requires Width(sign, bits) && IsI64(value)
    ensures var r := Checked(SetCheck(sign, bits, ow, value), ow, value);
            r.Some? ==> Fits(sign, bits, r.value)
  {
    Widths(bits);
    Wrapped(value, bits);
    if sign { SignedSetExactIff(value, bits, ow); } else { UnsignedSetExactIff(value, bits, ow); }
    MeantFits(sign, bits, ow, value);
  }

  /** SET: the reply is the old value; the field gets what the check lets through. */
  method Set(sign: bool, p: array<Octet>, offset: nat, bits: nat, value: int, ow: OverflowType) returns (reply: Option<int>)
    requires Width(sign, bits) && offset + bits <= 8 * p.Length && IsI64(value)
    modifies p
    ensures reply.None? <==> (ow == Fail && !Fits(sign, bits, value))
    ensures reply.None? ==> p[..] == old(p[..])
    ensures reply.Some? ==> reply.value == FieldValue(sign, old(p[..]), offset, bits) && OthersKept(old(p[..]), p[..], offset, bits)
    ensures reply.Some? ==> Some(FieldValue(sign, p[..], offset, bits)) == Checked(SetCheck(sign, bits, ow, value), ow, value)
  {
    var oldval := GetField(sign, p, offset, bits);
    var check := SetCheck(sign, bits, ow, value);
    SetFits(sign, bits, ow, value);
    if sign { SignedSetExactIff(value, bits, ow); } else { UnsignedSetExactIff(value, bits, ow); }
    var newval := if check.code != 0 then check.limit else value;
    if !(check.code != 0 && ow == Fail) {
      StoreField(sign, p, offset, bits, newval);
      return Some(oldval);
    } else {
      return None;
    }
  }

  // ------------------------------------------------------------------------- GET

  ghost predicate SameBit(s: seq<Octet>, t: seq<Octet>, off: nat, off': nat, i: nat) { Padded(s, off + i) == Padded(t, off' + i) }

  lemma {:induction false} SameField(s: seq<Octet>, t: seq<Octet>, off: nat, off': nat, n: nat)
    requires forall i: nat {:trigger SameBit(s, t, off, off', i)} :: i < n ==> SameBit(s, t, off, off', i)
    ensures Field(s, off, n) == Field(t, off', n)
  {
    if n > 0 {
      SameField(s, t, off, off', n - 1);
      assert SameBit(s, t, off, off', n - 1);
    }
  }

  /** The nine bytes from the one that holds the offset, followed by zeros. */
  ghost predicate Copied(s: seq<Octet>, buf: seq<Octet>, byte: nat) {
    |buf| == 9 && forall i :: 0 <= i < 9 ==> buf[i] == ByteAt(s, byte + i)
  }

  lemma CopiedBit(s: seq<Octet>, buf: seq<Octet>, byte: nat, i: nat)
    requires Copied(s, buf, byte) && i < 72
    ensures Padded(buf, i) == Padded(s, 8 * byte + i)
  {
    var k, r := i / 8, i % 8;
    PaddedIs(buf, k, r);
    PaddedIs(s, byte + k, r);
    assert 8 * (byte + k) + r == 8 * byte + i;
  }

  /** Copy up to nine bytes into a zeroed buffer. */
  method CopyBytes(s: seq<Octet>, byte: nat) returns (buf: array<Octet>)
    ensures fresh(buf) && Copied(s, buf[..], byte)
  {
    buf := new Octet[9](_ => 0);
    var i := 0;
    while i < 9
      invariant 0 <= i <= 9 && buf.Length == 9 && fresh(buf)
      invariant forall k :: 0 <= k < i ==> buf[k] == ByteAt(s, byte + k)
      invariant forall k :: i <= k < 9 ==> buf[k] == 0
    {
      if byte + i >= |s| { break; }
      buf[i] := s[byte + i];
      i := i + 1;
    }
  }

  /** GET reads the field of the string followed by zeros, at any offset, from a copy of nine bytes. */
  method Get(sign: bool, s: seq<Octet>, offset: nat, bits: nat) returns (value: int)
    requires Width(sign, bits)
    ensures value == FieldValue(sign, s, offset, bits)
  {
    var byte := offset / 8;
    var buf := CopyBytes(s, byte);
    var off := offset - 8 * byte;
    forall i: nat | i < bits ensures SameBit(buf[..], s, off, offset, i) {
      CopiedBit(s, buf[..], byte, off + i);
    }
    SameField(buf[..], s, off, offset, bits);
    value := GetField(sign, buf, off, bits);
  }
}
