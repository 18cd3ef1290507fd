/**
 Counting the bits of a string: byte by byte up to an aligned address, then
 28 bytes at a time with seven 32-bit words counted in parallel, then the rest.
 */
module Popcount {
  import opened Bits

  function OneIf(b: bool): nat { if b then 1 else 0 }

  function OnesIn(b: Octet): (n: nat)
    ensures n <= 8
  {
    OneIf(BitIn(b, 0)) + OneIf(BitIn(b, 1)) + OneIf(BitIn(b, 2)) + OneIf(BitIn(b, 3))
    + OneIf(BitIn(b, 4)) + OneIf(BitIn(b, 5)) + OneIf(BitIn(b, 6)) + OneIf(BitIn(b, 7))
  }

  /** How many bits of the string are set. */
  function Ones(s: seq<Octet>): nat { if s == [] then 0 else Ones(s[..|s| - 1]) + OnesIn(s[|s| - 1]) }

  lemma OnesMore(s: seq<Octet>, b: Octet)
    ensures Ones(s + [b]) == Ones(s) + OnesIn(b)
  {
    assert (s + [b])[..|s|] == s;
  }

  lemma OnesStep(s: seq<Octet>, p: nat)
    requires p < |s|
    ensures Ones(s[..p + 1]) == Ones(s[..p]) + OnesIn(s[p])
  {
    assert s[..p + 1] == s[..p] + [s[p]];
    OnesMore(s[..p], s[p]);
  }

  /** The positions of the set bits below `n`. */
  ghost function SetBits(s: seq<Octet>, n: nat): set<nat>
    requires n <= 8 * |s|
  {
    set i: nat | i < n && Bit(s, i)
  }

  lemma SetBitsStep(s: seq<Octet>, k: nat, r: nat)
    requires k < |s| && r < 8
    ensures |SetBits(s, 8 * k + r + 1)| == |SetBits(s, 8 * k + r)| + OneIf(BitIn(s[k], r))
  {
    var n := 8 * k + r;
    assert n / 8 == k && n % 8 == r;
    assert Bit(s, n) == BitIn(s[k], r);
    if Bit(s, n) {
      assert SetBits(s, n + 1) == SetBits(s, n) + {n};
    } else {
      assert SetBits(s, n + 1) == SetBits(s, n);
    }
  }

  lemma SetBitsHalf(s: seq<Octet>, k: nat, r: nat)
    requires k < |s| && r <= 4
    ensures |SetBits(s, 8 * k + r + 4)| == |SetBits(s, 8 * k + r)| + OneIf(BitIn(s[k], r)) + OneIf(BitIn(s[k], r + 1))
                                           + OneIf(BitIn(s[k], r + 2)) + OneIf(BitIn(s[k], r + 3))
  {
    SetBitsStep(s, k, r);
    SetBitsStep(s, k, r + 1);
    SetBitsStep(s, k, r + 2);
    SetBitsStep(s, k, r + 3);
  }

  /** The count is the number of positions whose bit is set. */
  lemma {:induction false} OnesCountsPositions(s: seq<Octet>, k: nat)
    requires k <= |s|
    ensures Ones(s[..k]) == |SetBits(s, 8 * k)|
  {
    if k == 0 {
      assert SetBits(s, 0) == {};
    } else {
      OnesCountsPositions(s, k - 1);
      OnesStep(s, k - 1);
      SetBitsHalf(s, k - 1, 0);
      SetBitsHalf(s, k - 1, 4);
    }
  }

  // ------------------------------------------------------- small sums as numbers

  lemma Previous(a: Octet)
    requires 0 < a
    ensures (a - 1) as nat + 1 == a as nat
  {
  }

  lemma OneLess(a: Octet, b: Octet)
    requires a < 128 && 0 < b < 128
    ensures b - 1 < 128 && (a + b) - 1 == a + (b - 1) && 0 < a + b
  {
  }

  /** The number a byte stands for, counted up one by one. */
  ghost function Num(a: Octet): nat
    decreases a as nat
  {
    if a == 0 then 0 else Previous(a); 1 + Num(a - 1)
  }

  lemma {:induction false} NumIsValue(a: Octet)
    ensures Num(a) == a as nat
    decreases a as nat
  {
    if a != 0 {
      Previous(a);
      NumIsValue(a - 1);
    }
  }

  lemma {:induction false} NumAdds(a: Octet, b: Octet)
    requires a < 128 && b < 128
    ensures Num(a + b) == Num(a) + Num(b)
    decreases Num(b)
  {
    if b == 0 {
      assert a + b == a;
    } else {
      OneLess(a, b);
      NumAdds(a, b - 1);
    }
  }

  /** Bytes below 128 add up like numbers. */
  lemma PlusIsPlus(a: Octet, b: Octet)
    requires a < 128 && b < 128
    ensures (a + b) as nat == a as nat + b as nat
  {
    NumAdds(a, b);
    NumIsValue(a);
    NumIsValue(b);
    NumIsValue(a + b);
  }

  ghost predicate AddsAt(num: Octet -> nat, a: Octet, b: Octet) { num(a + b) == num(a) + num(b) }

  /** `num` gives numbers to bytes and adds up below 128. */
  ghost predicate Additive(num: Octet -> nat) {
    forall a: Octet, b: Octet {:trigger AddsAt(num, a, b)} :: a < 128 && b < 128 ==> AddsAt(num, a, b)
  }

  // ---------------------------------------------------------- counting in parallel

  /** Two steps of the parallel count: every four bits hold how many of them were set. */
  function Halved(x: bv32): bv32 {
    var a := x - ((x >> 1) & 0x55555555);
    (a & 0x33333333) + ((a >> 2) & 0x33333333)
  }

  /** The last step: every byte holds how many of its bits were set. */
  function Folded(x: bv32): bv32 { (x + (x >> 4)) & 0x0F0F0F0F }

  function Lane0(x: bv32): Octet { (x & 0xff) as Octet }
  function Lane1(x: bv32): Octet { ((x >> 8) & 0xff) as Octet }
  function Lane2(x: bv32): Octet { ((x >> 16) & 0xff) as Octet }
  function Lane3(x: bv32): Octet { (x >> 24) as Octet }

  function Count(b: Octet): Octet {
    (b & 1) + ((b >> 1) & 1) + ((b >> 2) & 1) + ((b >> 3) & 1) + ((b >> 4) & 1) + ((b >> 5) & 1) + ((b >> 6) & 1) + ((b >> 7) & 1)
  }

  lemma CountIsOnes(b: Octet)
    ensures Count(b) as nat == OnesIn(b)
  {
  }

  /** No byte of the word is above `m`. */
  predicate Below(x: bv32, m: bv32) { x & 0xff <= m && (x >> 8) & 0xff <= m && (x >> 16) & 0xff <= m && x >> 24 <= m }

  /** The parallel steps count every byte by itself. */
  lemma CountsByte0(x: bv32) ensures Lane0(Folded(Halved(x))) == Count(Lane0(x)) { }
  lemma CountsByte1(x: bv32) ensures Lane1(Folded(Halved(x))) == Count(Lane1(x)) { }
  lemma CountsByte2(x: bv32) ensures Lane2(Folded(Halved(x))) == Count(Lane2(x)) { }
  lemma CountsByte3(x: bv32) ensures Lane3(Folded(Halved(x))) == Count(Lane3(x)) { }
  lemma CountsBelow(x: bv32) ensures Below(Folded(Halved(x)), 8) { }

  /** Addition of 32-bit words. */
  function Add(a: bv32, b: bv32): bv32 { a + b }

  /** The sum of the four bytes of a word. */
  ghost function Across(num: Octet -> nat, x: bv32): nat { num(Lane0(x)) + num(Lane1(x)) + num(Lane2(x)) + num(Lane3(x)) }

  lemma LanesPlus(a: bv32, b: bv32)
    requires Below(a, 63) && Below(b, 63)
    ensures Lane0(a + b) == Lane0(a) + Lane0(b) && Lane1(a + b) == Lane1(a) + Lane1(b)
    ensures Lane2(a + b) == Lane2(a) + Lane2(b) && Lane3(a + b) == Lane3(a) + Lane3(b)
  {
  }

  lemma LanesSmall(a: bv32)
    requires Below(a, 63)
    ensures Lane0(a) < 64 && Lane1(a) < 64 && Lane2(a) < 64 && Lane3(a) < 64
  {
  }

  /** Bytes below 64 do not carry into each other. */
  lemma AcrossAdds(num: Octet -> nat, a: bv32, b: bv32)
    requires Additive(num) && Below(a, 63) && Below(b, 63)
    ensures Across(num, a + b) == Across(num, a) + Across(num, b)
  {
    LanesPlus(a, b);
    LanesSmall(a);
    LanesSmall(b);
    assert AddsAt(num, Lane0(a), Lane0(b));
    assert AddsAt(num, Lane1(a), Lane1(b));
    assert AddsAt(num, Lane2(a), Lane2(b));
    assert AddsAt(num, Lane3(a), Lane3(b));
  }

  /** What the source computes from a word of byte counts. */
  function Summed(a: bv32): bv32 { (a * 0x01010101) >> 24 }

  lemma PairUp(a: bv32)
    requires Below(a, 63)
    ensures Summed(a) < 256 && Summed(a) as Octet == (Lane3(a) + Lane2(a)) + (Lane1(a) + Lane0(a))
    ensures Lane3(a) + Lane2(a) < 128 && Lane1(a) + Lane0(a) < 128
  {
  }

  /** Multiplying by 0x01010101 brings the sum of the bytes to the top. */
  lemma MultiplySums(num: Octet -> nat, a: bv32)
    requires Additive(num) && Below(a, 63)
    ensures Summed(a) < 256 && num(Summed(a) as Octet) == Across(num, a)
  {
    PairUp(a);
    LanesSmall(a);
    assert AddsAt(num, Lane3(a), Lane2(a));
    assert AddsAt(num, Lane1(a), Lane0(a));
    assert AddsAt(num, Lane3(a) + Lane2(a), Lane1(a) + Lane0(a));
  }

  lemma BelowAdds(a: bv32, b: bv32, m: bv32, m': bv32)
    requires m <= 48 && m' == m + 8 && Below(a, m) && Below(b, 8)
    ensures Below(a + b, m') && Below(a, 63) && Below(b, 63)
  {
  }

  lemma OneMore(num: Octet -> nat, a: bv32, b: bv32, m: bv32, m': bv32)
    requires Additive(num) && m <= 48 && m' == m + 8 && Below(a, m) && Below(b, 8)
    ensures Below(a + b, m') && Across(num, a + b) == Across(num, a) + Across(num, b)
  {
    BelowAdds(a, b, m, m');
    AcrossAdds(num, a, b);
  }

  lemma Widen(a: bv32)
    requires Below(a, 56)
    ensures Below(a, 63)
  {
  }

  /** Eight times `n`, the most a byte holds after adding `n` words of byte counts. */
  function Most(n: nat): bv32
    requires n <= 7
  {
    match n case 0 => 0 case 1 => 8 case 2 => 16 case 3 => 24 case 4 => 32 case 5 => 40 case 6 => 48 case 7 => 56
  }

  /** A sum from left to right. */
  function Total<W>(plus: (W, W) -> W, zero: W, fs: seq<W>): W {
    if fs == [] then zero else plus(Total(plus, zero, fs[..|fs| - 1]), fs[|fs| - 1])
  }

  ghost function SumOf<W>(value: W -> int, fs: seq<W>): int {
    if fs == [] then 0 else SumOf(value, fs[..|fs| - 1]) + value(fs[|fs| - 1])
  }

  lemma TotalSeven<W>(plus: (W, W) -> W, zero: W, a: W, b: W, c: W, d: W, e: W, f: W, g: W)
    requires plus(zero, a) == a
    ensures Total(plus, zero, [a, b, c, d, e, f, g]) == plus(plus(plus(plus(plus(plus(a, b), c), d), e), f), g)
  {
    assert [a, b, c, d, e, f, g][..6] == [a, b, c, d, e, f] && [a, b, c, d, e, f][..5] == [a, b, c, d, e];
    assert [a, b, c, d, e][..4] == [a, b, c, d] && [a, b, c, d][..3] == [a, b, c];
    assert [a, b, c][..2] == [a, b] && [a, b][..1] == [a] && [a][..0] == [];
    assert Total(plus, zero, [a]) == a;
    assert Total(plus, zero, [a, b]) == plus(a, b);
    assert Total(plus, zero, [a, b, c]) == plus(plus(a, b), c);
    assert Total(plus, zero, [a, b, c, d]) == plus(plus(plus(a, b), c), d);
    assert Total(plus, zero, [a, b, c, d, e]) == plus(plus(plus(plus(a, b), c), d), e);
  }

  /** Adding `b` to a sum of `n` words keeps the bytes apart. */
  ghost predicate StepOk<W>(plus: (W, W) -> W, value: W -> int, low: (W, nat) -> bool, a: W, b: W, n: nat) {
    low(a, n) && low(b, 1) ==> low(plus(a, b), n + 1) && value(plus(a, b)) == value(a) + value(b)
  }

  lemma {:induction false} WordsAdd<W(!new)>(plus: (W, W) -> W, zero: W, value: W -> int, low: (W, nat) -> bool, fs: seq<W>)
    requires |fs| <= 7 && low(zero, 0) && value(zero) == 0 && forall i :: 0 <= i < |fs| ==> low(fs[i], 1)
    requires forall a, b, n: nat {:trigger StepOk(plus, value, low, a, b, n)} :: n < 7 ==> StepOk(plus, value, low, a, b, n)
    ensures low(Total(plus, zero, fs), |fs|) && value(Total(plus, zero, fs)) == SumOf(value, fs)
    decreases |fs|
  {
    if fs != [] {
      var n := |fs| - 1;
      WordsAdd(plus, zero, value, low, fs[..n]);
      assert StepOk(plus, value, low, Total(plus, zero, fs[..n]), fs[n], n);
    }
  }

  /** A sum of differences is the difference of the ends. */
  lemma {:induction false} Telescopes<W>(value: W -> int, fs: seq<W>, ones: nat -> int)
    requires forall i :: 0 <= i < |fs| ==> value(fs[i]) == ones(i + 1) - ones(i)
    ensures SumOf(value, fs) == ones(|fs|) - ones(0)
    decreases |fs|
  {
    if fs != [] { Telescopes(value, fs[..|fs| - 1], ones); }
  }

  /** No byte is above eight times `n`. */
  predicate Low(x: bv32, n: nat) { n <= 7 && Below(x, Most(n)) }

  ghost function Value(x: bv32): int { Across(AsNumber, x) }

  lemma MostStep(n: nat)
    requires n < 7
    ensures Most(n) <= 48 && Most(n + 1) == Most(n) + 8
  {
  }

  lemma AddIsOk(a: bv32, b: bv32, n: nat)
    requires n < 7
    ensures StepOk(Add, Value, Low, a, b, n)
  {
    if Low(a, n) && Low(b, 1) {
      MostStep(n);
      AsNumberAdds();
      OneMore(AsNumber, a, b, Most(n), Most(n + 1));
      assert Add(a, b) == a + b;
    }
  }

  lemma SummedIsValue(sum: bv32)
    requires Low(sum, 7)
    ensures Summed(sum) < 256 && Summed(sum) as nat == Value(sum)
  {
    AsNumberAdds();
    Widen(sum);
    MultiplySums(AsNumber, sum);
    Narrow(Summed(sum));
  }

  /** Up to seven words of byte counts add up without a carry between bytes: the sum across is the sum of the sums. */
  lemma SevenAddUp(fs: seq<bv32>)
    requires |fs| <= 7 && forall i :: 0 <= i < |fs| ==> Low(fs[i], 1)
    ensures Low(Total(Add, 0, fs), |fs|) && Value(Total(Add, 0, fs)) == SumOf(Value, fs)
  {
    KitHolds();
    WordsAdd(Add, 0, Value, Low, fs);
  }

  ghost predicate SumOk<W>(value: W -> int, low: (W, nat) -> bool, summed: W -> int, sum: W) { low(sum, 7) ==> summed(sum) == value(sum) }

  /** What the seven-word sum needs of its parts. */
  ghost predicate Kit<W(!new)>(plus: (W, W) -> W, zero: W, value: W -> int, low: (W, nat) -> bool, summed: W -> int) {
    && low(zero, 0) && value(zero) == 0 && (forall a :: plus(zero, a) == a)
    && (forall a, b, n: nat {:trigger StepOk(plus, value, low, a, b, n)} :: n < 7 ==> StepOk(plus, value, low, a, b, n))
    && (forall sum {:trigger SumOk(value, low, summed, sum)} :: SumOk(value, low, summed, sum))
  }

  /** The sum across as a number. */
  function SummedNat(x: bv32): (n: int)
    ensures n >= 0
  {
    Summed(x) as int
  }

  lemma KitHolds()
    ensures Kit(Add, 0, Value, Low, SummedNat)
  {
    forall a, b, n: nat | n < 7 ensures StepOk(Add, Value, Low, a, b, n) {
      AddIsOk(a, b, n);
    }
    forall sum ensures SumOk(Value, Low, SummedNat, sum) {
      if Low(sum, 7) { SummedIsValue(sum); }
    }
  }

  /** The seven words, added up and summed across, give the difference of the counts. */
  lemma Assemble<W(!new)>(plus: (W, W) -> W, zero: W, value: W -> int, low: (W, nat) -> bool, summed: W -> int,
                          f: nat -> W, ones: nat -> int)
    requires Kit(plus, zero, value, low, summed)
    requires forall i: nat :: i < 7 ==> low(f(i), 1) && value(f(i)) == ones(i + 1) - ones(i)
    ensures summed(plus(plus(plus(plus(plus(plus(f(0), f(1)), f(2)), f(3)), f(4)), f(5)), f(6))) == ones(7) - ones(0)
  {
    var fs := [f(0), f(1), f(2), f(3), f(4), f(5), f(6)];
    TotalSeven(plus, zero, f(0), f(1), f(2), f(3), f(4), f(5), f(6));
    WordsAdd(plus, zero, value, low, fs);
    Telescopes(value, fs, ones);
    assert SumOk(value, low, summed, Total(plus, zero, fs));
  }

  // ------------------------------------------------------------------- the method

  ghost function AsNumber(b: Octet): nat { b as nat }

  lemma AsNumberAdds()
    ensures Additive(AsNumber)
  {
    forall a: Octet, b: Octet | a < 128 && b < 128 ensures AddsAt(AsNumber, a, b) { PlusIsPlus(a, b); }
  }

  /** Load four bytes as a word. */
  function Word(b0: Octet, b1: Octet, b2: Octet, b3: Octet): bv32 {
    (b0 as bv32) | (b1 as bv32 << 8) | (b2 as bv32 << 16) | (b3 as bv32 << 24)
  }

  lemma WordLanes(b0: Octet, b1: Octet, b2: Octet, b3: Octet)
    ensures var w := Word(b0, b1, b2, b3);
            Lane0(w) == b0 && Lane1(w) == b1 && Lane2(w) == b2 && Lane3(w) == b3
  {
  }

  lemma WordCounts(b0: Octet, b1: Octet, b2: Octet, b3: Octet)
    ensures var f := Folded(Halved(Word(b0, b1, b2, b3)));
            Below(f, 8) && Across(AsNumber, f) == OnesIn(b0) + OnesIn(b1) + OnesIn(b2) + OnesIn(b3)
  {
    var w := Word(b0, b1, b2, b3);
    WordLanes(b0, b1, b2, b3);
    CountsBelow(w);
    CountsByte0(w);
    CountsByte1(w);
    CountsByte2(w);
    CountsByte3(w);
    CountIsOnes(b0);
    CountIsOnes(b1);
    CountIsOnes(b2);
    CountIsOnes(b3);
  }

  lemma Narrow(v: bv32)
    requires v < 256
    ensures v as nat == (v as Octet) as nat
  {
  }

  // The table of bit counts is the function that it tabulates.

  /** Load the word at `p`. */
  function Load(s: seq<Octet>, p: nat): bv32
    requires p + 4 <= |s|
  {
    Word(s[p], s[p + 1], s[p + 2], s[p + 3])
  }

  lemma OnesFour(s: seq<Octet>, p: nat)
    requires p + 4 <= |s|
    ensures Ones(s[..p + 4]) == Ones(s[..p]) + OnesIn(s[p]) + OnesIn(s[p + 1]) + OnesIn(s[p + 2]) + OnesIn(s[p + 3])
  {
    OnesStep(s, p);
    OnesStep(s, p + 1);
    OnesStep(s, p + 2);
    OnesStep(s, p + 3);
  }

  /** The word at `p` with its bits counted byte by byte. */
  function Counted(s: seq<Octet>, p: nat): bv32
    requires p + 4 <= |s|
  {
    Folded(Halved(Load(s, p)))
  }

  lemma WordAt(s: seq<Octet>, p: nat)
    requires p + 4 <= |s|
    ensures Low(Counted(s, p), 1) && Value(Counted(s, p)) == Ones(s[..p + 4]) - Ones(s[..p])
  {
    WordCounts(s[p], s[p + 1], s[p + 2], s[p + 3]);
    OnesFour(s, p);
  }

  /** The words from `p` on, and the bits counted before each. */
  function WordOf(s: seq<Octet>, p: nat, i: nat): bv32 { if p + 4 * i + 4 <= |s| then Counted(s, p + 4 * i) else 0 }
  ghost function OnesTo(s: seq<Octet>, p: nat, i: nat): int { if p + 4 * i <= |s| then Ones(s[..p + 4 * i]) else 0 }

  lemma WordOfOk(s: seq<Octet>, p: nat, i: nat)
    requires p + 4 * i + 4 <= |s|
    ensures Low(WordOf(s, p, i), 1) && Value(WordOf(s, p, i)) == OnesTo(s, p, i + 1) - OnesTo(s, p, i)
  {
    WordAt(s, p + 4 * i);
  }

  lemma BlockCounts(s: seq<Octet>, p: nat)
    requires p + 28 <= |s|
    ensures SummedNat(Add(Add(Add(Add(Add(Add(WordOf(s, p, 0), WordOf(s, p, 1)), WordOf(s, p, 2)), WordOf(s, p, 3)),
                                  WordOf(s, p, 4)), WordOf(s, p, 5)), WordOf(s, p, 6)))
            == OnesTo(s, p, 7) - OnesTo(s, p, 0)
  {
    KitHolds();
    forall i: nat | i < 7 ensures Low(WordOf(s, p, i), 1) && Value(WordOf(s, p, i)) == OnesTo(s, p, i + 1) - OnesTo(s, p, i) {
      WordOfOk(s, p, i);
    }
    Assemble(Add, 0, Value, Low, SummedNat, (i: nat) => WordOf(s, p, i), (i: nat) => OnesTo(s, p, i));
  }

  /** Count 28 bytes with seven words in parallel. */
  method CountBlock(s: seq<Octet>, p: nat) returns (bits: nat)
    requires p + 28 <= |s|
    ensures bits == Ones(s[..p + 28]) - Ones(s[..p])
  {
    var aux1, aux2, aux3, aux4 := Load(s, p), Load(s, p + 4), Load(s, p + 8), Load(s, p + 12);
    var aux5, aux6, aux7 := Load(s, p + 16), Load(s, p + 20), Load(s, p + 24);
    aux1, aux2, aux3, aux4 := Halved(aux1), Halved(aux2), Halved(aux3), Halved(aux4);
    aux5, aux6, aux7 := Halved(aux5), Halved(aux6), Halved(aux7);
    BlockCounts(s, p);
    assert WordOf(s, p, 0) == Counted(s, p) && WordOf(s, p, 1) == Counted(s, p + 4) && WordOf(s, p, 2) == Counted(s, p + 8);
    assert WordOf(s, p, 3) == Counted(s, p + 12) && WordOf(s, p, 4) == Counted(s, p + 16);
    assert WordOf(s, p, 5) == Counted(s, p + 20) && WordOf(s, p, 6) == Counted(s, p + 24);
    bits := SummedNat(Add(Add(Add(Add(Add(Add(Folded(aux1), Folded(aux2)), Folded(aux3)), Folded(aux4)),
                                  Folded(aux5)), Folded(aux6)), Folded(aux7)));
  }

  /** The number of set bits, whatever the address of the string. */
  method Popcount(s: seq<Octet>, address: nat) returns (bits: nat)
    ensures bits == Ones(s) == |SetBits(s, 8 * |s|)|
  {
    bits := 0;
    var p, count := 0, |s|;
    while (address + p) % 4 != 0 && count > 0
      invariant 0 <= p && 0 <= count && p + count == |s| && bits == Ones(s[..p])
      decreases count
    {
      OnesStep(s, p);
      bits := bits + OnesIn(s[p]);
      p, count := p + 1, count - 1;
    }
    while count >= 28
      invariant 0 <= p && 0 <= count && p + count == |s| && bits == Ones(s[..p])
    {
      var more := CountBlock(s, p);
      bits := bits + more;
      p, count := p + 28, count - 28;
    }
    while count > 0
      invariant 0 <= p && 0 <= count && p + count == |s| && bits == Ones(s[..p])
    {
      OnesStep(s, p);
      bits := bits + OnesIn(s[p]);
      p, count := p + 1, count - 1;
    }
    assert s[..p] == s;
    OnesCountsPositions(s, |s|);
  }
}
