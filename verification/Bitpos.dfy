/**
 Finding the first bit with a given value: skip bytes up to an aligned address,
 skip whole words, then look at one word bit by bit.
 */
module Bitpos {
  import opened Bits

  // -------------------------------------------------------------------- skipping

  /** A byte with no bit of the wanted value. */
  function Skipped(bit: bool): Octet { if bit then 0 else 0xff }

  lemma SkippedHasNone(bit: bool, r: nat)
    requires r < 8
    ensures BitIn(Skipped(bit), r) != bit
  {
  }

  /** Any other byte has one. */
  lemma OtherHasOne(bit: bool, b: Octet) returns (r: nat)
    requires b != Skipped(bit)
    ensures r < 8 && BitIn(b, r) == bit
  {
    if BitIn(b, 0) == bit { r := 0; }
    else if BitIn(b, 1) == bit { r := 1; }
    else if BitIn(b, 2) == bit { r := 2; }
    else if BitIn(b, 3) == bit { r := 3; }
    else if BitIn(b, 4) == bit { r := 4; }
    else if BitIn(b, 5) == bit { r := 5; }
    else if BitIn(b, 6) == bit { r := 6; }
    else { r := 7; }
  }

  /** None of the first `n` bits has the wanted value. */
  ghost predicate NoneBefore(s: seq<Octet>, bit: bool, n: nat) { forall i: nat :: i < n ==> Padded(s, i) != bit }

  lemma SkipByte(s: seq<Octet>, bit: bool, k: nat)
    requires NoneBefore(s, bit, 8 * k) && ByteAt(s, k) == Skipped(bit)
    ensures NoneBefore(s, bit, 8 * k + 8)
  {
    forall i: nat | i < 8 * k + 8 ensures Padded(s, i) != bit {
      if i >= 8 * k {
        PaddedIs(s, k, i - 8 * k);
        SkippedHasNone(bit, i - 8 * k);
      }
    }
  }

  // --------------------------------------------------------------------- words

  function SkippedWord(bit: bool): bv64 { if bit then 0 else 0xffff_ffff_ffff_ffff }

  /** A word equals the skipped word exactly when all its bytes are skipped bytes. */
  lemma WordSkipped(bit: bool, a: Octet, b: Octet, c: Octet, d: Octet, e: Octet, f: Octet, g: Octet, h: Octet)
    ensures Pack8(a, b, c, d, e, f, g, h) == SkippedWord(bit) <==>
            (a == Skipped(bit) && b == Skipped(bit) && c == Skipped(bit) && d == Skipped(bit)
             && e == Skipped(bit) && f == Skipped(bit) && g == Skipped(bit) && h == Skipped(bit))
  {
  }

  function Shifted(w: bv64, b: Octet): bv64 { (w << 8) | (b as bv64) }

  /** Shifting bytes in one after the other packs them. */
  lemma ShiftingPacks(a: Octet, b: Octet, c: Octet, d: Octet, e: Octet, f: Octet, g: Octet, h: Octet)
    ensures Shifted(Shifted(Shifted(Shifted(Shifted(Shifted(Shifted(Shifted(0, a), b), c), d), e), f), g), h)
            == Pack8(a, b, c, d, e, f, g, h)
  {
  }

  /** Mask `m` moved to byte `j` of a word. */
  function Placed(m: Octet, j: nat): bv64
    requires j < 8
  {
    match j
    case 0 => m as bv64 << 56 case 1 => m as bv64 << 48 case 2 => m as bv64 << 40 case 3 => m as bv64 << 32
    case 4 => m as bv64 << 24 case 5 => m as bv64 << 16 case 6 => m as bv64 << 8 case 7 => m as bv64
  }

  predicate Tests(one: bv64, word: bv64) { one & word != 0 }

  predicate Has(b: Octet, m: Octet) { b & m != 0 }

  function Halved(one: bv64): bv64 { one >> 1 }

  lemma Tests0(m: Octet, a: Octet, b: Octet, c: Octet, d: Octet, e: Octet, f: Octet, g: Octet, h: Octet)
    ensures Tests(Placed(m, 0), Pack8(a, b, c, d, e, f, g, h)) == Has(a, m)
  {
  }

  lemma Tests1(m: Octet, a: Octet, b: Octet, c: Octet, d: Octet, e: Octet, f: Octet, g: Octet, h: Octet)
    ensures Tests(Placed(m, 1), Pack8(a, b, c, d, e, f, g, h)) == Has(b, m)
  {
  }

  lemma Tests2(m: Octet, a: Octet, b: Octet, c: Octet, d: Octet, e: Octet, f: Octet, g: Octet, h: Octet)
    ensures Tests(Placed(m, 2), Pack8(a, b, c, d, e, f, g, h)) == Has(c, m)
  {
  }

  lemma Tests3(m: Octet, a: Octet, b: Octet, c: Octet, d: Octet, e: Octet, f: Octet, g: Octet, h: Octet)
    ensures Tests(Placed(m, 3), Pack8(a, b, c, d, e, f, g, h)) == Has(d, m)
  {
  }

  lemma Tests4(m: Octet, a: Octet, b: Octet, c: Octet, d: Octet, e: Octet, f: Octet, g: Octet, h: Octet)
    ensures Tests(Placed(m, 4), Pack8(a, b, c, d, e, f, g, h)) == Has(e, m)
  {
  }

  lemma Tests5(m: Octet, a: Octet, b: Octet, c: Octet, d: Octet, e: Octet, f: Octet, g: Octet, h: Octet)
    ensures Tests(Placed(m, 5), Pack8(a, b, c, d, e, f, g, h)) == Has(f, m)
  {
  }

  lemma Tests6(m: Octet, a: Octet, b: Octet, c: Octet, d: Octet, e: Octet, f: Octet, g: Octet, h: Octet)
    ensures Tests(Placed(m, 6), Pack8(a, b, c, d, e, f, g, h)) == Has(g, m)
  {
  }

  lemma Tests7(m: Octet, a: Octet, b: Octet, c: Octet, d: Octet, e: Octet, f: Octet, g: Octet, h: Octet)
    ensures Tests(Placed(m, 7), Pack8(a, b, c, d, e, f, g, h)) == Has(h, m)
  {
  }

  lemma MaskMoves(r: nat, j: nat)
    requires r < 7 && j < 8
    ensures Halved(Placed(Mask(r), j)) == Placed(Mask(r + 1), j)
  {
  }

  lemma MaskCrosses(j: nat)
    requires j < 8
    ensures Halved(Placed(Mask(7), j)) == if j < 7 then Placed(Mask(0), j + 1) else 0
  {
  }

  lemma MaskNotZero(r: nat, j: nat)
    requires r < 8 && j < 8
    ensures Placed(Mask(r), j) != 0
  {
  }

  /** The mask of bit `r` of byte `j` of a word, zero past the last byte. */
  function MaskAt(j: nat, r: nat): bv64
    requires r < 8
  {
    if j < 8 then Placed(Mask(r), j) else 0
  }

  lemma MaskAtMoves(j: nat, r: nat)
    requires r < 8
    ensures MaskAt(j, r) != 0 ==> j < 8
    ensures j < 8 ==> Halved(MaskAt(j, r)) == if r < 7 then MaskAt(j, r + 1) else MaskAt(j + 1, 0)
  {
    if j < 8 {
      if r < 7 { MaskMoves(r, j); } else { MaskCrosses(j); }
    }
  }

  /** The word of the eight bytes from `p` on, zero padded. */
  function WordAt(s: seq<Octet>, p: nat): bv64 {
    Pack8(ByteAt(s, p), ByteAt(s, p + 1), ByteAt(s, p + 2), ByteAt(s, p + 3),
          ByteAt(s, p + 4), ByteAt(s, p + 5), ByteAt(s, p + 6), ByteAt(s, p + 7))
  }

  /** The bit of the word under a mask in byte `j` is the bit of that byte. */
  lemma WordTests(s: seq<Octet>, p: nat, j: nat, m: Octet)
    requires j < 8
    ensures Tests(Placed(m, j), WordAt(s, p)) == Has(ByteAt(s, p + j), m)
  {
    var a, b, c, d := ByteAt(s, p), ByteAt(s, p + 1), ByteAt(s, p + 2), ByteAt(s, p + 3);
    var e, f, g, h := ByteAt(s, p + 4), ByteAt(s, p + 5), ByteAt(s, p + 6), ByteAt(s, p + 7);
    match j
    case 0 => Tests0(m, a, b, c, d, e, f, g, h);
    case 1 => Tests1(m, a, b, c, d, e, f, g, h);
    case 2 => Tests2(m, a, b, c, d, e, f, g, h);
    case 3 => Tests3(m, a, b, c, d, e, f, g, h);
    case 4 => Tests4(m, a, b, c, d, e, f, g, h);
    case 5 => Tests5(m, a, b, c, d, e, f, g, h);
    case 6 => Tests6(m, a, b, c, d, e, f, g, h);
    case 7 => Tests7(m, a, b, c, d, e, f, g, h);
  }

  lemma HasIsBit(b: Octet, r: nat)
    requires r < 8
    ensures Has(b, Mask(r)) == BitIn(b, r)
  {
  }

  lemma WordBit(s: seq<Octet>, p: nat, j: nat, r: nat)
    requires j < 8 && r < 8
    ensures Tests(MaskAt(j, r), WordAt(s, p)) == Padded(s, 8 * (p + j) + r)
  {
    WordTests(s, p, j, Mask(r));
    HasIsBit(ByteAt(s, p + j), r);
    PaddedIs(s, p + j, r);
  }

  ghost function ShiftedIn(s: seq<Octet>, p: nat, j: nat): bv64 {
    if j == 0 then 0 else Shifted(ShiftedIn(s, p, j - 1), ByteAt(s, p + j - 1))
  }

  lemma AllShiftedIn(s: seq<Octet>, p: nat)
    ensures ShiftedIn(s, p, 8) == WordAt(s, p)
  {
    assert ShiftedIn(s, p, 1) == Shifted(0, ByteAt(s, p));
    assert ShiftedIn(s, p, 2) == Shifted(Shifted(0, ByteAt(s, p)), ByteAt(s, p + 1));
    assert ShiftedIn(s, p, 4) == Shifted(Shifted(ShiftedIn(s, p, 2), ByteAt(s, p + 2)), ByteAt(s, p + 3));
    assert ShiftedIn(s, p, 6) == Shifted(Shifted(ShiftedIn(s, p, 4), ByteAt(s, p + 4)), ByteAt(s, p + 5));
    assert ShiftedIn(s, p, 8) == Shifted(Shifted(ShiftedIn(s, p, 6), ByteAt(s, p + 6)), ByteAt(s, p + 7));
    ShiftingPacks(ByteAt(s, p), ByteAt(s, p + 1), ByteAt(s, p + 2), ByteAt(s, p + 3),
                  ByteAt(s, p + 4), ByteAt(s, p + 5), ByteAt(s, p + 6), ByteAt(s, p + 7));
  }

  lemma ShiftZero(w: bv64)
    ensures Shifted(w, 0) == w << 8
  {
  }

  /** Load a word, first byte most significant, padding with zeros past the end. */
  method LoadLast(s: seq<Octet>, p: nat) returns (word: bv64)
    requires p <= |s|
    ensures word == WordAt(s, p)
  {
    word := 0;
    var c, count := p, |s| - p;
    var j := 0;
    while j < 8
      invariant 0 <= j <= 8 && word == ShiftedIn(s, p, j)
      invariant c == p + (if j < |s| - p then j else |s| - p) && count == |s| - c
    {
      ShiftZero(word);
      if count > 0 {
        word := Shifted(word, s[c]);
        c, count := c + 1, count - 1;
      } else {
        word := word << 8;
      }
      j := j + 1;
    }
    AllShiftedIn(s, p);
  }

  const TOP: bv64 := 0x8000_0000_0000_0000

  /** The mask of bit `i` of a word, counted from the most significant; zero past the last. */
  function OneAt(i: nat): bv64 { MaskAt(i / 8, i % 8) }

  lemma OneMoves(i: nat)
    ensures OneAt(i) != 0 <==> i < 64
    ensures i < 64 ==> Halved(OneAt(i)) == OneAt(i + 1)
  {
    if i < 64 {
      MaskNotZero(i % 8, i / 8);
      MaskAtMoves(i / 8, i % 8);
      assert i % 8 < 7 ==> (i + 1) / 8 == i / 8 && (i + 1) % 8 == i % 8 + 1;
      assert i % 8 == 7 ==> (i + 1) / 8 == i / 8 + 1 && (i + 1) % 8 == 0;
    }
  }

  lemma WordBitAt(s: seq<Octet>, p: nat, i: nat)
    requires i < 64
    ensures Tests(OneAt(i), WordAt(s, p)) == Padded(s, 8 * p + i)
  {
    WordBit(s, p, i / 8, i % 8);
    assert 8 * (p + i / 8) + i % 8 == 8 * p + i;
  }

  /** `at(i)` is the mask after `i` shifts, zero after `n` of them, and tests bit `i`. */
  ghost predicate Walks<W>(zero: W, next: W -> W, tests: W -> bool, at: nat -> W, value: nat -> bool, n: nat) {
    at(n) == zero && forall i: nat {:trigger WalksAt(zero, next, tests, at, value, i)} :: i < n ==> WalksAt(zero, next, tests, at, value, i)
  }

  ghost predicate WalksAt<W>(zero: W, next: W -> W, tests: W -> bool, at: nat -> W, value: nat -> bool, i: nat) {
    at(i) != zero && next(at(i)) == at(i + 1) && tests(at(i)) == value(i)
  }

  /** Shift the mask until the bit under it has the wanted value.  It has, somewhere, so the loop cannot run out. */
  method Walk<W(==)>(first: W, zero: W, next: W -> W, tests: W -> bool, bit: bool, ghost at: nat -> W, ghost value: nat -> bool, ghost n: nat)
    returns (i: nat)
    requires first == at(0) && Walks(zero, next, tests, at, value, n) && exists k: nat :: k < n && value(k) == bit
    ensures i < n && value(i) == bit && forall k: nat :: k < i ==> value(k) != bit
  {
    i := 0;
    var one := first;
    while one != zero
      invariant i <= n && one == at(i) && (i < n ==> WalksAt(zero, next, tests, at, value, i))
      invariant forall k: nat :: k < i ==> value(k) != bit
      decreases n - i
    {
      if tests(one) == bit { return; }
      i := i + 1;
      one := next(one);
    }
    assert false;
  }

  function Tester(word: bv64): bv64 -> bool { one => Tests(one, word) }

  ghost function Values(s: seq<Octet>, p: nat): nat -> bool { (i: nat) => At(s, p, i) }

  lemma WordWalks(s: seq<Octet>, p: nat, word: bv64)
    requires word == WordAt(s, p)
    ensures Walks(0, Halved, Tester(word), OneAt, Values(s, p), 64)
  {
    OneMoves(64);
    forall i: nat | i < 64
      ensures WalksAt(0, Halved, Tester(word), OneAt, Values(s, p), i)
    {
      OneMoves(i);
      WordBitAt(s, p, i);
    }
  }

  /** Some bit of the eight bytes from `p` on has the wanted value. */
  ghost predicate Here(s: seq<Octet>, p: nat, bit: bool) { exists i: nat {:trigger At(s, p, i)} :: i < 64 && At(s, p, i) == bit }

  predicate At(s: seq<Octet>, p: nat, i: nat) { Padded(s, 8 * p + i) }

  /** Look at the word bit by bit. */
  method Scan(s: seq<Octet>, p: nat, bit: bool, word: bv64) returns (pos: nat)
    requires word == WordAt(s, p) && NoneBefore(s, bit, 8 * p) && Here(s, p, bit)
    ensures Padded(s, pos) == bit && NoneBefore(s, bit, pos)
  {
    assert TOP == OneAt(0);
    WordWalks(s, p, word);
    HereInValues(s, p, bit);
    var i := Walk(TOP, 0, Halved, Tester(word), bit, OneAt, Values(s, p), 64);
    pos := 8 * p + i;
    NoneBeyond(s, p, bit, i);
  }

  lemma HereInValues(s: seq<Octet>, p: nat, bit: bool)
    requires Here(s, p, bit)
    ensures exists k: nat :: k < 64 && Values(s, p)(k) == bit
  {
    var k: nat :| k < 64 && At(s, p, k) == bit;
    assert Values(s, p)(k) == bit;
  }

  lemma NoneBeyond(s: seq<Octet>, p: nat, bit: bool, i: nat)
    requires NoneBefore(s, bit, 8 * p) && Values(s, p)(i) == bit && forall k: nat :: k < i ==> Values(s, p)(k) != bit
    ensures NoneBefore(s, bit, 8 * p + i) && Padded(s, 8 * p + i) == bit
  {
    forall k: nat | k < 8 * p + i ensures Padded(s, k) != bit {
      if k >= 8 * p { assert Values(s, p)(k - 8 * p) != bit; }
    }
  }

  /** Skip bytes until the address is aligned; true if a byte with the wanted bit was met. */
  method SkipBytes(s: seq<Octet>, address: nat, bit: bool) returns (p: nat, found: bool)
    ensures p <= |s| && NoneBefore(s, bit, 8 * p)
    ensures found ==> p < |s| && s[p] != Skipped(bit)
  {
    p, found := 0, false;
    while (address + p) % 8 != 0 && p < |s|
      invariant 0 <= p <= |s| && NoneBefore(s, bit, 8 * p)
      decreases |s| - p
    {
      if s[p] != Skipped(bit) { return p, true; }
      SkipByte(s, bit, p);
      p := p + 1;
    }
  }

  lemma SkipWord(s: seq<Octet>, bit: bool, p: nat)
    requires p + 8 <= |s| && NoneBefore(s, bit, 8 * p) && LoadWord(s, p) == SkippedWord(bit)
    ensures NoneBefore(s, bit, 8 * (p + 8))
  {
    WordSkipped(bit, s[p + 7], s[p + 6], s[p + 5], s[p + 4], s[p + 3], s[p + 2], s[p + 1], s[p]);
    SkipByte(s, bit, p);
    SkipByte(s, bit, p + 1);
    SkipByte(s, bit, p + 2);
    SkipByte(s, bit, p + 3);
    SkipByte(s, bit, p + 4);
    SkipByte(s, bit, p + 5);
    SkipByte(s, bit, p + 6);
    SkipByte(s, bit, p + 7);
  }

  /** Skip whole words. */
  method SkipWords(s: seq<Octet>, start: nat, bit: bool) returns (p: nat)
    requires start <= |s| && NoneBefore(s, bit, 8 * start)
    ensures p <= |s| && NoneBefore(s, bit, 8 * p)
    ensures p + 8 <= |s| ==> LoadWord(s, p) != SkippedWord(bit)
  {
    p := start;
    while p + 8 <= |s|
      invariant start <= p <= |s| && NoneBefore(s, bit, 8 * p)
    {
      if LoadWord(s, p) != SkippedWord(bit) { break; }
      SkipWord(s, bit, p);
      p := p + 8;
    }
  }

  lemma HereByte(s: seq<Octet>, p: nat, bit: bool, j: nat)
    requires j < 8 && ByteAt(s, p + j) != Skipped(bit)
    ensures Here(s, p, bit)
  {
    var r := OtherHasOne(bit, ByteAt(s, p + j));
    PaddedIs(s, p + j, r);
    assert At(s, p, 8 * j + r) == bit;
  }

  /** All eight bytes from `p` on are skipped bytes. */
  ghost predicate AllSkipped(s: seq<Octet>, p: nat, bit: bool) { forall k: nat :: p <= k < p + 8 ==> ByteAt(s, k) == Skipped(bit) }

  lemma SkippedWords(s: seq<Octet>, p: nat, bit: bool)
    ensures AllSkipped(s, p, bit) <==> WordAt(s, p) == SkippedWord(bit)
    ensures p + 8 <= |s| ==> (AllSkipped(s, p, bit) <==> LoadWord(s, p) == SkippedWord(bit))
  {
    WordSkipped(bit, ByteAt(s, p), ByteAt(s, p + 1), ByteAt(s, p + 2), ByteAt(s, p + 3),
                ByteAt(s, p + 4), ByteAt(s, p + 5), ByteAt(s, p + 6), ByteAt(s, p + 7));
    if p + 8 <= |s| { WordSkipped(bit, s[p + 7], s[p + 6], s[p + 5], s[p + 4], s[p + 3], s[p + 2], s[p + 1], s[p]); }
  }

  /** Where the skipping stops, the wanted bit is in the next word, unless a one is wanted and the string ends in zeros. */
  lemma StopsHere(s: seq<Octet>, p: nat, bit: bool)
    requires p <= |s| && (p + 8 <= |s| ==> LoadWord(s, p) != SkippedWord(bit))
    ensures Here(s, p, bit) || (bit && WordAt(s, p) == 0 && |s| < p + 8)
  {
    SkippedWords(s, p, bit);
    if AllSkipped(s, p, bit) {
      assert ByteAt(s, p + 7) == Skipped(bit);
    } else {
      var k: nat :| p <= k < p + 8 && ByteAt(s, k) != Skipped(bit);
      HereByte(s, p, bit, k - p);
    }
  }

  lemma {:induction false} SkipRest(s: seq<Octet>, p: nat, n: nat)
    requires NoneBefore(s, true, 8 * p) && forall k: nat :: p <= k < p + n ==> ByteAt(s, k) == 0
    ensures NoneBefore(s, true, 8 * (p + n))
  {
    if n > 0 {
      SkipRest(s, p, n - 1);
      SkipByte(s, true, p + n - 1);
    }
  }

  /** A zero last word means there is no one in the string. */
  lemma NoOne(s: seq<Octet>, p: nat)
    requires NoneBefore(s, true, 8 * p) && WordAt(s, p) == 0 && |s| < p + 8
    ensures forall i: nat :: !Padded(s, i)
  {
    SkippedWords(s, p, true);
    SkipRest(s, p, 8);
  }

  /** A wanted one that is in the word keeps it from being zero. */
  lemma HereNotZero(s: seq<Octet>, p: nat)
    requires NoneBefore(s, true, 8 * p) && Here(s, p, true)
    ensures WordAt(s, p) != 0
  {
    SkippedWords(s, p, true);
    if WordAt(s, p) == 0 { SkipRest(s, p, 8); }
  }

  /**
   The least position whose bit has the wanted value, the string being followed by
   zeros; -1 exactly when a one is wanted and there is none.
   */
  method FirstBit(s: seq<Octet>, address: nat, bit: bool) returns (pos: int)
    ensures pos >= -1 && (pos == -1 <==> bit && forall i: nat :: !Padded(s, i))
    ensures pos >= 0 ==> Padded(s, pos) == bit && NoneBefore(s, bit, pos)
  {
    var p, found := SkipBytes(s, address, bit);
    if !found {
      p := SkipWords(s, p, bit);
      StopsHere(s, p, bit);
    } else {
      HereByte(s, p, bit, 0);
    }
    var word := LoadLast(s, p);
    if bit && Here(s, p, bit) { HereNotZero(s, p); }
    if bit && word == 0 {
      NoOne(s, p);
      return -1;
    }
    pos := Scan(s, p, bit, word);
  }
}
