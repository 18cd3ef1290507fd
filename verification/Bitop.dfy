/**
 Bit operations between strings: the first string combined with the others byte
 by byte, each followed by zeros.  While all strings have data, four words are
 combined at a time; the rest is done byte by byte with early exits.
 */
module Bitop {
  import opened Options
  import opened Bits

  datatype Op = And | Or | Xor | Not

  function And8(x: Octet, y: Octet): Octet { x & y }
  function Or8(x: Octet, y: Octet): Octet { x | y }
  function Xor8(x: Octet, y: Octet): Octet { x ^ y }
  function Keep8(x: Octet, y: Octet): Octet { x }

  /** What a later string does to a byte; NOT has no later string. */
  function ByteOp(op: Op): (Octet, Octet) -> Octet {
    match op case And => And8 case Or => Or8 case Xor => Xor8 case Not => Keep8
  }

  function Not8(x: Octet): Octet { !x }

  function First(op: Op, x: Octet): Octet { if op == Not then Not8(x) else x }

  /** Byte `j` of the first `n` strings combined. */
  function Combined(bop: (Octet, Octet) -> Octet, op: Op, srcs: seq<seq<Octet>>, j: nat, n: nat): Octet
    requires 1 <= n <= |srcs|
  {
    if n == 1 then First(op, ByteAt(srcs[0], j)) else bop(Combined(bop, op, srcs, j, n - 1), ByteAt(srcs[n - 1], j))
  }

  // ------------------------------------------------------------ what it means in bits

  lemma AndBit(x: Octet, y: Octet, r: nat) requires r < 8 ensures BitIn(And8(x, y), r) == (BitIn(x, r) && BitIn(y, r)) { }
  lemma OrBit(x: Octet, y: Octet, r: nat) requires r < 8 ensures BitIn(Or8(x, y), r) == (BitIn(x, r) || BitIn(y, r)) { }
  lemma XorBit(x: Octet, y: Octet, r: nat)
    requires r < 8
    ensures BitIn(Xor8(x, y), r) == (BitIn(x, r) != BitIn(y, r))
  {
    OneBit(x, r);
    OneBit(y, r);
    XorMasked(x, y, Mask(r));
  }

  lemma OneBit(x: Octet, r: nat) requires r < 8 ensures x & Mask(r) == 0 || x & Mask(r) == Mask(r) { }

  lemma XorMasked(x: Octet, y: Octet, m: Octet)
    requires (x & m == 0 || x & m == m) && (y & m == 0 || y & m == m)
    ensures ((x ^ y) & m != 0) == ((x & m != 0) != (y & m != 0))
  {
  }

  lemma NotBit(x: Octet, r: nat) requires r < 8 ensures BitIn(Not8(x), r) == !BitIn(x, r) { }

  /** How many of the first `n` strings have bit `r` of byte `j` set. */
  function Votes(srcs: seq<seq<Octet>>, j: nat, r: nat, n: nat): (v: nat)
    requires n <= |srcs| && r < 8
    ensures v <= n
  {
    if n == 0 then 0 else Votes(srcs, j, r, n - 1) + (if BitIn(ByteAt(srcs[n - 1], j), r) then 1 else 0)
  }

  lemma {:induction false} VotesCount(srcs: seq<seq<Octet>>, j: nat, r: nat, n: nat)
    requires n <= |srcs| && r < 8
    ensures Votes(srcs, j, r, n) == n <==> forall i :: 0 <= i < n ==> BitIn(ByteAt(srcs[i], j), r)
    ensures Votes(srcs, j, r, n) > 0 <==> exists i :: 0 <= i < n && BitIn(ByteAt(srcs[i], j), r)
  {
    if n > 0 { VotesCount(srcs, j, r, n - 1); }
  }

  /** AND needs all strings, OR one, XOR an odd number of them; NOT flips the bit. */
  lemma {:induction false} CombinedBits(op: Op, srcs: seq<seq<Octet>>, j: nat, r: nat, n: nat)
    requires 1 <= n <= |srcs| && r < 8 && (op == Not ==> n == 1)
    ensures BitIn(Combined(ByteOp(op), op, srcs, j, n), r) ==
            match op {
              case And => Votes(srcs, j, r, n) == n
              case Or => Votes(srcs, j, r, n) > 0
              case Xor => Votes(srcs, j, r, n) % 2 == 1
              case Not => Votes(srcs, j, r, n) == 0
            }
    decreases n
  {
    var y := ByteAt(srcs[n - 1], j);
    if n == 1 {
      assert Votes(srcs, j, r, 1) == Votes(srcs, j, r, 0) + (if BitIn(y, r) then 1 else 0);
      NotBit(y, r);
    } else {
      CombinedBits(op, srcs, j, r, n - 1);
      var x := Combined(ByteOp(op), op, srcs, j, n - 1);
      match op
      case And => AndBit(x, y, r);
      case Or => OrBit(x, y, r);
      case Xor => XorBit(x, y, r);
    }
  }

  // ----------------------------------------------------------------------- words

  function And64(x: bv64, y: bv64): bv64 { x & y }
  function Or64(x: bv64, y: bv64): bv64 { x | y }
  function Xor64(x: bv64, y: bv64): bv64 { x ^ y }
  function Keep64(x: bv64, y: bv64): bv64 { x }

  function Not64(x: bv64): bv64 { !x }

  function WordOp(op: Op): (bv64, bv64) -> bv64 {
    match op case And => And64 case Or => Or64 case Xor => Xor64 case Not => Keep64
  }

  function Byte0(w: bv64): Octet { (w & 0xff) as Octet }
  function Byte1(w: bv64): Octet { ((w >> 8) & 0xff) as Octet }
  function Byte2(w: bv64): Octet { ((w >> 16) & 0xff) as Octet }
  function Byte3(w: bv64): Octet { ((w >> 24) & 0xff) as Octet }
  function Byte4(w: bv64): Octet { ((w >> 32) & 0xff) as Octet }
  function Byte5(w: bv64): Octet { ((w >> 40) & 0xff) as Octet }
  function Byte6(w: bv64): Octet { ((w >> 48) & 0xff) as Octet }
  function Byte7(w: bv64): Octet { (w >> 56) as Octet }

  /** The bytes of a packed word. */
  lemma PackedBytes(a: Octet, b: Octet, c: Octet, d: Octet, e: Octet, f: Octet, g: Octet, h: Octet)
    ensures var w := Pack8(h, g, f, e, d, c, b, a);
            && Byte0(w) == a && Byte1(w) == b && Byte2(w) == c && Byte3(w) == d
            && Byte4(w) == e && Byte5(w) == f && Byte6(w) == g && Byte7(w) == h
  {
  }

  /** The word operation works on every byte by itself. */
  ghost predicate BytewiseAt(bop: (Octet, Octet) -> Octet, wop: (bv64, bv64) -> bv64, x: bv64, y: bv64) {
    && Byte0(wop(x, y)) == bop(Byte0(x), Byte0(y)) && Byte1(wop(x, y)) == bop(Byte1(x), Byte1(y))
    && Byte2(wop(x, y)) == bop(Byte2(x), Byte2(y)) && Byte3(wop(x, y)) == bop(Byte3(x), Byte3(y))
    && Byte4(wop(x, y)) == bop(Byte4(x), Byte4(y)) && Byte5(wop(x, y)) == bop(Byte5(x), Byte5(y))
    && Byte6(wop(x, y)) == bop(Byte6(x), Byte6(y)) && Byte7(wop(x, y)) == bop(Byte7(x), Byte7(y))
  }

  lemma And0(x: bv64, y: bv64) ensures Byte0(x & y) == Byte0(x) & Byte0(y) { }
  lemma And1(x: bv64, y: bv64) ensures Byte1(x & y) == Byte1(x) & Byte1(y) { }
  lemma And2(x: bv64, y: bv64) ensures Byte2(x & y) == Byte2(x) & Byte2(y) { }
  lemma And3(x: bv64, y: bv64) ensures Byte3(x & y) == Byte3(x) & Byte3(y) { }
  lemma And4(x: bv64, y: bv64) ensures Byte4(x & y) == Byte4(x) & Byte4(y) { }
  lemma And5(x: bv64, y: bv64) ensures Byte5(x & y) == Byte5(x) & Byte5(y) { }
  lemma And6(x: bv64, y: bv64) ensures Byte6(x & y) == Byte6(x) & Byte6(y) { }
  lemma And7(x: bv64, y: bv64) ensures Byte7(x & y) == Byte7(x) & Byte7(y) { }

  lemma Or0(x: bv64, y: bv64) ensures Byte0(x | y) == Byte0(x) | Byte0(y) { }
  lemma Or1(x: bv64, y: bv64) ensures Byte1(x | y) == Byte1(x) | Byte1(y) { }
  lemma Or2(x: bv64, y: bv64) ensures Byte2(x | y) == Byte2(x) | Byte2(y) { }
  lemma Or3(x: bv64, y: bv64) ensures Byte3(x | y) == Byte3(x) | Byte3(y) { }
  lemma Or4(x: bv64, y: bv64) ensures Byte4(x | y) == Byte4(x) | Byte4(y) { }
  lemma Or5(x: bv64, y: bv64) ensures Byte5(x | y) == Byte5(x) | Byte5(y) { }
  lemma Or6(x: bv64, y: bv64) ensures Byte6(x | y) == Byte6(x) | Byte6(y) { }
  lemma Or7(x: bv64, y: bv64) ensures Byte7(x | y) == Byte7(x) | Byte7(y) { }

  lemma Xor0(x: bv64, y: bv64) ensures Byte0(x ^ y) == Byte0(x) ^ Byte0(y) { }
  lemma Xor1(x: bv64, y: bv64) ensures Byte1(x ^ y) == Byte1(x) ^ Byte1(y) { }
  lemma Xor2(x: bv64, y: bv64) ensures Byte2(x ^ y) == Byte2(x) ^ Byte2(y) { }
  lemma Xor3(x: bv64, y: bv64) ensures Byte3(x ^ y) == Byte3(x) ^ Byte3(y) { }
  lemma Xor4(x: bv64, y: bv64) ensures Byte4(x ^ y) == Byte4(x) ^ Byte4(y) { }
  lemma Xor5(x: bv64, y: bv64) ensures Byte5(x ^ y) == Byte5(x) ^ Byte5(y) { }
  lemma Xor6(x: bv64, y: bv64) ensures Byte6(x ^ y) == Byte6(x) ^ Byte6(y) { }
  lemma Xor7(x: bv64, y: bv64) ensures Byte7(x ^ y) == Byte7(x) ^ Byte7(y) { }

  lemma AndBytewise(x: bv64, y: bv64)
    ensures BytewiseAt(And8, And64, x, y)
  {
    And0(x, y); And1(x, y); And2(x, y); And3(x, y); And4(x, y); And5(x, y); And6(x, y); And7(x, y);
  }

  lemma OrBytewise(x: bv64, y: bv64)
    ensures BytewiseAt(Or8, Or64, x, y)
  {
    Or0(x, y); Or1(x, y); Or2(x, y); Or3(x, y); Or4(x, y); Or5(x, y); Or6(x, y); Or7(x, y);
  }

  lemma XorBytewise(x: bv64, y: bv64)
    ensures BytewiseAt(Xor8, Xor64, x, y)
  {
    Xor0(x, y); Xor1(x, y); Xor2(x, y); Xor3(x, y); Xor4(x, y); Xor5(x, y); Xor6(x, y); Xor7(x, y);
  }

  lemma KeepBytewise(x: bv64, y: bv64) ensures BytewiseAt(Keep8, Keep64, x, y) { }

  lemma OpBytewise(op: Op, x: bv64, y: bv64)
    ensures BytewiseAt(ByteOp(op), WordOp(op), x, y)
  {
    match op
    case And => AndBytewise(x, y);
    case Or => OrBytewise(x, y);
    case Xor => XorBytewise(x, y);
    case Not => KeepBytewise(x, y);
  }

  lemma Not0(x: bv64) ensures Byte0(!x) == !Byte0(x) { }
  lemma Not1(x: bv64) ensures Byte1(!x) == !Byte1(x) { }
  lemma Not2(x: bv64) ensures Byte2(!x) == !Byte2(x) { }
  lemma Not3(x: bv64) ensures Byte3(!x) == !Byte3(x) { }
  lemma Not4(x: bv64) ensures Byte4(!x) == !Byte4(x) { }
  lemma Not5(x: bv64) ensures Byte5(!x) == !Byte5(x) { }
  lemma Not6(x: bv64) ensures Byte6(!x) == !Byte6(x) { }
  lemma Not7(x: bv64) ensures Byte7(!x) == !Byte7(x) { }

  lemma NotBytewise(x: bv64)
    ensures var w := Not64(x);
            && Byte0(w) == Not8(Byte0(x)) && Byte1(w) == Not8(Byte1(x)) && Byte2(w) == Not8(Byte2(x)) && Byte3(w) == Not8(Byte3(x))
            && Byte4(w) == Not8(Byte4(x)) && Byte5(w) == Not8(Byte5(x)) && Byte6(w) == Not8(Byte6(x)) && Byte7(w) == Not8(Byte7(x))
  {
    Not0(x); Not1(x); Not2(x); Not3(x); Not4(x); Not5(x); Not6(x); Not7(x);
  }

  // -------------------------------------------------------------- the fast path

  method StoreWord(res: array<Octet>, at: nat, w: bv64)
    requires at + 8 <= res.Length
    modifies res
    ensures res[at] == Byte0(w) && res[at + 1] == Byte1(w) && res[at + 2] == Byte2(w) && res[at + 3] == Byte3(w)
    ensures res[at + 4] == Byte4(w) && res[at + 5] == Byte5(w) && res[at + 6] == Byte6(w) && res[at + 7] == Byte7(w)
    ensures forall b :: 0 <= b < res.Length && !(at <= b < at + 8) ==> res[b] == old(res[b])
  {
    res[at], res[at + 1], res[at + 2], res[at + 3] := Byte0(w), Byte1(w), Byte2(w), Byte3(w);
    res[at + 4], res[at + 5], res[at + 6], res[at + 7] := Byte4(w), Byte5(w), Byte6(w), Byte7(w);
  }

  lemma LoadedBytes(s: seq<Octet>, p: nat)
    requires p + 8 <= |s|
    ensures var w := LoadWord(s, p);
            && Byte0(w) == s[p] && Byte1(w) == s[p + 1] && Byte2(w) == s[p + 2] && Byte3(w) == s[p + 3]
            && Byte4(w) == s[p + 4] && Byte5(w) == s[p + 5] && Byte6(w) == s[p + 6] && Byte7(w) == s[p + 7]
  {
    PackedBytes(s[p], s[p + 1], s[p + 2], s[p + 3], s[p + 4], s[p + 5], s[p + 6], s[p + 7]);
  }

  /** Combine one word of the result with the word of a string at the same place. */
  method CombineWord(op: Op, res: array<Octet>, at: nat, src: seq<Octet>)
    requires at + 8 <= res.Length && at + 8 <= |src|
    modifies res
    ensures forall b :: at <= b < at + 8 ==> res[b] == ByteOp(op)(old(res[b]), src[b])
    ensures forall b :: 0 <= b < res.Length && !(at <= b < at + 8) ==> res[b] == old(res[b])
  {
    var x, y := LoadWord(res[..], at), LoadWord(src, at);
    LoadedBytes(res[..], at);
    LoadedBytes(src, at);
    OpBytewise(op, x, y);
    StoreWord(res, at, WordOp(op)(x, y));
  }

  method ComplementWord(res: array<Octet>, at: nat)
    requires at + 8 <= res.Length
    modifies res
    ensures forall b :: at <= b < at + 8 ==> res[b] == Not8(old(res[b]))
    ensures forall b :: 0 <= b < res.Length && !(at <= b < at + 8) ==> res[b] == old(res[b])
  {
    var x := LoadWord(res[..], at);
    LoadedBytes(res[..], at);
    NotBytewise(x);
    StoreWord(res, at, Not64(x));
  }

  /** Four words at a time. */
  method CombineBlock(op: Op, res: array<Octet>, at: nat, src: seq<Octet>)
    requires at + 32 <= res.Length && at + 32 <= |src|
    modifies res
    ensures forall b :: at <= b < at + 32 ==> res[b] == ByteOp(op)(old(res[b]), src[b])
    ensures forall b :: 0 <= b < res.Length && !(at <= b < at + 32) ==> res[b] == old(res[b])
  {
    CombineWord(op, res, at, src);
    CombineWord(op, res, at + 8, src);
    CombineWord(op, res, at + 16, src);
    CombineWord(op, res, at + 24, src);
  }

  method ComplementBlock(res: array<Octet>, at: nat)
    requires at + 32 <= res.Length
    modifies res
    ensures forall b :: at <= b < at + 32 ==> res[b] == Not8(old(res[b]))
    ensures forall b :: 0 <= b < res.Length && !(at <= b < at + 32) ==> res[b] == old(res[b])
  {
    ComplementWord(res, at);
    ComplementWord(res, at + 8);
    ComplementWord(res, at + 16);
    ComplementWord(res, at + 24);
  }

  /** Combine a block of the first string, already in the result, with all the others. */
  method CombineAll(op: Op, res: array<Octet>, at: nat, srcs: seq<seq<Octet>>)
    requires |srcs| >= 1 && at + 32 <= res.Length && op != Not
    requires forall i :: 0 <= i < |srcs| ==> at + 32 <= |srcs[i]|
    requires forall b :: at <= b < at + 32 ==> res[b] == srcs[0][b]
    modifies res
    ensures forall b :: at <= b < at + 32 ==> res[b] == Combined(ByteOp(op), op, srcs, b, |srcs|)
    ensures forall b :: 0 <= b < res.Length && !(at <= b < at + 32) ==> res[b] == old(res[b])
  {
    var i := 1;
    while i < |srcs|
      invariant 1 <= i <= |srcs|
      invariant forall b :: at <= b < at + 32 ==> res[b] == Combined(ByteOp(op), op, srcs, b, i)
      invariant forall b :: 0 <= b < res.Length && !(at <= b < at + 32) ==> res[b] == old(res[b])
    {
      CombineBlock(op, res, at, srcs[i]);
      i := i + 1;
    }
  }

  /** The fast path: whole blocks while every string has data.  Returns where the byte loop goes on. */
  method FastPath(op: Op, res: array<Octet>, srcs: seq<seq<Octet>>, minlen: nat) returns (j: nat)
    requires |srcs| >= 1 && minlen <= res.Length && (op == Not ==> |srcs| == 1)
    requires forall i :: 0 <= i < |srcs| ==> minlen <= |srcs[i]|
    requires forall b :: 0 <= b < minlen ==> res[b] == srcs[0][b]
    modifies res
    ensures j <= minlen && forall b :: 0 <= b < j ==> res[b] == Combined(ByteOp(op), op, srcs, b, |srcs|)
  {
    j := 0;
    var left := minlen;
    while left >= 32
      invariant 0 <= j && 0 <= left && j + left == minlen
      invariant forall b :: 0 <= b < j ==> res[b] == Combined(ByteOp(op), op, srcs, b, |srcs|)
      invariant forall b :: j <= b < minlen ==> res[b] == srcs[0][b]
    {
      if op == Not { ComplementBlock(res, j); } else { CombineAll(op, res, j, srcs); }
      j, left := j + 32, left - 32;
    }
  }

  // ------------------------------------------------------------------ the byte loop

  /** The value that later strings cannot change. */
  predicate Final(op: Op, x: Octet) { (op == And && x == 0) || (op == Or && x == 0xff) }

  lemma FinalStays(op: Op, x: Octet, y: Octet)
    requires Final(op, x)
    ensures ByteOp(op)(x, y) == x
  {
  }

  /** Leaving the inner loop early changes nothing. */
  lemma {:induction false} EarlyExit(op: Op, srcs: seq<seq<Octet>>, j: nat, i: nat, n: nat)
    requires 1 <= i <= n <= |srcs| && Final(op, Combined(ByteOp(op), op, srcs, j, i))
    ensures Combined(ByteOp(op), op, srcs, j, n) == Combined(ByteOp(op), op, srcs, j, i)
    decreases n
  {
    if i < n {
      EarlyExit(op, srcs, j, i, n - 1);
      FinalStays(op, Combined(ByteOp(op), op, srcs, j, n - 1), ByteAt(srcs[n - 1], j));
    }
  }

  /** Byte `j` of the result, byte by byte. */
  method CombineByte(op: Op, srcs: seq<seq<Octet>>, j: nat) returns (output: Octet)
    requires |srcs| >= 1 && (op == Not ==> |srcs| == 1)
    ensures output == Combined(ByteOp(op), op, srcs, j, |srcs|)
  {
    output := if |srcs[0]| <= j then 0 else srcs[0][j];
    if op == Not { output := Not8(output); }
    var i := 1;
    while i < |srcs|
      invariant 1 <= i <= |srcs| && output == Combined(ByteOp(op), op, srcs, j, i)
    {
      var byte: Octet := if |srcs[i]| <= j then 0 else srcs[i][j];
      output := ByteOp(op)(output, byte);
      i := i + 1;
      if Final(op, output) {
        EarlyExit(op, srcs, j, i, |srcs|);
        return;
      }
    }
  }

  // ------------------------------------------------------------------- the command

  /** The strings, a missing key being an empty one. */
  function Strings(keys: seq<Option<seq<Octet>>>): seq<seq<Octet>> {
    seq(|keys|, i requires 0 <= i < |keys| => if keys[i].Some? then keys[i].value else [])
  }

  lemma StringsStep(keys: seq<Option<seq<Octet>>>, j: nat, srcs: seq<seq<Octet>>, src: seq<Octet>)
    requires j < |keys| && srcs == Strings(keys[..j]) && src == if keys[j].Some? then keys[j].value else []
    ensures Strings(keys[..j + 1]) == srcs + [src]
  {
  }

  /** Look the keys up: the shortest and the longest length, each that of some string. */
  method Lengths(keys: seq<Option<seq<Octet>>>) returns (srcs: seq<seq<Octet>>, minlen: nat, maxlen: nat)
    ensures |srcs| == |keys| && forall i :: 0 <= i < |keys| ==> srcs[i] == if keys[i].Some? then keys[i].value else []
    ensures forall i :: 0 <= i < |srcs| ==> minlen <= |srcs[i]| <= maxlen
    ensures |srcs| > 0 ==> exists i :: 0 <= i < |srcs| && |srcs[i]| == minlen
    ensures |srcs| > 0 ==> exists i :: 0 <= i < |srcs| && |srcs[i]| == maxlen
    ensures srcs == Strings(keys)
  {
    srcs, minlen, maxlen := [], 0, 0;
    ghost var least, most := 0, 0;
    var j := 0;
    while j < |keys|
      invariant 0 <= j <= |keys| && srcs == Strings(keys[..j]) && (j == 0 ==> maxlen == 0)
      invariant forall i :: 0 <= i < j ==> minlen <= |srcs[i]| <= maxlen
      invariant j > 0 ==> 0 <= least < j && |srcs[least]| == minlen
      invariant j > 0 ==> 0 <= most < j && |srcs[most]| == maxlen
    {
      var src := if keys[j].Some? then keys[j].value else [];
      StringsStep(keys, j, srcs, src);
      srcs := srcs + [src];
      if keys[j].None? {
        minlen := 0;
      } else {
        if |src| > maxlen { maxlen := |src|; }
        if j == 0 || |src| < minlen { minlen := |src|; }
      }
      if |src| == minlen { least := j; }
      if |src| == maxlen { most := j; }
      j := j + 1;
    }
    assert keys[..j] == keys;
  }

  /**
   The result has the longest length, and every byte is the strings combined,
   whether it came from the fast path or the byte loop.
   */
  method Compute(op: Op, keys: seq<Option<seq<Octet>>>) returns (res: array<Octet>)
    requires |keys| >= 1 && (op == Not ==> |keys| == 1)
    ensures fresh(res)
    ensures forall i :: 0 <= i < |keys| && keys[i].Some? ==> |keys[i].value| <= res.Length
    ensures res.Length == 0 || exists i :: 0 <= i < |keys| && keys[i].Some? && |keys[i].value| == res.Length
    ensures forall b :: 0 <= b < res.Length ==> res[b] == Combined(ByteOp(op), op, Strings(keys), b, |keys|)
  {
    var srcs, minlen, maxlen := Lengths(keys);
    assert forall i :: 0 <= i < |keys| && keys[i].Some? ==> |keys[i].value| == |srcs[i]|;
    res := new Octet[maxlen](_ => 0);
    var j := 0;
    if minlen >= 32 && |keys| <= 16 {
      forall b | 0 <= b < minlen { res[b] := srcs[0][b]; }
      j := FastPath(op, res, srcs, minlen);
    }
    while j < maxlen
      invariant 0 <= j <= maxlen && res.Length == maxlen && fresh(res)
      invariant forall b :: 0 <= b < j ==> res[b] == Combined(ByteOp(op), op, srcs, b, |srcs|)
    {
      var output := CombineByte(op, srcs, j);
      res[j] := output;
      j := j + 1;
    }
  }
}
