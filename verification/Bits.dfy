/** Strings of bits: bit 0 is the most significant bit of the first byte. */
module Bits {

  type Octet = bv8

  /** The mask of bit `r` of a byte, counted from the most significant one. */
  function Mask(r: nat): Octet
    requires r < 8
  {
    match r case 0 => 0x80 case 1 => 0x40 case 2 => 0x20 case 3 => 0x10 case 4 => 0x08 case 5 => 0x04 case 6 => 0x02 case 7 => 0x01
  }

  predicate BitIn(b: Octet, r: nat)
    requires r < 8
  {
    b & Mask(r) != 0
  }

  predicate Bit(s: seq<Octet>, i: nat)
    requires i < 8 * |s|
  {
    BitIn(s[i / 8], i % 8)
  }

  /** Byte `k` of a string that is followed by zeros. */
  function ByteAt(s: seq<Octet>, k: nat): Octet { if k < |s| then s[k] else 0 }

  /** Bit `i` of the string, which is followed by zeros. */
  predicate Padded(s: seq<Octet>, i: nat) { i < 8 * |s| && Bit(s, i) }

  lemma PaddedIs(s: seq<Octet>, k: nat, r: nat)
    requires r < 8
    ensures Padded(s, 8 * k + r) == BitIn(ByteAt(s, k), r)
  {
    assert (8 * k + r) / 8 == k && (8 * k + r) % 8 == r;
  }

  /** Eight bytes as a word, the first one most significant. */
  function Pack8(a: Octet, b: Octet, c: Octet, d: Octet, e: Octet, f: Octet, g: Octet, h: Octet): bv64 {
    (a as bv64 << 56) | (b as bv64 << 48) | (c as bv64 << 40) | (d as bv64 << 32)
    | (e as bv64 << 24) | (f as bv64 << 16) | (g as bv64 << 8) | (h as bv64)
  }

  /** The word a native (little-endian) load gives. */
  function LoadWord(s: seq<Octet>, p: nat): bv64
    requires p + 8 <= |s|
  {
    Pack8(s[p + 7], s[p + 6], s[p + 5], s[p + 4], s[p + 3], s[p + 2], s[p + 1], s[p])
  }
}
