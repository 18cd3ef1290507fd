/** Bytes, and the kernel calls that move them. */
module Bytes {

  type Byte = x: int | 0 <= x < 256

  /** The outcome of one write call: some bytes were taken, a signal interrupted it, or it failed. */
  datatype WriteResult = Wrote(n: nat) | Interrupted | Failed

  /**
   The outcome of call `i` of a script of outcomes, for `len` bytes offered.
   The kernel takes at most what is offered; calls after the script fail.
   */
  function Outcome(script: seq<WriteResult>, i: nat, len: nat): WriteResult {
    if i >= |script| then Failed
    else if script[i].Wrote? && script[i].n > len then Wrote(len)
    else script[i]
  }
}

/**
 The buffer of commands fed while a child rewrites the append only file: a list
 of fixed-size blocks.  Its bytes go to the child through a pipe, and what is
 left goes to the new file when the child is done.
 */
module AofBuffer {
  import opened Bytes

  datatype Block = Block(buf: seq<Byte>, free: nat)

  function Flatten(blocks: seq<Block>): seq<Byte>
    decreases |blocks|
  {
    if blocks == [] then [] else Flatten(blocks[..|blocks| - 1]) + blocks[|blocks| - 1].buf
  }

  lemma {:induction false} FlattenFirst(blocks: seq<Block>)
    requires blocks != []
    ensures Flatten(blocks) == blocks[0].buf + Flatten(blocks[1..])
    decreases |blocks|
  {
    if |blocks| > 1 {
      var init := blocks[..|blocks| - 1];
      FlattenFirst(init);
      assert init[1..] == blocks[1..][..|blocks| - 2];
    }
  }

  lemma HoldsFirst(blocks: seq<Block>)
    requires blocks != []
    ensures |blocks[0].buf| <= |Flatten(blocks)|
  {
    FlattenFirst(blocks);
  }

  /** Taking `n` bytes from the first block takes them from the front of the buffer. */
  lemma FlattenTake(blocks: seq<Block>, n: nat, b: Block)
    requires blocks != [] && n <= |blocks[0].buf| && b.buf == blocks[0].buf[n..]
    ensures blocks[0].buf[..n] + Flatten(blocks[0 := b]) == Flatten(blocks)
    ensures b.buf == [] ==> Flatten(blocks[1..]) == Flatten(blocks[0 := b])
  {
    FlattenFirst(blocks);
    FlattenFirst(blocks[0 := b]);
    assert blocks[0 := b][1..] == blocks[1..];
    assert blocks[0].buf[..n] + (b.buf + Flatten(blocks[1..])) == blocks[0].buf + Flatten(blocks[1..]);
  }

  /** Adding bytes to the last block adds them at the end of the buffer. */
  lemma FlattenGrow(blocks: seq<Block>, more: seq<Byte>, b: Block)
    requires blocks != [] && b.buf == blocks[|blocks| - 1].buf + more
    ensures Flatten(blocks[|blocks| - 1 := b]) == Flatten(blocks) + more
  {
    var last := |blocks| - 1;
    assert blocks[last := b][..last] == blocks[..last];
    assert Flatten(blocks[..last]) + (blocks[last].buf + more) == Flatten(blocks[..last]) + blocks[last].buf + more;
  }

  lemma FlattenLast(blocks: seq<Block>, b: Block)
    ensures Flatten(blocks + [b]) == Flatten(blocks) + b.buf
  {
    assert (blocks + [b])[..|blocks|] == blocks;
  }

  lemma {:induction false} FlattenSplit(blocks: seq<Block>, k: nat)
    requires k <= |blocks|
    ensures Flatten(blocks) == Flatten(blocks[..k]) + Flatten(blocks[k..])
    decreases |blocks| - k
  {
    if k == |blocks| {
      assert blocks[..k] == blocks;
    } else {
      FlattenSplit(blocks, k + 1);
      FlattenFirst(blocks[k..]);
      FlattenLast(blocks[..k], blocks[k]);
      assert blocks[..k] + [blocks[k]] == blocks[..k + 1] && blocks[k..][1..] == blocks[k + 1..];
    }
  }

  lemma FlattenPrefix(blocks: seq<Block>, k: nat)
    requires k <= |blocks|
    ensures Flatten(blocks[..k]) <= Flatten(blocks)
  {
    FlattenSplit(blocks, k);
  }

  lemma FlattenNext(blocks: seq<Block>, k: nat)
    requires k < |blocks|
    ensures Flatten(blocks[..k + 1]) == Flatten(blocks[..k]) + blocks[k].buf
  {
    assert blocks[..k + 1][..k] == blocks[..k];
  }

  /** From call `i` on, every call for a non-empty block takes the whole block. */
  function TakesAll(script: seq<WriteResult>, i: nat, blocks: seq<Block>): bool
    decreases |blocks|
  {
    if blocks == [] then true
    else
      var used := |blocks[0].buf|;
      if used == 0 then TakesAll(script, i, blocks[1..])
      else Outcome(script, i, used) == Wrote(used) && TakesAll(script, i + 1, blocks[1..])
  }

  /** Calls that take at least as much as any block holds take everything. */
  lemma {:induction false} EnoughTakesAll(script: seq<WriteResult>, i: nat, blocks: seq<Block>)
    requires i + |blocks| <= |script|
    requires forall k, b :: i <= k < |script| && 0 <= b < |blocks| ==> script[k].Wrote? && |blocks[b].buf| <= script[k].n
    ensures TakesAll(script, i, blocks)
    decreases |blocks|
  {
    if blocks != [] {
      assert forall b :: 0 <= b < |blocks[1..]| ==> blocks[1..][b] == blocks[b + 1];
      EnoughTakesAll(script, if blocks[0].buf == [] then i else i + 1, blocks[1..]);
    }
  }

  /** A call that fails or takes less than its block is noticed. */
  lemma ShortIsNoticed(script: seq<WriteResult>, blocks: seq<Block>)
    requires blocks != [] && blocks[0].buf != [] && (script == [] || !script[0].Wrote? || script[0].n < |blocks[0].buf|)
    ensures !TakesAll(script, 0, blocks)
  {
  }

  /** Every call takes at least one byte. */
  predicate Generous(script: seq<WriteResult>) { forall i :: 0 <= i < |script| ==> script[i].Wrote? && script[i].n > 0 }

  class RewriteBuffer {
    const blockSize: nat
    var blocks: seq<Block>
    var stopSending: bool

    /** Every block accounts for its whole size. */
    ghost predicate Valid()
      reads this
    {
      blockSize > 0 && forall i :: 0 <= i < |blocks| ==> |blocks[i].buf| + blocks[i].free == blockSize
    }

    ghost function Contents(): seq<Byte>
      reads this
    {
      Flatten(blocks)
    }

    constructor (size: nat)
      requires size > 0
      ensures Valid() && Contents() == [] && !stopSending
    {
      blockSize, blocks, stopSending := size, [], false;
    }

    /** The number of bytes waiting. */
    method Size() returns (size: nat)
      requires Valid()
      ensures size == |Contents()|
    {
      size := 0;
      var i := 0;
      while i < |blocks|
        invariant 0 <= i <= |blocks| && size == |Flatten(blocks[..i])|
      {
        FlattenLast(blocks[..i], blocks[i]);
        assert blocks[..i + 1] == blocks[..i] + [blocks[i]];
        size := size + |blocks[i].buf|;
        i := i + 1;
      }
      assert blocks[..i] == blocks;
    }

    /** Copy as much as fits into the last block. */
    method FillLast(s: seq<Byte>) returns (n: nat)
      requires Valid() && blocks != []
      modifies `blocks
      ensures Valid() && n <= |s| && Contents() == old(Contents()) + s[..n]
      ensures |blocks| == |old(blocks)| && (n < |s| ==> blocks[|blocks| - 1].free == 0)
      ensures old(blocks[|blocks| - 1].free) > 0 && s != [] ==> n > 0
    {
      var last := |blocks| - 1;
      var block := blocks[last];
      n := if block.free < |s| then block.free else |s|;
      var filled := Block(block.buf + s[..n], block.free - n);
      FlattenGrow(blocks, s[..n], filled);
      blocks := blocks[last := filled];
    }

    method AddBlock()
      requires Valid()
      modifies `blocks
      ensures Valid() && Contents() == old(Contents()) && blocks != [] && blocks[|blocks| - 1].free > 0
    {
      FlattenLast(blocks, Block([], blockSize));
      blocks := blocks + [Block([], blockSize)];
    }

    /** Append bytes, filling the last block and allocating as many more as needed. */
    method Append(s: seq<Byte>)
      requires Valid()
      modifies `blocks
      ensures Valid() && Contents() == old(Contents()) + s
    {
      var rest := s;
      while |rest| > 0
        invariant Valid() && Contents() + rest == old(Contents()) + s
        decreases |rest|, if blocks != [] && blocks[|blocks| - 1].free > 0 then 0 else 1
      {
        if blocks != [] {
          ghost var c := Contents();
          var n := FillLast(rest);
          assert (c + rest[..n]) + rest[n..] == c + rest;
          rest := rest[n..];
        }
        if |rest| > 0 { AddBlock(); }
      }
    }

    /** Take `n` bytes from the first block, and the block itself when it is empty then. */
    method TakeFront(n: nat) returns (bytes: seq<Byte>)
      requires Valid() && blocks != [] && n <= |blocks[0].buf|
      modifies `blocks
      ensures Valid() && |bytes| == n && bytes + Contents() == old(Contents())
      ensures |blocks| <= |old(blocks)| && (n == |old(blocks[0].buf)| ==> blocks == old(blocks[1..]))
    {
      var block := blocks[0];
      var left := Block(block.buf[n..], block.free + n);
      FlattenTake(blocks, n, left);
      bytes := block.buf[..n];
      blocks := if |left.buf| == 0 then blocks[1..] else blocks[0 := left];
    }

    /** Offer the first block to the pipe; an empty block is dropped without a call. */
    method SendFirst(script: seq<WriteResult>, i: nat) returns (next: nat, bytes: seq<Byte>, refused: bool)
      requires Valid() && blocks != [] && i <= |script|
      modifies `blocks
      ensures Valid() && bytes + Contents() == old(Contents())
      ensures refused ==> blocks == old(blocks) && Contents() != [] && (i < |script| ==> !script[i].Wrote? || script[i].n == 0)
      ensures !refused ==> if next == i then bytes == [] && |blocks| < |old(blocks)| else next == i + 1 <= |script| && bytes != []
      ensures TakesAll(script, i, old(blocks)) ==> !refused && TakesAll(script, next, blocks)
    {
      HoldsFirst(blocks);
      var used, n := |blocks[0].buf|, 0;
      next := i;
      if used > 0 {
        var r := Outcome(script, i, used);
        if !r.Wrote? || r.n == 0 { return i, [], true; }
        n, next := r.n, i + 1;
      }
      bytes := TakeFront(n);
      refused := false;
    }

    /**
     Send to the child what the pipe takes.  Bytes leave the buffer from its
     front, each exactly once; none is sent after the child asked to stop.
     `idle` says that the write handler was removed.  All of it is sent when
     every call takes the block it is offered, and also, however short the
     writes, when every call takes something and there are enough of them.
     */
    method ChildWriteDiffData(script: seq<WriteResult>) returns (sent: seq<Byte>, idle: bool)
      requires Valid()
      modifies `blocks
      ensures Valid() && sent + Contents() == old(Contents())
      ensures stopSending ==> sent == [] && blocks == old(blocks)
      ensures idle <==> stopSending || blocks == []
      ensures !stopSending && TakesAll(script, 0, old(blocks)) ==> blocks == [] && sent == old(Contents())
      ensures !stopSending && Generous(script) && |script| >= |old(Contents())| ==> blocks == [] && sent == old(Contents())
    {
      sent, idle := [], false;
      var i := 0;
      while !stopSending && blocks != []
        invariant Valid() && i <= |script| && sent + Contents() == old(Contents())
        invariant stopSending ==> sent == [] && blocks == old(blocks)
        invariant TakesAll(script, 0, old(blocks)) ==> TakesAll(script, i, blocks)
        invariant Generous(script) && |script| >= |old(Contents())| ==> |script| - i >= |Contents()|
        decreases |script| - i, |blocks|
      {
        var next, bytes, refused := SendFirst(script, i);
        if refused { return; }
        assert (sent + bytes) + Contents() == sent + (bytes + Contents());
        sent, i := sent + bytes, next;
      }
      idle := true;
    }

    /** Write the whole buffer to a file; -1 exactly when some call did not take its whole block. */
    method WriteTo(script: seq<WriteResult>) returns (count: int, written: seq<Byte>)
      requires Valid()
      ensures count == (if TakesAll(script, 0, blocks) then |Contents()| else -1) && written <= Contents()
      ensures count != -1 ==> written == Contents()
    {
      count, written := 0, [];
      var k, i := 0, 0;
      while k < |blocks|
        invariant 0 <= k <= |blocks| && written == Flatten(blocks[..k]) && count == |written|
        invariant TakesAll(script, 0, blocks) == TakesAll(script, i, blocks[k..])
      {
        FlattenNext(blocks, k);
        FlattenPrefix(blocks, k + 1);
        var block := blocks[k];
        assert blocks[k..][1..] == blocks[k + 1..];
        if |block.buf| > 0 {
          var r := Outcome(script, i, |block.buf|);
          i := i + 1;
          if r != Wrote(|block.buf|) {
            if r.Wrote? {
              assert written + block.buf[..r.n] <= written + block.buf;
              written := written + block.buf[..r.n];
            }
            return -1, written;
          }
          written := written + block.buf;
          count := count + |block.buf|;
        }
        k := k + 1;
      }
      assert blocks[..k] == blocks;
    }
  }
}
