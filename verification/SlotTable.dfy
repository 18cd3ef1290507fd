/** Slot bitmaps of the cluster bus: bit `pos` is bit `pos % 8` of byte `pos / 8`, counted from the least significant. */
module SlotBitmap {

  function Mask(k: nat): bv8
    requires k < 8
  {
    if k == 0 then 1 else if k == 1 then 2 else if k == 2 then 4 else if k == 3 then 8
    else if k == 4 then 16 else if k == 5 then 32 else if k == 6 then 64 else 128
  }

  predicate TestBit(b: seq<bv8>, pos: nat)
    requires pos < 8 * |b|
  {
    b[pos / 8] & Mask(pos % 8) != 0
  }

  /** Setting a bit sets that bit and no other. */
  function SetBit(b: seq<bv8>, pos: nat): (r: seq<bv8>)
    requires pos < 8 * |b|
    ensures |r| == |b| && forall q :: 0 <= q < 8 * |b| ==> TestBit(r, q) == (q == pos || TestBit(b, q))
  {
    var r := b[pos / 8 := b[pos / 8] | Mask(pos % 8)];
    assert forall q :: 0 <= q < 8 * |b| ==> TestBit(r, q) == (q == pos || TestBit(b, q)) by {
      forall q | 0 <= q < 8 * |b| ensures TestBit(r, q) == (q == pos || TestBit(b, q)) {
        if q / 8 == pos / 8 { MasksDiffer(pos % 8, q % 8); OrKeeps(b[pos / 8], Mask(pos % 8), Mask(q % 8)); }
      }
    }
    r
  }

  /** Clearing a bit clears that bit and no other. */
  function ClearBit(b: seq<bv8>, pos: nat): (r: seq<bv8>)
    requires pos < 8 * |b|
    ensures |r| == |b| && forall q :: 0 <= q < 8 * |b| ==> TestBit(r, q) == (q != pos && TestBit(b, q))
  {
    var r := b[pos / 8 := b[pos / 8] & !Mask(pos % 8)];
    assert forall q :: 0 <= q < 8 * |b| ==> TestBit(r, q) == (q != pos && TestBit(b, q)) by {
      forall q | 0 <= q < 8 * |b| ensures TestBit(r, q) == (q != pos && TestBit(b, q)) {
        if q / 8 == pos / 8 { MasksDiffer(pos % 8, q % 8); AndKeeps(b[pos / 8], Mask(pos % 8), Mask(q % 8)); }
      }
    }
    r
  }

  lemma MasksDiffer(i: nat, k: nat)
    requires i < 8 && k < 8
    ensures Mask(i) != 0 && (if i == k then Mask(i) & Mask(k) == Mask(i) else Mask(i) & Mask(k) == 0)
  {
  }

  lemma OrKeeps(b: bv8, m: bv8, t: bv8)
    ensures m & t == 0 ==> (b | m) & t == b & t
    ensures m == t ==> (b | m) & t == t
  {
  }

  lemma AndKeeps(b: bv8, m: bv8, t: bv8)
    ensures m & t == 0 ==> (b & !m) & t == b & t
    ensures m == t ==> (b & !m) & t == 0
  {
  }
}

/**
 The slot table of one node: for every slot the node that serves it, and for
 every known node a bitmap of its slots and their number.  The two views mirror
 each other after every operation.
 */
module SlotTable {
  import opened Options
  import opened Names
  import opened SlotBitmap

  /** The owner of every slot. */
  type Owner = seq<Option<Id>>

  /** What a PING, PONG or UPDATE says: a node, its configuration epoch and the slots it serves under it. */
  datatype Claim = Claim(sender: Id, epoch: Epoch, slots: set<nat>)

  datatype NodeInfo = NodeInfo(configEpoch: Epoch, slots: seq<bv8>, numslots: int)

  // ----------------------------------------- what the operations do to owners

  /** All slots of `n` become unassigned. */
  function Dropped(owner: Owner, n: Id): (r: Owner)
    ensures |r| == |owner|
  {
    seq(|owner|, j requires 0 <= j < |owner| => if owner[j] == Some(n) then None else owner[j])
  }

  /** All slots of `from` pass to `to`. */
  function Passed(owner: Owner, from: Id, to: Id): (r: Owner)
    ensures |r| == |owner|
  {
    seq(|owner|, j requires 0 <= j < |owner| => if owner[j] == Some(from) then Some(to) else owner[j])
  }

  /** A claimed slot is rebound when it is free, or served under an older epoch, and not being imported. */
  predicate Rebinds(owner: Owner, epochs: map<Id, Epoch>, importing: set<nat>, c: Claim, j: nat)
    requires j < |owner|
  {
    && j in c.slots && owner[j] != Some(c.sender) && j !in importing
    && (owner[j].None? || (owner[j].value in epochs && epochs[owner[j].value] < c.epoch))
  }

  function Rebound(owner: Owner, epochs: map<Id, Epoch>, importing: set<nat>, c: Claim): (r: Owner)
    ensures |r| == |owner|
  {
    seq(|owner|, j requires 0 <= j < |owner| => if Rebinds(owner, epochs, importing, c, j) then Some(c.sender) else owner[j])
  }

  /** The slots a claim takes away from `n`. */
  function Taken(owner: Owner, epochs: map<Id, Epoch>, importing: set<nat>, c: Claim, n: Id): set<nat> {
    set j: nat | j < |owner| && owner[j] == Some(n) && Rebinds(owner, epochs, importing, c, j)
  }

  function Below(s: set<nat>, j: nat): set<nat> { set i | i in s && i < j }

  /** `now` is `owner` with the claim applied to the first `j` slots. */
  ghost predicate ReboundBelow(owner: Owner, epochs: map<Id, Epoch>, importing: set<nat>, c: Claim, j: nat, now: Owner) {
    && |now| == |owner|
    && forall i :: 0 <= i < |owner| ==> now[i] == if i < j && Rebinds(owner, epochs, importing, c, i) then Some(c.sender) else owner[i]
  }

  /** What the scan of a claim counts: claimed slots, slots taken from the own master, and own slots lost with keys in them. */
  datatype Tally = Tally(senderSlots: nat, migrated: nat, lost: seq<nat>)

  /** One more slot in the tally. */
  function Tallied(t: Tally, j: nat, claimed: bool, rebound: bool, before: Option<Id>, me: Id, curmaster: Id, hasKeys: bool): Tally {
    Tally(if claimed then t.senderSlots + 1 else t.senderSlots,
          if rebound && before == Some(curmaster) then t.migrated + 1 else t.migrated,
          if rebound && before == Some(me) && hasKeys then t.lost + [j] else t.lost)
  }

  ghost function TallyTo(owner: Owner, epochs: map<Id, Epoch>, importing: set<nat>, c: Claim, me: Id, curmaster: Id,
                         keys: seq<nat>, j: nat): Tally
    requires j <= |keys| == |owner|
  {
    if j == 0 then Tally(0, 0, [])
    else Tallied(TallyTo(owner, epochs, importing, c, me, curmaster, keys, j - 1), j - 1, j - 1 in c.slots,
                 Rebinds(owner, epochs, importing, c, j - 1), owner[j - 1], me, curmaster, keys[j - 1] > 0)
  }

  ghost predicate TallyOf(owner: Owner, epochs: map<Id, Epoch>, importing: set<nat>, c: Claim, me: Id, curmaster: Id,
                          keys: seq<nat>, j: nat, t: Tally)
    requires |keys| == |owner|
  {
    && t.senderSlots == |Below(c.slots, j)|
    && t.migrated == |Below(Taken(owner, epochs, importing, c, curmaster), j)|
    && forall i :: i in t.lost <==> i in Taken(owner, epochs, importing, c, me) && i < j && keys[i] > 0
  }

  function Learned(epochs: map<Id, Epoch>, n: Id, epoch: Epoch): map<Id, Epoch>
    requires n in epochs
  {
    if epochs[n] < epoch then epochs[n := epoch] else epochs
  }

  function EpochsOf(nodes: map<Id, NodeInfo>): map<Id, Epoch> { map n | n in nodes :: nodes[n].configEpoch }

  function BitsOf(b: seq<bv8>): set<nat> { set j: nat | j < 8 * |b| && TestBit(b, j) }

  function SlotsOf(owner: Owner, n: Id): set<nat> { set j: nat | j < |owner| && owner[j] == Some(n) }

  /** The migrations of the first `j` slots with `n` are gone. */
  function Without(m: map<nat, Id>, j: nat, n: Id): map<nat, Id> {
    map i | i in m && !(i < j && m[i] == n) :: m[i]
  }

  /** The same nodes are known, under the same epochs. */
  predicate SameNodes(a: map<Id, NodeInfo>, b: map<Id, NodeInfo>) {
    a.Keys == b.Keys && forall n :: n in a ==> a[n].configEpoch == b[n].configEpoch
  }

  // ---------------------------------------------------------------- the table

  class Table {
    const slots: array<Option<Id>>
    var nodes: map<Id, NodeInfo>
    var importing: map<nat, Id>   // the slots this node imports, and from whom
    var migrating: map<nat, Id>   // the slots this node gives away, and to whom

    ghost predicate Shape()
      reads `nodes, slots
    {
      && slots.Length % 8 == 0
      && (forall n :: n in nodes ==> 8 * |nodes[n].slots| == slots.Length)
      && (forall j :: 0 <= j < slots.Length && slots[j].Some? ==> slots[j].value in nodes)
    }

    /** Slot `j` is bound to `n` exactly when bit `j` of its bitmap is set, and `numslots` counts those bits. */
    ghost predicate Mirror()
      reads `nodes, slots
      requires Shape()
    {
      && (forall n, j {:trigger TestBit(nodes[n].slots, j)} :: n in nodes && 0 <= j < slots.Length ==> (TestBit(nodes[n].slots, j) <==> slots[j] == Some(n)))
      && (forall n {:trigger nodes[n].numslots} :: n in nodes ==> nodes[n].numslots == |SlotsOf(slots[..], n)|)
    }

    ghost predicate Valid()
      reads `nodes, slots
    {
      Shape() && Mirror()
    }

    ghost function Owners(): Owner
      reads slots
    {
      slots[..]
    }

    ghost function Epochs(): map<Id, Epoch>
      reads `nodes
    {
      EpochsOf(nodes)
    }

    constructor (numSlots: nat)
      requires numSlots % 8 == 0
      ensures Valid() && fresh(slots) && nodes == map[]
      ensures Owners() == seq(numSlots, _ => None)
    {
      slots := new Option<Id>[numSlots](_ => None);
      nodes, importing, migrating := map[], map[], map[];
      new;
      assert slots[..] == seq(numSlots, _ => None);
    }

    /** Learn about a node that serves nothing yet. */
    method AddNode(n: Id, epoch: Epoch)
      requires Valid() && n !in nodes
      modifies this
      ensures Valid() && Owners() == old(Owners()) && Epochs() == old(Epochs())[n := epoch]
    {
      var empty: seq<bv8> := seq(slots.Length / 8, _ => 0);
      nodes := nodes[n := NodeInfo(epoch, empty, 0)];
      assert SlotsOf(slots[..], n) == {};
    }

    method NodeSetSlotBit(n: Id, slot: nat) returns (was: bool)
      requires Shape() && n in nodes && slot < slots.Length
      modifies this`nodes
      ensures nodes.Keys == old(nodes.Keys) && forall m :: m in nodes && m != n ==> nodes[m] == old(nodes[m])
      ensures was == TestBit(old(nodes[n].slots), slot)
      ensures nodes[n] == old(nodes[n]).(slots := SetBit(old(nodes[n].slots), slot), numslots := old(nodes[n].numslots) + if was then 0 else 1)
    {
      was := TestBit(nodes[n].slots, slot);
      var info := nodes[n].(slots := SetBit(nodes[n].slots, slot));
      if !was { info := info.(numslots := info.numslots + 1); }
      nodes := nodes[n := info];
    }

    method NodeClearSlotBit(n: Id, slot: nat) returns (was: bool)
      requires Shape() && n in nodes && slot < slots.Length
      modifies this`nodes
      ensures nodes.Keys == old(nodes.Keys) && forall m :: m in nodes && m != n ==> nodes[m] == old(nodes[m])
      ensures was == TestBit(old(nodes[n].slots), slot)
      ensures nodes[n] == old(nodes[n]).(slots := ClearBit(old(nodes[n].slots), slot), numslots := old(nodes[n].numslots) - if was then 1 else 0)
    {
      was := TestBit(nodes[n].slots, slot);
      var info := nodes[n].(slots := ClearBit(nodes[n].slots, slot));
      if was { info := info.(numslots := info.numslots - 1); }
      nodes := nodes[n := info];
    }

    method NodeGetSlotBit(n: Id, slot: nat) returns (bit: bool)
      requires Valid() && n in nodes && slot < slots.Length
      ensures bit <==> slots[slot] == Some(n)
    {
      bit := TestBit(nodes[n].slots, slot);
    }

    /** Bind a free slot; a slot that is already bound is left alone. */
    method AddSlot(n: Id, slot: nat) returns (ok: bool)
      requires Valid() && n in nodes && slot < slots.Length
      modifies this`nodes, slots
      ensures Valid() && SameNodes(old(nodes), nodes)
      ensures ok == old(slots[slot]).None?
      ensures Owners() == if ok then old(Owners())[slot := Some(n)] else old(Owners())
    {
      if slots[slot].Some? { return false; }
      ghost var before := slots[..];
      var _ := NodeSetSlotBit(n, slot);
      slots[slot] := Some(n);
      assert slots[..] == before[slot := Some(n)];
      CountAdd(before, slot, n);
      return true;
    }

    /** Unbind a slot.  The owner's bit is always found set: the assertion never fires. */
    method DelSlot(slot: nat) returns (ok: bool)
      requires Valid() && slot < slots.Length
      modifies this`nodes, slots
      ensures Valid() && SameNodes(old(nodes), nodes)
      ensures ok == old(slots[slot]).Some?
      ensures Owners() == old(Owners())[slot := None]
    {
      if slots[slot].None? { return false; }
      ghost var before := slots[..];
      var n := slots[slot].value;
      var was := NodeClearSlotBit(n, slot);
      assert was;
      slots[slot] := None;
      assert slots[..] == before[slot := None];
      CountDel(before, slot);
      return true;
    }

    method DropIfOwned(n: Id, j: nat) returns (owned: bool)
      requires Valid() && n in nodes && j < slots.Length
      modifies this`nodes, slots
      ensures Valid() && SameNodes(old(nodes), nodes)
      ensures owned == (old(slots[j]) == Some(n)) && Owners() == if owned then old(Owners())[j := None] else old(Owners())
    {
      owned := NodeGetSlotBit(n, j);
      if owned { var _ := DelSlot(j); }
    }

    /** Unbind every slot of `n`, found through its bitmap. */
    method DelNodeSlots(n: Id) returns (deleted: nat)
      requires Valid() && n in nodes
      modifies this`nodes, slots
      ensures Valid() && SameNodes(old(nodes), nodes)
      ensures Owners() == Dropped(old(Owners()), n)
      ensures forall j :: 0 <= j < slots.Length ==> slots[j] == if old(slots[j]) == Some(n) then None else old(slots[j])
      ensures n in nodes && deleted == old(nodes[n].numslots) && nodes[n].numslots == 0
    {
      deleted := 0;
      ghost var was := slots[..];
      var j := 0;
      while j < slots.Length
        invariant 0 <= j <= slots.Length && Valid() && SameNodes(old(nodes), nodes)
        invariant |Owners()| == |was| && forall i :: 0 <= i < |was| ==> Owners()[i] == if i < j && was[i] == Some(n) then None else was[i]
        invariant deleted == |SlotsOf(was[..j], n)|
      {
        CountStep(was, j, n);
        var owned := DropIfOwned(n, j);
        if owned { deleted := deleted + 1; }
        j := j + 1;
      }
      assert was[..j] == was;
      assert Owners() == Dropped(was, n);
      assert SlotsOf(Owners(), n) == {};
    }

    /** Forget a node: its slots, and every migration with it, go. */
    method DelNode(n: Id)
      requires Valid() && n in nodes
      modifies this, slots
      ensures Valid() && Owners() == Dropped(old(Owners()), n) && SameNodes(old(nodes) - {n}, nodes)
      ensures forall j :: 0 <= j < slots.Length ==> slots[j] == if old(slots[j]) == Some(n) then None else old(slots[j])
      ensures importing == Without(old(importing), slots.Length, n) && migrating == Without(old(migrating), slots.Length, n)
    {
      UnbindNode(n);
      RemoveNode(n);
    }

    method UnbindNode(n: Id)
      requires Valid() && n in nodes
      modifies this, slots
      ensures Valid() && Owners() == Dropped(old(Owners()), n) && SameNodes(old(nodes), nodes)
      ensures importing == Without(old(importing), slots.Length, n) && migrating == Without(old(migrating), slots.Length, n)
    {
      ghost var was, imp, mig := slots[..], importing, migrating;
      WithoutNothing(imp, n);
      WithoutNothing(mig, n);
      var j := 0;
      while j < slots.Length
        invariant 0 <= j <= slots.Length && Valid() && SameNodes(old(nodes), nodes)
        invariant |Owners()| == |was| && forall i :: 0 <= i < |was| ==> Owners()[i] == if i < j && was[i] == Some(n) then None else was[i]
        invariant importing == Without(imp, j, n) && migrating == Without(mig, j, n)
      {
        ForgetSlot(j, n, imp, mig);
        j := j + 1;
      }
      assert Owners() == Dropped(was, n);
    }

    method ForgetSlot(j: nat, n: Id, ghost imp: map<nat, Id>, ghost mig: map<nat, Id>)
      requires Valid() && j < slots.Length
      requires importing == Without(imp, j, n) && migrating == Without(mig, j, n)
      modifies this, slots
      ensures Valid() && SameNodes(old(nodes), nodes)
      ensures Owners() == if old(slots[j]) == Some(n) then old(Owners())[j := None] else old(Owners())
      ensures importing == Without(imp, j + 1, n) && migrating == Without(mig, j + 1, n)
    {
      WithoutStep(imp, j, n);
      WithoutStep(mig, j, n);
      if j in importing && importing[j] == n { importing := importing - {j}; }
      if j in migrating && migrating[j] == n { migrating := migrating - {j}; }
      if slots[j] == Some(n) { var _ := DelSlot(j); }
    }

    /** Drop a node that serves nothing from the table of nodes. */
    method RemoveNode(n: Id)
      requires Valid() && n in nodes && forall j :: 0 <= j < slots.Length ==> slots[j] != Some(n)
      modifies `nodes
      ensures Valid() && nodes == old(nodes) - {n}
    {
      nodes := nodes - {n};
    }

    method TakeSlot(me: Id, from: Id, j: nat)
      requires Valid() && me in nodes && from in nodes && j < slots.Length
      modifies `nodes, slots
      ensures Valid() && SameNodes(old(nodes), nodes)
      ensures Owners() == if old(slots[j]) == Some(from) then old(Owners())[j := Some(me)] else old(Owners())
    {
      var bit := NodeGetSlotBit(from, j);
      if bit {
        var _ := DelSlot(j);
        var _ := AddSlot(me, j);
      }
    }

    /** The takeover of a failed master: all its slots pass to this node. */
    method FailoverReplaceYourMaster(me: Id, oldmaster: Id)
      requires Valid() && me in nodes && oldmaster in nodes && me != oldmaster
      modifies this`nodes, slots
      ensures Valid() && SameNodes(old(nodes), nodes)
      ensures Owners() == Passed(old(Owners()), oldmaster, me)
      ensures forall j :: 0 <= j < slots.Length ==> slots[j] == if old(slots[j]) == Some(oldmaster) then Some(me) else old(slots[j])
      ensures oldmaster in nodes && nodes[oldmaster].numslots == 0
    {
      ghost var was := slots[..];
      var j := 0;
      while j < slots.Length
        invariant 0 <= j <= slots.Length && Valid() && SameNodes(old(nodes), nodes)
        invariant forall i :: 0 <= i < slots.Length ==> slots[i] == if i < j && was[i] == Some(oldmaster) then Some(me) else was[i]
      {
        TakeSlot(me, oldmaster, j);
        j := j + 1;
      }
      assert Owners() == Passed(was, oldmaster, me);
      assert SlotsOf(Owners(), oldmaster) == {};
    }

    /** Rebind one claimed slot if the claim is newer than what the table says. */
    method RebindSlot(sender: Id, epoch: Epoch, j: nat) returns (rebound: bool)
      requires Valid() && sender in nodes && j < slots.Length
      modifies `nodes, slots
      ensures Valid() && SameNodes(old(nodes), nodes)
      ensures rebound == Rebinds(old(Owners()), old(Epochs()), importing.Keys, Claim(sender, epoch, {j}), j)
      ensures Owners() == if rebound then old(Owners())[j := Some(sender)] else old(Owners())
    {
      rebound := false;
      if slots[j] == Some(sender) { return; }
      if j in importing { return; }
      if slots[j].None? || nodes[slots[j].value].configEpoch < epoch {
        var _ := DelSlot(j);
        var _ := AddSlot(sender, j);
        rebound := true;
      }
    }

    /** One slot of the scan; `was` and `epochs` are the table before the scan. */
    method ClaimSlot(sender: Id, epoch: Epoch, claimed: seq<bv8>, j: nat, me: Id, curmaster: Id, hasKeys: bool, t: Tally,
                     ghost was: Owner, ghost epochs: map<Id, Epoch>, ghost c: Claim)
      returns (u: Tally)
      requires Valid() && sender in nodes && j < slots.Length == 8 * |claimed| == |was| && Epochs() == epochs
      requires c == Claim(sender, epoch, BitsOf(claimed)) && ReboundBelow(was, epochs, importing.Keys, c, j, Owners())
      modifies `nodes, slots
      ensures Valid() && SameNodes(old(nodes), nodes)
      ensures ReboundBelow(was, epochs, importing.Keys, c, j + 1, Owners())
      ensures u == Tallied(t, j, j in c.slots, Rebinds(was, epochs, importing.Keys, c, j), was[j], me, curmaster, hasKeys)
    {
      ghost var now := slots[..];
      var before, bit, rebound := slots[j], TestBit(claimed, j), false;
      if bit { rebound := RebindSlot(sender, epoch, j); }
      ReboundNext(was, epochs, importing.Keys, c, j, now, Owners());
      u := Tallied(t, j, bit, rebound, before, me, curmaster, hasKeys);
    }

    /** Scan the claimed slots, rebinding what the claim wins and counting what it takes away. */
    method RebindClaimed(me: Id, curmaster: Id, sender: Id, epoch: Epoch, claimed: seq<bv8>, keys: seq<nat>, ghost c: Claim)
      returns (t: Tally)
      requires Valid() && sender in nodes && 8 * |claimed| == slots.Length == |keys| && c == Claim(sender, epoch, BitsOf(claimed))
      modifies `nodes, slots
      ensures Valid() && SameNodes(old(nodes), nodes)
      ensures ReboundBelow(old(Owners()), old(Epochs()), importing.Keys, c, slots.Length, Owners())
      ensures t == TallyTo(old(Owners()), old(Epochs()), importing.Keys, c, me, curmaster, keys, slots.Length)
    {
      ghost var was, epochs := slots[..], Epochs();
      t := Tally(0, 0, []);
      var j := 0;
      while j < slots.Length
        invariant 0 <= j <= slots.Length == |was| == |keys| && Valid() && SameNodes(old(nodes), nodes)
        invariant ReboundBelow(was, epochs, importing.Keys, c, j, Owners())
        invariant t == TallyTo(was, epochs, importing.Keys, c, me, curmaster, keys, j)
      {
        SameEpochs(old(nodes), nodes);
        t := ClaimSlot(sender, epoch, claimed, j, me, curmaster, keys[j] > 0, t, was, epochs, c);
        j := j + 1;
      }
    }

    /**
     Apply a claim.  `demote` says that this node must become a replica of the
     sender, `dirty` lists the slots whose keys must be deleted otherwise.
     */
    method UpdateSlotsConfigWith(me: Id, curmaster: Id, sender: Id, epoch: Epoch, claimed: seq<bv8>,
                                 keys: seq<nat>, allowMigration: bool, noRedirection: bool)
      returns (demote: bool, dirty: seq<nat>)
      requires Valid() && sender in nodes && curmaster in nodes
      requires 8 * |claimed| == slots.Length == |keys|
      modifies `nodes, slots
      ensures Valid() && SameNodes(old(nodes), nodes)
      ensures forall j :: 0 <= j < slots.Length && slots[j] != old(slots[j]) ==> TestBit(claimed, j) && slots[j] == Some(sender) && j !in importing
      ensures sender == me ==> Owners() == old(Owners()) && !demote && dirty == []
      ensures var c := Claim(sender, epoch, BitsOf(claimed));
              sender != me ==>
                && Owners() == Rebound(old(Owners()), old(Epochs()), importing.Keys, c)
                && var taken := Taken(old(Owners()), old(Epochs()), importing.Keys, c, curmaster);
                && (demote <==> !noRedirection && taken != {} && SlotsOf(Owners(), curmaster) == {} && (allowMigration || taken == c.slots))
                && var lost := Taken(old(Owners()), old(Epochs()), importing.Keys, c, me);
                && (forall j :: j in dirty <==> !noRedirection && !demote && j in lost && keys[j] > 0)
    {
      demote, dirty := false, [];
      if sender == me { return; }
      ghost var c := Claim(sender, epoch, BitsOf(claimed));
      ghost var taken := Taken(slots[..], Epochs(), importing.Keys, c, curmaster);
      TallyCounts(slots[..], Epochs(), importing.Keys, c, me, curmaster, keys, slots.Length);
      ghost var was, epochs := slots[..], Epochs();
      var t := RebindClaimed(me, curmaster, sender, epoch, claimed, keys, c);
      assert Owners() == Rebound(was, epochs, importing.Keys, c);
      AllBelow(c.slots, slots.Length);
      AllBelow(taken, slots.Length);
      if noRedirection { return; }
      SameSizeSubset(taken, c.slots);
      if t.migrated > 0 && nodes[curmaster].numslots == 0 && (allowMigration || t.senderSlots == t.migrated) {
        demote := true;
      } else {
        dirty := t.lost;
      }
    }

    /**
     The slot part of a PING from a master: learn its epoch, then apply its claim
     unless its bitmap is the one already known.  That shortcut loses nothing.
     */
    method ProcessClaim(me: Id, curmaster: Id, sender: Id, epoch: Epoch, claimed: seq<bv8>,
                        keys: seq<nat>, allowMigration: bool, noRedirection: bool)
      returns (demote: bool, dirty: seq<nat>)
      requires Valid() && sender in nodes && curmaster in nodes && sender != me
      requires 8 * |claimed| == slots.Length == |keys|
      modifies `nodes, slots
      ensures Valid() && Epochs() == Learned(old(Epochs()), sender, epoch)
      ensures forall j :: 0 <= j < slots.Length && slots[j] != old(slots[j]) ==> TestBit(claimed, j) && slots[j] == Some(sender) && j !in importing
      ensures Owners() == Rebound(old(Owners()), Epochs(), importing.Keys, Claim(sender, epoch, BitsOf(claimed)))
      ensures var c := Claim(sender, epoch, BitsOf(claimed));
              && var taken := Taken(old(Owners()), Epochs(), importing.Keys, c, curmaster);
              && (demote <==> !noRedirection && taken != {} && SlotsOf(Owners(), curmaster) == {} && (allowMigration || taken == c.slots))
              && var lost := Taken(old(Owners()), Epochs(), importing.Keys, c, me);
              && (forall j :: j in dirty <==> !noRedirection && !demote && j in lost && keys[j] > 0)
    {
      demote, dirty := false, [];
      LearnEpoch(sender, epoch);
      ghost var learned := nodes;
      if nodes[sender].slots != claimed {
        demote, dirty := UpdateSlotsConfigWith(me, curmaster, sender, epoch, claimed, keys, allowMigration, noRedirection);
        SameEpochs(learned, nodes);
      } else {
        assert forall j :: 0 <= j < slots.Length && j in BitsOf(claimed) ==> TestBit(nodes[sender].slots, j);
        ghost var c := Claim(sender, epoch, BitsOf(claimed));
        assert forall j: nat :: j < slots.Length ==> !Rebinds(Owners(), Epochs(), importing.Keys, c, j);
        assert Owners() == Rebound(Owners(), Epochs(), importing.Keys, c);
        assert Taken(Owners(), Epochs(), importing.Keys, c, curmaster) == Taken(Owners(), Epochs(), importing.Keys, c, me) == {};
      }
    }

    method LearnEpoch(sender: Id, epoch: Epoch)
      requires Valid() && sender in nodes
      modifies `nodes
      ensures Valid() && Owners() == old(Owners()) && nodes.Keys == old(nodes.Keys)
      ensures Epochs() == Learned(old(Epochs()), sender, epoch)
    {
      if epoch > nodes[sender].configEpoch {
        nodes := nodes[sender := nodes[sender].(configEpoch := epoch)];
      }
    }
  }

  lemma ReboundNext(owner: Owner, epochs: map<Id, Epoch>, importing: set<nat>, c: Claim, j: nat, now: Owner, next: Owner)
    requires j < |owner| && ReboundBelow(owner, epochs, importing, c, j, now)
    requires next == if Rebinds(owner, epochs, importing, c, j) then now[j := Some(c.sender)] else now
    ensures ReboundBelow(owner, epochs, importing, c, j + 1, next)
  {
  }

  lemma TalliedCounts(t: Tally, u: Tally, j: nat, claimed: set<nat>, taken: set<nat>, mine: set<nat>, keys: seq<nat>)
    requires t.senderSlots == |Below(claimed, j)| && t.migrated == |Below(taken, j)| && (forall i :: i in mine ==> i < |keys|)
    requires forall i :: i in t.lost <==> i in mine && i < j && keys[i] > 0
    requires u.senderSlots == t.senderSlots + (if j in claimed then 1 else 0)
    requires u.migrated == t.migrated + (if j in taken then 1 else 0)
    requires u.lost == if j in mine && keys[j] > 0 then t.lost + [j] else t.lost
    ensures u.senderSlots == |Below(claimed, j + 1)| && u.migrated == |Below(taken, j + 1)|
    ensures forall i :: i in u.lost <==> i in mine && i < j + 1 && keys[i] > 0
  {
    CountBelow(claimed, j);
    CountBelow(taken, j);
  }

  lemma {:induction false} TallyCounts(owner: Owner, epochs: map<Id, Epoch>, importing: set<nat>, c: Claim, me: Id, curmaster: Id,
                                       keys: seq<nat>, j: nat)
    requires j <= |keys| == |owner|
    ensures TallyOf(owner, epochs, importing, c, me, curmaster, keys, j,
                    TallyTo(owner, epochs, importing, c, me, curmaster, keys, j))
  {
    if j > 0 {
      TallyCounts(owner, epochs, importing, c, me, curmaster, keys, j - 1);
      TalliedCounts(TallyTo(owner, epochs, importing, c, me, curmaster, keys, j - 1),
                    TallyTo(owner, epochs, importing, c, me, curmaster, keys, j), j - 1, c.slots,
                    Taken(owner, epochs, importing, c, curmaster), Taken(owner, epochs, importing, c, me), keys);
    }
  }

  lemma SameEpochs(a: map<Id, NodeInfo>, b: map<Id, NodeInfo>)
    requires SameNodes(a, b)
    ensures EpochsOf(a) == EpochsOf(b)
  {
  }

  lemma CountBelow(s: set<nat>, j: nat)
    ensures Below(s, j + 1) == if j in s then Below(s, j) + {j} else Below(s, j)
    ensures |Below(s, j + 1)| == |Below(s, j)| + if j in s then 1 else 0
  {
    assert Below(s, j + 1) == if j in s then Below(s, j) + {j} else Below(s, j);
  }

  lemma AllBelow(s: set<nat>, n: nat)
    requires forall i :: i in s ==> i < n
    ensures Below(s, n) == s
  {
  }

  lemma SameSizeSubset(a: set<nat>, b: set<nat>)
    requires a <= b
    ensures |a| == |b| <==> a == b
    ensures |a| == 0 <==> a == {}
  {
    assert b == a + (b - a);
  }

  lemma WithoutNothing(m: map<nat, Id>, n: Id)
    ensures Without(m, 0, n) == m
  {
  }

  lemma WithoutStep(m: map<nat, Id>, j: nat, n: Id)
    ensures Without(m, j + 1, n) == if j in m && m[j] == n then Without(m, j, n) - {j} else Without(m, j, n)
  {
  }

  lemma CountAdd(owner: Owner, slot: nat, n: Id)
    requires slot < |owner| && owner[slot].None?
    ensures |SlotsOf(owner[slot := Some(n)], n)| == |SlotsOf(owner, n)| + 1
    ensures forall m: Id :: m != n ==> SlotsOf(owner[slot := Some(n)], m) == SlotsOf(owner, m)
  {
    assert SlotsOf(owner[slot := Some(n)], n) == SlotsOf(owner, n) + {slot};
  }

  lemma CountDel(owner: Owner, slot: nat)
    requires slot < |owner| && owner[slot].Some?
    ensures |SlotsOf(owner[slot := None], owner[slot].value)| == |SlotsOf(owner, owner[slot].value)| - 1
    ensures forall m: Id :: m != owner[slot].value ==> SlotsOf(owner[slot := None], m) == SlotsOf(owner, m)
  {
    assert SlotsOf(owner, owner[slot].value) == SlotsOf(owner[slot := None], owner[slot].value) + {slot};
  }

  lemma CountStep(owner: Owner, j: nat, n: Id)
    requires j < |owner|
    ensures |SlotsOf(owner[..j + 1], n)| == |SlotsOf(owner[..j], n)| + if owner[j] == Some(n) then 1 else 0
  {
    if owner[j] == Some(n) {
      assert SlotsOf(owner[..j + 1], n) == SlotsOf(owner[..j], n) + {j};
    } else {
      assert SlotsOf(owner[..j + 1], n) == SlotsOf(owner[..j], n);
    }
  }
}
