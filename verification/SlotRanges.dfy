/**
 Slot ranges as CLUSTER NODES prints them and the configuration file loads them.

 Two scans produce the ranges of a node: one over its own bitmap, and one global
 scan that serves all nodes at once.  Both yield the maximal runs of its slots.
 */
module SlotRanges {
  import opened Options
  import opened Names
  import opened SlotTable

  datatype Range = Range(lo: nat, hi: nat)

  /** The runs of slots owned by `n`, from left to right. */
  function Runs(o: Owner, n: Id): seq<Range>
    decreases |o|
  {
    if o == [] then []
    else
      var last := |o| - 1;
      var before := Runs(o[..last], n);
      if o[last] == Some(n) then Extended(before, last) else before
  }

  /** Slot `last` lengthens the last run when it touches it, and starts a new one otherwise. */
  function Extended(rs: seq<Range>, last: nat): seq<Range> {
    if rs != [] && rs[|rs| - 1].hi + 1 == last then rs[..|rs| - 1] + [Range(rs[|rs| - 1].lo, last)]
    else rs + [Range(last, last)]
  }

  predicate Covers(rs: seq<Range>, j: nat) { exists k :: 0 <= k < |rs| && rs[k].lo <= j <= rs[k].hi }

  /** `rs` are the maximal runs of `n` in `o`: they cover its slots and nothing else, and two of them never touch. */
  ghost predicate MaximalRuns(o: Owner, n: Id, rs: seq<Range>) {
    && (forall k :: 0 <= k < |rs| ==> rs[k].lo <= rs[k].hi < |o|)
    && (forall k, j :: 0 <= k < |rs| && rs[k].lo <= j <= rs[k].hi ==> o[j] == Some(n))
    && (forall j: nat :: j < |o| && o[j] == Some(n) ==> Covers(rs, j))
    && (forall k, l :: 0 <= k < l < |rs| ==> rs[k].hi + 1 < rs[l].lo)
  }

  lemma ExtendedShape(rs: seq<Range>, last: nat)
    requires forall k :: 0 <= k < |rs| ==> rs[k].lo <= rs[k].hi < last
    requires forall k, l :: 0 <= k < l < |rs| ==> rs[k].hi + 1 < rs[l].lo
    ensures var xs := Extended(rs, last);
            && (forall k :: 0 <= k < |xs| ==> xs[k].lo <= xs[k].hi <= last)
            && (forall k, l :: 0 <= k < l < |xs| ==> xs[k].hi + 1 < xs[l].lo)
  {
  }

  lemma ExtendedCovers(rs: seq<Range>, last: nat, j: nat)
    requires forall k :: 0 <= k < |rs| ==> rs[k].lo <= rs[k].hi < last
    ensures Covers(Extended(rs, last), j) <==> Covers(rs, j) || j == last
  {
    var xs := Extended(rs, last);
    if k :| 0 <= k < |rs| && rs[k].lo <= j <= rs[k].hi {
      assert xs[k].lo <= j <= xs[k].hi;
    }
    if k :| 0 <= k < |xs| && xs[k].lo <= j <= xs[k].hi {
      if j != last { assert rs[k].lo <= j <= rs[k].hi; }
    }
    assert xs[|xs| - 1].lo <= last <= xs[|xs| - 1].hi;
  }

  lemma {:induction false} RunsAreMaximal(o: Owner, n: Id)
    ensures MaximalRuns(o, n, Runs(o, n))
    decreases |o|
  {
    if o != [] {
      var last := |o| - 1;
      var before := Runs(o[..last], n);
      RunsAreMaximal(o[..last], n);
      RunsStep(o, n, before);
    }
  }

  lemma RunsStep(o: Owner, n: Id, before: seq<Range>)
    requires o != [] && MaximalRuns(o[..|o| - 1], n, before)
    ensures MaximalRuns(o, n, if o[|o| - 1] == Some(n) then Extended(before, |o| - 1) else before)
  {
    var last := |o| - 1;
    var rs := if o[last] == Some(n) then Extended(before, last) else before;
    ExtendedShape(before, last);
    forall j: nat | j < |o| ensures Covers(rs, j) <==> o[j] == Some(n) {
      ExtendedCovers(before, last, j);
      if j < last {
        assert o[..last][j] == o[j];
        assert Covers(before, j) ==> o[j] == Some(n);
      } else if k :| 0 <= k < |before| && before[k].lo <= j <= before[k].hi {
        assert false;
      }
    }
    forall k, j | 0 <= k < |rs| && rs[k].lo <= j <= rs[k].hi ensures o[j] == Some(n) { assert Covers(rs, j); }
  }

  /** A run that starts after a gap is appended whole. */
  lemma {:induction false} RunGrows(o: Owner, n: Id, start: nat, end: nat)
    requires start < end <= |o| && (forall j :: start <= j < end ==> o[j] == Some(n))
    requires start == 0 || o[start - 1] != Some(n)
    ensures Runs(o[..end], n) == Runs(o[..start], n) + [Range(start, end - 1)]
    decreases end
  {
    var last := end - 1;
    assert o[..end][..last] == o[..last];
    if start == last {
      RunsAreMaximal(o[..start], n);
      var before := Runs(o[..start], n);
      if before != [] {
        assert o[..start][before[|before| - 1].hi] == Some(n);
      }
    } else {
      RunGrows(o, n, start, last);
    }
  }

  lemma {:induction false} RunsSkip(o: Owner, n: Id, start: nat, end: nat)
    requires start <= end <= |o| && (forall j :: start <= j < end ==> o[j] != Some(n))
    ensures Runs(o[..end], n) == Runs(o[..start], n)
    decreases end
  {
    if start < end {
      assert o[..end][..end - 1] == o[..end - 1];
      RunsSkip(o, n, start, end - 1);
    }
  }

  function RangesIn(info: map<Id, seq<Range>>, n: Id): seq<Range> { if n in info then info[n] else [] }

  /** `info` holds the runs of the first `i` slots, for every node that is not filtered. */
  ghost predicate Printed(info: map<Id, seq<Range>>, filtered: set<Id>, o: Owner, i: nat)
    requires i <= |o|
  {
    forall m: Id {:trigger RangesIn(info, m)} :: RangesIn(info, m) == if m in filtered then [] else Runs(o[..i], m)
  }

  ghost predicate InRun(o: Owner, n: Id, start: nat, i: nat) {
    start < i <= |o| && (forall j :: start <= j < i ==> o[j] == Some(n)) && (start == 0 || o[start - 1] != Some(n))
  }

  lemma PrintedSkip(info: map<Id, seq<Range>>, filtered: set<Id>, o: Owner, i: nat)
    requires i < |o| && o[i].None? && Printed(info, filtered, o, i)
    ensures Printed(info, filtered, o, i + 1)
  {
    forall m: Id ensures Runs(o[..i + 1], m) == Runs(o[..i], m) { RunsSkip(o, m, i, i + 1); }
  }

  lemma PrintedRun(info: map<Id, seq<Range>>, filtered: set<Id>, o: Owner, n: Id, start: nat, i: nat, new_: map<Id, seq<Range>>)
    requires InRun(o, n, start, i) && Printed(info, filtered, o, start)
    requires new_ == if n in filtered then info else info[n := RangesIn(info, n) + [Range(start, i - 1)]]
    ensures Printed(new_, filtered, o, i)
  {
    RunGrows(o, n, start, i);
    forall m: Id ensures RangesIn(new_, m) == if m in filtered then [] else Runs(o[..i], m) {
      assert RangesIn(info, m) == if m in filtered then [] else Runs(o[..start], m);
      if m != n { RunsSkip(o, m, start, i); }
    }
  }

  /** The single scan over all slots: every node that is not filtered gets exactly its runs. */
  method GenNodesSlotsInfo(slots: array<Option<Id>>, filtered: set<Id>) returns (info: map<Id, seq<Range>>)
    ensures Printed(info, filtered, slots[..], slots.Length)
    ensures forall n: Id :: RangesIn(info, n) == if n in filtered then [] else Runs(slots[..], n)
  {
    info := map[];
    ghost var o := slots[..];
    var cur: Option<Id> := None;
    var start := 0;
    var i := 0;
    while i <= slots.Length
      invariant 0 <= i <= slots.Length + 1 && o == slots[..]
      invariant i == slots.Length + 1 ==> cur.None? && Printed(info, filtered, o, |o|)
      invariant cur.None? && i <= |o| ==> (i == 0 || o[i - 1].None?) && Printed(info, filtered, o, i)
      invariant cur.Some? ==> InRun(o, cur.value, start, i) && Printed(info, filtered, o, start)
    {
      if cur.None? {
        if i == slots.Length { break; }
        cur := slots[i];
        start := i;
        if cur.None? { PrintedSkip(info, filtered, o, i); }
        i := i + 1;
        continue;
      }
      if i == slots.Length || cur != slots[i] {
        var n := cur.value;
        ghost var was := info;
        if n !in filtered {
          if n !in info { info := info[n := []]; }
          info := info[n := info[n] + [Range(start, i - 1)]];
        }
        PrintedRun(was, filtered, o, n, start, i, info);
        if i == slots.Length { break; }
        cur := slots[i];
        start := i;
        if cur.None? { PrintedSkip(info, filtered, o, i); }
      }
      i := i + 1;
    }
    assert o[..|o|] == o;
  }

  /** The scan over the bitmap of one node yields the same runs. */
  method NodeRanges(table: Table, n: Id) returns (rs: seq<Range>)
    requires table.Valid() && n in table.nodes
    ensures rs == Runs(table.Owners(), n)
  {
    rs := [];
    ghost var o := table.slots[..];
    var start := -1;
    var j := 0;
    while j < table.slots.Length
      invariant o == table.slots[..] && Scanning(o, n, rs, start, j)
      decreases |o| - j
    {
      var bit := table.NodeGetSlotBit(n, j);
      ScanNext(o, n, rs, start, j);
      if bit && start == -1 { start := j; }
      if start != -1 && (!bit || j == table.slots.Length - 1) {
        if bit && j == table.slots.Length - 1 { j := j + 1; }
        rs := rs + [Range(start, j - 1)];
        start := -1;
      }
      if j < table.slots.Length { j := j + 1; }
    }
    assert o[..j] == o;
  }

  /** The scan is at slot `j`: outside a run, or inside one that began at `start`; `rs` are the runs before. */
  ghost predicate Scanning(o: Owner, n: Id, rs: seq<Range>, start: int, j: int) {
    && 0 <= j <= |o| && -1 <= start < j
    && (start == -1 ==> rs == Runs(o[..j], n) && (0 < j < |o| ==> o[j - 1] != Some(n)))
    && (start != -1 ==> InRun(o, n, start, j) && j < |o| && rs == Runs(o[..start], n))
  }

  lemma ScanNext(o: Owner, n: Id, rs: seq<Range>, start: int, j: int)
    requires Scanning(o, n, rs, start, j) && j < |o|
    ensures var bit := o[j] == Some(n);
            var first := if bit && start == -1 then j else start;
            if first == -1 then Scanning(o, n, rs, -1, j + 1)
            else if bit && j < |o| - 1 then Scanning(o, n, rs, first, j + 1)
            else Scanning(o, n, rs + [Range(first, if bit then j else j - 1)], -1, j + 1)
  {
    var bit := o[j] == Some(n);
    if bit {
      RunGrows(o, n, if start == -1 then j else start, j + 1);
    } else {
      if start != -1 { RunGrows(o, n, start, j); }
      RunsSkip(o, n, j, j + 1);
    }
  }

  // ------------------------------------------------------------------ loading

  /** The slots of `rs` that are free pass to `n`. */
  function Loaded(o: Owner, n: Id, rs: seq<Range>): (r: Owner)
    ensures |r| == |o|
  {
    seq(|o|, j requires 0 <= j < |o| => if o[j].None? && Covers(rs, j) then Some(n) else o[j])
  }

  /** Load one node's ranges into the table; a range outside the table is a format error. */
  method LoadNodeRanges(table: Table, n: Id, rs: seq<Range>) returns (ok: bool)
    requires table.Valid() && n in table.nodes
    modifies table, table.slots
    ensures table.Valid() && SameNodes(old(table.nodes), table.nodes)
    ensures ok <==> forall k :: 0 <= k < |rs| ==> rs[k].lo < table.slots.Length && rs[k].hi < table.slots.Length
    ensures ok ==> table.Owners() == Loaded(old(table.Owners()), n, rs)
  {
    ghost var was := table.slots[..];
    var k := 0;
    while k < |rs|
      invariant 0 <= k <= |rs| && table.Valid() && SameNodes(old(table.nodes), table.nodes)
      invariant forall i :: 0 <= i < k ==> rs[i].lo < table.slots.Length && rs[i].hi < table.slots.Length
      invariant table.Owners() == Loaded(was, n, rs[..k])
    {
      if rs[k].lo >= table.slots.Length || rs[k].hi >= table.slots.Length { return false; }
      LoadRange(table, n, rs[k]);
      assert forall j: nat :: Covers(rs[..k + 1], j) <==> Covers(rs[..k], j) || rs[k].lo <= j <= rs[k].hi by {
        forall j: nat ensures Covers(rs[..k + 1], j) <==> Covers(rs[..k], j) || rs[k].lo <= j <= rs[k].hi { CoversOneMore(rs, k, j); }
      }
      assert table.Owners() == Loaded(was, n, rs[..k + 1]);
      k := k + 1;
    }
    assert rs[..k] == rs;
    return true;
  }

  method LoadRange(table: Table, n: Id, r: Range)
    requires table.Valid() && n in table.nodes && r.lo < table.slots.Length && r.hi < table.slots.Length
    modifies table, table.slots
    ensures table.Valid() && SameNodes(old(table.nodes), table.nodes)
    ensures |table.Owners()| == |old(table.Owners())|
    ensures forall j :: 0 <= j < table.slots.Length ==>
              table.Owners()[j] == if r.lo <= j <= r.hi && old(table.Owners())[j].None? then Some(n) else old(table.Owners())[j]
  {
    ghost var was := table.slots[..];
    var start := r.lo;
    while start <= r.hi
      invariant r.lo <= start && start <= table.slots.Length && table.Valid() && SameNodes(old(table.nodes), table.nodes)
      invariant forall j :: 0 <= j < table.slots.Length ==>
                  table.slots[j] == if r.lo <= j < start && j <= r.hi && was[j].None? then Some(n) else was[j]
      decreases r.hi + 1 - start
    {
      var _ := table.AddSlot(n, start);
      start := start + 1;
    }
  }

  lemma CoversOneMore(rs: seq<Range>, k: nat, j: nat)
    requires k < |rs|
    ensures Covers(rs[..k + 1], j) <==> Covers(rs[..k], j) || rs[k].lo <= j <= rs[k].hi
  {
    var a, b := rs[..k + 1], rs[..k];
    if i :| 0 <= i < |a| && a[i].lo <= j <= a[i].hi {
      if i < k { assert b[i].lo <= j <= b[i].hi; }
    }
    if i :| 0 <= i < |b| && b[i].lo <= j <= b[i].hi { assert a[i].lo <= j <= a[i].hi; }
    if rs[k].lo <= j <= rs[k].hi { assert a[k].lo <= j <= a[k].hi; }
  }

  /** What loading the printed ranges of the nodes `ids`, one line each, makes of an empty table. */
  function LoadAll(o: Owner, ids: seq<Id>): Owner
    decreases |ids|
  {
    if ids == [] then seq(|o|, _ => None)
    else Loaded(LoadAll(o, ids[..|ids| - 1]), ids[|ids| - 1], Runs(o, ids[|ids| - 1]))
  }

  lemma {:induction false} LoadAllRestores(o: Owner, ids: seq<Id>)
    ensures |LoadAll(o, ids)| == |o|
    ensures forall j :: 0 <= j < |o| ==> LoadAll(o, ids)[j] == if o[j].Some? && o[j].value in ids then o[j] else None
    decreases |ids|
  {
    if ids != [] {
      var last := |ids| - 1;
      var n := ids[last];
      LoadAllRestores(o, ids[..last]);
      RunsAreMaximal(o, n);
      forall j: nat | j < |o| ensures LoadAll(o, ids)[j] == if o[j].Some? && o[j].value in ids then o[j] else None {
        assert Covers(Runs(o, n), j) <==> o[j] == Some(n);
        assert ids == ids[..last] + [n];
      }
    }
  }

  /** Printing every owner's ranges and loading them into an empty table restores the ownership of every slot. */
  lemma PrintLoadRoundTrip(o: Owner, ids: seq<Id>)
    requires forall j :: 0 <= j < |o| && o[j].Some? ==> o[j].value in ids
    ensures LoadAll(o, ids) == o
  {
    LoadAllRestores(o, ids);
  }
}
