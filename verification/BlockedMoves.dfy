/**
 Where elements go: the end they leave, the end they enter, and that commands
 only move them.
 */
module BlockedMoves {
  import opened Options
  import opened Blocked
  import opened BlockedFair
  import opened BlockedRuns

  // ------------------------------------------------------------------ which end

  /** The elements under a key. */
  function Items(db: map<Key, Obj>, k: Key): seq<Value> { if Feeds(db, k) then db[k].items else [] }

  /** `whole` is `rest` with `v` at one end. */
  predicate AtEnd(whole: seq<Value>, v: Value, e: End, rest: seq<Value>) {
    whole == if e.Head? then [v] + rest else rest + [v]
  }

  /** Nothing else in the database changed, and an object is never left empty under `k`. */
  ghost predicate OnlyAt(db: map<Key, Obj>, db': map<Key, Obj>, keys: set<Key>) {
    forall j :: j !in keys ==> (j in db <==> j in db') && (j in db ==> db'[j] == db[j])
  }

  ghost predicate Same(s: State, t: State) { t == s.(db := t.db, replies := t.replies) }

  /** A client got the element at the asked end of a key, which keeps the others and goes away with its last one. */
  ghost predicate GotFrom(s: State, t: State, c: Client, k: Key, v: Value, e: End) {
    && t.replies == s.replies + [Popped(c, k, v)]
    && AtEnd(Items(s.db, k), v, e, Items(t.db, k)) && OnlyAt(s.db, t.db, {k})
    && (k in t.db <==> Items(t.db, k) != []) && (k in t.db ==> k in s.db && Kind(t.db[k]) == Kind(s.db[k]))
  }

  /** The element moved from one end of `k` to one end of `dst`, which may be the same list. */
  ghost predicate MovedTo(db: map<Key, Obj>, db': map<Key, Obj>, k: Key, dst: Key, v: Value, from: End, to: End, rest: seq<Value>) {
    && AtEnd(Items(db, k), v, from, rest) && OnlyAt(db, db', {k, dst})
    && AtEnd(Items(db', dst), v, to, if dst == k then rest else Items(db, dst)) && (dst != k ==> Items(db', k) == rest)
  }

  /** No key before the `i`th is anything but missing or an empty object of the right type. */
  ghost predicate NothingBefore(db: map<Key, Obj>, b: BType, keys: seq<Key>, i: nat) {
    i <= |keys| && forall j :: 0 <= j < i && keys[j] in db ==> Feeds(db, keys[j]) && Kind(db[keys[j]]) == b && db[keys[j]].items == []
  }

  lemma {:induction false} FirstIs(db: map<Key, Obj>, b: BType, keys: seq<Key>, i: nat)
    requires NothingBefore(db, b, keys, i)
    requires i < |keys| ==> keys[i] in db && (Feeds(db, keys[i]) && Kind(db[keys[i]]) == b ==> db[keys[i]].items != [])
    ensures FirstIn(db, b, keys) == i
  {
    if i > 0 { FirstIs(db, b, keys[1..], i - 1); }
  }

  /** A blocking pop takes the element at the asked end of the first key that holds data. */
  lemma PopTakes(s: State, c: Client, b: BType, keys: seq<Key>, e: End, i: nat)
    requires NothingBefore(s.db, b, keys, i) && i < |keys|
    requires Feeds(s.db, keys[i]) && Kind(s.db[keys[i]]) == b && s.db[keys[i]].items != []
    ensures var t := BlockingPop(s, c, b, keys, e);
            Same(s, t) && exists v :: GotFrom(s, t, c, keys[i], v, e)
  {
    FirstIs(s.db, b, keys, i);
    var t, v := BlockingPop(s, c, b, keys, e), Peek(s.db[keys[i]].items, e);
    assert GotFrom(s, t, c, keys[i], v, e);
  }

  /** When a key of the wrong type comes first, nothing is taken. */
  lemma PopRefused(s: State, c: Client, b: BType, keys: seq<Key>, e: End, i: nat)
    requires NothingBefore(s.db, b, keys, i) && i < |keys| && keys[i] in s.db && (!Feeds(s.db, keys[i]) || Kind(s.db[keys[i]]) != b)
    ensures BlockingPop(s, c, b, keys, e) == s.(replies := s.replies + [WrongType(c)])
  {
    FirstIs(s.db, b, keys, i);
  }

  /** When no key holds data, the client waits at the tail of every queue and nothing else happens. */
  lemma PopBlocks(s: State, c: Client, b: BType, keys: seq<Key>, e: End)
    requires NothingBefore(s.db, b, keys, |keys|)
    ensures var t := BlockingPop(s, c, b, keys, e);
            && t.db == s.db && t.replies == s.replies && t.ready == s.ready && t.queued == s.queued
            && c in t.waits && t.waits[c].btype == b && (forall k :: k in t.waits[c].keys <==> k in keys)
            && t.waits[c].target == None && t.waits[c].from == e
            && (forall k :: Queue(t.queues, k) == Queue(s.queues, k) + (if k in keys then [c] else []))
  {
    FirstIs(s.db, b, keys, |keys|);
  }

  lemma PushedAt(db: map<Key, Obj>, k: Key, v: Value, e: End)
    requires k in db ==> db[k].ListObj?
    ensures var o := ListObj(Push(if k in db then db[k].items else [], v, e));
            AtEnd(Items(db[k := o], k), v, e, Items(db, k)) && OnlyAt(db, db[k := o], {k})
  {
  }

  lemma PushedDb(s: State, k: Key, v: Value, e: End)
    requires k in s.db ==> s.db[k].ListObj?
    ensures Pushed(s, k, v, e).db == s.db[k := ListObj(Push(if k in s.db then s.db[k].items else [], v, e))]
  {
  }

  /** A push adds its element at the asked end and leaves all else in the database. */
  lemma PushEnters(s: State, k: Key, v: Value, e: End)
    requires k in s.db ==> s.db[k].ListObj?
    ensures var t := Apply(s, PushCmd(k, v, e));
            AtEnd(Items(t.db, k), v, e, Items(s.db, k)) && OnlyAt(s.db, t.db, {k}) && k in t.db && t.db[k].ListObj? && t.waits == s.waits
  {
    PushedDb(s, k, v, e);
    PushedAt(s.db, k, v, e);
  }

  lemma InsertedFacts(items: seq<Value>, v: Value, rank: nat)
    ensures var r, more := if rank <= |items| then rank else |items|, InsertedAt(items, v, rank);
            |more| == |items| + 1 && more[r] == v && more[..r] + more[r + 1..] == items
  {
    var r, more := if rank <= |items| then rank else |items|, InsertedAt(items, v, rank);
    assert more[..r] == items[..r] && more[r + 1..] == items[r..];
  }

  /** A member is added at its rank: the ones before and after it stay in order. */
  lemma ZAddEnters(s: State, k: Key, v: Value, rank: nat)
    requires k in s.db ==> s.db[k].ZSetObj?
    ensures var t, r := Apply(s, ZAddCmd(k, v, rank)), if rank <= |Items(s.db, k)| then rank else |Items(s.db, k)|;
            && |Items(t.db, k)| == |Items(s.db, k)| + 1 && Items(t.db, k)[r] == v
            && Items(t.db, k)[..r] + Items(t.db, k)[r + 1..] == Items(s.db, k)
            && OnlyAt(s.db, t.db, {k}) && t.waits == s.waits
  {
    InsertedFacts(Items(s.db, k), v, rank);
    assert Items(Apply(s, ZAddCmd(k, v, rank)).db, k) == InsertedAt(Items(s.db, k), v, rank);
  }

  /** The database after a move, before an emptied list goes away. */
  function PopPushed(db: map<Key, Obj>, k: Key, dst: Key, from: End, to: End): map<Key, Obj>
    requires k in db && db[k].ListObj? && db[k].items != [] && (dst in db ==> db[dst].ListObj?)
  {
    var popped := db[k := ListObj(Pop(db[k].items, from))];
    popped[dst := ListObj(Push(if dst in popped then popped[dst].items else [], Peek(db[k].items, from), to))]
  }

  /** Popping at `from` and pushing at `to` moves an element. */
  lemma PopPush(db: map<Key, Obj>, db': map<Key, Obj>, k: Key, dst: Key, from: End, to: End)
    requires k in db && db[k].ListObj? && db[k].items != [] && (dst in db ==> db[dst].ListObj?)
    requires db' == PopPushed(db, k, dst, from, to)
    ensures MovedTo(db, db', k, dst, Peek(db[k].items, from), from, to, Pop(db[k].items, from))
  {
  }

  lemma MovedDropped(db: map<Key, Obj>, db': map<Key, Obj>, k: Key, dst: Key, v: Value, from: End, to: End, rest: seq<Value>)
    requires MovedTo(db, db', k, dst, v, from, to, rest) && Items(db', k) == []
    ensures MovedTo(db, db' - {k}, k, dst, v, from, to, rest)
  {
  }

  lemma MoveOf(s: State, c: Client, k: Key, dst: Key, from: End, to: End)
    requires k in s.db && s.db[k].ListObj? && s.db[k].items != [] && (dst in s.db ==> s.db[dst].ListObj?)
    ensures var t, d := BlockingMove(s, c, k, dst, from, to), PopPushed(s.db, k, dst, from, to);
            && t.db == (if Items(d, k) == [] then d - {k} else d) && t.waits == s.waits
            && t.replies == s.replies + [Moved(c, Peek(s.db[k].items, from))]
  {
    PushedDb(s.(db := s.db[k := ListObj(Pop(s.db[k].items, from))]), dst, Peek(s.db[k].items, from), to);
  }

  /** BLMOVE takes the element at one end of the list and puts it at the other end, or the same, of the target. */
  lemma MoveTakes(s: State, c: Client, k: Key, dst: Key, from: End, to: End)
    requires k in s.db && s.db[k].ListObj? && s.db[k].items != [] && (dst in s.db ==> s.db[dst].ListObj?)
    ensures var t := BlockingMove(s, c, k, dst, from, to);
            exists v, rest {:trigger MovedTo(s.db, t.db, k, dst, v, from, to, rest)} ::
              MovedTo(s.db, t.db, k, dst, v, from, to, rest) && t.replies == s.replies + [Moved(c, v)] && t.waits == s.waits
  {
    var v, rest, d := Peek(s.db[k].items, from), Pop(s.db[k].items, from), PopPushed(s.db, k, dst, from, to);
    MoveOf(s, c, k, dst, from, to);
    PopPush(s.db, d, k, dst, from, to);
    if Items(d, k) == [] { MovedDropped(s.db, d, k, dst, v, from, to, rest); }
    assert MovedTo(s.db, BlockingMove(s, c, k, dst, from, to).db, k, dst, v, from, to, rest);
  }

  /** Otherwise nothing moves: the client waits for the list, or is told. */
  lemma MoveElse(s: State, c: Client, k: Key, dst: Key, from: End, to: End)
    requires k !in s.db || !s.db[k].ListObj? || s.db[k].items == [] || (dst in s.db && !s.db[dst].ListObj?)
    ensures var t := BlockingMove(s, c, k, dst, from, to);
            && t.db == s.db
            && (k !in s.db ==> t.replies == s.replies && c in t.waits && t.waits[c] == Wait(ByList, {k}, Some(dst), from, to)
                               && forall j :: Queue(t.queues, j) == Queue(s.queues, j) + (if j == k then [c] else []))
            && (k in s.db ==> t.waits == s.waits && t.queues == s.queues
                              && t.replies == s.replies + [if s.db[k].ListObj? && s.db[k].items == [] then Null(c) else WrongType(c)])
  {
  }

  /** Serving a client without a target gives it the element at the end it asked for. */
  lemma TurnGives(s: State, k: Key)
    requires CanTurn(s, k) && Serves(s, k)
    requires var w := s.waits[s.queues[k][0]]; w.target.None? || w.btype != ByList
    ensures var t, c := Turn(s, k), s.queues[k][0];
            exists v {:trigger Popped(c, k, v)} ::
              && t.replies == s.replies + [Popped(c, k, v)]
              && AtEnd(Items(s.db, k), v, s.waits[c].from, Items(t.db, k)) && OnlyAt(s.db, t.db, {k})
  {
    TurnServes(s, k);
    var c := s.queues[k][0];
    var v := Peek(s.db[k].items, s.waits[c].from);
    assert Turn(s, k).replies == s.replies + [Popped(c, k, v)];
  }

  /** Serving a client of BLMOVE moves the element from and to the ends it asked for. */
  lemma TurnMoves(s: State, k: Key)
    requires CanTurn(s, k) && Serves(s, k) && s.db[k].ListObj?
    requires var w := s.waits[s.queues[k][0]]; w.target.Some? && (w.target.value in s.db ==> s.db[w.target.value].ListObj?)
    ensures var t, c := Turn(s, k), s.queues[k][0];
            var w := s.waits[c];
            exists v, rest {:trigger MovedTo(s.db, t.db, k, w.target.value, v, w.from, w.to, rest)} ::
              MovedTo(s.db, t.db, k, w.target.value, v, w.from, w.to, rest) && t.replies == s.replies + [Moved(c, v)]
  {
    TurnServes(s, k);
    var c := s.queues[k][0];
    var w := s.waits[c];
    var dst, v, rest := w.target.value, Peek(s.db[k].items, w.from), Pop(s.db[k].items, w.from);
    var p := s.(db := s.db[k := ListObj(rest)]);
    PushedDb(p, dst, v, w.to);
    PopPush(s.db, Turn(s, k).db, k, dst, w.from, w.to);
    assert MovedTo(s.db, Turn(s, k).db, k, dst, v, w.from, w.to, rest);
  }

  // ------------------------------------------------------- conservation, every step

  lemma TakenHeld(db: map<Key, Obj>, k: Key, e: End, v: Value)
    requires Feeds(db, k) && db[k].items != []
    ensures Held(Taken(db, k, e), v) + One(v, Peek(db[k].items, e)) == Held(db, v)
  {
    PoppedOff(db, k, e, v);
    HeldSplits(db, k, v);
    if |db[k].items| == 1 { assert db[k].items == [Peek(db[k].items, e)]; }
  }

  lemma PopConserves(s: State, c: Client, b: BType, keys: seq<Key>, e: End, v: Value)
    ensures Everything(BlockingPop(s, c, b, keys, e), v) == Everything(s, v)
  {
    var i := FirstIn(s.db, b, keys);
    if i < |keys| {
      var k := keys[i];
      if !Feeds(s.db, k) || Kind(s.db[k]) != b {
        SaysGives(s, WrongType(c), v);
      } else {
        TakenHeld(s.db, k, e, v);
        SaysGives(s.(db := Taken(s.db, k, e)), Popped(c, k, Peek(s.db[k].items, e)), v);
      }
    }
  }

  lemma Dropped(db: map<Key, Obj>, k: Key, v: Value)
    requires k in db && Copies(db[k], v) == 0
    ensures Held(db - {k}, v) == Held(db, v)
  {
    HeldSplits(db, k, v);
  }

  lemma PopPushHeld(db: map<Key, Obj>, k: Key, dst: Key, from: End, to: End, v: Value)
    requires k in db && db[k].ListObj? && db[k].items != [] && (dst in db ==> db[dst].ListObj?)
    ensures Held(PopPushed(db, k, dst, from, to), v) == Held(db, v)
  {
    var x, popped := Peek(db[k].items, from), db[k := ListObj(Pop(db[k].items, from))];
    PoppedOff(db, k, from, v);
    var items := if dst in popped then popped[dst].items else [];
    PushItems(items, x, to, v);
    HeldChanged(popped, dst, ListObj(Push(items, x, to)), v);
  }

  lemma MoveConserves(s: State, c: Client, k: Key, dst: Key, from: End, to: End, v: Value)
    ensures Everything(BlockingMove(s, c, k, dst, from, to), v) == Everything(s, v)
  {
    if k in s.db {
      if !s.db[k].ListObj? || (s.db[k].items != [] && dst in s.db && !s.db[dst].ListObj?) {
        SaysGives(s, WrongType(c), v);
      } else if s.db[k].items == [] {
        SaysGives(s, Null(c), v);
      } else {
        MoveOf(s, c, k, dst, from, to);
        PopPushHeld(s.db, k, dst, from, to, v);
        var d := PopPushed(s.db, k, dst, from, to);
        if Items(d, k) == [] { Dropped(d, k, v); }
        SaysGives(s, Moved(c, Peek(s.db[k].items, from)), v);
      }
    }
  }

  ghost function CopiesAt(db: map<Key, Obj>, k: Key, v: Value): nat { if k in db then Copies(db[k], v) else 0 }

  /** How many copies of `v` a step brings into the system: only writes bring any, only overwriting and deleting lose any. */
  ghost function Brings(s: State, step: Step, v: Value): int {
    match step
    case PushCmd(k, w, _) => if k in s.db && !s.db[k].ListObj? then 0 else One(v, w)
    case ZAddCmd(k, w, _) => if k in s.db && !s.db[k].ZSetObj? then 0 else One(v, w)
    case StoreCmd(k, o) => Copies(o, v) - CopiesAt(s.db, k, v)
    case DelCmd(k) => 0 - CopiesAt(s.db, k, v)
    case _ => 0
  }

  lemma ZAddConserves(s: State, k: Key, w: Value, rank: nat, v: Value)
    requires k in s.db ==> s.db[k].ZSetObj?
    ensures Held(ZAdded(s, k, w, rank).db, v) == Held(s.db, v) + One(v, w)
  {
    var items := Items(s.db, k);
    var o := ZSetObj(if k in s.db then InsertedAt(items, w, rank) else [w]);
    HeldChanged(s.db, k, o, v);
    if k in s.db && rank <= |items| { assert items == items[..rank] + items[rank..]; }
    assert ZAdded(s, k, w, rank).db == s.db[k := o];
  }

  /** Every step keeps every element, apart from what it brings or deletes: pops and moves only change where it is. */
  lemma StepConserves(s: State, step: Step, v: Value)
    ensures Everything(Apply(s, step), v) == Everything(s, v) + Brings(s, step, v)
  {
    match step
    case PopCmd(c, b, keys, e) => PopConserves(s, c, b, keys, e, v);
    case MoveCmd(c, k, dst, from, to) => MoveConserves(s, c, k, dst, from, to, v);
    case PushCmd(k, w, e) => if k !in s.db || s.db[k].ListObj? { PushedHeld(s, k, w, e, v); }
    case ZAddCmd(k, w, rank) => if k !in s.db || s.db[k].ZSetObj? { ZAddConserves(s, k, w, rank, v); }
    case StoreCmd(k, o) => HeldChanged(s.db, k, o, v);
    case DelCmd(k) => if k in s.db { HeldSplits(s.db, k, v); } else { assert s.db - {k} == s.db; }
    case Leave(c) => SaysGives(Unblocked(s, c), Null(c), v);
    case ServeReady => DrainConserves(s, [], v);
  }

  ghost function Brought(s: State, steps: seq<Step>, v: Value): int
    decreases |steps|
  {
    if steps == [] then 0
    else Brought(s, steps[..|steps| - 1], v) + Brings(Run(s, steps[..|steps| - 1]), steps[|steps| - 1], v)
  }

  /** Over every run, what the database holds and the clients got is what the writes brought. */
  lemma {:induction false} RunConserves(steps: seq<Step>, v: Value)
    ensures Held(Run(START, steps).db, v) + Given(Run(START, steps).replies, v) == Brought(START, steps, v)
    decreases |steps|
  {
    if steps != [] {
      RunConserves(steps[..|steps| - 1], v);
      StepConserves(Run(START, steps[..|steps| - 1]), steps[|steps| - 1], v);
    }
  }
}
