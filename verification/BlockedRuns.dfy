/**
 Whole runs of commands and service: nobody is left waiting for data that is
 there, and no element is lost.
 */
module BlockedRuns {
  import opened Options
  import opened Blocked
  import opened BlockedFair

  // -------------------------------------------------------------- no lost wake-up

  /** Client `c` waits on key `k` although the key holds data of the type it wants. */
  ghost predicate Starved(s: State, k: Key, c: Client) {
    && c in s.waits && k in s.waits[c].keys
    && Feeds(s.db, k) && s.db[k].items != [] && Kind(s.db[k]) == s.waits[c].btype
  }

  ghost predicate Calm(s: State, k: Key) { forall c :: !Starved(s, k, c) }

  /** A key with a starved client is queued for service; `but` is the key being served, if any. */
  ghost predicate NoLost(s: State, but: set<Key>) { forall k :: k in s.ready || k in but || Calm(s, k) }

  /** No list or sorted set is empty. */
  ghost predicate Full(db: map<Key, Obj>, but: set<Key>) { forall k :: k !in but && Feeds(db, k) ==> db[k].items != [] }

  /** A change that starves nobody new, except at keys it makes ready, loses no wake-up. */
  lemma Transfer(s: State, t: State, but: set<Key>)
    requires NoLost(s, but) && s.ready <= t.ready
    requires forall k, c :: k !in but && k !in t.ready && Starved(t, k, c) ==> Starved(s, k, c)
    ensures NoLost(t, but)
  {
    forall k ensures k in t.ready || k in but || Calm(t, k) {
      if k !in t.ready && k !in but { assert Calm(s, k); }
    }
  }

  /** Somebody who waits for this type of object is seen by the signal. */
  lemma SignalReaches(s: State, k: Key, o: Obj)
    requires Mirror(s.queues, s.waits) && Counted(s.waits, s.counts)
    ensures k in Added(s, k, o).ready || forall c :: c in s.waits && k in s.waits[c].keys ==> s.waits[c].btype != Kind(o)
  {
    if k !in Added(s, k, o).ready {
      forall c | c in s.waits && k in s.waits[c].keys ensures s.waits[c].btype != Kind(o) {
        assert Listed(s.queues, c, k);
        assert c in Waiting(s.waits, s.waits[c].btype);
      }
    }
  }

  /** A key is made ready only if a client waits on it and one of that type is blocked. */
  lemma SignalNeedsWaiter(s: State, k: Key, o: Obj)
    requires Mirror(s.queues, s.waits) && Counted(s.waits, s.counts)
    ensures var t := Added(s, k, o);
            && t.db == s.db[k := o] && t.waits == s.waits && t.replies == s.replies
            && (t.ready == s.ready || t.ready == s.ready + {k}) && (t.queued == s.queued || t.queued == s.queued + [k])
            && (t.queued != s.queued ==> k !in s.ready && (exists c :: c in s.waits && k in s.waits[c].keys)
                                         && (exists c :: c in s.waits && s.waits[c].btype == Kind(o)))
  {
    if Added(s, k, o).queued != s.queued {
      assert QueueOk(s.queues[k], s.waits, k);
      assert s.queues[k][0] in s.queues[k];
      assert Waiting(s.waits, Kind(o)) != {};
      var c :| c in Waiting(s.waits, Kind(o));
    }
  }

  lemma PushCalm(s: State, d: Key, v: Value, e: End, but: set<Key>)
    requires Mirror(s.queues, s.waits) && Counted(s.waits, s.counts)
    requires NoLost(s, but) && Full(s.db, but) && (d in s.db ==> s.db[d].ListObj?)
    ensures NoLost(Pushed(s, d, v, e), but) && Full(Pushed(s, d, v, e).db, but)
  {
    if d !in s.db { SignalReaches(s, d, ListObj([])); }
    Transfer(s, Pushed(s, d, v, e), but);
  }

  /** Changing the object under service leaves the other keys alone. */
  lemma ChangeCalm(s: State, k: Key, o: Obj)
    requires NoLost(s, {k}) && Full(s.db, {k})
    ensures NoLost(s.(db := s.db[k := o]), {k}) && Full(s.db[k := o], {k})
  {
    Transfer(s, s.(db := s.db[k := o]), {k});
  }

  lemma UnblockCalm(s: State, c: Client, but: set<Key>)
    requires NoLost(s, but)
    ensures NoLost(Unblocked(s, c), but)
  {
    Transfer(s, Unblocked(s, c), but);
  }

  lemma SaysCalm(s: State, r: Reply, but: set<Key>)
    requires NoLost(s, but)
    ensures NoLost(Says(s, r), but)
  {
    Transfer(s, Says(s, r), but);
  }

  lemma HandCalm(s: State, c: Client, w: Wait, k: Key, v: Value)
    requires Mirror(s.queues, s.waits) && Counted(s.waits, s.counts)
    requires Feeds(s.db, k) && NoLost(s, {k}) && Full(s.db, {k})
    ensures NoLost(Hand(s, c, w, k, v), {k}) && Full(Hand(s, c, w, k, v).db, {k})
  {
    if w.target.None? || w.btype != ByList {
      SaysCalm(s, Popped(c, k, v), {k});
    } else if w.target.value in s.db && !s.db[w.target.value].ListObj? {
      var o := WithItems(s.db[k], Push(s.db[k].items, v, w.from));
      ChangeCalm(s, k, o);
      SaysCalm(s.(db := s.db[k := o]), WrongType(c), {k});
    } else {
      PushCalm(s, w.target.value, v, w.to, {k});
      SaysCalm(Pushed(s, w.target.value, v, w.to), Moved(c, v), {k});
    }
  }

  lemma TurnCalm(s: State, k: Key)
    requires Mirror(s.queues, s.waits) && Counted(s.waits, s.counts)
    requires Feeds(s.db, k) && Queue(s.queues, k) != [] && !Stops(s, k)
    requires NoLost(s, {k}) && Full(s.db, {k})
    ensures NoLost(Turn(s, k), {k}) && Full(Turn(s, k).db, {k})
  {
    if Serves(s, k) {
      TurnServes(s, k);
      var c := s.queues[k][0];
      var w := s.waits[c];
      var o := WithItems(s.db[k], Pop(s.db[k].items, w.from));
      ChangeCalm(s, k, o);
      HandCalm(s.(db := s.db[k := o]), c, w, k, Peek(s.db[k].items, w.from));
      UnblockCalm(Handed(s, k), c, {k});
    } else {
      RotateCalm(s, k);
    }
  }

  lemma RotateCalm(s: State, k: Key)
    requires Feeds(s.db, k) && Queue(s.queues, k) != [] && !Stops(s, k) && !Serves(s, k) && NoLost(s, {k})
    ensures NoLost(Turn(s, k), {k})
  {
    Transfer(s, Turn(s, k), {k});
  }

  lemma LoopCalm(s: State, k: Key, n: nat, now: seq<Key>)
    requires Valid(s, now) && Feeds(s.db, k) && n <= |Queue(s.queues, k)| && NoLost(s, {k}) && Full(s.db, {k})
    ensures NoLost(Loop(s, k, n), {k}) && Full(Loop(s, k, n).db, {k})
  {
    var p := (t: State) => Valid(t, now) && NoLost(t, {k}) && Full(t.db, {k});
    forall t | p(t) && CanTurn(t, k) ensures p(Turn(t, k)) {
      TurnCalm(t, k);
      TurnKeepsValid(t, k, now);
    }
    LoopKeeps(p, s, k, n);
  }

  lemma {:induction false} OfOthers(waits: map<Client, Wait>, q: seq<Client>, b: BType)
    ensures forall c :: c in Of(waits, q, b, false) ==> Type(waits, c) != b
  {
    if q != [] { OfOthers(waits, q[1..], b); }
  }

  /** With the whole queue gone through, only clients of other types are left in it. */
  lemma AllServed(s: State, u: State, k: Key, q: seq<Client>, b: BType)
    requires After(s, u, k, q, b, |q|) && Mirror(u.queues, u.waits) && (Feeds(u.db, k) ==> Kind(u.db[k]) == b)
    ensures Calm(u, k)
  {
    assert q[|q|..] == [] && q[..|q|] == q;
    OfOthers(s.waits, q, b);
    forall c | c in u.waits && k in u.waits[c].keys ensures u.waits[c].btype != b {
      assert Listed(u.queues, c, k);
      assert Type(s.waits, c) == Type(u.waits, c);
    }
  }

  /** After the service of a key, nobody is left who could have been served. */
  lemma ServedIsCalm(s: State, k: Key, n: nat)
    requires Mirror(s.queues, s.waits) && Feeds(s.db, k) && n == |Queue(s.queues, k)|
    ensures Loop(s, k, n).db[k].items != [] ==> Calm(Loop(s, k, n), k)
  {
    FairService(s, k, n);
    LoopKeepsMirror(s, k, n);
    if Turns(s, k, n) == n { AllServed(s, Loop(s, k, n), k, Queue(s.queues, k), Kind(s.db[k])); }
  }

  lemma ServeKeyCalm(s: State, now: seq<Key>)
    requires now != [] && Valid(s, now) && NoLost(s, {}) && Full(s.db, {})
    ensures NoLost(ServeKey(s, now[0]), {}) && Full(ServeKey(s, now[0]).db, {})
  {
    var k := now[0];
    var t := s.(ready := s.ready - {k});
    LessReady(s.ready, now + s.queued);
    assert (now + s.queued)[1..] == now[1..] + s.queued;
    StartCalm(s, k);
    if Feeds(t.db, k) {
      var n := |Queue(t.queues, k)|;
      LoopCalm(t, k, n, now[1..]);
      ServedIsCalm(t, k, n);
      EndCalm(Loop(t, k, n), k);
    } else {
      assert Calm(t, k);
    }
  }

  lemma StartCalm(s: State, k: Key)
    requires NoLost(s, {}) && Full(s.db, {})
    ensures NoLost(s.(ready := s.ready - {k}), {k}) && Full(s.db, {k})
  {
    var t := s.(ready := s.ready - {k});
    forall j ensures j in t.ready || j in {k} || Calm(t, j) {
      if j !in t.ready && j != k {
        assert Calm(s, j);
        forall d ensures !Starved(t, j, d) { assert !Starved(s, j, d); }
      }
    }
  }

  lemma EndCalm(u: State, k: Key)
    requires NoLost(u, {k}) && Full(u.db, {k}) && Feeds(u.db, k) && (u.db[k].items != [] ==> k in u.ready || Calm(u, k))
    ensures var v := if u.db[k].items == [] then u.(db := u.db - {k}) else u;
            NoLost(v, {}) && Full(v.db, {})
  {
    var v := if u.db[k].items == [] then u.(db := u.db - {k}) else u;
    forall j ensures j in v.ready || Calm(v, j) {
      if j !in v.ready {
        assert j != k ==> Calm(u, j);
        forall d ensures !Starved(v, j, d) { assert j != k ==> !Starved(u, j, d); }
      }
    }
  }

  /** When the ready keys are drained, no client waits on a key that holds what it wants. */
  lemma {:induction false} DrainServesEveryone(s: State, now: seq<Key>)
    requires Valid(s, now) && NoLost(s, {}) && Full(s.db, {})
    ensures NoLost(Drain(s, now), {}) && Full(Drain(s, now).db, {}) && forall k :: Calm(Drain(s, now), k)
    decreases |s.waits|, |now| + |s.queued|, if now == [] then 1 else 0
  {
    if now != [] {
      LoopProgressOfKey(s, now[0]);
      ServeKeyKeepsValid(s, now);
      ServeKeyCalm(s, now);
      DrainServesEveryone(ServeKey(s, now[0]), now[1..]);
    } else if s.queued != [] {
      assert [] + s.queued == s.queued + [];
      StillCalm(s);
      DrainServesEveryone(s.(queued := []), s.queued);
    } else {
      DrainKeepsValid(s, now);
    }
  }

  lemma StillCalm(s: State)
    requires NoLost(s, {})
    ensures NoLost(s.(queued := []), {})
  {
    Transfer(s, s.(queued := []), {});
  }

  // ------------------------------------------------------------------ conservation

  /** How often an object holds element `v`. */
  function Copies(o: Obj, v: Value): nat { if o.ListObj? || o.ZSetObj? then multiset(o.items)[v] else 0 }

  /** How often the database holds element `v`. */
  ghost function Held(db: map<Key, Obj>, v: Value): nat
    decreases |db|
  {
    if db == map[] then 0
    else
      var k :| k in db;
      ShrinkDb(db, k);
      Copies(db[k], v) + Held(db - {k}, v)
  }

  lemma ShrinkDb(db: map<Key, Obj>, k: Key)
    requires k in db
    ensures |db - {k}| < |db|
  {
    assert db.Keys == (db - {k}).Keys + {k};
    assert |(db - {k}).Keys| == |db - {k}| && |db.Keys| == |db|;
  }

  /** Any key may be counted first. */
  lemma {:induction false} HeldSplits(db: map<Key, Obj>, k: Key, v: Value)
    requires k in db
    ensures Held(db, v) == Copies(db[k], v) + Held(db - {k}, v)
    decreases |db|
  {
    var j :| j in db && Held(db, v) == Copies(db[j], v) + Held(db - {j}, v);
    if j != k {
      ShrinkDb(db, j);
      ShrinkDb(db, k);
      HeldSplits(db - {j}, k, v);
      HeldSplits(db - {k}, j, v);
      assert db - {j} - {k} == db - {k} - {j};
    }
  }

  lemma HeldChanged(db: map<Key, Obj>, k: Key, o: Obj, v: Value)
    ensures Held(db[k := o], v) == Held(db, v) + Copies(o, v) - if k in db then Copies(db[k], v) else 0
  {
    HeldSplits(db[k := o], k, v);
    assert db[k := o] - {k} == db - {k};
    if k in db { HeldSplits(db, k, v); } else { assert db - {k} == db; }
  }

  /** How often element `v` was replied to a client that popped it. */
  ghost function Given(replies: seq<Reply>, v: Value): nat {
    if replies == [] then 0
    else
      var last := replies[|replies| - 1];
      Given(replies[..|replies| - 1], v) + if last.Popped? && last.value == v then 1 else 0
  }

  ghost function Everything(s: State, v: Value): nat { Held(s.db, v) + Given(s.replies, v) }

  function One(v: Value, w: Value): nat { if v == w then 1 else 0 }

  lemma PushItems(items: seq<Value>, w: Value, e: End, v: Value)
    ensures multiset(Push(items, w, e))[v] == multiset(items)[v] + One(v, w)
  {
  }

  lemma PopItems(items: seq<Value>, e: End, v: Value)
    requires items != []
    ensures multiset(items)[v] == multiset(Pop(items, e))[v] + One(v, Peek(items, e))
  {
    assert items == if e.Head? then [items[0]] + items[1..] else items[..|items| - 1] + [items[|items| - 1]];
  }

  lemma PushedHeld(s: State, k: Key, w: Value, e: End, v: Value)
    requires k in s.db ==> s.db[k].ListObj?
    ensures Held(Pushed(s, k, w, e).db, v) == Held(s.db, v) + One(v, w)
  {
    var items := if k in s.db then s.db[k].items else [];
    var o := ListObj(Push(items, w, e));
    PushItems(items, w, e, v);
    HeldChanged(s.db, k, o, v);
    assert Pushed(s, k, w, e).db == s.db[k := o];
  }

  lemma PushedBack(db: map<Key, Obj>, k: Key, w: Value, e: End, v: Value)
    requires Feeds(db, k)
    ensures Held(db[k := WithItems(db[k], Push(db[k].items, w, e))], v) == Held(db, v) + One(v, w)
  {
    PushItems(db[k].items, w, e, v);
    HeldChanged(db, k, WithItems(db[k], Push(db[k].items, w, e)), v);
  }

  lemma PoppedOff(db: map<Key, Obj>, k: Key, e: End, v: Value)
    requires Feeds(db, k) && db[k].items != []
    ensures Held(db[k := WithItems(db[k], Pop(db[k].items, e))], v) + One(v, Peek(db[k].items, e)) == Held(db, v)
  {
    PopItems(db[k].items, e, v);
    HeldChanged(db, k, WithItems(db[k], Pop(db[k].items, e)), v);
  }

  lemma SaysGives(s: State, r: Reply, v: Value)
    ensures Everything(Says(s, r), v) == Everything(s, v) + if r.Popped? then One(v, r.value) else 0
  {
    assert (s.replies + [r])[..|s.replies|] == s.replies;
  }

  /** Handing an element over puts it in a reply, in the target list, or back where it came from. */
  lemma HandConserves(s: State, c: Client, w: Wait, k: Key, x: Value, v: Value)
    requires Feeds(s.db, k)
    ensures Everything(Hand(s, c, w, k, x), v) == Everything(s, v) + One(v, x)
  {
    if w.target.None? || w.btype != ByList {
      SaysGives(s, Popped(c, k, x), v);
    } else if w.target.value in s.db && !s.db[w.target.value].ListObj? {
      PushedBack(s.db, k, x, w.from, v);
      SaysGives(s.(db := s.db[k := WithItems(s.db[k], Push(s.db[k].items, x, w.from))]), WrongType(c), v);
    } else {
      PushedHeld(s, w.target.value, x, w.to, v);
      SaysGives(Pushed(s, w.target.value, x, w.to), Moved(c, x), v);
    }
  }

  lemma TurnConserves(s: State, k: Key, v: Value)
    requires CanTurn(s, k)
    ensures Everything(Turn(s, k), v) == Everything(s, v)
  {
    if Serves(s, k) {
      TurnServes(s, k);
      var w := s.waits[s.queues[k][0]];
      PoppedOff(s.db, k, w.from, v);
      var popped := s.(db := s.db[k := WithItems(s.db[k], Pop(s.db[k].items, w.from))]);
      HandConserves(popped, s.queues[k][0], w, k, Peek(s.db[k].items, w.from), v);
    }
  }

  lemma ServeKeyConserves(s: State, k: Key, v: Value)
    ensures Everything(ServeKey(s, k), v) == Everything(s, v)
  {
    var t := s.(ready := s.ready - {k});
    if Feeds(t.db, k) {
      var n := |Queue(t.queues, k)|;
      var p := (u: State) => Everything(u, v) == Everything(s, v);
      forall u | p(u) && CanTurn(u, k) ensures p(Turn(u, k)) { TurnConserves(u, k, v); }
      LoopKeeps(p, t, k, n);
      HeldSplits(Loop(t, k, n).db, k, v);
    }
  }

  /** However long the drain goes on, no element is lost or made up. */
  lemma {:induction false} DrainConserves(s: State, now: seq<Key>, v: Value)
    ensures Everything(Drain(s, now), v) == Everything(s, v)
    decreases |s.waits|, |now| + |s.queued|, if now == [] then 1 else 0
  {
    if now != [] {
      LoopProgressOfKey(s, now[0]);
      ServeKeyConserves(s, now[0], v);
      DrainConserves(ServeKey(s, now[0]), now[1..], v);
    } else if s.queued != [] {
      DrainConserves(s.(queued := []), s.queued, v);
    }
  }

  // ------------------------------------------------------------------ whole runs

  /** The key decides a blocking pop at once: it has the wrong type, or something to pop. */
  predicate Decides(db: map<Key, Obj>, b: BType, k: Key) {
    k in db && (!Feeds(db, k) || Kind(db[k]) != b || db[k].items != [])
  }

  /** The first such key, or the number of keys. */
  function FirstIn(db: map<Key, Obj>, b: BType, keys: seq<Key>): (i: nat)
    ensures i <= |keys| && (i < |keys| ==> Decides(db, b, keys[i])) && forall j :: 0 <= j < i ==> !Decides(db, b, keys[j])
  {
    if keys == [] || Decides(db, b, keys[0]) then 0 else 1 + FirstIn(db, b, keys[1..])
  }

  function Keys(keys: seq<Key>): set<Key> { set k | k in keys }

  /** Take one element off an object, which goes away when that was its last. */
  function Taken(db: map<Key, Obj>, k: Key, e: End): map<Key, Obj>
    requires Feeds(db, k) && db[k].items != []
  {
    if |db[k].items| == 1 then db - {k} else db[k := WithItems(db[k], Pop(db[k].items, e))]
  }

  /** BLPOP, BRPOP and the sorted set variants: pop from the first key that holds data, else block on all of them. */
  function BlockingPop(s: State, c: Client, b: BType, keys: seq<Key>, e: End): State {
    var i := FirstIn(s.db, b, keys);
    if i == |keys| then Blocks(s, c, Wait(b, Keys(keys), None, e, e))
    else
      var k := keys[i];
      if !Feeds(s.db, k) || Kind(s.db[k]) != b then Says(s, WrongType(c))
      else Says(s.(db := Taken(s.db, k, e)), Popped(c, k, Peek(s.db[k].items, e)))
  }

  /** BLMOVE: move an element, or block. */
  function BlockingMove(s: State, c: Client, k: Key, dst: Key, from: End, to: End): State {
    if k !in s.db then Blocks(s, c, Wait(ByList, {k}, Some(dst), from, to))
    else if !s.db[k].ListObj? then Says(s, WrongType(c))
    else if s.db[k].items == [] then Says(s, Null(c))
    else if dst in s.db && !s.db[dst].ListObj? then Says(s, WrongType(c))
    else
      var v := Peek(s.db[k].items, from);
      var t := Pushed(s.(db := s.db[k := ListObj(Pop(s.db[k].items, from))]), dst, v, to);
      Says(if t.db[k].items == [] then t.(db := t.db - {k}) else t, Moved(c, v))
  }

  datatype Step =
    | PopCmd(c: Client, b: BType, keys: seq<Key>, e: End)
    | MoveCmd(c: Client, k: Key, dst: Key, from: End, to: End)
    | PushCmd(k: Key, v: Value, e: End)
    | ZAddCmd(k: Key, v: Value, rank: nat)   // the rank that the score of the new member gives it
    | StoreCmd(k: Key, o: Obj)
    | DelCmd(k: Key)
    | Leave(c: Client)
    | ServeReady

  /** Set a key to a new object.  Only a key that did not exist is signalled. */
  function Stored(s: State, k: Key, o: Obj): State { if k in s.db then s.(db := s.db[k := o]) else Added(s, k, o) }

  ghost predicate NonEmpty(o: Obj) { (o.ListObj? || o.ZSetObj?) ==> o.items != [] }

  /** Overwriting the key gives somebody what it waits for, and nobody is told. */
  ghost predicate Loses(s: State, k: Key, o: Obj) {
    && k in s.db && k !in s.ready && (o.ListObj? || o.ZSetObj?)
    && exists c :: c in s.waits && k in s.waits[c].keys && s.waits[c].btype == Kind(o)
  }

  /** A blocked client sends no commands; blocking commands name a key; no overwrite loses a wake-up. */
  ghost predicate Enabled(s: State, step: Step) {
    match step
    case PopCmd(c, b, keys, _) => c !in s.waits && keys != [] && (b == ByList || b == ByZSet)
    case MoveCmd(c, _, _, _, _) => c !in s.waits
    case StoreCmd(k, o) => NonEmpty(o) && !Loses(s, k, o)
    case Leave(c) => c in s.waits
    case _ => true
  }

  function Apply(s: State, step: Step): State {
    match step
    case PopCmd(c, b, keys, e) => BlockingPop(s, c, b, keys, e)
    case MoveCmd(c, k, dst, from, to) => BlockingMove(s, c, k, dst, from, to)
    case PushCmd(k, v, e) => if k in s.db && !s.db[k].ListObj? then s else Pushed(s, k, v, e)
    case ZAddCmd(k, v, rank) => ZAdded(s, k, v, rank)
    case StoreCmd(k, o) => Stored(s, k, o)
    case DelCmd(k) => s.(db := s.db - {k})
    case Leave(c) => Says(Unblocked(s, c), Null(c))
    case ServeReady => Drain(s, [])
  }

  function InsertedAt(items: seq<Value>, v: Value, rank: nat): seq<Value> {
    if rank <= |items| then items[..rank] + [v] + items[rank..] else items + [v]
  }

  function ZAdded(s: State, k: Key, v: Value, rank: nat): State {
    if k !in s.db then Added(s, k, ZSetObj([v]))
    else if s.db[k].ZSetObj? then s.(db := s.db[k := ZSetObj(InsertedAt(s.db[k].items, v, rank))])
    else s
  }

  function Run(s: State, steps: seq<Step>): State
    decreases |steps|
  {
    if steps == [] then s else Apply(Run(s, steps[..|steps| - 1]), steps[|steps| - 1])
  }

  ghost predicate Legal(s: State, steps: seq<Step>)
    decreases |steps|
  {
    steps == [] || (Legal(s, steps[..|steps| - 1]) && Enabled(Run(s, steps[..|steps| - 1]), steps[|steps| - 1]))
  }

  ghost predicate Good(s: State) { Valid(s, []) && NoLost(s, {}) && Full(s.db, {}) }

  const START: State := State(map[], map[], map[], {}, [], Counts(0, 0, 0), [])

  lemma SignalledReady(s: State, k: Key, b: BType)
    requires ReadyOk(s.ready, [] + s.queued)
    ensures ReadyOk(Signalled(s, k, b).ready, [] + Signalled(s, k, b).queued)
  {
    if k !in s.ready {
      MoreReady(s.ready, [] + s.queued, k);
      assert [] + (s.queued + [k]) == ([] + s.queued) + [k];
    }
  }

  lemma BlocksKeepsGood(s: State, c: Client, w: Wait)
    requires Good(s) && c !in s.waits && w.btype != NotBlocked && w.keys != {} && forall k :: k in w.keys ==> k !in s.db
    ensures Good(Blocks(s, c, w))
  {
    BlockKeepsMirror(s.queues, s.waits, c, w);
    BlockKeepsCounts(s.waits, s.counts, c, w);
    Transfer(s, Blocks(s, c, w), {});
  }

  lemma PopKeepsGood(s: State, c: Client, b: BType, keys: seq<Key>, e: End)
    requires Good(s) && c !in s.waits && keys != [] && (b == ByList || b == ByZSet)
    ensures Good(BlockingPop(s, c, b, keys, e))
  {
    var i := FirstIn(s.db, b, keys);
    if i == |keys| {
      assert keys[0] in Keys(keys);
      BlocksKeepsGood(s, c, Wait(b, Keys(keys), None, e, e));
    } else {
      Transfer(s, BlockingPop(s, c, b, keys, e), {});
    }
  }

  lemma MovedKeepsGood(s: State, k: Key, dst: Key, from: End, to: End)
    requires Good(s) && k in s.db && s.db[k].ListObj? && s.db[k].items != [] && (dst in s.db ==> s.db[dst].ListObj?)
    ensures var t := Pushed(s.(db := s.db[k := ListObj(Pop(s.db[k].items, from))]), dst, Peek(s.db[k].items, from), to);
            var u := if t.db[k].items == [] then t.(db := t.db - {k}) else t;
            Valid(u, []) && NoLost(u, {}) && Full(u.db, {})
  {
    var o := ListObj(Pop(s.db[k].items, from));
    var p := s.(db := s.db[k := o]);
    var t := Pushed(p, dst, Peek(s.db[k].items, from), to);
    ChangeCalm(s, k, o);
    PushCalm(p, dst, Peek(s.db[k].items, from), to, {k});
    SignalledReady(p.(db := p.db[dst := ListObj([])]), dst, ByList);
    if k !in t.ready {
      assert Calm(s, k);
      forall c ensures !Starved(t, k, c) { assert !Starved(s, k, c); }
    }
    EndCalm(t, k);
  }

  lemma MoveKeepsGood(s: State, c: Client, k: Key, dst: Key, from: End, to: End)
    requires Good(s) && c !in s.waits
    ensures Good(BlockingMove(s, c, k, dst, from, to))
  {
    if k !in s.db {
      BlocksKeepsGood(s, c, Wait(ByList, {k}, Some(dst), from, to));
    } else if !s.db[k].ListObj? || (dst in s.db && !s.db[dst].ListObj?) {
      SaysCalm(s, WrongType(c), {});
    } else if s.db[k].items == [] {
      SaysCalm(s, Null(c), {});
    } else {
      MovedKeepsGood(s, k, dst, from, to);
      var v := Peek(s.db[k].items, from);
      var t := Pushed(s.(db := s.db[k := ListObj(Pop(s.db[k].items, from))]), dst, v, to);
      SaysCalm(if t.db[k].items == [] then t.(db := t.db - {k}) else t, Moved(c, v), {});
    }
  }

  lemma PushKeepsGood(s: State, k: Key, v: Value, e: End)
    requires Good(s) && (k in s.db ==> s.db[k].ListObj?)
    ensures Good(Pushed(s, k, v, e))
  {
    PushCalm(s, k, v, e, {});
    SignalledReady(s.(db := s.db[k := ListObj([])]), k, ByList);
  }

  lemma ZAddKeepsGood(s: State, k: Key, v: Value, rank: nat)
    requires Good(s)
    ensures Good(ZAdded(s, k, v, rank))
  {
    if k !in s.db { SignalReaches(s, k, ZSetObj([v])); }
    SignalledReady(s.(db := s.db[k := ZSetObj([v])]), k, ByZSet);
    Transfer(s, ZAdded(s, k, v, rank), {});
  }

  lemma StoreKeepsGood(s: State, k: Key, o: Obj)
    requires Good(s) && NonEmpty(o) && !Loses(s, k, o)
    ensures Good(Stored(s, k, o))
  {
    if k !in s.db { SignalReaches(s, k, o); }
    SignalledReady(s.(db := s.db[k := o]), k, Kind(o));
    Transfer(s, Stored(s, k, o), {});
  }

  /** Storing an object keeps the promise exactly when it is not such an overwrite. */
  lemma StoreKeepsGoodIff(s: State, k: Key, o: Obj)
    requires Good(s) && NonEmpty(o)
    ensures Good(Stored(s, k, o)) <==> !Loses(s, k, o)
  {
    var t := Stored(s, k, o);
    if Loses(s, k, o) {
      var c :| c in s.waits && k in s.waits[c].keys && s.waits[c].btype == Kind(o);
      assert Starved(t, k, c);
      assert !Calm(t, k);
    } else {
      StoreKeepsGood(s, k, o);
    }
  }

  lemma StepKeepsGood(s: State, step: Step)
    requires Good(s) && Enabled(s, step)
    ensures Good(Apply(s, step))
  {
    match step
    case PopCmd(c, b, keys, e) => PopKeepsGood(s, c, b, keys, e);
    case MoveCmd(c, k, dst, from, to) => MoveKeepsGood(s, c, k, dst, from, to);
    case PushCmd(k, v, e) => if k !in s.db || s.db[k].ListObj? { PushKeepsGood(s, k, v, e); }
    case ZAddCmd(k, v, rank) => ZAddKeepsGood(s, k, v, rank);
    case StoreCmd(k, o) => StoreKeepsGoodIff(s, k, o);
    case DelCmd(k) => Transfer(s, s.(db := s.db - {k}), {});
    case Leave(c) =>
      UnblockKeepsValid(s, c, []);
      UnblockCalm(s, c, {});
      SaysCalm(Unblocked(s, c), Null(c), {});
    case ServeReady =>
      DrainKeepsValid(s, []);
      DrainServesEveryone(s, []);
  }

  /** In every run the indexes mirror each other, the ready set matches the ready queue, and no wake-up is lost. */
  lemma {:induction false} EveryRunIsGood(steps: seq<Step>)
    requires Legal(START, steps)
    ensures Good(Run(START, steps))
    decreases |steps|
  {
    if steps == [] {
      assert Waiting(map[], ByList) == Waiting(map[], ByZSet) == Waiting(map[], ByStream) == {};
    } else {
      EveryRunIsGood(steps[..|steps| - 1]);
      StepKeepsGood(Run(START, steps[..|steps| - 1]), steps[|steps| - 1]);
    }
  }

  /** Once the ready keys are served, nobody waits on a key that holds what it waits for, in any run. */
  lemma NobodyStarves(steps: seq<Step>, k: Key, c: Client)
    requires Legal(START, steps)
    ensures !Starved(Apply(Run(START, steps), ServeReady), k, c)
  {
    EveryRunIsGood(steps);
    DrainServesEveryone(Run(START, steps), []);
    assert Calm(Apply(Run(START, steps), ServeReady), k);
  }

  lemma TwoSteps(s: State, a: Step, b: Step)
    ensures Run(s, [a, b]) == Apply(Apply(s, a), b)
    ensures Legal(s, [a, b]) == (Enabled(s, a) && Enabled(Apply(s, a), b))
  {
    assert [a, b][..1] == [a] && [a][..0] == [];
    assert Run(s, []) == s && Legal(s, []);
    assert Run(s, [a]) == Apply(Run(s, []), a);
    assert Legal(s, [a]) == (Legal(s, []) && Enabled(Run(s, []), a));
  }

  /** A client blocks on a missing list; the key becomes a string, then SORT ... STORE makes it a list: the client sleeps on. */
  lemma OverwriteLosesWakeup()
    ensures var s := Run(START, [PopCmd(1, ByList, ["k"], Head), StoreCmd("k", PlainObj)]);
            && Legal(START, [PopCmd(1, ByList, ["k"], Head), StoreCmd("k", PlainObj)])
            && Starved(Drain(Stored(s, "k", ListObj(["v"])), []), "k", 1)
  {
    TwoSteps(START, PopCmd(1, ByList, ["k"], Head), StoreCmd("k", PlainObj));
    var s := Blocks(START, 1, Wait(ByList, Keys(["k"]), None, Head, Head));
    assert Apply(START, PopCmd(1, ByList, ["k"], Head)) == s;
    var p := s.(db := map["k" := PlainObj]);
    assert Apply(s, StoreCmd("k", PlainObj)) == p;
    var t := p.(db := map["k" := ListObj(["v"])]);
    assert Stored(p, "k", ListObj(["v"])) == t;
    assert Drain(t, []) == t;
    assert "k" in Keys(["k"]);
  }
}
