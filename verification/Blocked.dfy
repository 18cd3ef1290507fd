/**
 Clients blocked on keys.

 The server keeps two mirrored indexes, key to queue of clients and client to
 set of keys, and a queue of keys that became ready with a set that keeps it free
 of duplicates.  Serving a ready list pops elements for the clients in the order
 they blocked; a client of BLMOVE pushes its element to another list, which may
 make another key ready.
 */
module Blocked {
  import opened Options

  type Key = string
  type Client = nat
  type Value = string

  datatype End = Head | Tail

  datatype BType = NotBlocked | ByList | ByZSet | ByStream

  /** What a blocked client waits for. */
  datatype Wait = Wait(btype: BType, keys: set<Key>, target: Option<Key>, from: End, to: End)

  datatype Obj = ListObj(items: seq<Value>) | ZSetObj(items: seq<Value>) | StreamObj | PlainObj

  datatype Reply =
    | Popped(client: Client, key: Key, value: Value)
    | Moved(client: Client, value: Value)
    | WrongType(client: Client)
    | Null(client: Client)

  /** How many clients are blocked, by type. */
  datatype Counts = Counts(lists: int, zsets: int, streams: int)

  datatype State = State(
    db: map<Key, Obj>,
    queues: map<Key, seq<Client>>,
    waits: map<Client, Wait>,
    ready: set<Key>,
    queued: seq<Key>,
    counts: Counts,
    replies: seq<Reply>)

  // ---------------------------------------------------------------- ends of lists

  /** The element at one end. */
  function Peek(items: seq<Value>, e: End): Value
    requires items != []
  {
    if e.Head? then items[0] else items[|items| - 1]
  }

  function Pop(items: seq<Value>, e: End): seq<Value>
    requires items != []
  {
    if e.Head? then items[1..] else items[..|items| - 1]
  }

  function Push(items: seq<Value>, v: Value, e: End): seq<Value> { if e.Head? then [v] + items else items + [v] }

  /** Pushing back on the end an element came from undoes the pop. */
  lemma PushUndoesPop(items: seq<Value>, e: End)
    requires items != []
    ensures Push(Pop(items, e), Peek(items, e), e) == items
  {
  }

  // --------------------------------------------------------------------- counters

  function CountOf(n: Counts, b: BType): int {
    match b case ByList => n.lists case ByZSet => n.zsets case ByStream => n.streams case NotBlocked => 0
  }

  /** The counters after `d` more clients of type `b`. */
  function Bumped(n: Counts, b: BType, d: int): Counts {
    match b
    case ByList => n.(lists := n.lists + d)
    case ByZSet => n.(zsets := n.zsets + d)
    case ByStream => n.(streams := n.streams + d)
    case NotBlocked => n
  }

  // ------------------------------------------------------------------ the indexes

  function Queue(queues: map<Key, seq<Client>>, k: Key): seq<Client> { if k in queues then queues[k] else [] }

  function RemoveOne(q: seq<Client>, c: Client): (r: seq<Client>)
    ensures |q| - 1 <= |r| <= |q|
  {
    if q == [] then [] else if q[0] == c then q[1..] else [q[0]] + RemoveOne(q[1..], c)
  }

  /** The queues without client `c` under the given keys; a queue that empties goes away. */
  function Dequeued(queues: map<Key, seq<Client>>, keys: set<Key>, c: Client): map<Key, seq<Client>> {
    map k | k in queues && !(k in keys && RemoveOne(queues[k], c) == []) ::
      if k in keys then RemoveOne(queues[k], c) else queues[k]
  }

  /** The queues with client `c` at the tail under the given keys. */
  function Enqueued(queues: map<Key, seq<Client>>, keys: set<Key>, c: Client): map<Key, seq<Client>> {
    map k | k in queues.Keys + keys :: if k in keys then Queue(queues, k) + [c] else queues[k]
  }

  function Type(waits: map<Client, Wait>, c: Client): BType { if c in waits then waits[c].btype else NotBlocked }

  // ------------------------------------------------------------------- operations

  function Blocks(s: State, c: Client, w: Wait): State {
    s.(queues := Enqueued(s.queues, w.keys, c), waits := s.waits[c := w], counts := Bumped(s.counts, w.btype, 1))
  }

  function Unblocked(s: State, c: Client): State {
    if c !in s.waits then s
    else s.(queues := Dequeued(s.queues, s.waits[c].keys, c), waits := s.waits - {c},
            counts := Bumped(s.counts, s.waits[c].btype, -1))
  }

  /** The type of client that an object can serve. */
  function Kind(o: Obj): BType {
    match o case ListObj(_) => ByList case ZSetObj(_) => ByZSet case StreamObj => ByStream case PlainObj => NotBlocked
  }

  /** A key became available: queue it unless nobody can be waiting or it is queued already. */
  function Signalled(s: State, k: Key, b: BType): State {
    if b == NotBlocked || CountOf(s.counts, b) == 0 || k !in s.queues || k in s.ready then s
    else s.(ready := s.ready + {k}, queued := s.queued + [k])
  }

  function Added(s: State, k: Key, o: Obj): State { Signalled(s.(db := s.db[k := o]), k, Kind(o)) }

  /** Push one element to a list, creating it if needed. */
  function Pushed(s: State, k: Key, v: Value, e: End): State
    requires k in s.db ==> s.db[k].ListObj?
  {
    var t := if k in s.db then s else Added(s, k, ListObj([]));
    t.(db := t.db[k := ListObj(Push(t.db[k].items, v, e))])
  }

  function Says(s: State, r: Reply): State { s.(replies := s.replies + [r]) }

  // ------------------------------------------------------------------- the service

  predicate Feeds(db: map<Key, Obj>, k: Key) { k in db && (db[k].ListObj? || db[k].ZSetObj?) }

  function WithItems(o: Obj, items: seq<Value>): Obj
    requires o.ListObj? || o.ZSetObj?
  {
    o.(items := items)
  }

  /** Give the popped element to the client: reply with it, or push it to the client's target list. */
  function Hand(s: State, c: Client, w: Wait, k: Key, v: Value): State
    requires Feeds(s.db, k)
  {
    if w.target.None? || w.btype != ByList then Says(s, Popped(c, k, v))
    else
      var dst := w.target.value;
      if dst in s.db && !s.db[dst].ListObj?
      then Says(s.(db := s.db[k := WithItems(s.db[k], Push(s.db[k].items, v, w.from))]), WrongType(c))
      else Says(Pushed(s, dst, v, w.to), Moved(c, v))
  }

  /** The service of the head of the queue cannot go on. */
  predicate Stops(s: State, k: Key)
    requires Feeds(s.db, k) && Queue(s.queues, k) != []
  {
    s.db[k].items == [] && (s.db[k].ZSetObj? || Type(s.waits, s.queues[k][0]) == ByList)
  }

  /** One turn: rotate a client of another type to the tail, or pop an element for the head and unblock it. */
  function Turn(s: State, k: Key): (s': State)
    requires Feeds(s.db, k) && Queue(s.queues, k) != [] && !Stops(s, k)
    ensures |Queue(s'.queues, k)| >= |Queue(s.queues, k)| - 1
    ensures Feeds(s'.db, k) && Kind(s'.db[k]) == Kind(s.db[k])
  {
    var q := s.queues[k];
    var c := q[0];
    if Type(s.waits, c) != Kind(s.db[k]) then s.(queues := s.queues[k := q[1..] + [c]])
    else
      var w := s.waits[c];
      var v := Peek(s.db[k].items, w.from);
      var popped := s.(db := s.db[k := WithItems(s.db[k], Pop(s.db[k].items, w.from))]);
      Unblocked(Hand(popped, c, w, k, v), c)
  }

  /** At most `n` turns. */
  function Loop(s: State, k: Key, n: nat): (s': State)
    requires Feeds(s.db, k) && n <= |Queue(s.queues, k)|
    ensures Feeds(s'.db, k) && Kind(s'.db[k]) == Kind(s.db[k])
    decreases n
  {
    if n == 0 || Stops(s, k) then s else Loop(Turn(s, k), k, n - 1)
  }

  /** Serve the clients blocked on a key that was ready; an object left empty goes away. */
  function ServeKey(s: State, k: Key): State {
    var t := s.(ready := s.ready - {k});
    if !Feeds(t.db, k) then t
    else
      var u := Loop(t, k, |Queue(t.queues, k)|);
      if u.db[k].items == [] then u.(db := u.db - {k}) else u
  }

  // ------------------------------------------------------------------- termination

  /** A turn unblocks its client, or changes nothing but the order of the queue. */
  lemma TurnCases(s: State, k: Key)
    requires Feeds(s.db, k) && Queue(s.queues, k) != [] && !Stops(s, k)
    ensures var s' := Turn(s, k);
            var c := s.queues[k][0];
            if Type(s.waits, c) == Kind(s.db[k])
            then c in s.waits && s'.waits == s.waits - {c}
            else s' == s.(queues := s'.queues)
  {
  }

  /** Serving unblocks somebody, or makes no key ready. */
  lemma {:induction false} LoopProgress(s: State, k: Key, n: nat)
    requires Feeds(s.db, k) && n <= |Queue(s.queues, k)|
    ensures var s' := Loop(s, k, n);
            |s'.waits| <= |s.waits| && (|s'.waits| == |s.waits| ==> s'.waits == s.waits && s'.queued == s.queued)
    decreases n
  {
    if n > 0 && !Stops(s, k) {
      TurnCases(s, k);
      var c := s.queues[k][0];
      if Type(s.waits, c) == Kind(s.db[k]) { assert |s.waits - {c}| < |s.waits| by { Smaller(s.waits, c); } }
      LoopProgress(Turn(s, k), k, n - 1);
    }
  }

  lemma Smaller(m: map<Client, Wait>, c: Client)
    requires c in m
    ensures |m - {c}| < |m|
  {
    assert m.Keys == (m - {c}).Keys + {c};
    assert |(m - {c}).Keys| == |m - {c}| && |m.Keys| == |m|;
  }

  /**
   Serve ready keys until there are none.  `now` is the batch being worked on;
   keys that become ready meanwhile wait for the next batch.
   */
  function Drain(s: State, now: seq<Key>): State
    decreases |s.waits|, |now| + |s.queued|, if now == [] then 1 else 0
  {
    if now != [] then
      LoopProgressOfKey(s, now[0]);
      Drain(ServeKey(s, now[0]), now[1..])
    else if s.queued != [] then Drain(s.(queued := []), s.queued)
    else s
  }

  lemma LoopProgressOfKey(s: State, k: Key)
    ensures var s' := ServeKey(s, k);
            |s'.waits| <= |s.waits| && (|s'.waits| == |s.waits| ==> s'.waits == s.waits && s'.queued == s.queued)
  {
    var t := s.(ready := s.ready - {k});
    if Feeds(t.db, k) { LoopProgress(t, k, |Queue(t.queues, k)|); }
  }

  // ---------------------------------------------------------------- the invariants

  ghost predicate NoDup<T>(q: seq<T>) { forall i, j :: 0 <= i < j < |q| ==> q[i] != q[j] }

  /** A queue is never empty, holds no client twice, and holds only clients that name its key. */
  ghost predicate QueueOk(q: seq<Client>, waits: map<Client, Wait>, k: Key) {
    && q != [] && NoDup(q)
    && (forall c :: c in q ==> c in waits && k in waits[c].keys)
  }

  ghost predicate Listed(queues: map<Key, seq<Client>>, c: Client, k: Key) { k in queues && c in queues[k] }

  /** A client is in a key's queue exactly once if and only if the key is in the client's own set. */
  ghost predicate Mirror(queues: map<Key, seq<Client>>, waits: map<Client, Wait>) {
    && (forall k {:trigger QueueOk(queues[k], waits, k)} :: k in queues ==> QueueOk(queues[k], waits, k))
    && (forall c, k {:trigger Listed(queues, c, k)} :: c in waits && k in waits[c].keys ==> Listed(queues, c, k))
  }

  ghost function Waiting(waits: map<Client, Wait>, b: BType): set<Client> { set c | c in waits && waits[c].btype == b }

  ghost predicate Counted(waits: map<Client, Wait>, counts: Counts) {
    && (forall b :: b != NotBlocked ==> CountOf(counts, b) == |Waiting(waits, b)|)
    && (forall c :: c in waits ==> waits[c].btype != NotBlocked && waits[c].keys != {})
  }

  /** The ready set holds the queued keys, each of which is queued once. */
  ghost predicate ReadyOk(ready: set<Key>, queued: seq<Key>) {
    NoDup(queued) && forall k :: k in ready <==> k in queued
  }

  ghost predicate Valid(s: State, now: seq<Key>) {
    Mirror(s.queues, s.waits) && Counted(s.waits, s.counts) && ReadyOk(s.ready, now + s.queued)
  }

  lemma {:induction false} RemoveOneFacts(q: seq<Client>, c: Client)
    requires NoDup(q)
    ensures NoDup(RemoveOne(q, c)) && forall x :: x in RemoveOne(q, c) <==> x in q && x != c
  {
    if q != [] && q[0] != c {
      RemoveOneFacts(q[1..], c);
      assert q == [q[0]] + q[1..];
      var r := RemoveOne(q[1..], c);
      assert q[0] !in r;
      assert forall i :: 0 <= i < |r| ==> r[i] in r;
    }
  }

  lemma UnblockKeepsMirror(queues: map<Key, seq<Client>>, waits: map<Client, Wait>, c: Client)
    requires Mirror(queues, waits) && c in waits
    ensures Mirror(Dequeued(queues, waits[c].keys, c), waits - {c})
  {
    var q', w' := Dequeued(queues, waits[c].keys, c), waits - {c};
    forall k | k in queues ensures NoDup(RemoveOne(queues[k], c)) && forall x :: x in RemoveOne(queues[k], c) <==> x in queues[k] && x != c {
      assert QueueOk(queues[k], waits, k);
      RemoveOneFacts(queues[k], c);
    }
    forall k | k in q' ensures QueueOk(q'[k], w', k) {
      assert QueueOk(queues[k], waits, k);
      assert k !in waits[c].keys ==> c !in queues[k];
    }
    forall d, k | d in w' && k in w'[d].keys ensures Listed(q', d, k) {
      assert Listed(queues, d, k);
      assert d in RemoveOne(queues[k], c);
    }
  }

  lemma UnblockKeepsCounts(waits: map<Client, Wait>, counts: Counts, c: Client)
    requires Counted(waits, counts) && c in waits
    ensures Counted(waits - {c}, Bumped(counts, waits[c].btype, -1))
  {
    forall b: BType | b != NotBlocked
      ensures CountOf(Bumped(counts, waits[c].btype, -1), b) == |Waiting(waits - {c}, b)|
    {
      assert Waiting(waits - {c}, b) == Waiting(waits, b) - {c};
    }
  }

  lemma BlockKeepsMirror(queues: map<Key, seq<Client>>, waits: map<Client, Wait>, c: Client, w: Wait)
    requires Mirror(queues, waits) && c !in waits
    ensures Mirror(Enqueued(queues, w.keys, c), waits[c := w])
  {
    var q', w' := Enqueued(queues, w.keys, c), waits[c := w];
    forall k | k in q' ensures QueueOk(q'[k], w', k) {
      assert k in queues ==> QueueOk(queues[k], waits, k);
    }
    forall d, k | d in w' && k in w'[d].keys ensures Listed(q', d, k) {
      assert d != c ==> Listed(queues, d, k);
    }
  }

  lemma WaitingGrows(waits: map<Client, Wait>, c: Client, w: Wait, b: BType)
    requires c !in waits
    ensures |Waiting(waits[c := w], b)| == |Waiting(waits, b)| + (if b == w.btype then 1 else 0)
  {
    if b == w.btype {
      assert Waiting(waits[c := w], b) == Waiting(waits, b) + {c};
    } else {
      assert Waiting(waits[c := w], b) == Waiting(waits, b);
    }
  }

  lemma BlockKeepsCounts(waits: map<Client, Wait>, counts: Counts, c: Client, w: Wait)
    requires Counted(waits, counts) && c !in waits && w.btype != NotBlocked && w.keys != {}
    ensures Counted(waits[c := w], Bumped(counts, w.btype, 1))
  {
    forall b: BType | b != NotBlocked
      ensures CountOf(Bumped(counts, w.btype, 1), b) == |Waiting(waits[c := w], b)|
    {
      WaitingGrows(waits, c, w, b);
    }
  }
}
