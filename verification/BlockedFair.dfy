/**
 What serving blocked clients keeps, and who gets served.

 The mirrored indexes, the counters and the duplicate-free ready queue survive
 every turn.  In one call the served clients are a prefix, in queue order, of the
 clients of the right type; the others keep their order.
 */
module BlockedFair {
  import opened Blocked

  // ---------------------------------------------------------- keeping the indexes

  lemma RotateKeepsMirror(queues: map<Key, seq<Client>>, waits: map<Client, Wait>, k: Key)
    requires Mirror(queues, waits) && k in queues && queues[k] != []
    ensures Mirror(queues[k := queues[k][1..] + [queues[k][0]]], waits)
  {
    var q := queues[k];
    var r := q[1..] + [q[0]];
    assert QueueOk(q, waits, k);
    assert forall x :: x in r <==> x in q by { assert q == [q[0]] + q[1..]; }
    var queues' := queues[k := r];
    forall j | j in queues' ensures QueueOk(queues'[j], waits, j) {
      assert QueueOk(queues[j], waits, j);
    }
    forall c, j | c in waits && j in waits[c].keys ensures Listed(queues', c, j) {
      assert Listed(queues, c, j);
    }
  }

  /** `h` differs from `s` in objects and replies, and may have one more ready key. */
  ghost predicate Grows(s: State, h: State) {
    && h.queues == s.queues && h.waits == s.waits && h.counts == s.counts
    && ( || (h.ready == s.ready && h.queued == s.queued)
         || (exists d :: d !in s.ready && h.ready == s.ready + {d} && h.queued == s.queued + [d]))
  }

  lemma HandGrows(s: State, c: Client, w: Wait, k: Key, v: Value)
    requires Feeds(s.db, k)
    ensures Grows(s, Hand(s, c, w, k, v))
  {
  }

  /** The state between handing the element over and unblocking the client. */
  ghost function Handed(s: State, k: Key): State
    requires Feeds(s.db, k) && s.db[k].items != [] && Queue(s.queues, k) != []
    requires Type(s.waits, s.queues[k][0]) == Kind(s.db[k])
  {
    var c := s.queues[k][0];
    var w := s.waits[c];
    var popped := s.(db := s.db[k := WithItems(s.db[k], Pop(s.db[k].items, w.from))]);
    Hand(popped, c, w, k, Peek(s.db[k].items, w.from))
  }

  ghost predicate Serves(s: State, k: Key)
    requires Feeds(s.db, k) && Queue(s.queues, k) != []
  {
    Type(s.waits, s.queues[k][0]) == Kind(s.db[k])
  }

  lemma TurnServes(s: State, k: Key)
    requires Feeds(s.db, k) && Queue(s.queues, k) != [] && !Stops(s, k) && Serves(s, k)
    ensures s.db[k].items != [] && s.queues[k][0] in s.waits
    ensures Turn(s, k) == Unblocked(Handed(s, k), s.queues[k][0]) && Grows(s, Handed(s, k))
  {
    var c := s.queues[k][0];
    var w := s.waits[c];
    var popped := s.(db := s.db[k := WithItems(s.db[k], Pop(s.db[k].items, w.from))]);
    HandGrows(popped, c, w, k, Peek(s.db[k].items, w.from));
  }

  /** A client whose target has the wrong type is turned away and the element goes back: no object changes. */
  lemma RefusedTurnKeepsObjects(s: State, k: Key)
    requires Feeds(s.db, k) && Queue(s.queues, k) != [] && !Stops(s, k) && Serves(s, k) && s.db[k].ListObj?
    requires var w := s.waits[s.queues[k][0]];
             w.target.Some? && w.target.value in s.db && !s.db[w.target.value].ListObj?
    ensures Turn(s, k).db == s.db && Turn(s, k).replies == s.replies + [WrongType(s.queues[k][0])]
  {
    TurnServes(s, k);
    PushUndoesPop(s.db[k].items, s.waits[s.queues[k][0]].from);
  }

  lemma MoreReady(ready: set<Key>, queued: seq<Key>, d: Key)
    requires ReadyOk(ready, queued) && d !in ready
    ensures ReadyOk(ready + {d}, queued + [d])
  {
  }

  lemma GrowsKeepsReady(s: State, h: State, now: seq<Key>)
    requires ReadyOk(s.ready, now + s.queued) && Grows(s, h)
    ensures ReadyOk(h.ready, now + h.queued)
  {
    if !(h.ready == s.ready && h.queued == s.queued) {
      var d :| d !in s.ready && h.ready == s.ready + {d} && h.queued == s.queued + [d];
      MoreReady(s.ready, now + s.queued, d);
      assert now + (s.queued + [d]) == (now + s.queued) + [d];
    }
  }

  lemma UnblockKeepsValid(s: State, c: Client, now: seq<Key>)
    requires Valid(s, now)
    ensures Valid(Unblocked(s, c), now)
  {
    if c in s.waits {
      UnblockKeepsMirror(s.queues, s.waits, c);
      UnblockKeepsCounts(s.waits, s.counts, c);
    }
  }

  lemma TurnKeepsMirror(s: State, k: Key)
    requires Mirror(s.queues, s.waits) && Feeds(s.db, k) && Queue(s.queues, k) != [] && !Stops(s, k)
    ensures Mirror(Turn(s, k).queues, Turn(s, k).waits)
  {
    if Serves(s, k) {
      TurnServes(s, k);
      UnblockKeepsMirror(s.queues, s.waits, s.queues[k][0]);
    } else {
      RotateKeepsMirror(s.queues, s.waits, k);
    }
  }

  lemma TurnKeepsValid(s: State, k: Key, now: seq<Key>)
    requires Valid(s, now) && Feeds(s.db, k) && Queue(s.queues, k) != [] && !Stops(s, k)
    ensures Valid(Turn(s, k), now)
  {
    if Serves(s, k) {
      TurnServes(s, k);
      GrowsKeepsReady(s, Handed(s, k), now);
      UnblockKeepsValid(Handed(s, k), s.queues[k][0], now);
    } else {
      RotateKeepsMirror(s.queues, s.waits, k);
    }
  }

  ghost predicate CanTurn(s: State, k: Key) { Feeds(s.db, k) && Queue(s.queues, k) != [] && !Stops(s, k) }

  /** What every turn keeps, the service of a key keeps. */
  lemma {:induction false} LoopKeeps(p: State -> bool, s: State, k: Key, n: nat)
    requires p(s) && Feeds(s.db, k) && n <= |Queue(s.queues, k)|
    requires forall t :: p(t) && CanTurn(t, k) ==> p(Turn(t, k))
    ensures p(Loop(s, k, n))
    decreases n
  {
    if n > 0 && !Stops(s, k) { LoopKeeps(p, Turn(s, k), k, n - 1); }
  }

  lemma LoopKeepsValid(s: State, k: Key, n: nat, now: seq<Key>)
    requires Valid(s, now) && Feeds(s.db, k) && n <= |Queue(s.queues, k)|
    ensures Valid(Loop(s, k, n), now)
  {
    var p := (t: State) => Valid(t, now);
    forall t | p(t) && CanTurn(t, k) ensures p(Turn(t, k)) { TurnKeepsValid(t, k, now); }
    LoopKeeps(p, s, k, n);
  }

  lemma LoopKeepsMirror(s: State, k: Key, n: nat)
    requires Mirror(s.queues, s.waits) && Feeds(s.db, k) && n <= |Queue(s.queues, k)|
    ensures Mirror(Loop(s, k, n).queues, Loop(s, k, n).waits)
  {
    var p := (t: State) => Mirror(t.queues, t.waits);
    forall t | p(t) && CanTurn(t, k) ensures p(Turn(t, k)) { TurnKeepsMirror(t, k); }
    LoopKeeps(p, s, k, n);
  }

  lemma LessReady(ready: set<Key>, queued: seq<Key>)
    requires queued != [] && ReadyOk(ready, queued)
    ensures ReadyOk(ready - {queued[0]}, queued[1..])
  {
    assert queued == [queued[0]] + queued[1..];
  }

  lemma ServeKeyKeepsValid(s: State, now: seq<Key>)
    requires now != [] && Valid(s, now)
    ensures Valid(ServeKey(s, now[0]), now[1..])
  {
    var t := s.(ready := s.ready - {now[0]});
    LessReady(s.ready, now + s.queued);
    assert (now + s.queued)[1..] == now[1..] + s.queued;
    if Feeds(t.db, now[0]) { LoopKeepsValid(t, now[0], |Queue(t.queues, now[0])|, now[1..]); }
  }

  /** Draining ends with nothing ready and the indexes intact. */
  lemma {:induction false} DrainKeepsValid(s: State, now: seq<Key>)
    requires Valid(s, now)
    ensures Valid(Drain(s, now), []) && Drain(s, now).ready == {} && Drain(s, now).queued == []
    decreases |s.waits|, |now| + |s.queued|, if now == [] then 1 else 0
  {
    if now != [] {
      LoopProgressOfKey(s, now[0]);
      ServeKeyKeepsValid(s, now);
      DrainKeepsValid(ServeKey(s, now[0]), now[1..]);
    } else if s.queued != [] {
      assert [] + s.queued == s.queued + [];
      DrainKeepsValid(s.(queued := []), s.queued);
    } else {
      assert s.ready == {};
    }
  }

  // --------------------------------------------------------------------- fairness

  /** The clients of the queue whose type is `b`, or those whose type is not. */
  function Of(waits: map<Client, Wait>, q: seq<Client>, b: BType, same: bool): seq<Client> {
    if q == [] then []
    else (if (Type(waits, q[0]) == b) == same then [q[0]] else []) + Of(waits, q[1..], b, same)
  }

  lemma {:induction false} OfAgrees(waits: map<Client, Wait>, waits': map<Client, Wait>, q: seq<Client>, b: BType, same: bool)
    requires forall c :: c in q ==> Type(waits, c) == Type(waits', c)
    ensures Of(waits, q, b, same) == Of(waits', q, b, same)
  {
    if q != [] { OfAgrees(waits, waits', q[1..], b, same); }
  }

  function Receivers(replies: seq<Reply>): seq<Client> { seq(|replies|, i requires 0 <= i < |replies| => replies[i].client) }

  /** How many turns the service takes. */
  ghost function Turns(s: State, k: Key, n: nat): (i: nat)
    requires Feeds(s.db, k) && n <= |Queue(s.queues, k)|
    ensures i <= n
    decreases n
  {
    if n == 0 || Stops(s, k) then 0 else 1 + Turns(Turn(s, k), k, n - 1)
  }

  /** A turn that serves takes the head off the queue and replies to it. */
  lemma ServedTurn(s: State, k: Key)
    requires Mirror(s.queues, s.waits)
    requires Feeds(s.db, k) && Queue(s.queues, k) != [] && !Stops(s, k) && Serves(s, k)
    ensures var q, s' := s.queues[k], Turn(s, k);
            && Queue(s'.queues, k) == q[1..] && s'.waits == s.waits - {q[0]} && q[0] !in q[1..]
            && Receivers(s'.replies) == Receivers(s.replies) + [q[0]]
  {
    TurnServes(s, k);
    assert QueueOk(s.queues[k], s.waits, k);
  }

  /** After `i` turns the queue is its rest followed by the clients passed over. */
  ghost predicate After(s: State, s': State, k: Key, q: seq<Client>, b: BType, i: nat)
    requires i <= |q|
  {
    && Queue(s'.queues, k) == q[i..] + Of(s.waits, q[..i], b, false)
    && s'.waits == s.waits - SetOf(Of(s.waits, q[..i], b, true))
    && Receivers(s'.replies) == Receivers(s.replies) + Of(s.waits, q[..i], b, true)
  }

  ghost function SetOf(q: seq<Client>): set<Client> { set c | c in q }

  lemma OfStep(waits: map<Client, Wait>, q: seq<Client>, b: BType, same: bool, i: nat)
    requires q != [] && i < |q|
    ensures Of(waits, q[..i + 1], b, same) == (if (Type(waits, q[0]) == b) == same then [q[0]] else []) + Of(waits, q[1..][..i], b, same)
  {
    assert q[..i + 1][1..] == q[1..][..i];
  }

  lemma AfterRotate(s: State, s1: State, s2: State, k: Key, q: seq<Client>, b: BType, i: nat)
    requires q != [] && i < |q| && Type(s.waits, q[0]) != b
    requires s1.waits == s.waits && s1.replies == s.replies
    requires After(s1, s2, k, q[1..] + [q[0]], b, i)
    ensures After(s, s2, k, q, b, i + 1)
  {
    OfStep(s.waits, q, b, false, i);
    OfStep(s.waits, q, b, true, i);
    var q1 := q[1..] + [q[0]];
    assert q1[..i] == q[1..][..i];
    assert q1[i..] == q[i + 1..] + [q[0]];
  }

  lemma MinusBoth(waits: map<Client, Wait>, c: Client, rest: seq<Client>)
    ensures waits - {c} - SetOf(rest) == waits - SetOf([c] + rest)
  {
    assert SetOf([c] + rest) == {c} + SetOf(rest);
  }

  lemma AfterServe(s: State, s1: State, s2: State, k: Key, q: seq<Client>, b: BType, i: nat)
    requires q != [] && i < |q| && Type(s.waits, q[0]) == b && q[0] !in q[1..]
    requires s1.waits == s.waits - {q[0]} && Receivers(s1.replies) == Receivers(s.replies) + [q[0]]
    requires After(s1, s2, k, q[1..], b, i)
    ensures After(s, s2, k, q, b, i + 1)
  {
    OfStep(s.waits, q, b, false, i);
    OfStep(s.waits, q, b, true, i);
    OfAgrees(s.waits, s1.waits, q[1..][..i], b, true);
    OfAgrees(s.waits, s1.waits, q[1..][..i], b, false);
    assert q[1..][i..] == q[i + 1..];
    MinusBoth(s.waits, q[0], Of(s.waits, q[1..][..i], b, true));
  }

  lemma AfterNothing(s: State, k: Key, b: BType)
    ensures After(s, s, k, Queue(s.queues, k), b, 0)
  {
    assert SetOf([]) == {};
    assert s.waits - {} == s.waits;
  }

  lemma AfterTurn(s: State, s2: State, k: Key, i: nat)
    requires Mirror(s.queues, s.waits) && Feeds(s.db, k) && Queue(s.queues, k) != [] && !Stops(s, k)
    requires i < |Queue(s.queues, k)|
    requires After(Turn(s, k), s2, k, Queue(Turn(s, k).queues, k), Kind(s.db[k]), i)
    ensures After(s, s2, k, Queue(s.queues, k), Kind(s.db[k]), i + 1)
  {
    if Serves(s, k) {
      ServedTurn(s, k);
      AfterServe(s, Turn(s, k), s2, k, Queue(s.queues, k), Kind(s.db[k]), i);
    } else {
      AfterRotate(s, Turn(s, k), s2, k, Queue(s.queues, k), Kind(s.db[k]), i);
    }
  }

  /** What one turn relates, the service of a key relates. */
  lemma {:induction false} LoopRelates(p: State -> bool, r: (State, State, nat) -> bool, s: State, k: Key, n: nat)
    requires p(s) && Feeds(s.db, k) && n <= |Queue(s.queues, k)|
    requires forall t :: p(t) ==> r(t, t, 0)
    requires forall t :: p(t) && CanTurn(t, k) ==> p(Turn(t, k))
    requires forall t, u, i: nat :: p(t) && CanTurn(t, k) && i < |Queue(t.queues, k)| && r(Turn(t, k), u, i) ==> r(t, u, i + 1)
    ensures r(s, Loop(s, k, n), Turns(s, k, n))
    decreases n
  {
    if n > 0 && !Stops(s, k) { LoopRelates(p, r, Turn(s, k), k, n - 1); }
  }

  /** The service ends early only when there is nothing left to hand out. */
  lemma {:induction false} LoopEnds(s: State, k: Key, n: nat)
    requires Feeds(s.db, k) && n <= |Queue(s.queues, k)|
    ensures Turns(s, k, n) < n ==> Loop(s, k, n).db[k].items == []
    decreases n
  {
    if n > 0 && !Stops(s, k) { LoopEnds(Turn(s, k), k, n - 1); }
  }

  ghost predicate Serving(t: State, k: Key, b: BType) { Mirror(t.queues, t.waits) && Feeds(t.db, k) && Kind(t.db[k]) == b }

  ghost predicate Progress(t: State, u: State, k: Key, b: BType, i: nat) {
    i <= |Queue(t.queues, k)| && After(t, u, k, Queue(t.queues, k), b, i)
  }

  /**
   Fair service: the clients replied to, in order, are those of the right type
   among the first `i` of the queue, and they are unblocked; the queue is the rest
   followed by the others, in order.
   */
  lemma FairService(s: State, k: Key, n: nat)
    requires Mirror(s.queues, s.waits) && Feeds(s.db, k) && n <= |Queue(s.queues, k)|
    ensures After(s, Loop(s, k, n), k, Queue(s.queues, k), Kind(s.db[k]), Turns(s, k, n))
    ensures Turns(s, k, n) < n ==> Loop(s, k, n).db[k].items == []
  {
    var b := Kind(s.db[k]);
    var p := (t: State) => Serving(t, k, b);
    var r := (t: State, u: State, i: nat) => Progress(t, u, k, b, i);
    forall t | p(t) ensures r(t, t, 0) { AfterNothing(t, k, b); }
    forall t | p(t) && CanTurn(t, k) ensures p(Turn(t, k)) { TurnKeepsMirror(t, k); }
    forall t, u, i: nat | p(t) && CanTurn(t, k) && i < |Queue(t.queues, k)| && r(Turn(t, k), u, i) ensures r(t, u, i + 1) {
      AfterTurn(t, u, k, i);
    }
    LoopRelates(p, r, s, k, n);
    LoopEnds(s, k, n);
  }
}
