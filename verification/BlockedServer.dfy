/**
 The server's blocking operations, which change its dictionaries and queues in
 place, proved against the functions on states.
 */
module BlockedServer {
  import opened Options
  import opened Blocked
  import opened BlockedFair
  import opened BlockedRuns

  lemma EnqueueStep(queues: map<Key, seq<Client>>, own: set<Key>, k: Key, c: Client)
    requires k !in own
    ensures Enqueued(queues, own + {k}, c) == Enqueued(queues, own, c)[k := Queue(Enqueued(queues, own, c), k) + [c]]
  {
  }

  lemma DequeueStep(queues: map<Key, seq<Client>>, done: set<Key>, k: Key, c: Client)
    requires k !in done && k in queues
    ensures var d, r := Dequeued(queues, done, c), RemoveOne(queues[k], c);
            && k in d && d[k] == queues[k]
            && Dequeued(queues, done + {k}, c) == if r == [] then d - {k} else d[k := r]
  {
  }

  /** `n` turns lead from `s` to `goal`. */
  ghost predicate Pending(s: State, goal: State, k: Key, n: nat) {
    Mirror(s.queues, s.waits) && Feeds(s.db, k) && n <= |Queue(s.queues, k)| && Loop(s, k, n) == goal
  }

  ghost function Finished(u: State, k: Key): State
    requires Feeds(u.db, k)
  {
    if u.db[k].items == [] then u.(db := u.db - {k}) else u
  }

  class Server {
    var db: map<Key, Obj>
    var queues: map<Key, seq<Client>>
    var waits: map<Client, Wait>
    var ready: set<Key>
    var queued: seq<Key>
    var counts: Counts
    var replies: seq<Reply>

    ghost function View(): State
      reads this
    {
      State(db, queues, waits, ready, queued, counts, replies)
    }

    constructor ()
      ensures View() == START
    {
      db, queues, waits, ready, queued, counts, replies := map[], map[], map[], {}, [], Counts(0, 0, 0), [];
    }

    /** Block a client on keys; a key named twice is listed once. */
    method BlockForKeys(c: Client, b: BType, keys: seq<Key>, target: Option<Key>, from: End, to: End)
      modifies this
      ensures View() == Blocks(old(View()), c, Wait(b, Keys(keys), target, from, to))
    {
      var own: set<Key> := {};
      var j := 0;
      assert Enqueued(queues, {}, c) == queues;
      while j < |keys|
        invariant 0 <= j <= |keys| && own == Keys(keys[..j])
        invariant queues == Enqueued(old(queues), own, c)
        modifies `queues
      {
        var k := keys[j];
        assert keys[..j + 1] == keys[..j] + [k];
        if k !in own {
          EnqueueStep(old(queues), own, k, c);
          queues := queues[k := (if k in queues then queues[k] else []) + [c]];
          own := own + {k};
        }
        j := j + 1;
      }
      assert keys[..j] == keys;
      waits := waits[c := Wait(b, own, target, from, to)];
      counts := Bumped(counts, b, 1);
    }

    /** Take a client out of every queue it is in; the asserts of the source hold. */
    method UnblockClientWaitingData(c: Client)
      requires c in waits && waits[c].keys != {} && Mirror(queues, waits)
      modifies `queues
      ensures queues == Dequeued(old(queues), waits[c].keys, c)
    {
      assert waits[c].keys != {};
      var left, done: set<Key> := waits[c].keys, {};
      assert Dequeued(queues, {}, c) == queues;
      while left != {}
        invariant left + done == waits[c].keys && left !! done
        invariant queues == Dequeued(old(queues), done, c)
        decreases |left|
      {
        var k :| k in left;
        assert Listed(old(queues), c, k);
        DequeueStep(old(queues), done, k, c);
        assert k in queues;
        var rest := RemoveOne(queues[k], c);
        if rest == [] { queues := queues - {k}; } else { queues := queues[k := rest]; }
        left, done := left - {k}, done + {k};
      }
      assert done == waits[c].keys;
    }

    method UnblockClient(c: Client)
      requires c in waits && waits[c].keys != {} && Mirror(queues, waits)
      modifies this
      ensures View() == Unblocked(old(View()), c)
    {
      UnblockClientWaitingData(c);
      counts := Bumped(counts, waits[c].btype, -1);
      waits := waits - {c};
    }

    method SignalKeyAsReady(k: Key, b: BType)
      modifies this
      ensures View() == Signalled(old(View()), k, b)
    {
      if b == NotBlocked { return; }
      if CountOf(counts, b) == 0 { return; }
      if k !in queues { return; }
      if k in ready { return; }
      queued := queued + [k];
      ready := ready + {k};
    }

    method DbAdd(k: Key, o: Obj)
      requires k !in db
      modifies this
      ensures View() == Added(old(View()), k, o)
    {
      db := db[k := o];
      SignalKeyAsReady(k, Kind(o));
    }

    method MoveHandlePush(c: Client, dst: Key, v: Value, e: End)
      requires dst in db ==> db[dst].ListObj?
      modifies this
      ensures View() == Says(Pushed(old(View()), dst, v, e), Moved(c, v))
    {
      if dst !in db { DbAdd(dst, ListObj([])); }
      db := db[dst := ListObj(Push(db[dst].items, v, e))];
      replies := replies + [Moved(c, v)];
    }

    /** Reply with the element or push it to the target; false when the target has the wrong type. */
    method ServeClientBlockedOnList(c: Client, k: Key, target: Option<Key>, v: Value, to: End) returns (ok: bool)
      modifies this
      ensures ok == (target.None? || target.value !in old(db) || old(db)[target.value].ListObj?)
      ensures !ok ==> View() == Says(old(View()), WrongType(c))
      ensures ok && target.None? ==> View() == Says(old(View()), Popped(c, k, v))
      ensures ok && target.Some? ==> View() == Says(Pushed(old(View()), target.value, v, to), Moved(c, v))
    {
      if target.None? {
        replies := replies + [Popped(c, k, v)];
        return true;
      }
      var dst := target.value;
      if dst in db && !db[dst].ListObj? {
        replies := replies + [WrongType(c)];
        return false;
      }
      MoveHandlePush(c, dst, v, to);
      return true;
    }

    /** One turn of the list service, when the head of the queue can be served or passed over. */
    method ListTurn(k: Key)
      requires Mirror(queues, waits)
      requires k in db && db[k].ListObj? && Queue(queues, k) != [] && !Stops(View(), k)
      modifies this
      ensures View() == Turn(old(View()), k)
    {
      var c := queues[k][0];
      assert QueueOk(queues[k], waits, k);
      var w := waits[c];
      if w.btype != ByList {
        queues := queues[k := queues[k][1..] + [c]];
        return;
      }
      var v := Peek(db[k].items, w.from);
      db := db[k := ListObj(Pop(db[k].items, w.from))];
      ghost var popped := View();
      var ok := ServeClientBlockedOnList(c, k, w.target, v, w.to);
      if !ok { db := db[k := ListObj(Push(db[k].items, v, w.from))]; }
      assert View() == Hand(popped, c, w, k, v);
      HandGrows(popped, c, w, k, v);
      UnblockClient(c);
    }

    /** One iteration of the list service: false when there is nothing left to pop for the head of the queue. */
    method ListIteration(k: Key, ghost goal: State, ghost n: nat) returns (on: bool)
      requires Pending(View(), goal, k, n) && n > 0 && db[k].ListObj?
      modifies this
      ensures k in db && db[k].ListObj?
      ensures if on then Pending(View(), goal, k, n - 1) else View() == goal
    {
      assert QueueOk(queues[k], waits, k);
      if db[k].items == [] && waits[queues[k][0]].btype == ByList { return false; }
      TurnOfLoop(View(), k, n);
      ListTurn(k);
      return true;
    }

    /** Serve the clients blocked on a list, in order, while there are elements. */
    method ServeClientsBlockedOnListKey(k: Key)
      requires Mirror(queues, waits) && k in db && db[k].ListObj?
      modifies this
      ensures View() == Finished(Loop(old(View()), k, |Queue(old(queues), k)|), k)
    {
      ghost var goal := Loop(View(), k, |Queue(queues, k)|);
      if k in queues {
        var numclients := |queues[k]|;
        while numclients > 0
          invariant k in db && db[k].ListObj? && numclients >= 0 && Pending(View(), goal, k, numclients)
        {
          var on := ListIteration(k, goal, numclients);
          if !on { break; }
          numclients := numclients - 1;
        }
      }
      if db[k].items == [] { db := db - {k}; }
    }

    /** One turn of the sorted set service. */
    method SortedSetTurn(k: Key)
      requires Mirror(queues, waits)
      requires k in db && db[k].ZSetObj? && db[k].items != [] && Queue(queues, k) != []
      modifies this
      ensures View() == Turn(old(View()), k)
    {
      var c := queues[k][0];
      assert QueueOk(queues[k], waits, k);
      var w := waits[c];
      if w.btype != ByZSet {
        queues := queues[k := queues[k][1..] + [c]];
        return;
      }
      var v := Peek(db[k].items, w.from);
      db := db[k := ZSetObj(Pop(db[k].items, w.from))];
      replies := replies + [Popped(c, k, v)];
      UnblockClient(c);
    }

    method SortedSetIteration(k: Key, ghost goal: State, ghost n: nat)
      requires Pending(View(), goal, k, n) && n > 0 && db[k].ZSetObj? && db[k].items != []
      modifies this
      ensures k in db && db[k].ZSetObj? && Pending(View(), goal, k, n - 1)
    {
      TurnOfLoop(View(), k, n);
      SortedSetTurn(k);
    }

    method ServeClientsBlockedOnSortedSetKey(k: Key)
      requires Mirror(queues, waits) && k in db && db[k].ZSetObj?
      modifies this
      ensures View() == Finished(Loop(old(View()), k, |Queue(old(queues), k)|), k)
    {
      ghost var goal := Loop(View(), k, |Queue(queues, k)|);
      if k in queues {
        var numclients := |queues[k]|;
        while numclients > 0 && db[k].items != []
          invariant k in db && db[k].ZSetObj? && numclients >= 0 && Pending(View(), goal, k, numclients)
          decreases numclients
        {
          SortedSetIteration(k, goal, numclients);
          numclients := numclients - 1;
        }
      }
      if db[k].items == [] { db := db - {k}; }
    }

    /** Take a key off the ready set and serve its clients. */
    method ServeReadyKey(k: Key, ghost now: seq<Key>)
      requires now != [] && k == now[0] && Valid(View(), now)
      modifies this
      ensures View() == ServeKey(old(View()), k) && Valid(View(), now[1..])
    {
      ServeKeyKeepsValid(View(), now);
      ready := ready - {k};
      if k in db {
        if db[k].ListObj? {
          ServeClientsBlockedOnListKey(k);
        } else if db[k].ZSetObj? {
          ServeClientsBlockedOnSortedSetKey(k);
        }
      }
    }

    /**
     Serve the clients of all ready keys, batch after batch.  It ends although
     serving may make keys ready: that takes a client that gets unblocked.
     */
    method HandleClientsBlockedOnKeys()
      requires Valid(View(), [])
      modifies this
      ensures View() == Drain(old(View()), []) && Valid(View(), []) && ready == {} && queued == []
    {
      while |queued| != 0
        invariant Valid(View(), []) && Drain(View(), []) == Drain(old(View()), [])
        decreases |waits|, |queued|
      {
        var l := queued;
        ghost var before := |waits|;
        assert [] + queued == l + [];
        queued := [];
        while |l| != 0
          invariant Valid(View(), l) && Drain(View(), l) == Drain(old(View()), [])
          invariant |waits| < before || (|waits| == before && queued == [])
          decreases |waits|, |l| + |queued|
        {
          LoopProgressOfKey(View(), l[0]);
          ServeReadyKey(l[0], l);
          l := l[1..];
        }
      }
      DrainKeepsValid(View(), []);
    }

    /** BLPOP and its relatives: look at the keys in order, block when none exists. */
    method BlockingPopGeneric(c: Client, b: BType, keys: seq<Key>, e: End)
      requires b == ByList || b == ByZSet
      modifies this
      ensures View() == BlockingPop(old(View()), c, b, keys, e)
    {
      var j := 0;
      while j < |keys|
        invariant 0 <= j <= |keys| && View() == old(View())
        invariant forall i :: 0 <= i < j ==> !Decides(db, b, keys[i])
      {
        var k := keys[j];
        if k in db {
          if !Feeds(db, k) || Kind(db[k]) != b {
            FirstAt(db, b, keys, j);
            replies := replies + [WrongType(c)];
            return;
          } else if db[k].items != [] {
            FirstAt(db, b, keys, j);
            replies := replies + [Popped(c, k, Peek(db[k].items, e))];
            db := Taken(db, k, e);
            return;
          }
        }
        j := j + 1;
      }
      FirstAt(db, b, keys, j);
      BlockForKeys(c, b, keys, None, e, e);
    }

    /** LMOVE on a list that exists. */
    method MoveGeneric(c: Client, k: Key, dst: Key, from: End, to: End)
      requires k in db
      modifies this
      ensures View() == BlockingMove(old(View()), c, k, dst, from, to)
    {
      if !db[k].ListObj? {
        replies := replies + [WrongType(c)];
      } else if db[k].items == [] {
        replies := replies + [Null(c)];
      } else if dst in db && !db[dst].ListObj? {
        replies := replies + [WrongType(c)];
      } else {
        var v := Peek(db[k].items, from);
        db := db[k := ListObj(Pop(db[k].items, from))];
        MoveHandlePush(c, dst, v, to);
        if db[k].items == [] { db := db - {k}; }
      }
    }

    /** BLMOVE and BRPOPLPUSH: block when the list does not exist. */
    method BlockingMoveGeneric(c: Client, k: Key, dst: Key, from: End, to: End)
      modifies this
      ensures View() == BlockingMove(old(View()), c, k, dst, from, to)
    {
      if k !in db {
        assert Keys([k]) == {k};
        BlockForKeys(c, ByList, [k], Some(dst), from, to);
      } else {
        MoveGeneric(c, k, dst, from, to);
      }
    }
  }

  lemma {:induction false} FirstAt(db: map<Key, Obj>, b: BType, keys: seq<Key>, j: nat)
    requires j <= |keys| && (forall i :: 0 <= i < j ==> !Decides(db, b, keys[i])) && (j < |keys| ==> Decides(db, b, keys[j]))
    ensures FirstIn(db, b, keys) == j
  {
    if j > 0 { FirstAt(db, b, keys[1..], j - 1); }
  }

  /** What a turn of the service leaves to do. */
  lemma TurnOfLoop(s: State, k: Key, n: nat)
    requires Mirror(s.queues, s.waits) && CanTurn(s, k) && 0 < n <= |Queue(s.queues, k)|
    ensures Pending(Turn(s, k), Loop(s, k, n), k, n - 1)
  {
    TurnKeepsMirror(s, k);
  }
}
