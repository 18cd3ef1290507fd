/**
 Configuration epochs of the cluster bus.

 Every node keeps a current epoch and a table with the configuration epoch of
 each node it knows.  Packets merge epochs, an UPDATE reports the epoch of a
 third node, and a master that hears its own epoch from a master with a greater
 name moves to a fresh one.  Names are numbers, ordered as their bytes are.

 Packets stay in `net` for ever once sent, so every delay, reordering, loss and
 repetition of packets is a run of this model.
 */
module ConfigEpochs {
  import opened Names

  // ---------------------------------------------------------------- one node

  datatype Node = Node(currentEpoch: Epoch, table: seq<Epoch>)

  datatype Packet =
    | Ping(src: Id, currentEpoch: Epoch, configEpoch: Epoch)
    | Update(src: Id, currentEpoch: Epoch, configEpoch: Epoch, about: Id, reported: Epoch)

  /** The merge every packet of a known sender makes, before its type matters. */
  function MergeHeader(n: Node, src: Id, cur: Epoch, cfg: Epoch): Node
    requires src < |n.table|
  {
    Node(Max(n.currentEpoch, cur), n.table[src := Max(n.table[src], cfg)])
  }

  function MergeReport(n: Node, about: Id, reported: Epoch): Node
    requires about < |n.table|
  {
    n.(table := n.table[about := Max(n.table[about], reported)])
  }

  function Advance(n: Node, me: Id): Node
    requires me < |n.table|
  {
    Node(n.currentEpoch + 1, n.table[me := n.currentEpoch + 1])
  }

  predicate Collides(n: Node, me: Id, sender: Id, bothMasters: bool)
    requires me < |n.table| && sender < |n.table|
  {
    n.table[sender] == n.table[me] && bothMasters && me < sender
  }

  function ReceivePing(n: Node, me: Id, p: Packet, bothMasters: bool): Node
    requires p.Ping? && me < |n.table| && p.src < |n.table|
  {
    var m := MergeHeader(n, p.src, p.currentEpoch, p.configEpoch);
    if bothMasters && p.configEpoch == m.table[me] && Collides(m, me, p.src, bothMasters) then Advance(m, me) else m
  }

  function ReceiveUpdate(n: Node, p: Packet): Node
    requires p.Update? && p.src < |n.table| && p.about < |n.table|
  {
    MergeReport(MergeHeader(n, p.src, p.currentEpoch, p.configEpoch), p.about, p.reported)
  }

  /** Every epoch in the table is at most the current epoch. */
  ghost predicate Dominated(n: Node) { forall j :: 0 <= j < |n.table| ==> n.table[j] <= n.currentEpoch }

  /** The handlers of one node, updating its table in place. */
  class EpochTable {
    var currentEpoch: Epoch
    const epochs: array<Epoch>
    const myself: Id

    ghost predicate Valid() { myself < epochs.Length }

    ghost function Value(): Node
      reads this, epochs
    {
      Node(currentEpoch, epochs[..])
    }

    constructor (n: Node, me: Id)
      requires me < |n.table|
      ensures Valid() && Value() == n && myself == me && fresh(epochs)
    {
      currentEpoch := n.currentEpoch;
      myself := me;
      epochs := new Epoch[|n.table|](i requires 0 <= i < |n.table| => n.table[i]);
    }

    /** The greatest epoch known here, the current epoch included. */
    method GetMaxEpoch() returns (max: Epoch)
      requires Valid()
      ensures currentEpoch <= max && forall j :: 0 <= j < epochs.Length ==> epochs[j] <= max
      ensures max == currentEpoch || exists j :: 0 <= j < epochs.Length && epochs[j] == max
    {
      max := 0;
      var j := 0;
      while j < epochs.Length
        invariant 0 <= j <= epochs.Length
        invariant forall i :: 0 <= i < j ==> epochs[i] <= max
        invariant max == 0 || exists i :: 0 <= i < j && epochs[i] == max
      {
        if epochs[j] > max { max := epochs[j]; }
        j := j + 1;
      }
      if max < currentEpoch { max := currentEpoch; }
      assert max == 0 ==> max == currentEpoch;
    }

    /**
     Take a new epoch without asking anybody.  When it acts, the new epoch is
     strictly above every epoch known before; when it refuses, this node already
     holds a greatest one.
     */
    method BumpConfigEpochWithoutConsensus() returns (ok: bool)
      requires Valid()
      modifies this`currentEpoch, epochs
      ensures Value() == if ok then Advance(old(Value()), myself) else old(Value())
      ensures !ok ==> 0 < epochs[myself] && currentEpoch <= epochs[myself] && forall j :: 0 <= j < epochs.Length ==> epochs[j] <= epochs[myself]
      ensures old(Dominated(Value())) ==> Dominated(Value()) && (ok <==> old(epochs[myself]) == 0 || old(epochs[myself]) < old(currentEpoch))
      ensures old(Dominated(Value())) && ok ==> forall j :: 0 <= j < epochs.Length ==> old(epochs[j]) < epochs[myself]
    {
      assert Dominated(Value()) ==> forall j :: 0 <= j < epochs.Length ==> Value().table[j] == epochs[j] <= currentEpoch;
      var maxEpoch := GetMaxEpoch();
      if epochs[myself] == 0 || epochs[myself] != maxEpoch {
        currentEpoch := currentEpoch + 1;
        epochs[myself] := currentEpoch;
        return true;
      } else {
        return false;
      }
    }

    method HandleConfigEpochCollision(sender: Id, bothMasters: bool)
      requires Valid() && sender < epochs.Length
      modifies this`currentEpoch, epochs
      ensures Value() == if Collides(old(Value()), myself, sender, bothMasters) then Advance(old(Value()), myself) else old(Value())
    {
      if epochs[sender] != epochs[myself] || !bothMasters { return; }
      if sender <= myself { return; }
      currentEpoch := currentEpoch + 1;
      epochs[myself] := currentEpoch;
    }

    method UpdateFromHeader(src: Id, cur: Epoch, cfg: Epoch)
      requires Valid() && src < epochs.Length
      modifies this`currentEpoch, epochs
      ensures Value() == MergeHeader(old(Value()), src, cur, cfg)
    {
      if cur > currentEpoch { currentEpoch := cur; }
      if cfg > epochs[src] { epochs[src] := cfg; }
    }

    method ProcessPing(p: Packet, bothMasters: bool)
      requires Valid() && p.Ping? && p.src < epochs.Length
      modifies this`currentEpoch, epochs
      ensures Value() == ReceivePing(old(Value()), myself, p, bothMasters)
    {
      UpdateFromHeader(p.src, p.currentEpoch, p.configEpoch);
      if bothMasters && p.configEpoch == epochs[myself] {
        HandleConfigEpochCollision(p.src, bothMasters);
      }
    }

    method ProcessUpdate(p: Packet)
      requires Valid() && p.Update? && p.src < epochs.Length && p.about < epochs.Length
      modifies this`currentEpoch, epochs
      ensures Value() == ReceiveUpdate(old(Value()), p)
    {
      UpdateFromHeader(p.src, p.currentEpoch, p.configEpoch);
      if epochs[p.about] >= p.reported { return; }
      epochs[p.about] := p.reported;
    }
  }

  // ------------------------------------------------------------- the cluster

  /**
   `held` and `moves` are history: the configuration epochs each node has had
   for itself, and how often it took a new one.
   */
  datatype System = System(nodes: seq<Node>, net: set<Packet>, held: seq<set<Epoch>>, moves: seq<nat>)

  datatype Step =
    | SendPing(id: Id, of: Id)
    | SendUpdate(id: Id, of: Id, about: Id)
    | Receive(id: Id, p: Packet)
    | Bump(id: Id)
    | StartElection(id: Id)
    | WinElection(id: Id, epoch: Epoch)

  function Own(s: System, i: Id): Epoch
    requires i < |s.nodes| && i < |s.nodes[i].table|
  {
    s.nodes[i].table[i]
  }

  ghost predicate WellFormed(s: System) {
    && |s.held| == |s.moves| == |s.nodes|
    && (forall i :: 0 <= i < |s.nodes| ==> |s.nodes[i].table| == |s.nodes|)
    && (forall p :: p in s.net ==> p.src < |s.nodes| && (p.Update? ==> p.about < |s.nodes|))
  }

  /** A master puts its own epoch in its header, a replica the epoch of another node. */
  ghost predicate Enabled(masters: set<Id>, s: System, step: Step) {
    && WellFormed(s) && step.id < |s.nodes|
    && match step
       case SendPing(i, of) => of < |s.nodes| && (i in masters ==> of == i)
       case SendUpdate(i, of, about) => of < |s.nodes| && about < |s.nodes| && about in masters && (i in masters ==> of == i)
       case Receive(i, p) => p in s.net && p.src != i
       case Bump(i) => Own(s, i) == 0 || Own(s, i) < s.nodes[i].currentEpoch
       case StartElection(_) => true
       case WinElection(i, e) => e <= s.nodes[i].currentEpoch
  }

  function SetNode(s: System, i: Id, n: Node): System
    requires i < |s.nodes| && i < |s.nodes[i].table| && i < |n.table| && |s.held| == |s.moves| == |s.nodes|
  {
    s.(nodes := s.nodes[i := n],
       held := s.held[i := s.held[i] + {n.table[i]}],
       moves := s.moves[i := s.moves[i] + if n.table[i] != Own(s, i) then 1 else 0])
  }

  ghost function After(masters: set<Id>, s: System, step: Step): Node
    requires Enabled(masters, s, step)
  {
    var n := s.nodes[step.id];
    match step
    case SendPing(_, _) => n
    case SendUpdate(_, _, _) => n
    case Receive(i, p) => if p.Ping? then ReceivePing(n, i, p, i in masters && p.src in masters) else ReceiveUpdate(n, p)
    case Bump(i) => Advance(n, i)
    case StartElection(_) => n.(currentEpoch := n.currentEpoch + 1)
    case WinElection(i, e) => n.(table := n.table[i := Max(n.table[i], e)])
  }

  ghost function Sent(masters: set<Id>, s: System, step: Step): set<Packet>
    requires Enabled(masters, s, step)
  {
    var n := s.nodes[step.id];
    match step
    case SendPing(i, of) => {Ping(i, n.currentEpoch, n.table[of])}
    case SendUpdate(i, of, about) => {Update(i, n.currentEpoch, n.table[of], about, n.table[about])}
    case _ => {}
  }

  ghost function Apply(masters: set<Id>, s: System, step: Step): System
    requires Enabled(masters, s, step)
  {
    SetNode(s, step.id, After(masters, s, step)).(net := s.net + Sent(masters, s, step))
  }

  ghost predicate Legal(masters: set<Id>, s: System, steps: seq<Step>)
    decreases |steps|
  {
    steps == [] || (Enabled(masters, s, steps[0]) && Legal(masters, Apply(masters, s, steps[0]), steps[1..]))
  }

  ghost function Run(masters: set<Id>, s: System, steps: seq<Step>): System
    requires Legal(masters, s, steps)
    decreases |steps|
  {
    if steps == [] then s else Run(masters, Apply(masters, s, steps[0]), steps[1..])
  }

  /** Nodes start with a dominated table and no packet in flight. */
  ghost predicate Init(s: System) {
    && WellFormed(s) && s.net == {}
    && (forall i :: 0 <= i < |s.nodes| ==> Dominated(s.nodes[i]) && s.held[i] == {Own(s, i)} && s.moves[i] == 0)
  }

  // -------------------------------------------------------- epoch dominance

  ghost predicate PacketDominated(p: Packet) {
    p.configEpoch <= p.currentEpoch && (p.Update? ==> p.reported <= p.currentEpoch)
  }

  ghost predicate AllDominated(s: System) {
    && WellFormed(s)
    && (forall i :: 0 <= i < |s.nodes| ==> Dominated(s.nodes[i]))
    && (forall p :: p in s.net ==> PacketDominated(p))
  }

  lemma StepKeepsDominance(masters: set<Id>, s: System, step: Step)
    requires AllDominated(s) && Enabled(masters, s, step)
    ensures AllDominated(Apply(masters, s, step))
  {
    var n := After(masters, s, step);
    assert Dominated(s.nodes[step.id]);
    if step.Receive? { assert PacketDominated(step.p); }
    assert Dominated(n);
  }

  /**
   Epoch dominance: in every run each node's current epoch is at least every
   configuration epoch in its table, and each packet's current epoch at least
   every configuration epoch it carries.
   */
  lemma {:induction false} EpochDominance(masters: set<Id>, s: System, steps: seq<Step>)
    requires AllDominated(s) && Legal(masters, s, steps)
    ensures AllDominated(Run(masters, s, steps))
    decreases |steps|
  {
    if steps != [] {
      StepKeepsDominance(masters, s, steps[0]);
      EpochDominance(masters, Apply(masters, s, steps[0]), steps[1..]);
    }
  }

  /** A node knows at least as much as before: no epoch in it went back. */
  ghost predicate Grown(n: Node, m: Node) {
    n.currentEpoch <= m.currentEpoch && |n.table| == |m.table| && forall j :: 0 <= j < |n.table| ==> n.table[j] <= m.table[j]
  }

  /** After a packet the receiver knows what it says, and has learned nothing else about other nodes. */
  lemma PacketTeaches(n: Node, me: Id, p: Packet, bothMasters: bool)
    requires me < |n.table| && p.src < |n.table| && p.src != me && (p.Update? ==> p.about < |n.table|)
    ensures var m := if p.Ping? then ReceivePing(n, me, p, bothMasters) else ReceiveUpdate(n, p);
            && |m.table| == |n.table| && (Dominated(n) ==> Grown(n, m))
            && p.currentEpoch <= m.currentEpoch && p.configEpoch <= m.table[p.src] && (p.Update? ==> p.reported <= m.table[p.about])
            && (p.Update? ==> m.currentEpoch == n.currentEpoch || m.currentEpoch == p.currentEpoch)
            && (forall j :: 0 <= j < |n.table| && !(p.Ping? && j == me) && m.table[j] != n.table[j] ==>
                  (j == p.src && m.table[j] == p.configEpoch) || (p.Update? && j == p.about && m.table[j] == p.reported))
  {
  }

  /** An election starts in a new epoch, and a winner takes the epoch it won unless it has a newer one. */
  lemma ElectionRaises(masters: set<Id>, s: System, i: Id, e: Epoch)
    requires WellFormed(s) && i < |s.nodes|
    ensures var t := Apply(masters, s, StartElection(i)).nodes[i];
            t.currentEpoch == s.nodes[i].currentEpoch + 1 && t.table == s.nodes[i].table
    ensures e <= s.nodes[i].currentEpoch ==>
              var t := Apply(masters, s, WinElection(i, e)).nodes[i];
              && e <= t.table[i] && (t.table[i] == e || t.table[i] == s.nodes[i].table[i])
              && t.currentEpoch == s.nodes[i].currentEpoch && forall j :: 0 <= j < |t.table| && j != i ==> t.table[j] == s.nodes[i].table[j]
  {
  }

  lemma SendAndReceive(masters: set<Id>, s: System, send: Step, k: Id, p: Packet)
    requires Enabled(masters, s, send) && send.id != k && p in Apply(masters, s, send).net && k < |s.nodes| && p.src != k
    requires WellFormed(Apply(masters, s, send))
    ensures Legal(masters, s, [send, Receive(k, p)])
    ensures Run(masters, s, [send, Receive(k, p)]) == Apply(masters, Apply(masters, s, send), Receive(k, p))
  {
    var t, get := Apply(masters, s, send), Receive(k, p);
    assert [send, get][1..] == [get] && [get][1..] == [];
    assert Enabled(masters, t, get) && Legal(masters, Apply(masters, t, get), []);
    assert Legal(masters, t, [get]) && Run(masters, t, [get]) == Run(masters, Apply(masters, t, get), []);
  }

  /** Node `k` knows at least epoch `e` for node `i`. */
  ghost predicate Knows(s: System, k: Id, i: Id, e: Epoch) { k < |s.nodes| && i < |s.nodes[k].table| && e <= s.nodes[k].table[i] }

  /** What a node knows can reach any other one: a ping carries its own epoch. */
  lemma PingSpreads(masters: set<Id>, s: System, i: Id, k: Id)
    requires WellFormed(s) && i < |s.nodes| && k < |s.nodes| && i != k
    ensures var n := s.nodes[i];
            var steps := [SendPing(i, i), Receive(k, Ping(i, n.currentEpoch, n.table[i]))];
            && Legal(masters, s, steps)
            && var t := Run(masters, s, steps);
            Knows(t, k, i, n.table[i]) && n.currentEpoch <= t.nodes[k].currentEpoch
  {
    var n := s.nodes[i];
    var ping := Ping(i, n.currentEpoch, n.table[i]);
    SendAndReceive(masters, s, SendPing(i, i), k, ping);
    PacketTeaches(s.nodes[k], k, ping, k in masters && i in masters);
  }

  /** And an update that of a third master. */
  lemma UpdateSpreads(masters: set<Id>, s: System, i: Id, k: Id, about: Id)
    requires WellFormed(s) && i < |s.nodes| && k < |s.nodes| && i != k && about < |s.nodes| && about in masters
    ensures var n := s.nodes[i];
            var steps := [SendUpdate(i, i, about), Receive(k, Update(i, n.currentEpoch, n.table[i], about, n.table[about]))];
            Legal(masters, s, steps) && Knows(Run(masters, s, steps), k, about, n.table[about])
  {
    var n := s.nodes[i];
    var update := Update(i, n.currentEpoch, n.table[i], about, n.table[about]);
    SendAndReceive(masters, s, SendUpdate(i, i, about), k, update);
    PacketTeaches(s.nodes[k], k, update, false);
  }

  lemma StepGrows(masters: set<Id>, s: System, step: Step, i: Id)
    requires AllDominated(s) && Enabled(masters, s, step) && i < |s.nodes|
    ensures Grown(s.nodes[i], Apply(masters, s, step).nodes[i])
  {
    assert Dominated(s.nodes[i]);
    if step.Receive? && step.id == i { PacketTeaches(s.nodes[i], i, step.p, i in masters && step.p.src in masters); }
  }

  /** In every run no node ever forgets an epoch. */
  lemma {:induction false} NobodyForgets(masters: set<Id>, s: System, steps: seq<Step>, i: Id)
    requires AllDominated(s) && Legal(masters, s, steps) && i < |s.nodes|
    ensures |Run(masters, s, steps).nodes| == |s.nodes| && Grown(s.nodes[i], Run(masters, s, steps).nodes[i])
    decreases |steps|
  {
    if steps != [] {
      StepGrows(masters, s, steps[0], i);
      StepKeepsDominance(masters, s, steps[0]);
      NobodyForgets(masters, Apply(masters, s, steps[0]), steps[1..], i);
    }
  }

  // -------------------------------------------- collisions are resolved, soon

  /** Only messages change epochs in such a run: no failover and no administrator. */
  ghost predicate MessagesOnly(steps: seq<Step>) {
    forall j :: 0 <= j < |steps| ==> steps[j].SendPing? || steps[j].SendUpdate? || steps[j].Receive?
  }

  /** The epochs the masters with name `lo` or greater have held. */
  ghost function HeldFrom(masters: set<Id>, held: seq<set<Epoch>>, lo: nat): set<Epoch>
    decreases |held| - lo
  {
    if lo >= |held| then {}
    else HeldFrom(masters, held, lo + 1) + if lo in masters then held[lo] else {}
  }

  /** How many masters have name `lo` or greater. */
  ghost function CountFrom(masters: set<Id>, n: nat, lo: nat): nat
    decreases n - lo
  {
    if lo >= n then 0 else CountFrom(masters, n, lo + 1) + if lo in masters then 1 else 0
  }

  /** No node knows a newer epoch of a master than the master itself. */
  ghost predicate ViewsOk(masters: set<Id>, s: System) {
    && WellFormed(s)
    && (forall i, a :: 0 <= i < |s.nodes| && 0 <= a < |s.nodes| && a in masters ==> s.nodes[i].table[a] <= Own(s, a))
    && (forall p :: p in s.net && p.src in masters ==> p.configEpoch <= Own(s, p.src))
    && (forall p :: p in s.net && p.Update? && p.about in masters ==> p.reported <= Own(s, p.about))
  }

  /** What a master announced it did hold, and its own epoch is the newest it held. */
  ghost predicate HistoryOk(masters: set<Id>, s: System) {
    && WellFormed(s)
    && (forall i :: 0 <= i < |s.nodes| && i in masters ==>
         Own(s, i) in s.held[i] && (forall e :: e in s.held[i] ==> e <= Own(s, i)) && |s.held[i]| == s.moves[i] + 1)
    && (forall p :: p in s.net && p.Ping? && p.src in masters ==> p.configEpoch in s.held[p.src])
  }

  /** Every epoch a master gave up was held by a master with a greater name. */
  ghost predicate GivenUpOk(masters: set<Id>, s: System) {
    && WellFormed(s)
    && forall i {:trigger GivenUpBy(masters, s, i)} :: 0 <= i < |s.nodes| && i in masters ==> GivenUpBy(masters, s, i)
  }

  ghost predicate GivenUpBy(masters: set<Id>, s: System, i: int)
    requires WellFormed(s) && 0 <= i < |s.nodes|
  {
    s.held[i] <= HeldFrom(masters, s.held, i + 1) + {Own(s, i)}
  }

  ghost predicate Inv(masters: set<Id>, s: System) {
    AllDominated(s) && ViewsOk(masters, s) && HistoryOk(masters, s) && GivenUpOk(masters, s)
  }

  lemma {:induction false} HeldFromHas(masters: set<Id>, held: seq<set<Epoch>>, lo: nat, k: Id, e: Epoch)
    requires lo <= k < |held| && k in masters && e in held[k]
    ensures e in HeldFrom(masters, held, lo)
    decreases k - lo
  {
    if lo < k { HeldFromHas(masters, held, lo + 1, k, e); }
  }

  lemma {:induction false} HeldFromGrows(masters: set<Id>, old_: seq<set<Epoch>>, new_: seq<set<Epoch>>, lo: nat)
    requires |old_| == |new_| && forall i :: 0 <= i < |old_| ==> old_[i] <= new_[i]
    ensures HeldFrom(masters, old_, lo) <= HeldFrom(masters, new_, lo)
    decreases |old_| - lo
  {
    if lo < |old_| { HeldFromGrows(masters, old_, new_, lo + 1); }
  }

  /** A message only run changes a master's epoch in one way: a collision, which moves it up. */
  lemma OwnEpochMoves(masters: set<Id>, s: System, step: Step)
    requires Inv(masters, s) && Enabled(masters, s, step) && step.id in masters
    requires step.SendPing? || step.SendUpdate? || step.Receive?
    ensures var old_, new_ := Own(s, step.id), After(masters, s, step).table[step.id];
            new_ == old_ || (old_ < new_ && step.Receive? && step.p.Ping? && step.p.src in masters && step.id < step.p.src
                             && step.p.configEpoch == old_)
  {
    if step.Receive? && step.p.Update? && step.p.about == step.id {
      assert step.p.reported <= Own(s, step.id);
    }
    assert Dominated(s.nodes[step.id]);
  }

  /** What a step leaves in the table of its node is not newer than the masters themselves. */
  lemma ViewsOfNode(masters: set<Id>, s: System, step: Step, a: Id)
    requires Inv(masters, s) && Enabled(masters, s, step) && a < |s.nodes| && a in masters
    requires step.SendPing? || step.SendUpdate? || step.Receive?
    ensures Own(s, a) <= Own(Apply(masters, s, step), a)
    ensures After(masters, s, step).table[a] <= Own(Apply(masters, s, step), a)
  {
    assert s.nodes[step.id].table[a] <= Own(s, a);
    if step.id == a { OwnEpochMoves(masters, s, step); }
    if step.Receive? && step.p.Update? && step.p.about == a { assert step.p.reported <= Own(s, a); }
    if step.Receive? && step.p.src == a { assert step.p.configEpoch <= Own(s, a); }
  }

  lemma ViewsKept(masters: set<Id>, s: System, step: Step)
    requires Inv(masters, s) && Enabled(masters, s, step)
    requires step.SendPing? || step.SendUpdate? || step.Receive?
    ensures ViewsOk(masters, Apply(masters, s, step))
  {
    var t := Apply(masters, s, step);
    forall a: Id | a < |s.nodes| && a in masters
      ensures Own(s, a) <= Own(t, a) && t.nodes[step.id].table[a] <= Own(t, a)
    {
      ViewsOfNode(masters, s, step, a);
    }
    assert |t.nodes| == |s.nodes| && forall i :: 0 <= i < |t.nodes| && i != step.id ==> t.nodes[i] == s.nodes[i];
  }

  /** A step adds one epoch to the history of a master exactly when it moves. */
  lemma HistoryOfNode(masters: set<Id>, s: System, step: Step)
    requires Inv(masters, s) && Enabled(masters, s, step) && step.id in masters
    requires step.SendPing? || step.SendUpdate? || step.Receive?
    ensures var t, i := Apply(masters, s, step), step.id;
            && Own(t, i) in t.held[i] && (forall e :: e in t.held[i] ==> e <= Own(t, i)) && |t.held[i]| == t.moves[i] + 1
  {
    OwnEpochMoves(masters, s, step);
    var i, e := step.id, After(masters, s, step).table[step.id];
    var h := s.held[i];
    assert |h| == s.moves[i] + 1;
    if e == Own(s, i) { assert h + {e} == h; } else { assert e !in h; }
  }

  lemma HistoryKept(masters: set<Id>, s: System, step: Step)
    requires Inv(masters, s) && Enabled(masters, s, step)
    requires step.SendPing? || step.SendUpdate? || step.Receive?
    ensures HistoryOk(masters, Apply(masters, s, step))
  {
    if step.id in masters { HistoryOfNode(masters, s, step); }
  }

  lemma GivenUpExtends(masters: set<Id>, s: System, t: System, i: Id)
    requires WellFormed(s) && WellFormed(t) && |s.nodes| == |t.nodes| && i < |s.nodes|
    requires forall j :: 0 <= j < |s.held| ==> s.held[j] <= t.held[j]
    requires GivenUpBy(masters, s, i) && t.held[i] <= s.held[i] + {Own(t, i)}
    requires Own(t, i) == Own(s, i) || Own(s, i) in HeldFrom(masters, s.held, i + 1)
    ensures GivenUpBy(masters, t, i)
  {
    HeldFromGrows(masters, s.held, t.held, i + 1);
  }

  /** The epoch a master gives up was held by the master it collided with. */
  lemma CollisionSource(masters: set<Id>, s: System, step: Step)
    requires Inv(masters, s) && Enabled(masters, s, step) && step.id in masters
    requires step.SendPing? || step.SendUpdate? || step.Receive?
    ensures var i := step.id;
            After(masters, s, step).table[i] == Own(s, i) || Own(s, i) in HeldFrom(masters, s.held, i + 1)
  {
    OwnEpochMoves(masters, s, step);
    if After(masters, s, step).table[step.id] != Own(s, step.id) {
      assert step.p.configEpoch in s.held[step.p.src];
      HeldFromHas(masters, s.held, step.id + 1, step.p.src, step.p.configEpoch);
    }
  }

  lemma GivenUpOfNode(masters: set<Id>, s: System, step: Step, i: Id)
    requires Inv(masters, s) && Enabled(masters, s, step) && i < |s.nodes| && i in masters
    requires step.SendPing? || step.SendUpdate? || step.Receive?
    ensures WellFormed(Apply(masters, s, step)) && GivenUpBy(masters, Apply(masters, s, step), i)
  {
    StepKeepsDominance(masters, s, step);
    assert GivenUpBy(masters, s, i);
    if i == step.id { CollisionSource(masters, s, step); }
    GivenUpExtends(masters, s, Apply(masters, s, step), i);
  }

  lemma GivenUpKept(masters: set<Id>, s: System, step: Step)
    requires Inv(masters, s) && Enabled(masters, s, step)
    requires step.SendPing? || step.SendUpdate? || step.Receive?
    ensures GivenUpOk(masters, Apply(masters, s, step))
  {
    StepKeepsDominance(masters, s, step);
    forall i | 0 <= i < |s.nodes| && i in masters
      ensures GivenUpBy(masters, Apply(masters, s, step), i)
    {
      GivenUpOfNode(masters, s, step, i);
    }
  }

  lemma {:induction false} RunKeepsInv(masters: set<Id>, s: System, steps: seq<Step>)
    requires Inv(masters, s) && Legal(masters, s, steps) && MessagesOnly(steps)
    ensures Inv(masters, Run(masters, s, steps))
    decreases |steps|
  {
    if steps != [] {
      assert steps[0].SendPing? || steps[0].SendUpdate? || steps[0].Receive?;
      StepKeepsDominance(masters, s, steps[0]);
      ViewsKept(masters, s, steps[0]);
      HistoryKept(masters, s, steps[0]);
      GivenUpKept(masters, s, steps[0]);
      RunKeepsInv(masters, Apply(masters, s, steps[0]), steps[1..]);
    }
  }

  lemma {:induction false} HeldFromSmall(masters: set<Id>, s: System, lo: nat)
    requires GivenUpOk(masters, s)
    ensures |HeldFrom(masters, s.held, lo)| <= CountFrom(masters, |s.nodes|, lo)
    decreases |s.nodes| - lo
  {
    if lo < |s.nodes| {
      HeldFromSmall(masters, s, lo + 1);
      if lo in masters {
        assert GivenUpBy(masters, s, lo);
        var bound := HeldFrom(masters, s.held, lo + 1) + {Own(s, lo)};
        assert HeldFrom(masters, s.held, lo) <= bound;
        SubsetSize(HeldFrom(masters, s.held, lo), bound);
      } else {
        assert HeldFrom(masters, s.held, lo) == HeldFrom(masters, s.held, lo + 1);
      }
    }
  }

  /** Views in the initial state are not newer than the masters themselves. */
  ghost predicate InitViews(masters: set<Id>, s: System)
    requires WellFormed(s)
  {
    forall i, a :: 0 <= i < |s.nodes| && 0 <= a < |s.nodes| && a in masters ==> s.nodes[i].table[a] <= Own(s, a)
  }

  /**
   Collision resolution terminates: in every asynchronous run in which only
   messages change epochs, a master takes a new epoch at most once per master
   with a greater name.  The master with the greatest name never moves.
   */
  lemma CollisionBound(masters: set<Id>, s: System, steps: seq<Step>, i: Id)
    requires Init(s) && InitViews(masters, s) && Legal(masters, s, steps) && MessagesOnly(steps)
    requires i < |s.nodes| && i in masters
    ensures |Run(masters, s, steps).moves| == |s.nodes|
    ensures Run(masters, s, steps).moves[i] <= CountFrom(masters, |s.nodes|, i + 1)
  {
    RunKeepsInv(masters, s, steps);
    RunKeepsLength(masters, s, steps);
    var t := Run(masters, s, steps);
    HeldFromSmall(masters, t, i + 1);
    assert GivenUpBy(masters, t, i);
    var bound := HeldFrom(masters, t.held, i + 1) + {Own(t, i)};
    SubsetSize(t.held[i], bound);
  }

  lemma {:induction false} RunKeepsLength(masters: set<Id>, s: System, steps: seq<Step>)
    requires WellFormed(s) && Legal(masters, s, steps)
    ensures |Run(masters, s, steps).nodes| == |s.nodes|
    decreases |steps|
  {
    if steps != [] { RunKeepsLength(masters, Apply(masters, s, steps[0]), steps[1..]); }
  }

  /** The greatest name never moves. */
  lemma GreatestNeverMoves(masters: set<Id>, s: System, steps: seq<Step>, i: Id)
    requires Init(s) && InitViews(masters, s) && Legal(masters, s, steps) && MessagesOnly(steps)
    requires i < |s.nodes| && i in masters && forall k :: k in masters ==> k <= i
    ensures |Run(masters, s, steps).moves| == |s.nodes|
    ensures Run(masters, s, steps).moves[i] == 0
  {
    CollisionBound(masters, s, steps, i);
    NoneFrom(masters, |s.nodes|, i + 1);
  }

  lemma {:induction false} NoneFrom(masters: set<Id>, n: nat, lo: nat)
    requires forall k :: k in masters ==> k < lo
    ensures CountFrom(masters, n, lo) == 0
    decreases n - lo
  {
    if lo < n { NoneFrom(masters, n, lo + 1); }
  }

  /** A ping that `k` sends now and `i` receives. */
  ghost function FreshPing(s: System, k: Id): Packet
    requires k < |s.nodes| && k < |s.nodes[k].table|
  {
    Ping(k, s.nodes[k].currentEpoch, Own(s, k))
  }

  /** A fresh ping moves its receiver exactly when the two epochs agree and the sender has the greater name. */
  lemma FreshPingMoves(masters: set<Id>, t: System, i: Id, k: Id)
    requires Inv(masters, t) && Distinct(masters, t, i, k)
    ensures MovesOnPing(t, i, k) <==> Own(t, i) == Own(t, k) && i < k
  {
    assert Dominated(t.nodes[i]);
    assert t.nodes[i].table[k] <= Own(t, k);
  }

  /**
   What the resolution stops at: in any reachable state, some fresh ping
   between masters still changes an epoch if and only if two masters hold the
   same one.
   */
  lemma ResolvedIffDistinct(masters: set<Id>, s: System, steps: seq<Step>)
    requires Init(s) && InitViews(masters, s) && Legal(masters, s, steps) && MessagesOnly(steps)
    ensures var t := Run(masters, s, steps);
            && WellFormed(t)
            && ((exists i: Id, k: Id :: Distinct(masters, t, i, k) && MovesOnPing(t, i, k))
                <==> (exists i: Id, k: Id :: Distinct(masters, t, i, k) && Own(t, i) == Own(t, k)))
  {
    RunKeepsInv(masters, s, steps);
    var t := Run(masters, s, steps);
    if i: Id, k: Id :| Distinct(masters, t, i, k) && MovesOnPing(t, i, k) {
      FreshPingMoves(masters, t, i, k);
    }
    if i: Id, k: Id :| Distinct(masters, t, i, k) && Own(t, i) == Own(t, k) {
      FreshPingMoves(masters, t, i, k);
      FreshPingMoves(masters, t, k, i);
    }
  }

  ghost predicate Distinct(masters: set<Id>, t: System, i: Id, k: Id) {
    i < |t.nodes| && k < |t.nodes| && i != k && i in masters && k in masters
  }

  ghost predicate MovesOnPing(t: System, i: Id, k: Id)
    requires WellFormed(t) && i < |t.nodes| && k < |t.nodes|
  {
    ReceivePing(t.nodes[i], i, FreshPing(t, k), true).table[i] != Own(t, i)
  }
}
