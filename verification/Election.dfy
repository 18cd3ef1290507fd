/**
 Failover elections of the cluster bus.

 A replica whose master failed asks every master for its vote in a fresh epoch
 and takes over when a majority answers.  The handlers of one node are the
 methods of `ClusterState`; each is tied to a function on the value `Node`.
 A cluster is a map of nodes plus a multiset of messages in flight: a message
 may be delayed or lost, and is delivered at most once.  The set of masters
 that serve slots is fixed and agreed.
 */
module Election {
  import opened Names

  // ---------------------------------------------------------------- one node

  /**
   The election fields of one node.  `stale` is a history variable: the number
   of acks counted since the last vote-count reset while no request was out.
   */
  datatype Node = Node(
    currentEpoch: Epoch,
    lastVoteEpoch: Epoch,
    configEpoch: Epoch,
    authEpoch: Epoch,
    authCount: nat,
    authSent: bool,
    authTime: int,
    authRank: nat,
    stale: nat)

  datatype Message =
    | Request(src: Id, dst: Id, epoch: Epoch, configEpoch: Epoch, slots: set<nat>, forceAck: bool)
    | Ack(src: Id, dst: Id, epoch: Epoch)
    | Ping(src: Id, dst: Id, epoch: Epoch)

  /** What a voter knows about the requester at the time of the request. */
  datatype View = View(
    requesterIsMaster: bool,
    masterKnown: bool,
    masterFailed: bool,
    sinceLastVote: int,
    nodeTimeout: int,
    slotEpoch: seq<Epoch>)   // epoch of the owner of each slot, 0 when unbound

  /** What a replica knows when its failover cron runs. */
  datatype FailoverEnv = FailoverEnv(
    now: int,
    nodeTimeout: int,
    runnable: bool,          // it is a replica of a failed master that serves slots
    dataFresh: bool,
    manual: bool,
    mfEnd: bool,
    rank: nat,
    jitter: nat,
    size: nat)

  datatype Action = Idle | Scheduled | Requested | Won

  /** Every packet from a known node moves the receiver's current epoch forward. */
  function Merge(n: Node, epoch: Epoch): Node {
    n.(currentEpoch := Max(n.currentEpoch, epoch))
  }

  /** No claimed slot is served under an epoch greater than the requester's. */
  predicate SlotsPermit(claimed: set<nat>, slotEpoch: seq<Epoch>, configEpoch: Epoch) {
    forall j :: 0 <= j < |slotEpoch| && j in claimed ==> slotEpoch[j] <= configEpoch
  }

  predicate Grants(n: Node, voter: bool, req: Message, view: View)
    requires req.Request?
  {
    && voter
    && n.currentEpoch <= req.epoch
    && n.lastVoteEpoch != n.currentEpoch
    && !view.requesterIsMaster && view.masterKnown
    && (view.masterFailed || req.forceAck)
    && 2 * view.nodeTimeout <= view.sinceLastVote
    && SlotsPermit(req.slots, view.slotEpoch, req.configEpoch)
  }

  function ReceiveRequest(n: Node, voter: bool, req: Message, view: View): Node
    requires req.Request?
  {
    var m := Merge(n, req.epoch);
    if Grants(m, voter, req, view) then m.(lastVoteEpoch := m.currentEpoch) else m
  }

  function ReceiveAck(n: Node, fromVoter: bool, epoch: Epoch): Node {
    var m := Merge(n, epoch);
    if fromVoter && m.authEpoch <= epoch then
      m.(authCount := m.authCount + 1, stale := if m.authSent then m.stale else m.stale + 1)
    else m
  }

  function AuthTimeout(nodeTimeout: int): int { Max(2 * nodeTimeout, 2000) }

  /** One run of the failover cron of a replica. */
  function HandleFailover(n: Node, env: FailoverEnv): (Node, Action) {
    var authAge := env.now - n.authTime;
    var timeout := AuthTimeout(env.nodeTimeout);
    if !env.runnable || (!env.dataFresh && !env.manual) then (n, Idle)
    else if authAge > 2 * timeout then
      (n.(authCount := 0, authSent := false, stale := 0,
          authTime := if env.mfEnd then env.now else env.now + 500 + env.jitter + 1000 * env.rank,
          authRank := if env.mfEnd then 0 else env.rank), Scheduled)
    else
      var m := if !n.authSent && !env.mfEnd && n.authRank < env.rank
               then n.(authTime := n.authTime + 1000 * (env.rank - n.authRank), authRank := env.rank)
               else n;
      if env.now < m.authTime || authAge > timeout then (m, Idle)
      else if !m.authSent then
        (m.(currentEpoch := m.currentEpoch + 1, authEpoch := m.currentEpoch + 1, authSent := true), Requested)
      else if env.size / 2 + 1 <= m.authCount then
        (m.(configEpoch := Max(m.configEpoch, m.authEpoch)), Won)
      else (m, Idle)
  }

  /** The handlers of one node, updating its fields in place. */
  class ClusterState {
    var currentEpoch: Epoch
    var lastVoteEpoch: Epoch
    var configEpoch: Epoch
    var authEpoch: Epoch
    var authCount: nat
    var authSent: bool
    var authTime: int
    var authRank: nat
    ghost var stale: nat

    constructor (n: Node)
      ensures Value() == n
    {
      currentEpoch, lastVoteEpoch, configEpoch := n.currentEpoch, n.lastVoteEpoch, n.configEpoch;
      authEpoch, authCount, authSent := n.authEpoch, n.authCount, n.authSent;
      authTime, authRank, stale := n.authTime, n.authRank, n.stale;
    }

    ghost function Value(): Node
      reads this
    {
      Node(currentEpoch, lastVoteEpoch, configEpoch, authEpoch, authCount, authSent, authTime, authRank, stale)
    }

    method UpdateEpoch(epoch: Epoch)
      modifies this
      ensures Value() == Merge(old(Value()), epoch)
    {
      if epoch > currentEpoch {
        currentEpoch := epoch;
      }
    }

    /** Process a vote request; the answer says whether an ack is sent back. */
    method SendFailoverAuthIfNeeded(voter: bool, req: Message, view: View) returns (granted: bool)
      requires req.Request?
      modifies this
      ensures Value() == ReceiveRequest(old(Value()), voter, req, view)
      ensures granted == Grants(Merge(old(Value()), req.epoch), voter, req, view)
      ensures granted ==> lastVoteEpoch == currentEpoch == req.epoch
    {
      UpdateEpoch(req.epoch);
      granted := false;
      if !voter { return; }
      if req.epoch < currentEpoch { return; }
      if lastVoteEpoch == currentEpoch { return; }
      if view.requesterIsMaster || !view.masterKnown || (!view.masterFailed && !req.forceAck) { return; }
      if view.sinceLastVote < view.nodeTimeout * 2 { return; }
      var j := 0;
      while j < |view.slotEpoch|
        invariant 0 <= j <= |view.slotEpoch|
        invariant forall i :: 0 <= i < j && i in req.slots ==> view.slotEpoch[i] <= req.configEpoch
      {
        if j in req.slots && view.slotEpoch[j] > req.configEpoch { return; }
        j := j + 1;
      }
      lastVoteEpoch := currentEpoch;
      granted := true;
    }

    method ProcessAck(fromVoter: bool, epoch: Epoch)
      modifies this
      ensures Value() == ReceiveAck(old(Value()), fromVoter, epoch)
    {
      UpdateEpoch(epoch);
      if fromVoter && epoch >= authEpoch {
        authCount := authCount + 1;
        if !authSent { stale := stale + 1; }
      }
    }

    method HandleSlaveFailover(env: FailoverEnv) returns (action: Action)
      modifies this
      ensures (Value(), action) == HandleFailover(old(Value()), env)
    {
      var authAge := env.now - authTime;
      var neededQuorum := env.size / 2 + 1;
      var authTimeout := env.nodeTimeout * 2;
      if authTimeout < 2000 { authTimeout := 2000; }
      var authRetryTime := authTimeout * 2;
      if !env.runnable { return Idle; }
      if !env.dataFresh && !env.manual { return Idle; }
      if authAge > authRetryTime {
        authTime := env.now + 500 + env.jitter;
        authCount := 0;
        authSent := false;
        stale := 0;
        authRank := env.rank;
        authTime := authTime + authRank * 1000;
        if env.mfEnd {
          authTime := env.now;
          authRank := 0;
        }
        return Scheduled;
      }
      if !authSent && !env.mfEnd && env.rank > authRank {
        var addedDelay := (env.rank - authRank) * 1000;
        authTime := authTime + addedDelay;
        authRank := env.rank;
      }
      if env.now < authTime { return Idle; }
      if authAge > authTimeout { return Idle; }
      if !authSent {
        currentEpoch := currentEpoch + 1;
        authEpoch := currentEpoch;
        authSent := true;
        return Requested;
      }
      if authCount >= neededQuorum {
        if configEpoch < authEpoch { configEpoch := authEpoch; }
        return Won;
      }
      return Idle;
    }
  }

  // ------------------------------------------------------------- the cluster

  datatype Cluster = Cluster(ids: set<Id>, masters: set<Id>)

  ghost predicate ValidCluster(k: Cluster) { k.masters <= k.ids }

  function Quorum(k: Cluster): nat { |k.masters| / 2 + 1 }

  datatype Win = Win(replica: Id, epoch: Epoch, clean: bool)

  /**
   `votes`, `counted` and `wins` are history: who each master voted for in each
   epoch, which of those votes were counted, and which takeovers happened
   (clean when no stale ack was part of the count).
   */
  datatype System = System(
    nodes: map<Id, Node>,
    net: multiset<Message>,
    votes: map<(Id, Epoch), Id>,
    counted: set<(Id, Id, Epoch)>,
    wins: set<Win>)

  datatype Step =
    | Failover(id: Id, env: FailoverEnv, slots: set<nat>, reqConfigEpoch: Epoch)
    | DeliverRequest(m: Message, view: View)
    | DeliverAck(m: Message)
    | DeliverPing(m: Message)
    | SendPing(src: Id, dst: Id)
    | BumpEpoch(id: Id)
    | Lose(m: Message)

  function Broadcast(k: Cluster, src: Id, epoch: Epoch, configEpoch: Epoch, slots: set<nat>, force: bool): set<Message> {
    set d | d in k.ids && d != src :: Request(src, d, epoch, configEpoch, slots, force)
  }

  ghost predicate Enabled(k: Cluster, s: System, step: Step) {
    match step
    case Failover(id, env, _, _) => id in s.nodes && id in k.ids && id !in k.masters && env.size == |k.masters|
    case DeliverRequest(m, _) => m.Request? && m in s.net && m.dst in s.nodes && m.src in s.nodes
    case DeliverAck(m) => m.Ack? && m in s.net && m.dst in s.nodes
    case DeliverPing(m) => m.Ping? && m in s.net && m.dst in s.nodes
    case SendPing(src, dst) => src in s.nodes && dst in s.nodes
    case BumpEpoch(id) => id in s.nodes
    case Lose(m) => m in s.net
  }

  ghost function Apply(k: Cluster, s: System, step: Step): System
    requires Enabled(k, s, step)
  {
    match step
    case Failover(id, env, slots, ce) =>
      var (n, action) := HandleFailover(s.nodes[id], env);
      s.(nodes := s.nodes[id := n],
         net := if action == Requested then s.net + multiset(Broadcast(k, id, n.authEpoch, ce, slots, env.mfEnd)) else s.net,
         wins := if action == Won then s.wins + {Win(id, n.authEpoch, n.stale == 0)} else s.wins)
    case DeliverRequest(m, view) =>
      var voter := m.dst in k.masters;
      var n := ReceiveRequest(s.nodes[m.dst], voter, m, view);
      var rest := s.net - multiset{m};
      if Grants(Merge(s.nodes[m.dst], m.epoch), voter, m, view) then
        s.(nodes := s.nodes[m.dst := n],
           net := rest + multiset{Ack(m.dst, m.src, n.currentEpoch)},
           votes := s.votes[(m.dst, n.currentEpoch) := m.src])
      else s.(nodes := s.nodes[m.dst := n], net := rest)
    case DeliverAck(m) =>
      var old_ := s.nodes[m.dst];
      var n := ReceiveAck(old_, m.src in k.masters, m.epoch);
      s.(nodes := s.nodes[m.dst := n], net := s.net - multiset{m},
         counted := if n.authCount > old_.authCount then s.counted + {(m.src, m.dst, m.epoch)} else s.counted)
    case DeliverPing(m) =>
      s.(nodes := s.nodes[m.dst := Merge(s.nodes[m.dst], m.epoch)], net := s.net - multiset{m})
    case SendPing(src, dst) => s.(net := s.net + multiset{Ping(src, dst, s.nodes[src].currentEpoch)})
    case BumpEpoch(id) => s.(nodes := s.nodes[id := s.nodes[id].(currentEpoch := s.nodes[id].currentEpoch + 1)])
    case Lose(m) => s.(net := s.net - multiset{m})
  }

  ghost predicate Init(k: Cluster, s: System) {
    && s.nodes.Keys == k.ids
    && (forall i :: i in s.nodes ==> InitNode(s.nodes[i]))
    && s.net == multiset{} && s.votes == map[] && s.counted == {} && s.wins == {}
  }

  predicate InitNode(n: Node) {
    n.lastVoteEpoch <= n.currentEpoch && n.authEpoch <= n.currentEpoch && n.authCount == 0 && !n.authSent && n.stale == 0
  }

  /** Every step of `steps` can be taken, one after the other, from `s`. */
  ghost predicate Legal(k: Cluster, s: System, steps: seq<Step>)
    decreases |steps|
  {
    steps == [] || (Enabled(k, s, steps[0]) && Legal(k, Apply(k, s, steps[0]), steps[1..]))
  }

  ghost function Run(k: Cluster, s: System, steps: seq<Step>): System
    requires Legal(k, s, steps)
    decreases |steps|
  {
    if steps == [] then s else Run(k, Apply(k, s, steps[0]), steps[1..])
  }

  // ------------------------------------------------------------ what is kept

  /** The masters that voted for `c` in epoch `e`. */
  ghost function Voters(s: System, c: Id, e: Epoch): set<Id> {
    set v | v in s.nodes && (v, e) in s.votes && s.votes[(v, e)] == c
  }

  /** The masters whose vote for `c` in epoch `e` has been counted. */
  ghost function CountedFor(s: System, c: Id, e: Epoch): set<Id> {
    set v | v in s.nodes && (v, c, e) in s.counted
  }

  ghost predicate EpochsOk(s: System) {
    forall i :: i in s.nodes ==>
      s.nodes[i].lastVoteEpoch <= s.nodes[i].currentEpoch && s.nodes[i].authEpoch <= s.nodes[i].currentEpoch
  }

  /** A request in flight belongs to its sender's latest or an earlier election. */
  ghost predicate RequestsOk(s: System) {
    forall m: Message :: m in s.net && m.Request? ==> m.src in s.nodes && m.epoch <= s.nodes[m.src].authEpoch
  }

  /** A recorded vote was cast by a master, in an epoch it will not vote in again. */
  ghost predicate VotesOk(k: Cluster, s: System) {
    forall v, e :: (v, e) in s.votes ==>
      && v in k.masters && v in s.nodes && e <= s.nodes[v].lastVoteEpoch
      && s.votes[(v, e)] in s.nodes && e <= s.nodes[s.votes[(v, e)]].authEpoch
  }

  /** An ack in flight stands for one recorded vote that was not counted yet. */
  ghost predicate AcksOk(s: System) {
    forall m: Message :: m in s.net && m.Ack? ==>
      && s.net[m] == 1 && (m.src, m.epoch) in s.votes && s.votes[(m.src, m.epoch)] == m.dst
      && (m.src, m.dst, m.epoch) !in s.counted
  }

  ghost predicate CountedOk(s: System) {
    forall v, c, e :: (v, c, e) in s.counted ==> (v, e) in s.votes && s.votes[(v, e)] == c
  }

  /** The vote count of a replica is the number of its votes counted in this epoch plus the stale ones. */
  ghost predicate TallyOf(s: System, c: Id)
    requires c in s.nodes
  {
    var n := s.nodes[c];
    n.authCount == n.stale + if n.authSent then |CountedFor(s, c, n.authEpoch)| else 0
  }

  ghost predicate TallyOk(s: System) {
    forall c :: c in s.nodes ==> TallyOf(s, c)
  }

  ghost predicate WinsOk(k: Cluster, s: System) {
    forall w :: w in s.wins && w.clean ==> Quorum(k) <= |Voters(s, w.replica, w.epoch)|
  }

  ghost predicate Inv(k: Cluster, s: System) {
    && ValidCluster(k) && s.nodes.Keys == k.ids
    && EpochsOk(s) && RequestsOk(s) && VotesOk(k, s) && AcksOk(s) && CountedOk(s) && TallyOk(s) && WinsOk(k, s)
  }

  lemma InitKeepsInv(k: Cluster, s: System)
    requires ValidCluster(k) && Init(k, s)
    ensures Inv(k, s)
  {
    forall c | c in s.nodes ensures s.nodes[c].authCount == s.nodes[c].stale {
      assert InitNode(s.nodes[c]);
    }
  }

  lemma VotersGrow(s: System, t: System, c: Id, e: Epoch)
    requires s.nodes.Keys == t.nodes.Keys && s.votes.Keys <= t.votes.Keys
    requires forall key :: key in s.votes ==> t.votes[key] == s.votes[key]
    ensures |Voters(s, c, e)| <= |Voters(t, c, e)|
  {
    assert Voters(s, c, e) <= Voters(t, c, e);
    SubsetSize(Voters(s, c, e), Voters(t, c, e));
  }

  /** The counted votes are among the votes cast. */
  lemma CountedAreVotes(s: System, c: Id, e: Epoch)
    requires CountedOk(s)
    ensures CountedFor(s, c, e) <= Voters(s, c, e) && |CountedFor(s, c, e)| <= |Voters(s, c, e)|
  {
    forall v | v in CountedFor(s, c, e) ensures v in Voters(s, c, e) {
      assert (v, c, e) in s.counted;
    }
    SubsetSize(CountedFor(s, c, e), Voters(s, c, e));
  }

  /** What a step may do to any node: its epochs never move back, and an election only moves to a fresh epoch. */
  ghost predicate Advances(n: Node, m: Node) {
    && n.currentEpoch <= m.currentEpoch && n.lastVoteEpoch <= m.lastVoteEpoch && n.authEpoch <= m.authEpoch
    && m.lastVoteEpoch <= m.currentEpoch && m.authEpoch <= m.currentEpoch
    && (m.authEpoch == n.authEpoch || n.currentEpoch < m.authEpoch)
  }

  lemma HandlersAdvance(n: Node, env: FailoverEnv, voter: bool, req: Message, view: View, epoch: Epoch)
    requires n.lastVoteEpoch <= n.currentEpoch && n.authEpoch <= n.currentEpoch && req.Request?
    ensures Advances(n, HandleFailover(n, env).0)
    ensures Advances(n, ReceiveRequest(n, voter, req, view))
    ensures Advances(n, ReceiveAck(n, voter, epoch)) && Advances(n, Merge(n, epoch))
  {
  }

  lemma NodesAdvance(k: Cluster, s: System, step: Step)
    requires EpochsOk(s) && Enabled(k, s, step)
    ensures Apply(k, s, step).nodes.Keys == s.nodes.Keys
    ensures forall i :: i in s.nodes ==> Advances(s.nodes[i], Apply(k, s, step).nodes[i])
  {
    var t := Apply(k, s, step);
    var any := FailoverEnv(0, 0, false, false, false, false, 0, 0, 0);
    match step
    case Failover(id, env, _, _) =>
      HandlersAdvance(s.nodes[id], env, false, Ask(0, 0, 0), WILLING, 0);
      assert t.nodes == s.nodes[id := HandleFailover(s.nodes[id], env).0];
    case DeliverRequest(m, view) =>
      HandlersAdvance(s.nodes[m.dst], any, m.dst in k.masters, m, view, 0);
      assert t.nodes == s.nodes[m.dst := ReceiveRequest(s.nodes[m.dst], m.dst in k.masters, m, view)];
    case DeliverAck(m) => HandlersAdvance(s.nodes[m.dst], any, m.src in k.masters, Ask(0, 0, 0), WILLING, m.epoch);
    case DeliverPing(m) => HandlersAdvance(s.nodes[m.dst], any, false, Ask(0, 0, 0), WILLING, m.epoch);
    case _ =>
  }

  /** A vote is cast in an epoch the voter never voted in, for an election its requester did start. */
  lemma VoteIsFresh(k: Cluster, s: System, m: Message, view: View)
    requires EpochsOk(s) && RequestsOk(s) && VotesOk(k, s) && Enabled(k, s, DeliverRequest(m, view))
    requires Grants(Merge(s.nodes[m.dst], m.epoch), m.dst in k.masters, m, view)
    ensures m.dst in k.masters && (m.dst, m.epoch) !in s.votes && m.epoch <= s.nodes[m.src].authEpoch
    ensures Apply(k, s, DeliverRequest(m, view)).votes == s.votes[(m.dst, m.epoch) := m.src]
    ensures Apply(k, s, DeliverRequest(m, view)).nodes[m.dst].lastVoteEpoch == m.epoch
    ensures Apply(k, s, DeliverRequest(m, view)).net == s.net - multiset{m} + multiset{Ack(m.dst, m.src, m.epoch)}
  {
  }

  lemma VotesKept(k: Cluster, s: System, step: Step)
    requires EpochsOk(s) && RequestsOk(s) && VotesOk(k, s) && Enabled(k, s, step)
    ensures var t := Apply(k, s, step);
            && s.votes.Keys <= t.votes.Keys && (forall key :: key in s.votes ==> t.votes[key] == s.votes[key])
            && VotesOk(k, t)
  {
    NodesAdvance(k, s, step);
    if step.DeliverRequest? && Grants(Merge(s.nodes[step.m.dst], step.m.epoch), step.m.dst in k.masters, step.m, step.view) {
      VoteIsFresh(k, s, step.m, step.view);
    } else {
      assert Apply(k, s, step).votes == s.votes;
    }
  }

  lemma RequestsKept(k: Cluster, s: System, step: Step)
    requires EpochsOk(s) && RequestsOk(s) && Enabled(k, s, step)
    ensures RequestsOk(Apply(k, s, step))
  {
    NodesAdvance(k, s, step);
    var t := Apply(k, s, step);
    forall x: Message | x in t.net && x.Request?
      ensures x.src in t.nodes && x.epoch <= t.nodes[x.src].authEpoch
    {
      if x !in s.net {
        assert step.Failover?;
      }
    }
  }

  lemma AcksKept(k: Cluster, s: System, step: Step)
    requires EpochsOk(s) && RequestsOk(s) && VotesOk(k, s) && AcksOk(s) && CountedOk(s) && Enabled(k, s, step)
    ensures AcksOk(Apply(k, s, step)) && CountedOk(Apply(k, s, step))
  {
    VotesKept(k, s, step);
    var t := Apply(k, s, step);
    match step
    case DeliverRequest(m, view) =>
      if Grants(Merge(s.nodes[m.dst], m.epoch), m.dst in k.masters, m, view) {
        VoteIsFresh(k, s, m, view);
        assert Ack(m.dst, m.src, m.epoch) !in s.net;
        assert (m.dst, m.src, m.epoch) !in s.counted;
      }
    case DeliverAck(m) =>
      assert t.net == s.net - multiset{m} && t.votes == s.votes;
      forall x: Message | x in t.net && x.Ack?
        ensures t.net[x] == 1 && (x.src, x.epoch) in t.votes && t.votes[(x.src, x.epoch)] == x.dst
        ensures (x.src, x.dst, x.epoch) !in t.counted
      {
        assert x != m;
      }
    case _ => assert t.votes == s.votes && t.counted == s.counted;
  }

  /** A fresh election starts with no counted vote. */
  lemma FreshElectionUncounted(k: Cluster, s: System, c: Id, e: Epoch)
    requires VotesOk(k, s) && CountedOk(s) && c in s.nodes && s.nodes[c].authEpoch < e
    ensures CountedFor(s, c, e) == {}
  {
    forall v | v in s.nodes ensures (v, c, e) !in s.counted {
      assert !((v, e) in s.votes && s.votes[(v, e)] == c);
    }
  }

  /** A counted ack adds exactly one vote of the current election, or one stale ack. */
  lemma AckTally(k: Cluster, s: System, m: Message)
    requires VotesOk(k, s) && AcksOk(s) && TallyOk(s) && Enabled(k, s, DeliverAck(m))
    ensures TallyOf(Apply(k, s, DeliverAck(m)), m.dst)
  {
    var t := Apply(k, s, DeliverAck(m));
    var n := s.nodes[m.dst];
    assert TallyOf(s, m.dst);
    assert (m.src, m.epoch) in s.votes;
    assert m.src in k.masters && m.src in s.nodes && m.epoch <= n.authEpoch;
    if n.authEpoch <= m.epoch {
      assert m.epoch == n.authEpoch;
      assert CountedFor(t, m.dst, n.authEpoch) == CountedFor(s, m.dst, n.authEpoch) + {m.src};
      assert m.src !in CountedFor(s, m.dst, n.authEpoch);
    } else {
      assert CountedFor(t, m.dst, n.authEpoch) == CountedFor(s, m.dst, n.authEpoch);
    }
  }

  /** The failover cron keeps the tally: it leaves it alone, resets it, or opens a fresh election. */
  lemma FailoverTally(k: Cluster, s: System, step: Step)
    requires step.Failover? && Enabled(k, s, step)
    requires EpochsOk(s) && VotesOk(k, s) && CountedOk(s) && TallyOk(s)
    ensures TallyOf(Apply(k, s, step), step.id)
  {
    var t, c := Apply(k, s, step), step.id;
    assert TallyOf(s, c);
    if t.nodes[c].authEpoch != s.nodes[c].authEpoch {
      FreshElectionUncounted(k, s, c, t.nodes[c].authEpoch);
    }
    assert CountedFor(t, c, t.nodes[c].authEpoch) == CountedFor(s, c, t.nodes[c].authEpoch);
  }

  /** The election fields of a node. */
  ghost predicate SameElection(m: Node, n: Node) {
    m.authCount == n.authCount && m.stale == n.stale && m.authSent == n.authSent && m.authEpoch == n.authEpoch
  }

  lemma RequestKeepsElection(n: Node, voter: bool, req: Message, view: View, epoch: Epoch)
    requires req.Request?
    ensures SameElection(n, ReceiveRequest(n, voter, req, view)) && SameElection(n, Merge(n, epoch))
  {
  }

  /** A node that neither received an ack nor ran its cron keeps its election fields. */
  lemma OthersKeepElection(k: Cluster, s: System, step: Step, c: Id)
    requires Enabled(k, s, step) && c in s.nodes
    requires !(step.Failover? && step.id == c) && !(step.DeliverAck? && step.m.dst == c)
    ensures var t := Apply(k, s, step);
            t.nodes.Keys == s.nodes.Keys && SameElection(s.nodes[c], t.nodes[c])
  {
    var t := Apply(k, s, step);
    match step
    case Failover(id, _, _, _) => assert t.nodes == s.nodes[id := t.nodes[id]];
    case DeliverRequest(m, view) =>
      RequestKeepsElection(s.nodes[m.dst], m.dst in k.masters, m, view, 0);
      assert t.nodes == s.nodes[m.dst := ReceiveRequest(s.nodes[m.dst], m.dst in k.masters, m, view)];
    case DeliverAck(m) => assert t.nodes == s.nodes[m.dst := t.nodes[m.dst]];
    case DeliverPing(m) => RequestKeepsElection(s.nodes[m.dst], false, Ask(0, 0, 0), WILLING, m.epoch);
    case _ =>
  }

  /** Only a delivered ack is counted. */
  lemma OthersNotCounted(k: Cluster, s: System, step: Step, c: Id)
    requires Enabled(k, s, step) && !(step.DeliverAck? && step.m.dst == c)
    ensures forall v, e :: (v, c, e) in Apply(k, s, step).counted <==> (v, c, e) in s.counted
  {
    if step.DeliverAck? {
      assert Apply(k, s, step).counted <= s.counted + {(step.m.src, step.m.dst, step.m.epoch)};
    } else {
      assert Apply(k, s, step).counted == s.counted;
    }
  }

  lemma SameTally(s: System, t: System, c: Id)
    requires c in s.nodes && t.nodes.Keys == s.nodes.Keys && SameElection(s.nodes[c], t.nodes[c]) && TallyOf(s, c)
    requires forall v, e :: (v, c, e) in t.counted <==> (v, c, e) in s.counted
    ensures TallyOf(t, c)
  {
    assert CountedFor(t, c, t.nodes[c].authEpoch) == CountedFor(s, c, t.nodes[c].authEpoch);
  }

  lemma TallyKept(k: Cluster, s: System, step: Step)
    requires EpochsOk(s) && VotesOk(k, s) && AcksOk(s) && CountedOk(s) && TallyOk(s) && Enabled(k, s, step)
    ensures TallyOk(Apply(k, s, step))
  {
    var t := Apply(k, s, step);
    forall c | c in t.nodes ensures TallyOf(t, c) {
      if step.DeliverAck? && step.m.dst == c {
        AckTally(k, s, step.m);
      } else if step.Failover? && step.id == c {
        FailoverTally(k, s, step);
      } else {
        OthersKeepElection(k, s, step, c);
        OthersNotCounted(k, s, step, c);
        SameTally(s, t, c);
      }
    }
  }

  lemma WinsKept(k: Cluster, s: System, step: Step)
    requires EpochsOk(s) && RequestsOk(s) && VotesOk(k, s) && CountedOk(s) && TallyOk(s) && WinsOk(k, s) && Enabled(k, s, step)
    ensures WinsOk(k, Apply(k, s, step))
  {
    NodesAdvance(k, s, step);
    VotesKept(k, s, step);
    var t := Apply(k, s, step);
    forall w | w in t.wins && w.clean ensures Quorum(k) <= |Voters(t, w.replica, w.epoch)| {
      VotersGrow(s, t, w.replica, w.epoch);
      if w !in s.wins {
        assert step.Failover? && w.replica == step.id;
        assert TallyOf(s, step.id);
        CountedAreVotes(s, w.replica, w.epoch);
      }
    }
  }

  lemma StepKeepsInv(k: Cluster, s: System, step: Step)
    requires Inv(k, s) && Enabled(k, s, step)
    ensures Inv(k, Apply(k, s, step))
  {
    NodesAdvance(k, s, step);
    RequestsKept(k, s, step);
    VotesKept(k, s, step);
    AcksKept(k, s, step);
    TallyKept(k, s, step);
    WinsKept(k, s, step);
  }

  lemma {:induction false} RunKeepsInv(k: Cluster, s: System, steps: seq<Step>)
    requires Inv(k, s) && Legal(k, s, steps)
    ensures Inv(k, Run(k, s, steps))
    decreases |steps|
  {
    if steps != [] {
      StepKeepsInv(k, s, steps[0]);
      RunKeepsInv(k, Apply(k, s, steps[0]), steps[1..]);
    }
  }

  // ------------------------------------------------------------ main results

  /** Two majorities of one set of masters share a master. */
  lemma MajoritiesMeet(masters: set<Id>, a: set<Id>, b: set<Id>)
    requires a <= masters && b <= masters
    requires |masters| / 2 + 1 <= |a| && |masters| / 2 + 1 <= |b|
    ensures exists v :: v in a && v in b
  {
    SubsetSize(a + b, masters);
    assert |a + b| + |a * b| == |a| + |b|;
    var v :| v in a * b;
  }

  /**
   Election safety: in every run, at most one replica takes over in any epoch,
   among the takeovers whose count holds no stale ack.
   */
  lemma ElectionSafety(k: Cluster, s: System, steps: seq<Step>, a: Win, b: Win)
    requires ValidCluster(k) && Init(k, s) && Legal(k, s, steps)
    requires a in Run(k, s, steps).wins && b in Run(k, s, steps).wins
    requires a.clean && b.clean && a.epoch == b.epoch
    ensures a.replica == b.replica
  {
    InitKeepsInv(k, s);
    RunKeepsInv(k, s, steps);
    var t := Run(k, s, steps);
    assert Voters(t, a.replica, a.epoch) <= k.masters && Voters(t, b.replica, a.epoch) <= k.masters by {
      forall c, v | v in Voters(t, c, a.epoch) ensures v in k.masters {
        assert (v, a.epoch) in t.votes;
      }
    }
    MajoritiesMeet(k.masters, Voters(t, a.replica, a.epoch), Voters(t, b.replica, a.epoch));
  }

  /** Every clean takeover is backed by a majority of masters that voted for it in that very epoch. */
  lemma CleanWinHasMajority(k: Cluster, s: System, steps: seq<Step>, w: Win)
    requires ValidCluster(k) && Init(k, s) && Legal(k, s, steps)
    requires w in Run(k, s, steps).wins && w.clean
    ensures Voters(Run(k, s, steps), w.replica, w.epoch) <= k.masters
    ensures |k.masters| < 2 * |Voters(Run(k, s, steps), w.replica, w.epoch)|
  {
    InitKeepsInv(k, s);
    RunKeepsInv(k, s, steps);
    var t := Run(k, s, steps);
    forall v | v in Voters(t, w.replica, w.epoch) ensures v in k.masters {
      assert (v, w.epoch) in t.votes;
    }
  }

  /**
   The step by which `v` voted for `c` in epoch `e`: a replica of a failed master
   asked, the last vote for that master was long ago, and no slot it claimed was
   served under a greater epoch than the one it claimed it with.
   */
  ghost predicate Gave(step: Step, v: Id, e: Epoch, c: Id) {
    && step.DeliverRequest? && step.m.Request? && step.m.src == c && step.m.dst == v && step.m.epoch == e
    && !step.view.requesterIsMaster && step.view.masterKnown && (step.view.masterFailed || step.m.forceAck)
    && step.view.sinceLastVote >= 2 * step.view.nodeTimeout
    && forall j :: 0 <= j < |step.view.slotEpoch| && j in step.m.slots ==> step.view.slotEpoch[j] <= step.m.configEpoch
  }

  /** A step either gives the vote, or the vote was there. */
  lemma StepGivesVote(k: Cluster, s: System, step: Step, v: Id, e: Epoch)
    requires Inv(k, s) && Enabled(k, s, step) && (v, e) in Apply(k, s, step).votes
    ensures Gave(step, v, e, Apply(k, s, step).votes[(v, e)])
            || ((v, e) in s.votes && Apply(k, s, step).votes[(v, e)] == s.votes[(v, e)])
  {
  }

  /** In every run, every vote was given by a step of the run that was allowed to give it. */
  lemma {:induction false} EveryVoteWasPermitted(k: Cluster, s: System, steps: seq<Step>, v: Id, e: Epoch)
    requires Inv(k, s) && Legal(k, s, steps) && (v, e) in Run(k, s, steps).votes
    ensures ((v, e) in s.votes && Run(k, s, steps).votes[(v, e)] == s.votes[(v, e)])
            || exists i :: 0 <= i < |steps| && Gave(steps[i], v, e, Run(k, s, steps).votes[(v, e)])
    decreases |steps|
  {
    if steps != [] {
      var t := Apply(k, s, steps[0]);
      StepKeepsInv(k, s, steps[0]);
      EveryVoteWasPermitted(k, t, steps[1..], v, e);
      var c := Run(k, t, steps[1..]).votes[(v, e)];
      if exists i :: 0 <= i < |steps[1..]| && Gave(steps[1..][i], v, e, c) {
        var i :| 0 <= i < |steps[1..]| && Gave(steps[1..][i], v, e, c);
        assert Gave(steps[i + 1], v, e, c);
      } else {
        StepGivesVote(k, s, steps[0], v, e);
      }
    }
  }

  /** A clean takeover rests on a majority of masters none of which knew a claimed slot under a greater epoch. */
  lemma CleanWinWasPermitted(k: Cluster, s: System, steps: seq<Step>, w: Win)
    requires ValidCluster(k) && Init(k, s) && Legal(k, s, steps)
    requires w in Run(k, s, steps).wins && w.clean
    ensures |k.masters| < 2 * |Voters(Run(k, s, steps), w.replica, w.epoch)|
    ensures forall v :: v in Voters(Run(k, s, steps), w.replica, w.epoch) ==>
              exists i :: 0 <= i < |steps| && Gave(steps[i], v, w.epoch, w.replica)
  {
    InitKeepsInv(k, s);
    CleanWinHasMajority(k, s, steps, w);
    forall v | v in Voters(Run(k, s, steps), w.replica, w.epoch)
      ensures exists i :: 0 <= i < |steps| && Gave(steps[i], v, w.epoch, w.replica)
    {
      EveryVoteWasPermitted(k, s, steps, v, w.epoch);
    }
  }

  /** A request that no rule refuses gets its vote and its ack. */
  lemma PermittedRequestIsGranted(k: Cluster, s: System, m: Message, view: View)
    requires EpochsOk(s) && Enabled(k, s, DeliverRequest(m, view)) && Gave(DeliverRequest(m, view), m.dst, m.epoch, m.src)
    requires m.dst in k.masters && s.nodes[m.dst].currentEpoch <= m.epoch && s.nodes[m.dst].lastVoteEpoch < m.epoch
    ensures var t := Apply(k, s, DeliverRequest(m, view));
            && Ack(m.dst, m.src, m.epoch) in t.net && (m.dst, m.epoch) in t.votes && t.votes[(m.dst, m.epoch)] == m.src
            && t.nodes[m.dst].lastVoteEpoch == t.nodes[m.dst].currentEpoch == m.epoch
  {
  }

  /** Nothing else gets one: a replica that is refused leaves votes and acks as they were. */
  lemma OtherRequestIsRefused(k: Cluster, s: System, m: Message, view: View)
    requires EpochsOk(s) && Enabled(k, s, DeliverRequest(m, view))
    requires !Gave(DeliverRequest(m, view), m.dst, m.epoch, m.src) || m.dst !in k.masters
             || m.epoch < s.nodes[m.dst].currentEpoch || m.epoch <= s.nodes[m.dst].lastVoteEpoch
    ensures var t := Apply(k, s, DeliverRequest(m, view));
            t.votes == s.votes && t.net == s.net - multiset{m} && t.nodes[m.dst].lastVoteEpoch == s.nodes[m.dst].lastVoteEpoch
  {
  }

  // ---------------------------------------------------------------- the cron

  /** How long after its scheduled time a replica still asks or takes over. */
  function Window(env: FailoverEnv): int { if env.nodeTimeout < 1000 then 2000 else 2 * env.nodeTimeout }

  /** The replica fell in rank while it waited, and waits a second longer per place. */
  function Postponed(n: Node, env: FailoverEnv): int {
    if !n.authSent && !env.mfEnd && env.rank > n.authRank then 1000 * (env.rank - n.authRank) else 0
  }

  /**
   When the cron does what: a replica with stale data does nothing without a
   manual failover; past twice the window a new attempt is scheduled; inside the
   window, once its delay is over, a replica asks once and takes over at a quorum.
   */
  lemma CronActs(n: Node, env: FailoverEnv)
    ensures var (m, action) := HandleFailover(n, env);
            var may := env.runnable && (env.dataFresh || env.manual);
            var age := env.now - n.authTime;
            && (!may ==> action == Idle && m == n)
            && (action == Scheduled <==> may && age > 2 * Window(env))
            && (action == Requested <==> may && !n.authSent && Postponed(n, env) <= age <= Window(env))
            && (action == Won <==> may && n.authSent && 0 <= age <= Window(env) && env.size < 2 * n.authCount)
  {
  }

  /** What an attempt leaves: nobody asks before half a second and a second per better replica, and every election is in a new epoch. */
  lemma CronLeaves(n: Node, env: FailoverEnv)
    ensures var (m, action) := HandleFailover(n, env);
            && m.lastVoteEpoch == n.lastVoteEpoch
            && (env.runnable && (env.dataFresh || env.manual) && action != Scheduled ==>
                  && m.authTime - 1000 * m.authRank == n.authTime - 1000 * n.authRank
                  && m.authRank == if !n.authSent && !env.mfEnd && env.rank > n.authRank then env.rank else n.authRank)
            && (action == Scheduled ==> m.authCount == 0 && !m.authSent && m.authEpoch == n.authEpoch
                                        && (env.mfEnd ==> m.authTime == env.now && m.authRank == 0)
                                        && (!env.mfEnd ==> m.authTime == env.now + 500 + env.jitter + 1000 * env.rank && m.authRank == env.rank))
            && (action == Requested ==> m.authSent && m.authEpoch == m.currentEpoch == n.currentEpoch + 1 && m.authCount == n.authCount)
            && (action == Won ==> m.configEpoch >= n.authEpoch && m.configEpoch >= n.configEpoch && m.authCount == n.authCount)
            && (action == Idle ==> m.authTime == n.authTime + (if m == n then 0 else Postponed(n, env)) && m.authCount == n.authCount
                                   && m.authSent == n.authSent && m.authEpoch == n.authEpoch && m.currentEpoch == n.currentEpoch)
  {
  }

  /**
   Exactly when the count is honest: a replica that asked for votes holds the
   count of this epoch's received votes if and only if no ack arrived between
   the reset of the count and the next request.
   */
  lemma CountIsExactIffNotStale(k: Cluster, s: System, steps: seq<Step>, c: Id)
    requires ValidCluster(k) && Init(k, s) && Legal(k, s, steps)
    requires c in Run(k, s, steps).nodes && Run(k, s, steps).nodes[c].authSent
    ensures var t := Run(k, s, steps);
            var n := t.nodes[c];
            n.authCount == |CountedFor(t, c, n.authEpoch)| <==> n.stale == 0
  {
    InitKeepsInv(k, s);
    RunKeepsInv(k, s, steps);
  }

  // ------------------------------------- the window in which an ack is stale

  /** Three masters 0, 1, 2 and two replicas 3, 4 of a failed master. */
  const FIVE: Cluster := Cluster({0, 1, 2, 3, 4}, {0, 1, 2})

  const FRESH_NODE: Node := Node(0, 0, 0, 0, 0, false, 0, 0, 0)

  const START: System :=
    System(map[0 := FRESH_NODE, 1 := FRESH_NODE, 2 := FRESH_NODE, 3 := FRESH_NODE, 4 := FRESH_NODE], multiset{}, map[], {}, {})

  const NODE_TIMEOUT: int := 15000   // the default, in milliseconds

  function Cron(replica: Id, now: int): Step {
    Failover(replica, FailoverEnv(now, NODE_TIMEOUT, true, true, false, false, 0, 0, 3), {}, 0)
  }

  function Ask(replica: Id, master: Id, epoch: Epoch): Message { Request(replica, master, epoch, 0, {}, false) }

  /** No vote was given for this failed master for a minute. */
  const WILLING: View := View(false, true, true, 60000, NODE_TIMEOUT, [])

  ghost predicate Reachable(k: Cluster, s: System, t: System) {
    exists steps :: Legal(k, s, steps) && Run(k, s, steps) == t
  }

  lemma {:induction false} LegalThenOne(k: Cluster, s: System, steps: seq<Step>, step: Step)
    requires Legal(k, s, steps) && Enabled(k, Run(k, s, steps), step)
    ensures Legal(k, s, steps + [step])
    ensures Run(k, s, steps + [step]) == Apply(k, Run(k, s, steps), step)
    decreases |steps|
  {
    if steps == [] {
      assert (steps + [step])[1..] == [];
    } else {
      LegalThenOne(k, Apply(k, s, steps[0]), steps[1..], step);
      assert (steps + [step])[1..] == steps[1..] + [step];
    }
  }

  lemma TakeStep(k: Cluster, s: System, t: System, step: Step)
    requires Reachable(k, s, t) && Enabled(k, t, step)
    ensures Reachable(k, s, Apply(k, t, step))
  {
    var steps :| Legal(k, s, steps) && Run(k, s, steps) == t;
    LegalThenOne(k, s, steps, step);
  }

  /** `u` is reached from `s`, and differs from `t` in node `c` only. */
  ghost predicate Moved(k: Cluster, s: System, t: System, u: System, c: Id, n: Node) {
    && Reachable(k, s, u) && u.nodes.Keys == k.ids && c in k.ids && u.nodes[c] == n
    && forall i :: i in k.ids && i != c ==> i in t.nodes && u.nodes[i] == t.nodes[i]
  }

  ghost predicate At(k: Cluster, s: System, t: System) { ValidCluster(k) && Reachable(k, s, t) && t.nodes.Keys == k.ids && |k.masters| == 3 }

  lemma CronOpens(n: Node, c: Id, now: int)
    requires !n.authSent && n.authTime <= now <= n.authTime + 30000 && n.authRank == 0
    ensures HandleFailover(n, Cron(c, now).env)
         == (n.(currentEpoch := n.currentEpoch + 1, authEpoch := n.currentEpoch + 1, authSent := true), Requested)
  {
  }

  /** The cron of replica `c` opens the election of the next epoch. */
  lemma OpenElection(k: Cluster, s: System, t: System, c: Id, now: int) returns (u: System)
    requires At(k, s, t) && c in k.ids && c !in k.masters
    requires !t.nodes[c].authSent && t.nodes[c].authTime <= now <= t.nodes[c].authTime + 30000 && t.nodes[c].authRank == 0
    ensures At(k, s, u) && u.wins == t.wins
    ensures var n := t.nodes[c]; var e := n.currentEpoch + 1;
            && Moved(k, s, t, u, c, n.(currentEpoch := e, authEpoch := e, authSent := true))
            && forall d :: d in k.ids && d != c ==> Ask(c, d, e) in u.net
  {
    CronOpens(t.nodes[c], c, now);
    TakeStep(k, s, t, Cron(c, now));
    u := Apply(k, t, Cron(c, now));
    var e := t.nodes[c].currentEpoch + 1;
    forall d | d in k.ids && d != c ensures Ask(c, d, e) in u.net {
      assert Ask(c, d, e) in Broadcast(k, c, e, 0, {}, false);
    }
  }

  /** A request reaches node `v`; a master that has not voted in that epoch grants it. */
  lemma Hear(k: Cluster, s: System, t: System, c: Id, v: Id, e: Epoch) returns (u: System)
    requires At(k, s, t) && c in k.ids && v in k.ids
    requires Ask(c, v, e) in t.net && t.nodes[v].currentEpoch <= e && t.nodes[v].lastVoteEpoch < e
    ensures At(k, s, u) && u.wins == t.wins
    ensures var n := t.nodes[v].(currentEpoch := e);
            Moved(k, s, t, u, v, if v in k.masters then n.(lastVoteEpoch := e) else n)
    ensures v in k.masters ==> Ack(v, c, e) in u.net
    ensures forall m :: m in t.net && m != Ask(c, v, e) ==> m in u.net
  {
    TakeStep(k, s, t, DeliverRequest(Ask(c, v, e), WILLING));
    u := Apply(k, t, DeliverRequest(Ask(c, v, e), WILLING));
  }

  /** An ack of the replica's latest epoch is counted. */
  lemma Count(k: Cluster, s: System, t: System, v: Id, c: Id, e: Epoch) returns (u: System)
    requires At(k, s, t) && v in k.masters && c in k.ids
    requires Ack(v, c, e) in t.net && t.nodes[c].authEpoch == e <= t.nodes[c].currentEpoch
    ensures At(k, s, u) && u.wins == t.wins
    ensures var n := t.nodes[c];
            Moved(k, s, t, u, c, n.(authCount := n.authCount + 1, stale := if n.authSent then n.stale else n.stale + 1))
    ensures forall m :: m in t.net && m != Ack(v, c, e) ==> m in u.net
  {
    TakeStep(k, s, t, DeliverAck(Ack(v, c, e)));
    u := Apply(k, t, DeliverAck(Ack(v, c, e)));
  }

  /** The election of `c` timed out: its count is reset and a retry is scheduled. */
  lemma Retry(k: Cluster, s: System, t: System, c: Id, now: int) returns (u: System)
    requires At(k, s, t) && c in k.ids && c !in k.masters && t.nodes[c].authTime + 60000 < now
    ensures At(k, s, u) && u.wins == t.wins && u.net == t.net
    ensures Moved(k, s, t, u, c, t.nodes[c].(authCount := 0, authSent := false, stale := 0, authTime := now + 500, authRank := 0))
  {
    TakeStep(k, s, t, Cron(c, now));
    u := Apply(k, t, Cron(c, now));
  }

  lemma TakeOver(k: Cluster, s: System, t: System, c: Id, now: int) returns (u: System)
    requires At(k, s, t) && c in k.ids && c !in k.masters
    requires t.nodes[c].authSent && t.nodes[c].authCount == 2 && t.nodes[c].authTime <= now <= t.nodes[c].authTime + 30000
    ensures At(k, s, u) && u.net == t.net
    ensures Moved(k, s, t, u, c, t.nodes[c].(configEpoch := Max(t.nodes[c].configEpoch, t.nodes[c].authEpoch)))
    ensures u.wins == t.wins + {Win(c, t.nodes[c].authEpoch, t.nodes[c].stale == 0)}
  {
    TakeStep(k, s, t, Cron(c, now));
    u := Apply(k, t, Cron(c, now));
  }

  /** Replica `c` retries; the slow ack of its first election is counted before its second request. */
  lemma StaleAckCounted(k: Cluster, s: System, v: Id, c: Id, d: Id) returns (u: System)
    requires At(k, s, s) && v in k.masters && c in k.ids && d in k.ids && c !in k.masters && d !in k.masters && c != d
    requires forall i :: i in k.ids ==> s.nodes[i] == FRESH_NODE
    ensures At(k, s, u) && u.wins == s.wins
    ensures u.nodes[v] == FRESH_NODE.(currentEpoch := 1, lastVoteEpoch := 1)
    ensures u.nodes[c] == Node(1, 0, 0, 1, 1, false, 161500, 0, 1) && u.nodes[d] == FRESH_NODE.(currentEpoch := 1)
    ensures forall i :: i in k.ids - {v, c, d} ==> u.nodes[i] == FRESH_NODE
  {
    var t := Retry(k, s, s, c, 100000);
    t := OpenElection(k, s, t, c, 100500);
    t := Hear(k, s, t, c, v, 1);
    t := Hear(k, s, t, c, d, 1);
    t := Retry(k, s, t, c, 161000);
    u := Count(k, s, t, v, c, 1);
  }

  /** In its second election `c` reaches a count of two with one vote only. */
  lemma CountedTwice(k: Cluster, s: System, t: System, v: Id, c: Id) returns (u: System)
    requires At(k, s, t) && v in k.masters && c in k.ids && c !in k.masters
    requires t.nodes[v] == FRESH_NODE.(currentEpoch := 1, lastVoteEpoch := 1)
    requires t.nodes[c] == Node(1, 0, 0, 1, 1, false, 161500, 0, 1)
    ensures At(k, s, u) && u.wins == t.wins + {Win(c, 2, false)}
    ensures forall i :: i in k.ids - {v, c} ==> u.nodes[i] == t.nodes[i]
  {
    var x := OpenElection(k, s, t, c, 161500);
    x := Hear(k, s, x, c, v, 2);
    x := Count(k, s, x, v, c, 2);
    u := TakeOver(k, s, x, c, 161600);
  }

  /** Replica `d` is elected in epoch 2 by the two other masters. */
  lemma ElectedByOthers(k: Cluster, s: System, t: System, v: Id, w: Id, d: Id) returns (u: System)
    requires At(k, s, t) && v in k.masters && w in k.masters && v != w && d in k.ids && d !in k.masters
    requires v in k.ids && w in k.ids && t.nodes[v] == FRESH_NODE && t.nodes[w] == FRESH_NODE
    requires t.nodes[d] == FRESH_NODE.(currentEpoch := 1)
    ensures At(k, s, u) && u.wins == t.wins + {Win(d, 2, true)}
  {
    var x := Retry(k, s, t, d, 161700);
    x := OpenElection(k, s, x, d, 162200);
    x := Hear(k, s, x, d, v, 2);
    x := Count(k, s, x, v, d, 2);
    x := Hear(k, s, x, d, w, 2);
    x := Count(k, s, x, w, d, 2);
    u := TakeOver(k, s, x, d, 162300);
  }

  /**
   Without the restriction to clean takeovers election safety is false: in the
   second election replica 3 counts the stale ack of master 0 together with the
   vote of master 0, while masters 1 and 2 both vote for replica 4.
   */
  lemma StaleAckBreaksSafety() returns (u: System)
    ensures ValidCluster(FIVE) && Init(FIVE, START) && Reachable(FIVE, START, u)
    ensures Win(3, 2, false) in u.wins && Win(4, 2, true) in u.wins
  {
    assert Legal(FIVE, START, []) && Run(FIVE, START, []) == START;
    assert At(FIVE, START, START);
    var t := StaleAckCounted(FIVE, START, 0, 3, 4);
    t := CountedTwice(FIVE, START, t, 0, 3);
    u := ElectedByOthers(FIVE, START, t, 1, 2, 4);
  }
}
