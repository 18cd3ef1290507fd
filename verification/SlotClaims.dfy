/**
 What a stream of claims does to the slot table, whatever their order.
 A view is the owner of every slot and the configuration epoch of every node.
 */
module SlotClaims {
  import opened Options
  import opened Names
  import opened SlotTable

  datatype View = View(owner: Owner, epochs: map<Id, Epoch>)

  ghost predicate ValidView(v: View) {
    forall j :: 0 <= j < |v.owner| && v.owner[j].Some? ==> v.owner[j].value in v.epochs
  }

  /** The effect of one claim, as the table applies it. */
  function Apply(v: View, importing: set<nat>, c: Claim): (w: View)
    requires c.sender in v.epochs
  {
    var epochs := Learned(v.epochs, c.sender, c.epoch);
    View(Rebound(v.owner, epochs, importing, c), epochs)
  }

  /** The epoch under which slot `j` is served. */
  function SlotEpoch(v: View, j: nat): Epoch
    requires ValidView(v) && j < |v.owner| && v.owner[j].Some?
  {
    v.epochs[v.owner[j].value]
  }

  /** No claim ever unbinds a slot or binds it under an older epoch; importing slots and unclaimed slots keep their owner. */
  lemma ClaimNeverLowersEpoch(v: View, importing: set<nat>, c: Claim, j: nat)
    requires ValidView(v) && c.sender in v.epochs && j < |v.owner|
    ensures var w := Apply(v, importing, c);
            && ValidView(w) && |w.owner| == |v.owner|
            && (v.owner[j].Some? ==> w.owner[j].Some? && SlotEpoch(v, j) <= SlotEpoch(w, j))
            && (w.owner[j] != v.owner[j] ==> j !in importing && j in c.slots && w.owner[j] == Some(c.sender))
            && (w.owner[j] != v.owner[j] && v.owner[j].Some? ==> v.epochs[v.owner[j].value] < c.epoch)
  {
    var w := Apply(v, importing, c);
    assert forall i :: 0 <= i < |w.owner| ==> w.owner[i] == v.owner[i] || w.owner[i] == Some(c.sender);
  }

  /** One claim per master; the masters deliver them in the order of `order`, each as often as it likes. */
  ghost predicate Claims(claims: map<Id, Claim>) {
    && (forall n :: n in claims ==> claims[n].sender == n)
    && (forall m, n :: m in claims && n in claims && m != n ==> claims[m].epoch != claims[n].epoch)
  }

  ghost predicate Ordered(v: View, claims: map<Id, Claim>, order: seq<Id>) {
    claims.Keys <= v.epochs.Keys && Claims(claims) && forall i :: 0 <= i < |order| ==> order[i] in claims
  }

  ghost function Deliver(v: View, importing: set<nat>, claims: map<Id, Claim>, order: seq<Id>): View
    requires Ordered(v, claims, order)
    ensures Deliver(v, importing, claims, order).epochs.Keys == v.epochs.Keys
    decreases |order|
  {
    if order == [] then v
    else
      var last := |order| - 1;
      Apply(Deliver(v, importing, claims, order[..last]), importing, claims[order[last]])
  }

  function Heard(order: seq<Id>): set<Id> { set i | 0 <= i < |order| :: order[i] }

  lemma DeliverLast(v: View, importing: set<nat>, claims: map<Id, Claim>, order: seq<Id>, n: Id)
    requires Ordered(v, claims, order) && n in claims
    ensures Ordered(v, claims, order + [n])
    ensures Deliver(v, importing, claims, order + [n]) == Apply(Deliver(v, importing, claims, order), importing, claims[n])
    ensures Heard(order + [n]) == Heard(order) + {n}
  {
    var more := order + [n];
    assert more[..|order|] == order && more[|order|] == n;
    assert forall m :: m in Heard(order) ==> exists i :: 0 <= i < |order| && more[i] == m;
  }

  /** The epoch under which node `n` is known once the claims in `heard` were delivered. */
  function Rank(v: View, claims: map<Id, Claim>, heard: set<Id>, n: Id): Epoch
    requires n in v.epochs
  {
    if n in heard && n in claims then claims[n].epoch else v.epochs[n]
  }

  ghost predicate Claimant(claims: map<Id, Claim>, heard: set<Id>, j: nat, n: Id) { n in heard && n in claims && j in claims[n].slots }

  /**
   `o` may own slot `j` after the claims in `heard`: it is the owner from
   before or a claimant, no claimant is above it, and a claimant that took the
   slot over is above what the owner had.
   */
  ghost predicate Wins(v: View, claims: map<Id, Claim>, heard: set<Id>, j: nat, o: Option<Id>)
    requires j < |v.owner| && ValidView(v)
  {
    match o
    case None => v.owner[j].None? && forall n :: !Claimant(claims, heard, j, n)
    case Some(x) =>
      && x in v.epochs && (v.owner[j] == o || Claimant(claims, heard, j, x))
      && (forall n :: Claimant(claims, heard, j, n) ==> claims[n].epoch <= Rank(v, claims, heard, x))
      && (v.owner[j].Some? && v.owner[j] != o ==> v.epochs[v.owner[j].value] < Rank(v, claims, heard, x))
  }

  /** A table that knows no claimant under a newer epoch than it claims. */
  ghost predicate Start(v: View, claims: map<Id, Claim>) {
    ValidView(v) && Claims(claims) && claims.Keys <= v.epochs.Keys && forall n :: n in claims ==> v.epochs[n] <= claims[n].epoch
  }

  /** A table in between: the epochs of the claims heard, a possible owner for every slot, and imported slots untouched. */
  ghost predicate Settled(v: View, importing: set<nat>, claims: map<Id, Claim>, heard: set<Id>, w: View)
    requires Start(v, claims)
  {
    && |w.owner| == |v.owner| && w.epochs.Keys == v.epochs.Keys
    && (forall n :: n in v.epochs ==> w.epochs[n] == Rank(v, claims, heard, n))
    && (forall j: nat :: j < |w.owner| ==> if j in importing then w.owner[j] == v.owner[j] else Wins(v, claims, heard, j, w.owner[j]))
  }

  lemma ClaimSettlesSlot(v: View, claims: map<Id, Claim>, heard: set<Id>, j: nat, o: Option<Id>, n: Id)
    requires Start(v, claims) && n in claims && j < |v.owner| && Wins(v, claims, heard, j, o)
    ensures var c := claims[n];
            var over := j in c.slots && o != Some(n) && (o.None? || Rank(v, claims, heard + {n}, o.value) < c.epoch);
            Wins(v, claims, heard + {n}, j, if over then Some(n) else o)
  {
    var c := claims[n];
    assert forall m :: Claimant(claims, heard + {n}, j, m) <==> Claimant(claims, heard, j, m) || (m == n && j in c.slots);
  }

  lemma ClaimSettles(v: View, importing: set<nat>, claims: map<Id, Claim>, heard: set<Id>, w: View, n: Id)
    requires Start(v, claims) && n in claims && Settled(v, importing, claims, heard, w)
    ensures Settled(v, importing, claims, heard + {n}, Apply(w, importing, claims[n]))
  {
    var x := Apply(w, importing, claims[n]);
    forall m | m in v.epochs ensures x.epochs[m] == Rank(v, claims, heard + {n}, m) { }
    forall j: nat | j < |x.owner| && j !in importing ensures Wins(v, claims, heard + {n}, j, x.owner[j]) {
      ClaimSettlesSlot(v, claims, heard, j, w.owner[j], n);
    }
  }

  lemma {:induction false} DeliverSettles(v: View, importing: set<nat>, claims: map<Id, Claim>, order: seq<Id>)
    requires Start(v, claims) && Ordered(v, claims, order)
    ensures Settled(v, importing, claims, Heard(order), Deliver(v, importing, claims, order))
    decreases |order|
  {
    if order != [] {
      var last := |order| - 1;
      var front := order[..last];
      DeliverSettles(v, importing, claims, front);
      ClaimSettles(v, importing, claims, Heard(front), Deliver(v, importing, claims, front), order[last]);
      DeliverLast(v, importing, claims, front, order[last]);
      assert front + [order[last]] == order;
    }
  }

  ghost predicate Complete(v: View, claims: map<Id, Claim>, order: seq<Id>) { Ordered(v, claims, order) && claims.Keys <= Heard(order) }

  /** The owner of slot `j` after the claims. */
  ghost function OwnerAfter(v: View, importing: set<nat>, claims: map<Id, Claim>, order: seq<Id>, j: nat): Option<Id>
    requires Start(v, claims) && Ordered(v, claims, order) && j < |v.owner|
  {
    DeliverSettles(v, importing, claims, order);
    Deliver(v, importing, claims, order).owner[j]
  }

  lemma CompleteWins(v: View, importing: set<nat>, claims: map<Id, Claim>, order: seq<Id>, j: nat)
    requires Start(v, claims) && Complete(v, claims, order) && j < |v.owner| && j !in importing
    ensures Wins(v, claims, claims.Keys, j, OwnerAfter(v, importing, claims, order, j))
  {
    DeliverSettles(v, importing, claims, order);
    assert Heard(order) == claims.Keys;
  }

  /**
   Slot claims converge: hearing the claim of every master at least once, in any
   order and with any repetition, leaves a slot that nobody owned with its
   claimant of greatest epoch, and free if nobody claims it.
   */
  lemma SlotClaimsConverge(v: View, importing: set<nat>, claims: map<Id, Claim>, order: seq<Id>, j: nat)
    requires Start(v, claims) && Complete(v, claims, order) && j < |v.owner| && j !in importing && v.owner[j].None?
    ensures match OwnerAfter(v, importing, claims, order, j)
            case None => forall n :: n in claims ==> j !in claims[n].slots
            case Some(w) => w in claims && j in claims[w].slots
                            && forall n :: n in claims && j in claims[n].slots ==> claims[n].epoch <= claims[w].epoch
  {
    CompleteWins(v, importing, claims, order, j);
    assert forall n :: n in claims && j in claims[n].slots ==> Claimant(claims, claims.Keys, j, n);
  }

  /** A slot that is being imported stays where it is, whoever claims it. */
  lemma ImportedSlotStays(v: View, importing: set<nat>, claims: map<Id, Claim>, order: seq<Id>, j: nat)
    requires Start(v, claims) && Ordered(v, claims, order) && j < |v.owner| && j in importing
    ensures OwnerAfter(v, importing, claims, order, j) == v.owner[j]
  {
    DeliverSettles(v, importing, claims, order);
  }

  // ------------------------------------------------------- when the order matters

  /**
   The owner of the slot has moved on to a newer epoch without it, and the
   claimants are between what the table knew of the owner and that.
   */
  ghost predicate Contested(v: View, claims: map<Id, Claim>, j: nat)
    requires ValidView(v) && j < |v.owner|
  {
    && v.owner[j].Some? && v.owner[j].value in claims && j !in claims[v.owner[j].value].slots
    && (exists n :: Claimant(claims, claims.Keys, j, n) && v.epochs[v.owner[j].value] < claims[n].epoch)
    && (forall n :: Claimant(claims, claims.Keys, j, n) ==> claims[n].epoch <= claims[v.owner[j].value].epoch)
  }

  /** There is only one winner of a slot that is not contested. */
  lemma OneWinner(v: View, claims: map<Id, Claim>, j: nat, a: Option<Id>, b: Option<Id>)
    requires Start(v, claims) && j < |v.owner| && !Contested(v, claims, j)
    requires Wins(v, claims, claims.Keys, j, a) && Wins(v, claims, claims.Keys, j, b)
    ensures a == b
  {
  }

  /** All nodes of an order but one. */
  function Others(order: seq<Id>, b: Id): seq<Id> {
    if order == [] then []
    else Others(order[..|order| - 1], b) + if order[|order| - 1] == b then [] else [order[|order| - 1]]
  }

  lemma {:induction false} OthersHeard(order: seq<Id>, b: Id)
    ensures Heard(Others(order, b)) == Heard(order) - {b} && forall i :: 0 <= i < |Others(order, b)| ==> Others(order, b)[i] in order
  {
    if order != [] {
      var front, n := order[..|order| - 1], order[|order| - 1];
      OthersHeard(front, b);
      HeardMore(front, n);
      HeardMore(Others(front, b), n);
      assert front + [n] == order && Others(front, b) + [] == Others(front, b);
    }
  }

  lemma HeardMore(order: seq<Id>, n: Id)
    ensures Heard(order + [n]) == Heard(order) + {n}
  {
    assert forall i :: 0 <= i < |order| ==> (order + [n])[i] == order[i];
    assert (order + [n])[|order|] == n;
    forall m | m in Heard(order) ensures m in Heard(order + [n]) {
      var i :| 0 <= i < |order| && order[i] == m;
      assert (order + [n])[i] == m;
    }
  }

  /** Once the owner of a contested slot is known under its new epoch, it keeps the slot. */
  lemma {:induction false} HeardFirstStays(v: View, importing: set<nat>, claims: map<Id, Claim>, order: seq<Id>, j: nat)
    requires Start(v, claims) && Ordered(v, claims, order) && j < |v.owner| && Contested(v, claims, j)
    requires order != [] && order[0] == v.owner[j].value
    ensures OwnerAfter(v, importing, claims, order, j) == v.owner[j]
    decreases |order|
  {
    var last := |order| - 1;
    var front, n := order[..last], order[last];
    DeliverSettles(v, importing, claims, front);
    assert front + [n] == order;
    DeliverLast(v, importing, claims, front, n);
    if last > 0 {
      HeardFirstStays(v, importing, claims, front, j);
      assert v.owner[j].value in Heard(front);
      assert j in claims[n].slots ==> Claimant(claims, claims.Keys, j, n);
    }
  }

  /** Heard last, it has lost the slot by then. */
  lemma HeardLastLoses(v: View, importing: set<nat>, claims: map<Id, Claim>, order: seq<Id>, j: nat)
    requires Start(v, claims) && Ordered(v, claims, order) && j < |v.owner| && j !in importing && Contested(v, claims, j)
    requires Heard(order) == claims.Keys - {v.owner[j].value}
    ensures Complete(v, claims, order + [v.owner[j].value])
    ensures OwnerAfter(v, importing, claims, order + [v.owner[j].value], j) != v.owner[j]
  {
    var b := v.owner[j].value;
    DeliverSettles(v, importing, claims, order);
    DeliverLast(v, importing, claims, order, b);
    var n :| Claimant(claims, claims.Keys, j, n) && v.epochs[b] < claims[n].epoch;
    assert Claimant(claims, Heard(order), j, n);
  }

  /** Every two complete orders agree on slot `j`. */
  ghost predicate Agree(v: View, importing: set<nat>, claims: map<Id, Claim>, j: nat)
    requires Start(v, claims) && j < |v.owner|
  {
    forall a, b {:trigger Complete(v, claims, a), Complete(v, claims, b)} :: Complete(v, claims, a) && Complete(v, claims, b) ==>
      OwnerAfter(v, importing, claims, a, j) == OwnerAfter(v, importing, claims, b, j)
  }

  /**
   Exactly when the order of the claims matters: whatever the table was before,
   all nodes that hear every claim agree on a slot that is not being imported if
   and only if it is not contested.  `order` is any complete order.
   */
  lemma OrderMattersIffContested(v: View, importing: set<nat>, claims: map<Id, Claim>, order: seq<Id>, j: nat)
    requires Start(v, claims) && Complete(v, claims, order) && j < |v.owner| && j !in importing
    ensures Agree(v, importing, claims, j) <==> !Contested(v, claims, j)
  {
    if Contested(v, claims, j) {
      var b := v.owner[j].value;
      var others := Others(order, b);
      OthersHeard(order, b);
      assert Heard(order) == claims.Keys;
      assert forall i :: 0 <= i < |others| ==> others[i] in claims;
      var late, early := others + [b], [b] + order;
      HeardLastLoses(v, importing, claims, others, j);
      assert Complete(v, claims, early) by { HeardBehind(b, order); }
      HeardFirstStays(v, importing, claims, early, j);
    } else {
      forall a, b | Complete(v, claims, a) && Complete(v, claims, b)
        ensures OwnerAfter(v, importing, claims, a, j) == OwnerAfter(v, importing, claims, b, j)
      {
        CompleteWins(v, importing, claims, a, j);
        CompleteWins(v, importing, claims, b, j);
        OneWinner(v, claims, j, OwnerAfter(v, importing, claims, a, j), OwnerAfter(v, importing, claims, b, j));
      }
    }
  }

  lemma HeardBehind(n: Id, order: seq<Id>)
    ensures Heard(order) <= Heard([n] + order)
  {
    forall m | m in Heard(order) ensures m in Heard([n] + order) {
      var i :| 0 <= i < |order| && order[i] == m;
      assert ([n] + order)[i + 1] == m;
    }
  }

  /** So any two nodes that start without owners and import nothing hold the same slot table after the same claims. */
  lemma OrderDoesNotMatter(v: View, u: View, claims: map<Id, Claim>, order: seq<Id>, other: seq<Id>)
    requires Start(v, claims) && Start(u, claims) && |v.owner| == |u.owner|
    requires forall j :: 0 <= j < |v.owner| ==> v.owner[j].None? && u.owner[j].None?
    requires Complete(v, claims, order) && Complete(u, claims, other)
    ensures Deliver(v, {}, claims, order).owner == Deliver(u, {}, claims, other).owner
  {
    var a, b := Deliver(v, {}, claims, order).owner, Deliver(u, {}, claims, other).owner;
    DeliverSettles(v, {}, claims, order);
    DeliverSettles(u, {}, claims, other);
    forall j: nat | j < |a| ensures a[j] == b[j] {
      SlotClaimsConverge(v, {}, claims, order, j);
      SlotClaimsConverge(u, {}, claims, other, j);
    }
  }

  /** The class `Table` applies a claim exactly as this module does. */
  method ProcessClaim(table: Table, me: Id, curmaster: Id, sender: Id, epoch: Epoch, claimed: seq<bv8>, keys: seq<nat>)
    returns (demote: bool, dirty: seq<nat>)
    requires table.Valid() && sender in table.nodes && curmaster in table.nodes && sender != me
    requires 8 * |claimed| == table.slots.Length == |keys|
    modifies table, table.slots
    ensures table.Valid()
    ensures var c := Claim(sender, epoch, SlotTable.BitsOf(claimed));
            View(table.Owners(), table.Epochs()) == Apply(old(View(table.Owners(), table.Epochs())), old(table.importing.Keys), c)
  {
    demote, dirty := table.ProcessClaim(me, curmaster, sender, epoch, claimed, keys, true, false);
  }
}
