/**
 The greedy printer of a user's command rules.

 It starts from all or nothing, applies the categories that fit best to a
 scratch user, then fixes single commands and lists subcommands.  Interpreting
 what it prints on a fresh user gives back the same bitmap and the same lists.
 */
module AclPrinter {
  import opened Acl
  import opened Options

  // ------------------------------------------------------------- counting bits

  predicate Bit(bits: seq<bool>, id: nat) { id < |bits| && bits[id] }

  predicate Counts(c: Command, bits: seq<bool>, cat: nat, value: bool) { cat in c.categories && Bit(bits, c.id) == value }

  /** How many of the first `k` commands of a category have bit `value`. */
  function Count(t: Table, bits: seq<bool>, cat: nat, value: bool, k: nat): (n: nat)
    requires k <= |t.commands|
    ensures n <= k
  {
    if k == 0 then 0
    else Count(t, bits, cat, value, k - 1) + (if Counts(t.commands[k - 1], bits, cat, value) then 1 else 0)
  }

  method CountCategoryBitsForUser(t: Table, u: User, cat: nat) returns (on: nat, off: nat)
    ensures on == Count(t, u.bits[..], cat, true, |t.commands|) && off == Count(t, u.bits[..], cat, false, |t.commands|)
  {
    on, off := 0, 0;
    var k := 0;
    while k < |t.commands|
      invariant 0 <= k <= |t.commands|
      invariant on == Count(t, u.bits[..], cat, true, k) && off == Count(t, u.bits[..], cat, false, k)
    {
      if cat in t.commands[k].categories {
        var b := u.GetUserCommandBit(t.commands[k].id);
        if b { on := on + 1; } else { off := off + 1; }
      }
      k := k + 1;
    }
  }

  /** The commands of a category that already agree with the temporary user, and those that do not. */
  function Same(t: Table, bits: seq<bool>, cat: nat, additive: bool): nat { Count(t, bits, cat, additive, |t.commands|) }
  function Diff(t: Table, bits: seq<bool>, cat: nat, additive: bool): nat { Count(t, bits, cat, !additive, |t.commands|) }

  predicate Useful(t: Table, bits: seq<bool>, cat: nat, additive: bool) { Same(t, bits, cat, additive) > Diff(t, bits, cat, additive) }

  /** `a` fits at least as well as `b`: fewer differences, or as many and more in common. */
  predicate Fits(t: Table, bits: seq<bool>, additive: bool, a: nat, b: nat) {
    || Diff(t, bits, a, additive) < Diff(t, bits, b, additive)
    || (Diff(t, bits, a, additive) == Diff(t, bits, b, additive) && Same(t, bits, a, additive) >= Same(t, bits, b, additive))
  }

  /** The best category not applied yet, -1 when none has more in common than not. */
  method BestCategory(t: Table, temp: User, applied: set<nat>, additive: bool) returns (best: int)
    requires ValidTable(t)
    ensures best == -1 ==> forall j :: 0 <= j < t.categories && j !in applied ==> !Useful(t, temp.bits[..], j, additive)
    ensures best != -1 ==> 0 <= best < t.categories && best !in applied && Useful(t, temp.bits[..], best, additive)
    ensures best != -1 ==> forall j :: 0 <= j < t.categories && j !in applied && Useful(t, temp.bits[..], j, additive)
                                       ==> Fits(t, temp.bits[..], additive, best, j)
  {
    best := -1;
    var mindiff, maxsame := INT_MAX, 0;
    var j := 0;
    while j < t.categories
      invariant 0 <= j <= t.categories
      invariant best == -1 ==> mindiff == INT_MAX && maxsame == 0
      invariant best == -1 ==> forall i :: 0 <= i < j && i !in applied ==> !Useful(t, temp.bits[..], i, additive)
      invariant best != -1 ==> 0 <= best < j && best !in applied && Useful(t, temp.bits[..], best, additive)
      invariant best != -1 ==> mindiff == Diff(t, temp.bits[..], best, additive) && maxsame == Same(t, temp.bits[..], best, additive)
      invariant best != -1 ==> forall i :: 0 <= i < j && i !in applied && Useful(t, temp.bits[..], i, additive)
                                           ==> Fits(t, temp.bits[..], additive, best, i)
    {
      if j !in applied {
        var on, off := CountCategoryBitsForUser(t, temp, j);
        var diff := if additive then off else on;
        var same := if additive then on else off;
        if same > diff && (diff < mindiff || (diff == mindiff && same > maxsame)) {
          best, mindiff, maxsame := j, diff, same;
        }
      }
      j := j + 1;
    }
  }

  // ------------------------------------------------------ the single-command pass

  function SubRules(id: nat, subs: seq<string>): seq<Rule> {
    seq(|subs|, i requires 0 <= i < |subs| => Subcommand(id, subs[i]))
  }

  /** The rules that bring command `id` from its value in `f` to its value in `u`. */
  function FixOne(u: UserValue, f: UserValue, id: nat): seq<Rule> {
    (if Bit(u.bits, id) != Bit(f.bits, id) then [Single(Bit(u.bits, id), id)] else [])
    + (if Bit(u.bits, id) then [] else SubRules(id, SubsOf(u, id)))
  }

  function Fixes(t: Table, u: UserValue, f: UserValue, k: nat): seq<Rule>
    requires k <= |t.commands|
  {
    if k == 0 then [] else Fixes(t, u, f, k - 1) + FixOne(u, f, t.commands[k - 1].id)
  }

  lemma {:induction false} ApplyAllAppend(t: Table, u: UserValue, a: seq<Rule>, b: seq<Rule>)
    ensures ApplyAll(t, u, a + b) == ApplyAll(t, ApplyAll(t, u, a), b)
    decreases |b|
  {
    if b == [] {
      assert a + b == a;
    } else {
      ApplyAllAppend(t, u, a, b[..|b| - 1]);
      assert (a + b)[..|a + b| - 1] == a + b[..|b| - 1];
    }
  }

  lemma ApplyLast(t: Table, u: UserValue, rs: seq<Rule>, r: Rule)
    ensures ApplyAll(t, u, rs + [r]) == Apply(t, ApplyAll(t, u, rs), r)
  {
    assert (rs + [r])[..|rs|] == rs;
  }

  lemma LastSubRule(id: nat, subs: seq<string>, sub: string)
    ensures SubRules(id, subs + [sub]) == SubRules(id, subs) + [Subcommand(id, sub)]
  {
  }

  /** The user with the list of one command added. */
  function WithList(g: UserValue, id: nat, subs: seq<string>): UserValue {
    if subs == [] then g else g.(subs := g.subs[id := subs])
  }

  lemma SubStep(t: Table, g: UserValue, id: nat, subs: seq<string>, sub: string)
    requires Known(t, id) && sub != "" && id < |g.bits| && !g.bits[id] && id !in g.subs && !Holds(subs, sub)
    ensures Apply(t, WithList(g, id, subs), Subcommand(id, sub)) == WithList(g, id, subs + [sub])
  {
    var m := WithList(g, id, subs);
    assert SubsOf(m, id) == subs;
    assert m.subs[id := subs + [sub]] == g.subs[id := subs + [sub]];
  }

  lemma NewSub(subs: seq<string>, n: nat)
    requires GoodList(subs) && n == |subs| - 1
    ensures !Holds(subs[..n], subs[n]) && (subs[..n] == [] || GoodList(subs[..n])) && subs[..n] + [subs[n]] == subs
  {
  }

  /** Listing subcommands one by one rebuilds the list. */
  lemma {:induction false} SubRulesRebuild(t: Table, g: UserValue, id: nat, subs: seq<string>)
    requires Known(t, id) && id < |g.bits| && !g.bits[id] && id !in g.subs && (subs == [] || GoodList(subs))
    ensures ApplyAll(t, g, SubRules(id, subs)) == WithList(g, id, subs)
    decreases |subs|
  {
    if subs != [] {
      var n := |subs| - 1;
      NewSub(subs, n);
      SubRulesRebuild(t, g, id, subs[..n]);
      LastSubRule(id, subs[..n], subs[n]);
      ApplyLast(t, g, SubRules(id, subs[..n]), Subcommand(id, subs[n]));
      SubStep(t, g, id, subs[..n], subs[n]);
    }
  }

  /** What fixing one command does: it gets the user's bit and list, and nothing else changes. */
  lemma FixOneRebuilds(t: Table, u: UserValue, f: UserValue, g: UserValue, id: nat)
    requires Inv(t, u) && Known(t, id) && |g.bits| == |f.bits| == t.width && id < t.width
    requires g.bits[id] == f.bits[id] && id !in g.subs
    ensures var h := ApplyAll(t, g, FixOne(u, f, id));
            && h.bits == g.bits[id := u.bits[id]]
            && h.subs == if id in u.subs then g.subs[id := u.subs[id]] else g.subs
  {
    var a := if Bit(u.bits, id) != Bit(f.bits, id) then [Single(Bit(u.bits, id), id)] else [];
    var b := if Bit(u.bits, id) then [] else SubRules(id, SubsOf(u, id));
    ApplyAllAppend(t, g, a, b);
    var m := ApplyAll(t, g, a);
    assert m.bits == g.bits[id := u.bits[id]] && m.subs == g.subs by { FixBit(t, u, f, g, id); }
    if !Bit(u.bits, id) { SubRulesRebuild(t, m, id, SubsOf(u, id)); }
  }

  lemma FixBit(t: Table, u: UserValue, f: UserValue, g: UserValue, id: nat)
    requires Known(t, id) && |u.bits| == |g.bits| == |f.bits| && id < |u.bits| && g.bits[id] == f.bits[id] && id !in g.subs
    ensures var a := if Bit(u.bits, id) != Bit(f.bits, id) then [Single(Bit(u.bits, id), id)] else [];
            var m := ApplyAll(t, g, a);
            m.bits == g.bits[id := u.bits[id]] && m.subs == g.subs
  {
    if Bit(u.bits, id) != Bit(f.bits, id) {
      var r := Single(Bit(u.bits, id), id);
      assert [r][..0] == [];
      assert ApplyAll(t, g, [r]) == Apply(t, g, r);
      assert g.subs - {id} == g.subs;
    }
  }

  /** Id `j` belongs to one of the first `k` commands. */
  predicate Among(t: Table, k: nat, j: int)
    requires k <= |t.commands|
  {
    exists i :: 0 <= i < k && t.commands[i].id == j
  }

  /** `h` has the user's bits and lists for the first `k` commands, and those of `f` for the rest. */
  ghost predicate Fixed(t: Table, u: UserValue, f: UserValue, h: UserValue, k: nat)
    requires k <= |t.commands| && |u.bits| == |f.bits|
  {
    && |h.bits| == |f.bits|
    && (forall j :: 0 <= j < |h.bits| ==> h.bits[j] == if Among(t, k, j) then u.bits[j] else f.bits[j])
    && (forall j: nat :: j in h.subs <==> j in u.subs && Among(t, k, j))
    && (forall j: nat :: j in h.subs ==> h.subs[j] == u.subs[j])
  }

  lemma FixedStep(t: Table, u: UserValue, f: UserValue, g: UserValue, h: UserValue, k: nat)
    requires 0 < k <= |t.commands| && |u.bits| == |f.bits| && Fixed(t, u, f, g, k - 1)
    requires t.commands[k - 1].id < |f.bits|
    requires var id := t.commands[k - 1].id;
             && h.bits == g.bits[id := u.bits[id]]
             && h.subs == if id in u.subs then g.subs[id := u.subs[id]] else g.subs
    ensures Fixed(t, u, f, h, k)
  {
    forall j: int ensures Among(t, k, j) <==> Among(t, k - 1, j) || j == t.commands[k - 1].id { AmongStep(t, k, j); }
  }

  lemma NewId(t: Table, k: nat)
    requires ValidTable(t) && 0 < k <= |t.commands|
    ensures var id := t.commands[k - 1].id;
            id < t.width && Known(t, id) && !Among(t, k - 1, id)
  {
  }

  lemma {:induction false} FixesRebuild(t: Table, u: UserValue, f: UserValue, k: nat)
    requires ValidTable(t) && Inv(t, u) && |f.bits| == t.width && f.subs == map[] && k <= |t.commands|
    ensures Fixed(t, u, f, ApplyAll(t, f, Fixes(t, u, f, k)), k)
  {
    if k > 0 {
      var id := t.commands[k - 1].id;
      var g := ApplyAll(t, f, Fixes(t, u, f, k - 1));
      FixesRebuild(t, u, f, k - 1);
      ApplyAllAppend(t, f, Fixes(t, u, f, k - 1), FixOne(u, f, id));
      NewId(t, k);
      assert g.bits[id] == f.bits[id] && id !in g.subs;
      FixOneRebuilds(t, u, f, g, id);
      FixedStep(t, u, f, g, ApplyAll(t, g, FixOne(u, f, id)), k);
    }
  }

  lemma AmongStep(t: Table, k: nat, j: int)
    requires 0 < k <= |t.commands|
    ensures Among(t, k, j) <==> Among(t, k - 1, j) || j == t.commands[k - 1].id
  {
  }

  lemma AllFixed(t: Table, u: UserValue, f: UserValue, h: UserValue)
    requires Inv(t, u) && Inv(t, f) && Fixed(t, u, f, h, |t.commands|)
    requires f.bits[t.width - 1] == u.bits[t.width - 1]
    ensures h.bits == u.bits && h.subs == u.subs
  {
    forall j: nat ensures Among(t, |t.commands|, j) == Known(t, j) { }
    assert forall j :: 0 <= j < t.width ==> h.bits[j] == u.bits[j];
  }

  /** Any start that agrees with the user on the reserved bit and lists no subcommand is completed exactly. */
  lemma FixesComplete(t: Table, u: UserValue, f: UserValue, rules: seq<Rule>)
    requires ValidTable(t) && Inv(t, u) && Inv(t, f) && f == ApplyAll(t, Fresh(t), rules)
    requires f.subs == map[] && f.bits[t.width - 1] == u.bits[t.width - 1]
    ensures var g := ApplyAll(t, Fresh(t), rules + Fixes(t, u, f, |t.commands|));
            g.bits == u.bits && g.subs == u.subs
  {
    FixesRebuild(t, u, f, |t.commands|);
    ApplyAllAppend(t, Fresh(t), rules, Fixes(t, u, f, |t.commands|));
    AllFixed(t, u, f, ApplyAll(t, f, Fixes(t, u, f, |t.commands|)));
  }

  // ----------------------------------------------------------- the category pass

  /** How many of the first `k` commands have different bits in the two maps. */
  function Mismatch(t: Table, a: seq<bool>, b: seq<bool>, k: nat): nat
    requires k <= |t.commands|
  {
    if k == 0 then 0
    else Mismatch(t, a, b, k - 1) + (if Bit(a, t.commands[k - 1].id) != Bit(b, t.commands[k - 1].id) then 1 else 0)
  }

  /** How many subcommands the user is allowed. */
  function SubCount(t: Table, u: UserValue, k: nat): nat
    requires k <= |t.commands|
  {
    if k == 0 then 0 else SubCount(t, u, k - 1) + |SubsOf(u, t.commands[k - 1].id)|
  }

  lemma {:induction false} FixesLength(t: Table, u: UserValue, f: UserValue, k: nat)
    requires Inv(t, u) && k <= |t.commands|
    ensures |Fixes(t, u, f, k)| == Mismatch(t, u.bits, f.bits, k) + SubCount(t, u, k)
  {
    if k > 0 { FixesLength(t, u, f, k - 1); }
  }

  /** Commands loaded by modules are in no category. */
  ghost predicate ModuleFree(t: Table) {
    forall k :: 0 <= k < |t.commands| && t.commands[k].isModule ==> t.commands[k].categories == {}
  }

  /** A bit the temporary user still asks for is one the user has and the scratch user lacks. */
  ghost predicate Tracks(u: seq<bool>, f: seq<bool>, temp: seq<bool>, want: bool) {
    && |u| == |f| == |temp|
    && forall j :: 0 <= j < |temp| && temp[j] == want ==> u[j] == want && f[j] == !want
  }

  /** `b` is `a` with the commands of a category set. */
  ghost predicate SetBy(t: Table, cat: nat, on: bool, a: seq<bool>, b: seq<bool>) {
    && |a| == |b|
    && (forall j :: 0 <= j < |a| ==> b[j] == if InCategory(t, cat, |t.commands|, j) then on else a[j])
  }

  lemma SetByCategory(t: Table, cat: nat, k: nat)
    requires ValidTable(t) && ModuleFree(t) && k < |t.commands|
    ensures InCategory(t, cat, |t.commands|, t.commands[k].id) == (cat in t.commands[k].categories)
  {
  }

  /** Every command the category gets right pays for one it gets wrong. */
  lemma {:induction false} CategoryGains(t: Table, u: seq<bool>, f: seq<bool>, f': seq<bool>, temp: seq<bool>, cat: nat, want: bool, k: nat)
    requires ValidTable(t) && ModuleFree(t) && k <= |t.commands| && |u| == t.width
    requires Tracks(u, f, temp, want) && SetBy(t, cat, want, f, f')
    ensures Mismatch(t, u, f', k) + Count(t, temp, cat, want, k) <= Mismatch(t, u, f, k) + Count(t, temp, cat, !want, k)
  {
    if k > 0 {
      CategoryGains(t, u, f, f', temp, cat, want, k - 1);
      SetByCategory(t, cat, k - 1);
    }
  }

  lemma CategorySets(t: Table, v: UserValue, cat: nat, on: bool)
    requires ValidTable(t) && cat < t.categories && |v.bits| == t.width
    ensures var w := Apply(t, v, Category(on, cat));
            && SetBy(t, cat, on, v.bits, w.bits)
            && w.bits[t.width - 1] == v.bits[t.width - 1]
            && (v.subs == map[] ==> w.subs == map[])
  {
    WithCategoryBits(t, v, cat, on, |t.commands|);
  }

  lemma TracksStep(t: Table, cat: nat, want: bool, u: seq<bool>, f: seq<bool>, f': seq<bool>, temp: seq<bool>, temp': seq<bool>)
    requires Tracks(u, f, temp, want) && SetBy(t, cat, want, f, f') && SetBy(t, cat, !want, temp, temp')
    ensures Tracks(u, f', temp', want)
  {
  }

  /** Put category `best` into the scratch user and take it out of the temporary one. */
  method ApplyBest(t: Table, ghost u: UserValue, fake: User, temp: User, best: nat, additive: bool)
    requires ValidTable(t) && best < t.categories && |u.bits| == t.width
    requires fake != temp && fake.bits != temp.bits && fake.subs == map[]
    requires Tracks(u.bits, fake.bits[..], temp.bits[..], additive)
    modifies fake, fake.bits, temp, temp.bits
    ensures fake.Value() == Apply(t, old(fake.Value()), Category(additive, best))
    ensures fake.subs == map[] && fake.bits[t.width - 1] == old(fake.bits[t.width - 1])
    ensures Tracks(u.bits, fake.bits[..], temp.bits[..], additive)
    ensures (ModuleFree(t) && old(Useful(t, temp.bits[..], best, additive))) ==>
              Mismatch(t, u.bits, fake.bits[..], |t.commands|) < old(Mismatch(t, u.bits, fake.bits[..], |t.commands|))
  {
    ghost var f, tmp := fake.Value(), temp.Value();
    var _ := fake.SetUser(t, Category(additive, best));
    var _ := temp.SetUser(t, Category(!additive, best));
    CategorySets(t, f, best, additive);
    CategorySets(t, tmp, best, !additive);
    TracksStep(t, best, additive, u.bits, f.bits, fake.bits[..], tmp.bits, temp.bits[..]);
    assert f.bits == old(fake.bits[..]) && tmp.bits == old(temp.bits[..]);
    if ModuleFree(t) { CategoryGains(t, u.bits, f.bits, fake.bits[..], tmp.bits, best, additive, |t.commands|); }
  }

  ghost function Below(n: nat): (s: set<nat>)
    ensures forall j: nat :: j in s <==> j < n
  {
    if n == 0 then {} else Below(n - 1) + {n - 1}
  }

  /** The greedy loop: it ends because every pass uses up a category. */
  method PickCategories(t: Table, ghost u: UserValue, fake: User, temp: User, additive: bool) returns (rules: seq<Rule>)
    requires ValidTable(t) && |u.bits| == t.width
    requires fake != temp && fake.bits != temp.bits
    requires fake.Value() == ApplyAll(t, Fresh(t), [All(!additive)]) && fake.subs == map[]
    requires Tracks(u.bits, fake.bits[..], temp.bits[..], additive)
    modifies fake, fake.bits, temp, temp.bits
    ensures fake.Value() == ApplyAll(t, Fresh(t), rules) && fake.subs == map[] && fake.bits.Length == t.width
    ensures fake.bits[t.width - 1] == old(fake.bits[t.width - 1])
    ensures ModuleFree(t) ==> |rules| + Mismatch(t, u.bits, fake.bits[..], |t.commands|)
                              <= 1 + old(Mismatch(t, u.bits, fake.bits[..], |t.commands|))
  {
    rules := [All(!additive)];
    var applied: set<nat> := {};
    while true
      invariant fake.Value() == ApplyAll(t, Fresh(t), rules) && fake.subs == map[]
      invariant Tracks(u.bits, fake.bits[..], temp.bits[..], additive)
      invariant fake.bits[t.width - 1] == old(fake.bits[t.width - 1])
      invariant ModuleFree(t) ==> |rules| + Mismatch(t, u.bits, fake.bits[..], |t.commands|)
                                  <= 1 + old(Mismatch(t, u.bits, fake.bits[..], |t.commands|))
      decreases Below(t.categories) - applied
    {
      var best := BestCategory(t, temp, applied, additive);
      if best == -1 { break; }
      ApplyBest(t, u, fake, temp, best, additive);
      ApplyLast(t, Fresh(t), rules, Category(additive, best));
      rules := rules + [Category(additive, best)];
      assert best in Below(t.categories) - applied;
      applied := applied + {best};
    }
  }

  // -------------------------------------------------------------- the printer

  method ListSubcommands(id: nat, list: seq<string>) returns (rules: seq<Rule>)
    ensures rules == SubRules(id, list)
  {
    rules := [];
    var j := 0;
    while j < |list|
      invariant 0 <= j <= |list| && rules == SubRules(id, list[..j])
    {
      rules := rules + [Subcommand(id, list[j])];
      assert list[..j + 1] == list[..j] + [list[j]];
      j := j + 1;
    }
    assert list[..j] == list;
  }

  /** Fix one command: only its bit in the scratch user changes. */
  method FixCommand(u: User, fake: User, id: nat) returns (rules: seq<Rule>)
    requires u != fake && u.bits != fake.bits && u.bits.Length == fake.bits.Length && id < u.bits.Length
    modifies fake, fake.bits
    ensures rules == FixOne(u.Value(), old(fake.Value()), id)
    ensures fake.bits[..] == old(fake.bits[..])[id := u.bits[id]]
  {
    var userBit := u.GetUserCommandBit(id);
    var fakeBit := fake.GetUserCommandBit(id);
    rules := [];
    if userBit != fakeBit {
      rules := [Single(userBit, id)];
      fake.SetUserCommandBit(id, userBit);
    }
    if !userBit && id in u.subs {
      var more := ListSubcommands(id, u.subs[id]);
      rules := rules + more;
    }
  }

  /** The scratch bits once the first `k` commands are fixed. */
  ghost predicate Copied(t: Table, u: seq<bool>, f: seq<bool>, h: seq<bool>, k: nat)
    requires k <= |t.commands|
  {
    && |h| == |f| == |u|
    && (forall j :: 0 <= j < |h| ==> h[j] == if Among(t, k, j) then u[j] else f[j])
  }

  lemma CopiedStep(t: Table, u: seq<bool>, f: seq<bool>, h: seq<bool>, h': seq<bool>, k: nat)
    requires 0 < k <= |t.commands| && Copied(t, u, f, h, k - 1) && t.commands[k - 1].id < |h|
    requires h' == h[t.commands[k - 1].id := u[t.commands[k - 1].id]]
    ensures Copied(t, u, f, h', k)
  {
    forall j: int ensures Among(t, k, j) <==> Among(t, k - 1, j) || j == t.commands[k - 1].id { AmongStep(t, k, j); }
  }

  lemma FixDependsOnBit(u: UserValue, f: UserValue, h: UserValue, id: nat)
    requires Bit(f.bits, id) == Bit(h.bits, id)
    ensures FixOne(u, f, id) == FixOne(u, h, id)
  {
  }

  /** The final pass: single commands and subcommands. */
  method FixSingles(t: Table, u: User, fake: User) returns (rules: seq<Rule>)
    requires ValidTable(t) && u != fake && u.bits != fake.bits && u.bits.Length == fake.bits.Length == t.width
    modifies fake, fake.bits
    ensures rules == Fixes(t, u.Value(), old(fake.Value()), |t.commands|)
    ensures Copied(t, u.bits[..], old(fake.bits[..]), fake.bits[..], |t.commands|)
  {
    rules := [];
    ghost var f := fake.Value();
    var k := 0;
    while k < |t.commands|
      invariant 0 <= k <= |t.commands|
      invariant rules == Fixes(t, u.Value(), f, k)
      invariant Copied(t, u.bits[..], f.bits, fake.bits[..], k)
    {
      NewId(t, k + 1);
      FixDependsOnBit(u.Value(), f, fake.Value(), t.commands[k].id);
      ghost var h := fake.bits[..];
      var more := FixCommand(u, fake, t.commands[k].id);
      CopiedStep(t, u.bits[..], f.bits, h, fake.bits[..], k + 1);
      rules := rules + more;
      k := k + 1;
    }
  }

  lemma AllCopied(t: Table, u: UserValue, f: UserValue, h: seq<bool>)
    requires Inv(t, u) && Inv(t, f) && Copied(t, u.bits, f.bits, h, |t.commands|)
    requires f.bits[t.width - 1] == u.bits[t.width - 1]
    ensures h == u.bits
  {
    forall j: nat ensures Among(t, |t.commands|, j) == Known(t, j) { }
    assert forall j :: 0 <= j < t.width ==> h[j] == u.bits[j];
  }

  /** A bitmap with the same bit everywhere. */
  function Uniform(n: nat, b: bool): seq<bool> { seq(n, _ => b) }

  /** The scratch user starts from all or nothing, the temporary one from the user's bitmap. */
  method ScratchUsers(t: Table, u: User, future: bool) returns (fake: User, temp: User)
    requires u.bits.Length == t.width
    ensures fresh(fake) && fresh(fake.bits) && fresh(temp) && fresh(temp.bits) && fake != temp && fake.bits != temp.bits
    ensures fake.Value() == ApplyAll(t, Fresh(t), [All(future)]) && temp.bits[..] == u.bits[..]
    ensures fake.subs == map[] && fake.bits[..] == Uniform(t.width, future)
  {
    fake := new User(t);
    var _ := fake.SetUser(t, All(future));
    ApplyLast(t, Fresh(t), [], All(future));
    temp := new User(t);
    forall j | 0 <= j < t.width { temp.bits[j] := u.bits[j]; }
  }

  lemma PrintedRebuilds(t: Table, u: UserValue, f: UserValue, rules: seq<Rule>)
    requires ValidTable(t) && Inv(t, u) && f == ApplyAll(t, Fresh(t), rules)
    requires f.subs == map[] && |f.bits| == t.width && f.bits[t.width - 1] == u.bits[t.width - 1]
    ensures Inv(t, f)
    ensures var more := Fixes(t, u, f, |t.commands|);
            var g := ApplyAll(t, Fresh(t), rules + more);
            && g.bits == u.bits && g.subs == u.subs
            && |more| == Mismatch(t, u.bits, f.bits, |t.commands|) + SubCount(t, u, |t.commands|)
  {
    EveryUserKeepsInv(t, rules);
    FixesLength(t, u, f, |t.commands|);
    FixesComplete(t, u, f, rules);
  }

  /** The categories chosen for a user, with the scratch user they were applied to. */
  method DescribeCategories(t: Table, u: User, future: bool) returns (rules: seq<Rule>, fake: User)
    requires ValidTable(t) && u.bits.Length == t.width && future == u.bits[t.width - 1]
    ensures fresh(fake) && fresh(fake.bits) && fake.bits.Length == t.width
    ensures fake.Value() == ApplyAll(t, Fresh(t), rules) && fake.subs == map[] && fake.bits[t.width - 1] == future
    ensures ModuleFree(t) ==> |rules| + Mismatch(t, u.bits[..], fake.bits[..], |t.commands|)
                              <= 1 + Mismatch(t, u.bits[..], Uniform(t.width, future), |t.commands|)
  {
    var temp;
    fake, temp := ScratchUsers(t, u, future);
    rules := PickCategories(t, u.Value(), fake, temp, !future);
  }

  /** Rules that rebuild bitmap and lists, as the printed ones do, permit what the rules that were given permit. */
  lemma PrintedPermitsTheSame(t: Table, given: seq<Rule>, printed: seq<Rule>, id: nat, arg: Option<string>)
    requires ValidTable(t) && Known(t, id)
    requires ApplyAll(t, Fresh(t), printed).bits == ApplyAll(t, Fresh(t), given).bits
    requires ApplyAll(t, Fresh(t), printed).subs == ApplyAll(t, Fresh(t), given).subs
    ensures Permitted(t, printed, id, arg) <==> Permitted(t, given, id, arg)
  {
    RulesMeanPermissions(t, given, id, arg);
    RulesMeanPermissions(t, printed, id, arg);
    EveryUserKeepsInv(t, given);
    EveryUserKeepsFlag(t, given);
    EveryUserKeepsFlag(t, printed);
  }

  /**
   The printer.  The scratch bitmap ends equal to the user's, so the panic is
   never reached; a fresh user given the printed rules has the user's bitmap and
   subcommand lists; and there are never more rules than naming the commands one
   by one would need.
   */
  method DescribeUserCommandRules(t: Table, u: User) returns (rules: seq<Rule>)
    requires ValidTable(t) && Inv(t, u.Value())
    ensures var g := ApplyAll(t, Fresh(t), rules);
            g.bits == u.bits[..] && g.subs == u.subs
    ensures ModuleFree(t) ==>
              |rules| <= 1 + Mismatch(t, u.bits[..], Uniform(t.width, u.bits[t.width - 1]), |t.commands|)
                         + SubCount(t, u.Value(), |t.commands|)
  {
    var future := u.GetUserCommandBit(t.width - 1);
    var fake;
    rules, fake := DescribeCategories(t, u, future);
    ghost var f := fake.Value();
    PrintedRebuilds(t, u.Value(), f, rules);
    var more := FixSingles(t, u, fake);
    AllCopied(t, u.Value(), f, fake.bits[..]);
    assert fake.bits[..] == u.bits[..];
    rules := rules + more;
  }
}
