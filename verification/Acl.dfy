/**
 Command permissions of a user: a bitmap over command ids and, for commands that
 are not allowed as a whole, a list of allowed subcommands.

 Rules change a user one by one.  A greedy printer turns a user back into rules;
 interpreting those rules on a fresh user must give the same permissions, and
 the server panics if it does not.
 */
module Acl {
  import opened Options

  // ---------------------------------------------------------------- the table

  datatype Command = Command(id: nat, categories: set<nat>, isModule: bool)

  /** The commands in the order the server lists them, the number of categories, and the width of the user bitmap. */
  datatype Table = Table(commands: seq<Command>, categories: nat, width: nat)

  const INT_MAX: nat := 0x7fff_ffff

  /** Command ids are distinct and never the last bit, which is reserved for "future commands". */
  ghost predicate ValidTable(t: Table) {
    && 0 < t.width && |t.commands| < INT_MAX
    && (forall k :: 0 <= k < |t.commands| ==> t.commands[k].id < t.width - 1)
    && (forall j, k :: 0 <= j < k < |t.commands| ==> t.commands[j].id != t.commands[k].id)
  }

  predicate Known(t: Table, id: nat) { exists k :: 0 <= k < |t.commands| && t.commands[k].id == id }

  // -------------------------------------------------------------------- rules

  datatype Rule =
    | All(on: bool)
    | Category(on: bool, cat: nat)
    | Single(on: bool, id: nat)
    | Subcommand(id: nat, sub: string)

  /** A user as a value.  `all` is the flag that lets the server skip the bitmap. */
  datatype UserValue = UserValue(bits: seq<bool>, subs: map<nat, seq<string>>, all: bool)

  function Fresh(t: Table): UserValue { UserValue(seq(t.width, _ => false), map[], false) }

  function Lower(s: string): (r: string)
    ensures |r| == |s|
  {
    seq(|s|, i requires 0 <= i < |s| => if 'A' <= s[i] <= 'Z' then s[i] + 32 as char else s[i])
  }

  /** The same letter, in either case. */
  predicate SameLetter(x: char, y: char) {
    x == y || ('A' <= x <= 'Z' && y as int == x as int + 32) || ('A' <= y <= 'Z' && x as int == y as int + 32)
  }

  /** Two words are the same in lower case exactly when they differ at most in the case of ASCII letters. */
  lemma LowerIgnoresCase(a: string, b: string)
    ensures Lower(a) == Lower(b) <==> |a| == |b| && forall i :: 0 <= i < |a| ==> SameLetter(a[i], b[i])
  {
    if |a| == |b| {
      forall i | 0 <= i < |a| ensures Lower(a)[i] == Lower(b)[i] <==> SameLetter(a[i], b[i]) { }
      if Lower(a) == Lower(b) { assert forall i :: 0 <= i < |a| ==> Lower(a)[i] == Lower(b)[i]; }
    }
  }

  /** The list already holds the subcommand, in any case. */
  predicate Holds(subs: seq<string>, sub: string) { exists i :: 0 <= i < |subs| && Lower(subs[i]) == Lower(sub) }

  function SubsOf(u: UserValue, id: nat): seq<string> { if id in u.subs then u.subs[id] else [] }

  /** Set one bit and forget the subcommands of that command. */
  function WithBit(u: UserValue, id: nat, on: bool): UserValue {
    if id < |u.bits| then UserValue(u.bits[id := on], u.subs - {id}, u.all && on) else u.(subs := u.subs - {id})
  }

  /** The effect of a category rule on the first `k` commands. */
  function WithCategory(t: Table, u: UserValue, cat: nat, on: bool, k: nat): UserValue
    requires k <= |t.commands|
  {
    if k == 0 then u
    else
      var v := WithCategory(t, u, cat, on, k - 1);
      var c := t.commands[k - 1];
      if !c.isModule && cat in c.categories then WithBit(v, c.id, on) else v
  }

  function WithSub(u: UserValue, id: nat, sub: string): UserValue {
    if id < |u.bits| && u.bits[id] then u
    else if Holds(SubsOf(u, id), sub) then u
    else u.(subs := u.subs[id := SubsOf(u, id) + [sub]])
  }

  predicate Accepts(t: Table, r: Rule) {
    match r
    case All(_) => true
    case Category(_, cat) => cat < t.categories
    case Single(_, id) => Known(t, id)
    case Subcommand(id, sub) => Known(t, id) && sub != ""
  }

  /** Interpret one rule; a rule that is not accepted changes nothing. */
  function Apply(t: Table, u: UserValue, r: Rule): UserValue {
    if !Accepts(t, r) then u
    else match r
      case All(on) => UserValue(seq(|u.bits|, _ => on), map[], on)
      case Category(on, cat) => WithCategory(t, u, cat, on, |t.commands|)
      case Single(on, id) => WithBit(u, id, on)
      case Subcommand(id, sub) => WithSub(u, id, sub)
  }

  function ApplyAll(t: Table, u: UserValue, rs: seq<Rule>): UserValue
    decreases |rs|
  {
    if rs == [] then u else Apply(t, ApplyAll(t, u, rs[..|rs| - 1]), rs[|rs| - 1])
  }

  // ------------------------------------------------- what every rule preserves

  /** The list holds no subcommand twice and no empty one. */
  ghost predicate GoodList(subs: seq<string>) {
    && subs != []
    && (forall i :: 0 <= i < |subs| ==> subs[i] != "")
    && (forall i, j :: 0 <= i < j < |subs| ==> Lower(subs[i]) != Lower(subs[j]))
  }

  /**
   Bits of no command agree with the reserved bit; subcommands are listed only
   for known commands that are not allowed as a whole.
   */
  ghost predicate Inv(t: Table, u: UserValue) {
    && |u.bits| == t.width > 0
    && (forall j :: 0 <= j < t.width && !Known(t, j) ==> u.bits[j] == u.bits[t.width - 1])
    && (forall id :: id in u.subs ==> Known(t, id) && id < t.width && !u.bits[id] && GoodList(u.subs[id]))
  }

  lemma WithBitKeepsInv(t: Table, u: UserValue, id: nat, on: bool)
    requires ValidTable(t) && Inv(t, u) && Known(t, id)
    ensures Inv(t, WithBit(u, id, on))
  {
  }

  lemma {:induction false} WithCategoryKeepsInv(t: Table, u: UserValue, cat: nat, on: bool, k: nat)
    requires ValidTable(t) && Inv(t, u) && k <= |t.commands|
    ensures Inv(t, WithCategory(t, u, cat, on, k))
  {
    if k > 0 {
      WithCategoryKeepsInv(t, u, cat, on, k - 1);
      WithBitKeepsInv(t, WithCategory(t, u, cat, on, k - 1), t.commands[k - 1].id, on);
    }
  }

  lemma WithSubKeepsInv(t: Table, u: UserValue, id: nat, sub: string)
    requires ValidTable(t) && Inv(t, u) && Known(t, id) && sub != ""
    ensures Inv(t, WithSub(u, id, sub))
  {
    var l := SubsOf(u, id);
    if !Holds(l, sub) {
      assert forall i :: 0 <= i < |l| ==> Lower(l[i]) != Lower(sub);
      assert GoodList(l + [sub]);
    }
  }

  lemma ApplyKeepsInv(t: Table, u: UserValue, r: Rule)
    requires ValidTable(t) && Inv(t, u)
    ensures Inv(t, Apply(t, u, r))
  {
    if Accepts(t, r) {
      match r
      case All(on) =>
      case Category(on, cat) => WithCategoryKeepsInv(t, u, cat, on, |t.commands|);
      case Single(on, id) => WithBitKeepsInv(t, u, id, on);
      case Subcommand(id, sub) => WithSubKeepsInv(t, u, id, sub);
    }
  }

  /** Whatever rules an administrator applied, the invariant holds. */
  lemma {:induction false} EveryUserKeepsInv(t: Table, rs: seq<Rule>)
    requires ValidTable(t)
    ensures Inv(t, ApplyAll(t, Fresh(t), rs))
    decreases |rs|
  {
    if rs != [] {
      EveryUserKeepsInv(t, rs[..|rs| - 1]);
      ApplyKeepsInv(t, ApplyAll(t, Fresh(t), rs[..|rs| - 1]), rs[|rs| - 1]);
    }
  }

  /** What a category rule does to each bit. */
  lemma {:induction false} WithCategoryBits(t: Table, u: UserValue, cat: nat, on: bool, k: nat)
    requires k <= |t.commands|
    ensures var v := WithCategory(t, u, cat, on, k);
            && |v.bits| == |u.bits|
            && (forall j :: 0 <= j < |u.bits| ==> v.bits[j] == if InCategory(t, cat, k, j) then on else u.bits[j])
            && (forall id :: id in v.subs ==> id in u.subs)
  {
    if k > 0 {
      WithCategoryBits(t, u, cat, on, k - 1);
      var c := t.commands[k - 1];
      forall j | 0 <= j < |u.bits|
        ensures InCategory(t, cat, k, j) <==> InCategory(t, cat, k - 1, j) || (c.id == j && !c.isModule && cat in c.categories)
      {
        InCategoryStep(t, cat, k, j);
      }
    }
  }

  /** Id `j` belongs to one of the first `k` commands, which is in the category and not a module's. */
  predicate InCategory(t: Table, cat: nat, k: nat, j: int)
    requires k <= |t.commands|
  {
    exists i :: 0 <= i < k && t.commands[i].id == j && !t.commands[i].isModule && cat in t.commands[i].categories
  }

  lemma InCategoryStep(t: Table, cat: nat, k: nat, j: int)
    requires 0 < k <= |t.commands|
    ensures var c := t.commands[k - 1];
            InCategory(t, cat, k, j) <==> InCategory(t, cat, k - 1, j) || (c.id == j && !c.isModule && cat in c.categories)
  {
  }

  // -------------------------------------------------------- what rules mean

  /** The check before a command: the flag, the bit, or a listed first argument in any letter case. */
  predicate MayRun(u: UserValue, id: nat, arg: Option<string>) {
    u.all || (id < |u.bits| && u.bits[id]) || (arg.Some? && Holds(SubsOf(u, id), arg.value))
  }

  /** The rule speaks of the command as a whole. */
  predicate Names(t: Table, r: Rule, id: nat) {
    match r
    case All(_) => true
    case Category(_, cat) => cat < t.categories && InCategory(t, cat, |t.commands|, id)
    case Single(_, i) => i == id
    case Subcommand(_, _) => false
  }

  /** The rule allows the command with this first argument. */
  predicate Gives(t: Table, r: Rule, id: nat, arg: Option<string>) {
    || (Names(t, r, id) && r.on)
    || (r.Subcommand? && r.id == id && r.sub != "" && arg.Some? && Lower(r.sub) == Lower(arg.value))
  }

  predicate Revokes(t: Table, r: Rule, id: nat) { Names(t, r, id) && !r.on }

  /** The meaning of a list of rules: a command is allowed when some rule allows it and no later rule takes it back. */
  ghost predicate Permitted(t: Table, rs: seq<Rule>, id: nat, arg: Option<string>) {
    exists i :: 0 <= i < |rs| && Gives(t, rs[i], id, arg) && forall j :: i < j < |rs| ==> !Revokes(t, rs[j], id)
  }

  /** The flag stands for a full bitmap. */
  ghost predicate FlagOk(u: UserValue) { u.all ==> forall j :: 0 <= j < |u.bits| ==> u.bits[j] }

  /** A category rule leaves or drops the flag, and drops lists only of the commands it names. */
  lemma {:induction false} WithCategoryRest(t: Table, u: UserValue, cat: nat, on: bool, k: nat)
    requires ValidTable(t) && |u.bits| == t.width && k <= |t.commands|
    ensures var v := WithCategory(t, u, cat, on, k);
            && |v.bits| == t.width
            && (v.all <==> u.all && (on || forall i :: 0 <= i < k ==> t.commands[i].isModule || cat !in t.commands[i].categories))
            && (forall id: nat :: SubsOf(v, id) == if InCategory(t, cat, k, id) then [] else SubsOf(u, id))
  {
    if k > 0 {
      WithCategoryRest(t, u, cat, on, k - 1);
      forall id: nat { InCategoryStep(t, cat, k, id); }
    }
  }

  lemma ApplyKeepsFlag(t: Table, u: UserValue, r: Rule)
    requires ValidTable(t) && Inv(t, u) && FlagOk(u)
    ensures FlagOk(Apply(t, u, r))
  {
    if r.Category? && Accepts(t, r) {
      WithCategoryRest(t, u, r.cat, r.on, |t.commands|);
      WithCategoryBits(t, u, r.cat, r.on, |t.commands|);
      assert !r.on && Apply(t, u, r).all ==> forall j :: 0 <= j < |u.bits| ==> !InCategory(t, r.cat, |t.commands|, j);
    }
  }

  /** The flag is set only on users with every bit set, whatever rules were given. */
  lemma {:induction false} EveryUserKeepsFlag(t: Table, rs: seq<Rule>)
    requires ValidTable(t)
    ensures FlagOk(ApplyAll(t, Fresh(t), rs))
    decreases |rs|
  {
    if rs != [] {
      EveryUserKeepsInv(t, rs[..|rs| - 1]);
      EveryUserKeepsFlag(t, rs[..|rs| - 1]);
      ApplyKeepsFlag(t, ApplyAll(t, Fresh(t), rs[..|rs| - 1]), rs[|rs| - 1]);
    }
  }

  /** The rule clears the bit of some command. */
  predicate Clears(t: Table, r: Rule) {
    match r
    case All(on) => !on
    case Category(on, cat) => !on && cat < t.categories && exists i :: 0 <= i < |t.commands| && !t.commands[i].isModule && cat in t.commands[i].categories
    case Single(on, id) => !on && Known(t, id)
    case Subcommand(_, _) => false
  }

  lemma FlagStep(t: Table, u: UserValue, r: Rule)
    requires ValidTable(t) && |u.bits| == t.width
    ensures Apply(t, u, r).all <==> r == All(true) || (u.all && !Clears(t, r))
  {
    if r.Category? && Accepts(t, r) { WithCategoryRest(t, u, r.cat, r.on, |t.commands|); }
  }

  /** Something was given and not taken back since. */
  ghost predicate Stands(rs: seq<Rule>, gives: Rule -> bool, takes: Rule -> bool) {
    exists i :: 0 <= i < |rs| && gives(rs[i]) && forall j :: i < j < |rs| ==> !takes(rs[j])
  }

  lemma LastStands(front: seq<Rule>, r: Rule, gives: Rule -> bool, takes: Rule -> bool)
    ensures Stands(front + [r], gives, takes) <==> gives(r) || (Stands(front, gives, takes) && !takes(r))
  {
    var rs := front + [r];
    if gives(r) { assert gives(rs[|front|]); }
    if Stands(front, gives, takes) && !takes(r) {
      var i :| 0 <= i < |front| && gives(front[i]) && forall j :: i < j < |front| ==> !takes(front[j]);
      assert gives(rs[i]);
    }
    if Stands(rs, gives, takes) && !gives(r) {
      var i :| 0 <= i < |rs| && gives(rs[i]) && forall j :: i < j < |rs| ==> !takes(rs[j]);
      assert gives(front[i]) && !takes(rs[|front|]);
      assert forall j :: i < j < |front| ==> front[j] == rs[j];
    }
  }

  /** All commands were allowed, and no later rule cleared a bit. */
  ghost predicate AllStands(t: Table, rs: seq<Rule>) {
    exists i :: 0 <= i < |rs| && rs[i] == All(true) && forall j :: i < j < |rs| ==> !Clears(t, rs[j])
  }

  lemma AllStandsLast(t: Table, front: seq<Rule>, r: Rule)
    ensures AllStands(t, front + [r]) <==> r == All(true) || (AllStands(t, front) && !Clears(t, r))
  {
    LastStands(front, r, q => q == All(true), q => Clears(t, q));
  }

  lemma PermittedLast(t: Table, front: seq<Rule>, r: Rule, id: nat, arg: Option<string>)
    ensures Permitted(t, front + [r], id, arg) <==> Gives(t, r, id, arg) || (Permitted(t, front, id, arg) && !Revokes(t, r, id))
  {
    LastStands(front, r, q => Gives(t, q, id, arg), q => Revokes(t, q, id));
  }

  /** When the flag is set: all commands were allowed and no later rule cleared a bit, even one that was set again since. */
  lemma {:induction false} FlagIff(t: Table, rs: seq<Rule>)
    requires ValidTable(t)
    ensures ApplyAll(t, Fresh(t), rs).all <==> AllStands(t, rs)
    decreases |rs|
  {
    if rs != [] {
      var n := |rs| - 1;
      var front := rs[..n];
      FlagIff(t, front);
      EveryUserKeepsInv(t, front);
      FlagStep(t, ApplyAll(t, Fresh(t), front), rs[n]);
      AllStandsLast(t, front, rs[n]);
      assert front + [rs[n]] == rs;
    }
  }

  /** One rule on one command, whatever kind of rule it is. */
  lemma PermissionStep(t: Table, u: UserValue, r: Rule, id: nat, arg: Option<string>)
    requires ValidTable(t) && Inv(t, u) && FlagOk(u) && Known(t, id)
    ensures MayRun(Apply(t, u, r), id, arg) <==> Gives(t, r, id, arg) || (MayRun(u, id, arg) && !Revokes(t, r, id))
  {
    ApplyKeepsFlag(t, u, r);
    if Accepts(t, r) {
      match r
      case All(_) =>
      case Category(on, cat) =>
        WithCategoryRest(t, u, cat, on, |t.commands|);
        WithCategoryBits(t, u, cat, on, |t.commands|);
      case Single(_, _) =>
      case Subcommand(i, sub) => if i == id && arg.Some? { SubPermits(SubsOf(u, id), sub, arg.value); }
    }
  }

  lemma SubPermits(l: seq<string>, sub: string, arg: string)
    ensures Holds(l + [sub], arg) <==> Holds(l, arg) || Lower(sub) == Lower(arg)
    ensures Holds(l, sub) && Lower(sub) == Lower(arg) ==> Holds(l, arg)
  {
    if Lower(sub) == Lower(arg) { assert (l + [sub])[|l|] == sub; }
    if Holds(l, arg) {
      var i :| 0 <= i < |l| && Lower(l[i]) == Lower(arg);
      assert (l + [sub])[i] == l[i];
    }
  }

  /** After any rules, the check lets a command through exactly when the rules, read from the last one back, allow it. */
  lemma {:induction false} RulesMeanPermissions(t: Table, rs: seq<Rule>, id: nat, arg: Option<string>)
    requires ValidTable(t) && Known(t, id)
    ensures MayRun(ApplyAll(t, Fresh(t), rs), id, arg) <==> Permitted(t, rs, id, arg)
    decreases |rs|
  {
    if rs != [] {
      var n := |rs| - 1;
      var front := rs[..n];
      RulesMeanPermissions(t, front, id, arg);
      EveryUserKeepsInv(t, front);
      EveryUserKeepsFlag(t, front);
      PermissionStep(t, ApplyAll(t, Fresh(t), front), rs[n], id, arg);
      PermittedLast(t, front, rs[n], id, arg);
      assert front + [rs[n]] == rs;
    }
  }

  // ----------------------------------------------------- users, changed in place

  class User {
    const bits: array<bool>
    var subs: map<nat, seq<string>>
    var all: bool

    ghost function Value(): UserValue
      reads this, bits
    {
      UserValue(bits[..], subs, all)
    }

    constructor (t: Table)
      ensures fresh(bits) && Value() == Fresh(t)
    {
      bits := new bool[t.width](_ => false);
      subs, all := map[], false;
      new;
      assert bits[..] == Fresh(t).bits;
    }

    method GetUserCommandBit(id: nat) returns (b: bool)
      ensures b == (id < bits.Length && bits[id])
    {
      if id >= bits.Length { return false; }
      return bits[id];
    }

    method SetUserCommandBit(id: nat, value: bool)
      modifies this, bits
      ensures subs == old(subs)
      ensures id < bits.Length ==> bits[..] == old(bits[..])[id := value] && all == (old(all) && value)
      ensures id >= bits.Length ==> bits[..] == old(bits[..]) && all == old(all)
    {
      if id >= bits.Length { return; }
      bits[id] := value;
      if !value { all := false; }
    }

    method ResetSubcommandsForCommand(id: nat)
      modifies `subs
      ensures subs == old(subs) - {id}
    {
      if id in subs { subs := subs - {id}; }
    }

    /** The command part of the permission check. */
    method CheckCommandPerm(id: nat, arg: Option<string>) returns (ok: bool)
      ensures ok == MayRun(Value(), id, arg)
    {
      if !all {
        var b := GetUserCommandBit(id);
        if !b {
          if arg.None? || id !in subs { return false; }
          var list := subs[id];
          var subid := 0;
          while true
            invariant 0 <= subid <= |list| && forall i :: 0 <= i < subid ==> Lower(list[i]) != Lower(arg.value)
            decreases |list| - subid
          {
            if subid == |list| { return false; }
            if Lower(arg.value) == Lower(list[subid]) { break; }
            subid := subid + 1;
          }
        }
      }
      return true;
    }

    /** All commands of a category get the value; false when there is no such category. */
    method SetUserCommandBitsForCategory(t: Table, cat: nat, value: bool) returns (ok: bool)
      modifies this, bits
      ensures ok == (cat < t.categories)
      ensures Value() == if ok then WithCategory(t, old(Value()), cat, value, |t.commands|) else old(Value())
    {
      if cat >= t.categories { return false; }
      var k := 0;
      while k < |t.commands|
        invariant 0 <= k <= |t.commands| && Value() == WithCategory(t, old(Value()), cat, value, k)
      {
        var cmd := t.commands[k];
        if !cmd.isModule && cat in cmd.categories {
          SetUserCommandBit(cmd.id, value);
          ResetSubcommandsForCommand(cmd.id);
        }
        k := k + 1;
      }
      return true;
    }

    /** Add a subcommand unless the list already has it. */
    method AddAllowedSubcommand(id: nat, sub: string)
      modifies `subs
      ensures subs == if Holds(SubsOf(old(Value()), id), sub) then old(subs) else old(subs)[id := SubsOf(old(Value()), id) + [sub]]
    {
      var list := if id in subs then subs[id] else [];
      var items := 0;
      while items < |list|
        invariant 0 <= items <= |list| && forall i :: 0 <= i < items ==> Lower(list[i]) != Lower(sub)
      {
        if Lower(list[items]) == Lower(sub) { return; }
        items := items + 1;
      }
      subs := subs[id := list + [sub]];
    }

    /** Interpret one rule. */
    method SetUser(t: Table, r: Rule) returns (ok: bool)
      modifies this, bits
      ensures ok == Accepts(t, r) && Value() == Apply(t, old(Value()), r)
    {
      match r {
        case All(on) =>
          var j := 0;
          while j < bits.Length
            invariant 0 <= j <= bits.Length && forall i :: 0 <= i < j ==> bits[i] == on
          {
            bits[j] := on;
            j := j + 1;
          }
          all, subs := on, map[];
          assert bits[..] == seq(bits.Length, _ => on);
          return true;
        case Category(on, cat) =>
          ok := SetUserCommandBitsForCategory(t, cat, on);
        case Single(on, id) =>
          if !Known(t, id) { return false; }
          SetUserCommandBit(id, on);
          ResetSubcommandsForCommand(id);
          return true;
        case Subcommand(id, sub) =>
          if !Known(t, id) || sub == "" { return false; }
          var b := GetUserCommandBit(id);
          if !b { AddAllowedSubcommand(id, sub); }
          return true;
      }
    }
  }
}
