/**
  AliasStore: aliases for the interfaces of a node, grouped by their PTP hardware clock, of
  pkg/linuxptp-daemon/pkg/alias/manager.go. The alias that an interface name stands for is a parameter.
 */
module AliasStore {
  type Groups = map<string, seq<string>>

  /** No group is empty. */
  predicate Filled(groups: Groups) {
    forall phc :: phc in groups ==> groups[phc] != []
  }

  /** Every interface is registered under one PHC. */
  ghost predicate OnePhcEach(groups: Groups) {
    forall p, q, i :: p in groups && q in groups && i in groups[p] && i in groups[q] ==> p == q
  }

  ghost predicate IsCommon(group: seq<string>, aliasOf: string -> string) {
    forall k :: 0 <= k < |group| ==> aliasOf(group[k]) == aliasOf(group[0])
  }

  /** The alias of a group, if its interfaces agree on one. */
  ghost predicate Claims(groups: Groups, aliasOf: string -> string, phc: string, name: string) {
    phc in groups && groups[phc] != [] && IsCommon(groups[phc], aliasOf) && aliasOf(groups[phc][0]) == name
  }

  /** The group has a common alias that no other group has. */
  ghost predicate HasOwnAlias(groups: Groups, aliasOf: string -> string, phc: string)
    requires phc in groups && groups[phc] != []
  {
    && IsCommon(groups[phc], aliasOf)
    && forall other :: other != phc ==> !Claims(groups, aliasOf, other, aliasOf(groups[phc][0]))
  }

  ghost function AliasIn(groups: Groups, aliasOf: string -> string, phc: string, i: string): string
    requires phc in groups && groups[phc] != []
  {
    if HasOwnAlias(groups, aliasOf, phc) then aliasOf(groups[phc][0]) else i
  }

  ghost predicate IsRegistered(groups: Groups, i: string) {
    exists phc :: phc in groups && i in groups[phc]
  }

  /** What the aliases have to be. */
  ghost predicate AreAliases(aliases: map<string, string>, groups: Groups, aliasOf: string -> string)
    requires Filled(groups)
  {
    && (forall i :: i in aliases <==> IsRegistered(groups, i))
    && forall phc, i :: phc in groups && i in groups[phc] ==> i in aliases && aliases[i] == AliasIn(groups, aliasOf, phc, i)
  }

  /** There is one answer, so the order in which the groups are walked does not matter. */
  lemma AliasesAreUnique(a: map<string, string>, b: map<string, string>, groups: Groups, aliasOf: string -> string)
    requires Filled(groups) && AreAliases(a, groups, aliasOf) && AreAliases(b, groups, aliasOf)
    ensures a == b
  {
    forall i | i in a ensures i in b && a[i] == b[i] {
      assert IsRegistered(groups, i);
      var phc :| phc in groups && i in groups[phc];
      assert a[i] == AliasIn(groups, aliasOf, phc, i) == b[i];
    }
    forall i | i in b ensures i in a {
      assert IsRegistered(groups, i);
    }
  }

  /** A group is on one alias, or all of it on the interface names. */
  lemma GroupIsUniform(aliases: map<string, string>, groups: Groups, aliasOf: string -> string, phc: string)
    requires Filled(groups) && AreAliases(aliases, groups, aliasOf) && phc in groups
    ensures (forall i :: i in groups[phc] ==> aliases[i] == aliasOf(groups[phc][0])) || (forall i :: i in groups[phc] ==> aliases[i] == i)
  {}

  /**
    When two interfaces have one alias: they are on the alias of their common PHC, or are one interface, or
    an alias is the name of an interface that has none.
   */
  lemma SharedExactly(aliases: map<string, string>, groups: Groups, aliasOf: string -> string, p: string, i: string, q: string, j: string)
    requires Filled(groups) && AreAliases(aliases, groups, aliasOf)
    requires p in groups && i in groups[p] && q in groups && j in groups[q]
    ensures aliases[i] == aliases[j]
      <==> if HasOwnAlias(groups, aliasOf, p) && HasOwnAlias(groups, aliasOf, q) then p == q
           else if HasOwnAlias(groups, aliasOf, p) then aliasOf(groups[p][0]) == j
           else if HasOwnAlias(groups, aliasOf, q) then aliasOf(groups[q][0]) == i
           else i == j
  {
    assert aliases[i] == AliasIn(groups, aliasOf, p, i) && aliases[j] == AliasIn(groups, aliasOf, q, j);
    if HasOwnAlias(groups, aliasOf, p) && HasOwnAlias(groups, aliasOf, q) && p != q {
      assert Claims(groups, aliasOf, q, aliasOf(groups[q][0]));
      assert !Claims(groups, aliasOf, q, aliasOf(groups[p][0]));
    }
  }

  /** No interface is asked for two aliases by two groups that it is in. */
  ghost predicate NoneTorn(groups: Groups, aliasOf: string -> string)
    requires Filled(groups)
  {
    forall p, q, i :: p in groups && q in groups && i in groups[p] && i in groups[q] ==>
      AliasIn(groups, aliasOf, p, i) == AliasIn(groups, aliasOf, q, i)
  }

  /** With one PHC for each interface none is torn. */
  lemma OnePhcIsNotTorn(groups: Groups, aliasOf: string -> string)
    requires Filled(groups) && OnePhcEach(groups)
    ensures NoneTorn(groups, aliasOf)
  {}

  /** An interface under two PHCs, one of them shared with an interface of another alias, can be torn. */
  lemma TwoPhcsCanTear(a: string, b: string, aliasOf: string -> string)
    requires aliasOf(a) != aliasOf(b) && aliasOf(a) != a
    ensures var groups := map["ptp0" := [a, b], "ptp1" := [a]];
      && Filled(groups) && !NoneTorn(groups, aliasOf)
  {
    var groups := map["ptp0" := [a, b], "ptp1" := [a]];
    assert "ptp0"[3] != "ptp1"[3];
    assert groups["ptp0"][1] == b && groups["ptp0"][0] == a;
    assert !IsCommon(groups["ptp0"], aliasOf) && HasOwnAlias(groups, aliasOf, "ptp1");
    assert a in groups["ptp0"] && a in groups["ptp1"];
  }

  // ------------------------------------------------------------------ the two passes

  /** Some order in which all groups are walked. */
  ghost predicate IsOrder(order: seq<string>, groups: Groups) {
    && (forall phc :: phc in order <==> phc in groups)
    && forall j, k :: 0 <= j < k < |order| ==> order[j] != order[k]
  }

  /** What the first pass writes for an interface of a group. */
  ghost function FirstAlias(groups: Groups, aliasOf: string -> string, phc: string, i: string): string
    requires phc in groups && groups[phc] != []
  {
    if IsCommon(groups[phc], aliasOf) then aliasOf(groups[phc][0]) else i
  }

  /** The aliases after the first pass over these groups, in this order. */
  ghost function FirstOver(groups: Groups, aliasOf: string -> string, order: seq<string>): map<string, string>
    requires Filled(groups) && forall k :: 0 <= k < |order| ==> order[k] in groups
  {
    if order == [] then map[]
    else
      var phc, before := order[|order| - 1], FirstOver(groups, aliasOf, order[..|order| - 1]);
      map i | i in before.Keys + Members(groups[phc]) ::
        if i in groups[phc] then FirstAlias(groups, aliasOf, phc, i) else before[i]
  }

  function Members(group: seq<string>): set<string> {
    set i | i in group
  }

  /** The interface is in one of several groups that claim one alias. */
  ghost predicate FallsBack(groups: Groups, aliasOf: string -> string, i: string) {
    exists p, q, name :: p != q && Claims(groups, aliasOf, p, name) && Claims(groups, aliasOf, q, name) && i in groups[p]
  }

  /** The aliases after both passes, the groups walked in this order; the order of the second pass does not matter. */
  ghost function Final(groups: Groups, aliasOf: string -> string, order: seq<string>): map<string, string>
    requires Filled(groups) && IsOrder(order, groups)
  {
    var first := FirstOver(groups, aliasOf, order);
    map i | i in first :: if FallsBack(groups, aliasOf, i) then i else first[i]
  }

  /** The k-th group is the last one that the interface is in. */
  ghost predicate IsLastWith(groups: Groups, order: seq<string>, k: nat, i: string)
    requires forall j :: 0 <= j < |order| ==> order[j] in groups
  {
    k < |order| && i in groups[order[k]] && forall j :: k < j < |order| ==> i !in groups[order[j]]
  }

  lemma {:induction false} FirstOverIsOfLast(groups: Groups, aliasOf: string -> string, order: seq<string>, k: nat, i: string)
    requires Filled(groups) && (forall j :: 0 <= j < |order| ==> order[j] in groups) && IsLastWith(groups, order, k, i)
    ensures i in FirstOver(groups, aliasOf, order)
    ensures FirstOver(groups, aliasOf, order)[i] == FirstAlias(groups, aliasOf, order[k], i)
  {
    if k < |order| - 1 {
      assert i !in groups[order[|order| - 1]];
      FirstOverIsOfLast(groups, aliasOf, order[..|order| - 1], k, i);
    }
  }

  ghost predicate InOneOf(groups: Groups, phcs: seq<string>, i: string) {
    exists k :: 0 <= k < |phcs| && phcs[k] in groups && i in groups[phcs[k]]
  }

  predicate IsIn(groups: Groups, phc: string, i: string) {
    phc in groups && i in groups[phc]
  }

  lemma OneMorePhc(groups: Groups, phcs: seq<string>, k: nat)
    requires k < |phcs|
    ensures forall i :: InOneOf(groups, phcs[..k + 1], i) <==> InOneOf(groups, phcs[..k], i) || IsIn(groups, phcs[k], i)
  {
    forall i ensures InOneOf(groups, phcs[..k + 1], i) <==> InOneOf(groups, phcs[..k], i) || IsIn(groups, phcs[k], i) {
      assert phcs[..k + 1][k] == phcs[k];
      if InOneOf(groups, phcs[..k], i) {
        var j :| 0 <= j < k && phcs[..k][j] in groups && i in groups[phcs[..k][j]];
        assert phcs[..k + 1][j] == phcs[..k][j];
      }
      if InOneOf(groups, phcs[..k + 1], i) {
        var j :| 0 <= j < k + 1 && phcs[..k + 1][j] in groups && i in groups[phcs[..k + 1][j]];
        if j < k {
          assert phcs[..k][j] == phcs[..k + 1][j];
        }
      }
    }
  }

  lemma {:induction false} InFirstOver(groups: Groups, aliasOf: string -> string, order: seq<string>, i: string)
    requires Filled(groups) && forall j :: 0 <= j < |order| ==> order[j] in groups
    ensures i in FirstOver(groups, aliasOf, order) <==> InOneOf(groups, order, i)
  {
    if order != [] {
      var last := |order| - 1;
      InFirstOver(groups, aliasOf, order[..last], i);
      OneMorePhc(groups, order, last);
      assert order[..last + 1] == order;
    }
  }

  /** The group that decides about an interface: the last one it is in. */
  lemma {:induction false} LastWith(groups: Groups, order: seq<string>, i: string) returns (k: nat)
    requires (forall j :: 0 <= j < |order| ==> order[j] in groups) && InOneOf(groups, order, i)
    ensures IsLastWith(groups, order, k, i)
  {
    var last := |order| - 1;
    if i in groups[order[last]] {
      k := last;
    } else {
      OneMorePhc(groups, order, last);
      assert order[..last + 1] == order;
      k := LastWith(groups, order[..last], i);
    }
  }

  /** A group with a common alias keeps it exactly if its interfaces do not fall back. */
  lemma OwnAliasExactly(groups: Groups, aliasOf: string -> string, phc: string, i: string)
    requires Filled(groups) && phc in groups && i in groups[phc] && IsCommon(groups[phc], aliasOf)
    ensures HasOwnAlias(groups, aliasOf, phc) <==> !FallsBack(groups, aliasOf, i)
  {
    var name := aliasOf(groups[phc][0]);
    assert Claims(groups, aliasOf, phc, name);
    assert aliasOf(i) == name by {
      var k :| 0 <= k < |groups[phc]| && groups[phc][k] == i;
    }
    if FallsBack(groups, aliasOf, i) {
      var p, q, other :| p != q && Claims(groups, aliasOf, p, other) && Claims(groups, aliasOf, q, other) && i in groups[p];
      var k :| 0 <= k < |groups[p]| && groups[p][k] == i;
      assert other == name;
      assert Claims(groups, aliasOf, if p == phc then q else p, name);
    }
  }

  /** The final alias of an interface is the one that the last group it is in asks for. */
  lemma FinalIsOfLast(groups: Groups, aliasOf: string -> string, order: seq<string>, k: nat, i: string)
    requires Filled(groups) && IsOrder(order, groups) && k < |order|
    requires (forall j :: 0 <= j < |order| ==> order[j] in groups) && IsLastWith(groups, order, k, i)
    ensures i in Final(groups, aliasOf, order)
    ensures Final(groups, aliasOf, order)[i] == AliasIn(groups, aliasOf, order[k], i)
  {
    FirstOverIsOfLast(groups, aliasOf, order, k, i);
    if IsCommon(groups[order[k]], aliasOf) {
      OwnAliasExactly(groups, aliasOf, order[k], i);
    }
  }

  /** The two passes give every group what it asks for, in any order, if and only if no interface is torn. */
  lemma FinalServesExactly(groups: Groups, aliasOf: string -> string, order: seq<string>)
    requires Filled(groups) && IsOrder(order, groups)
    ensures AreAliases(Final(groups, aliasOf, order), groups, aliasOf) <==> NoneTorn(groups, aliasOf)
  {
    assert forall j :: 0 <= j < |order| ==> order[j] in order;
    if NoneTorn(groups, aliasOf) {
      FinalServes(groups, aliasOf, order);
    }
  }

  lemma FinalServes(groups: Groups, aliasOf: string -> string, order: seq<string>)
    requires Filled(groups) && IsOrder(order, groups) && NoneTorn(groups, aliasOf)
    requires forall j :: 0 <= j < |order| ==> order[j] in groups
    ensures AreAliases(Final(groups, aliasOf, order), groups, aliasOf)
  {
    var final := Final(groups, aliasOf, order);
    forall phc, i | phc in groups && i in groups[phc] ensures i in final && final[i] == AliasIn(groups, aliasOf, phc, i) {
      var j :| 0 <= j < |order| && order[j] == phc;
      assert InOneOf(groups, order, i);
      var k := LastWith(groups, order, i);
      FinalIsOfLast(groups, aliasOf, order, k, i);
    }
    forall i ensures i in final <==> IsRegistered(groups, i) {
      InFirstOver(groups, aliasOf, order, i);
    }
  }

  lemma {:induction false} Enumerated(s: set<string>) returns (order: seq<string>)
    ensures (forall x :: x in order <==> x in s) && forall j, k :: 0 <= j < k < |order| ==> order[j] != order[k]
    decreases s
  {
    if s == {} {
      order := [];
    } else {
      var x :| x in s;
      order := Enumerated(s - {x});
      order := order + [x];
    }
  }

  /** Walked last, a group gets for its interfaces what it asks for. */
  lemma WalkedLast(groups: Groups, aliasOf: string -> string, phc: string, i: string) returns (order: seq<string>)
    requires Filled(groups) && phc in groups && i in groups[phc]
    ensures IsOrder(order, groups)
    ensures i in Final(groups, aliasOf, order) && Final(groups, aliasOf, order)[i] == AliasIn(groups, aliasOf, phc, i)
  {
    var others := Enumerated(groups.Keys - {phc});
    order := others + [phc];
    assert forall j :: 0 <= j < |order| ==> order[j] in order;
    FinalIsOfLast(groups, aliasOf, order, |others|, i);
  }

  /** The aliases depend on the order in which the groups are walked if and only if some interface is torn. */
  lemma OrderMattersExactly(groups: Groups, aliasOf: string -> string)
    requires Filled(groups)
    ensures (exists a, b :: IsOrder(a, groups) && IsOrder(b, groups) && Final(groups, aliasOf, a) != Final(groups, aliasOf, b))
      <==> !NoneTorn(groups, aliasOf)
  {
    if NoneTorn(groups, aliasOf) {
      forall a, b | IsOrder(a, groups) && IsOrder(b, groups) ensures Final(groups, aliasOf, a) == Final(groups, aliasOf, b) {
        FinalServesExactly(groups, aliasOf, a);
        FinalServesExactly(groups, aliasOf, b);
        AliasesAreUnique(Final(groups, aliasOf, a), Final(groups, aliasOf, b), groups, aliasOf);
      }
    } else {
      var p, q, i :| p in groups && q in groups && i in groups[p] && i in groups[q]
        && AliasIn(groups, aliasOf, p, i) != AliasIn(groups, aliasOf, q, i);
      var a := WalkedLast(groups, aliasOf, p, i);
      var b := WalkedLast(groups, aliasOf, q, i);
      assert Final(groups, aliasOf, a)[i] != Final(groups, aliasOf, b)[i];
    }
  }

  // ------------------------------------------------------------------ the steps of the passes

  function WithInterface(groups: Groups, phc: string, i: string): Groups {
    groups[phc := (if phc in groups then groups[phc] else []) + [i]]
  }

  /** The interface joins the group of its PHC, after those that are in it; every other group stays as it is. */
  lemma JoinsItsGroup(groups: Groups, phc: string, added: string, p: string, i: string)
    ensures IsIn(WithInterface(groups, phc, added), p, i) <==> IsIn(groups, p, i) || (p == phc && i == added)
    ensures var group := WithInterface(groups, phc, added)[phc];
      group[|group| - 1] == added && group[..|group| - 1] == if phc in groups then groups[phc] else []
  {}

  lemma AddedIsRegistered(groups: Groups, phc: string, added: string)
    ensures forall i :: IsRegistered(WithInterface(groups, phc, added), i) <==> i == added || IsRegistered(groups, i)
  {
    var next := WithInterface(groups, phc, added);
    assert added in next[phc];
    forall i ensures IsRegistered(next, i) <==> i == added || IsRegistered(groups, i) {
      if IsRegistered(groups, i) {
        var p :| p in groups && i in groups[p];
        assert p in next && i in next[p];
      }
    }
  }

  /** Registering an interface keeps it under one PHC exactly if it is not registered under another. */
  lemma OnePhcExactly(groups: Groups, phc: string, i: string)
    requires OnePhcEach(groups)
    ensures OnePhcEach(WithInterface(groups, phc, i)) <==> forall p :: p in groups && i in groups[p] ==> p == phc
  {
    var next := WithInterface(groups, phc, i);
    assert phc in next && i in next[phc];
    if OnePhcEach(next) {
      forall p | p in groups && i in groups[p] ensures p == phc {
        assert p in next && i in next[p];
      }
    }
  }

  datatype Target = Common(name: string) | OwnName

  /** The interfaces of the group are on the target, all others are as before. */
  ghost predicate SetTo(before: map<string, string>, after: map<string, string>, group: seq<string>, target: Target) {
    && (forall i :: i in after <==> i in before || i in group)
    && forall i :: i in after ==>
         after[i] == if i in group then (if target.Common? then target.name else i) else before[i]
  }

  lemma SetOneMore(before: map<string, string>, after: map<string, string>, group: seq<string>, k: nat, name: string)
    requires k < |group| && SetTo(before, after, group[..k], Common(name))
    ensures SetTo(before, after[group[k] := name], group[..k + 1], Common(name))
  {
    assert group[..k + 1] == group[..k] + [group[k]];
  }

  /** One more group in the first pass. */
  lemma FirstStep(groups: Groups, aliasOf: string -> string, order: seq<string>, phc: string, after: map<string, string>)
    requires Filled(groups) && (forall k :: 0 <= k < |order| ==> order[k] in groups) && phc in groups
    requires SetTo(FirstOver(groups, aliasOf, order), after, groups[phc],
                   if IsCommon(groups[phc], aliasOf) then Common(aliasOf(groups[phc][0])) else OwnName)
    ensures after == FirstOver(groups, aliasOf, order + [phc])
  {
    assert (order + [phc])[..|order|] == order;
    assert forall i :: i in Members(groups[phc]) <==> i in groups[phc];
  }

  /** The groups in `done` by the alias they have in common. */
  ghost predicate AreSeen(seen: map<string, seq<string>>, groups: Groups, aliasOf: string -> string, done: set<string>) {
    && (forall name, phc :: name in seen && phc in seen[name] ==> phc in done && Claims(groups, aliasOf, phc, name))
    && (forall name, phc :: phc in done && Claims(groups, aliasOf, phc, name) ==> name in seen && phc in seen[name])
    && (forall name, j, k :: name in seen && 0 <= j < k < |seen[name]| ==> seen[name][j] != seen[name][k])
  }

  function WithSeen(seen: map<string, seq<string>>, name: string, phc: string): map<string, seq<string>> {
    seen[name := (if name in seen then seen[name] else []) + [phc]]
  }

  lemma SeenStep(seen: map<string, seq<string>>, groups: Groups, aliasOf: string -> string, done: set<string>, phc: string)
    requires Filled(groups) && phc in groups && phc !in done && AreSeen(seen, groups, aliasOf, done)
    ensures if IsCommon(groups[phc], aliasOf) then AreSeen(WithSeen(seen, aliasOf(groups[phc][0]), phc), groups, aliasOf, done + {phc})
            else AreSeen(seen, groups, aliasOf, done + {phc})
  {
    if IsCommon(groups[phc], aliasOf) {
      var name := aliasOf(groups[phc][0]);
      var next := WithSeen(seen, name, phc);
      assert phc !in (if name in seen then seen[name] else []);
      assert Claims(groups, aliasOf, phc, name);
    }
  }

  /** The interface is in one of several groups seen with one of these aliases. */
  ghost predicate IsBack(groups: Groups, seen: map<string, seq<string>>, done: set<string>, i: string) {
    exists name :: name in done && name in seen && |seen[name]| > 1 && InOneOf(groups, seen[name], i)
  }

  /** The interfaces of the aliases dealt with are on their own names, the others as after the first pass. */
  ghost predicate SetBack(first: map<string, string>, aliases: map<string, string>, groups: Groups,
                          seen: map<string, seq<string>>, done: set<string>) {
    && aliases.Keys == first.Keys
    && forall i :: i in first ==> aliases[i] == if IsBack(groups, seen, done, i) then i else first[i]
  }

  lemma SecondStep(first: map<string, string>, before: map<string, string>, after: map<string, string>, groups: Groups,
                   seen: map<string, seq<string>>, done: set<string>, name: string)
    requires SetBack(first, before, groups, seen, done) && name in seen
    requires |seen[name]| <= 1 ==> after == before
    requires |seen[name]| > 1 ==>
      && (forall i :: i in after <==> i in before || InOneOf(groups, seen[name], i))
      && (forall i :: i in after ==> after[i] == if InOneOf(groups, seen[name], i) then i else before[i])
    requires forall i :: InOneOf(groups, seen[name], i) ==> i in first
    ensures SetBack(first, after, groups, seen, done + {name})
  {
    forall i ensures IsBack(groups, seen, done + {name}, i)
      <==> IsBack(groups, seen, done, i) || (|seen[name]| > 1 && InOneOf(groups, seen[name], i))
    {
      if |seen[name]| > 1 && InOneOf(groups, seen[name], i) {
        assert name in done + {name};
      }
      if IsBack(groups, seen, done, i) {
        var other :| other in done && other in seen && |seen[other]| > 1 && InOneOf(groups, seen[other], i);
        assert other in done + {name};
      }
    }
  }

  /** What the second pass sets back is what falls back. */
  lemma BackIsFallsBack(groups: Groups, aliasOf: string -> string, seen: map<string, seq<string>>, i: string)
    requires AreSeen(seen, groups, aliasOf, groups.Keys)
    ensures IsBack(groups, seen, seen.Keys, i) <==> FallsBack(groups, aliasOf, i)
  {
    if IsBack(groups, seen, seen.Keys, i) {
      var name :| name in seen.Keys && name in seen && |seen[name]| > 1 && InOneOf(groups, seen[name], i);
      var k :| 0 <= k < |seen[name]| && seen[name][k] in groups && i in groups[seen[name][k]];
      var j := if k == 0 then 1 else 0;
      assert seen[name][k] in seen[name] && seen[name][j] in seen[name] && seen[name][j] != seen[name][k];
      assert Claims(groups, aliasOf, seen[name][k], name) && Claims(groups, aliasOf, seen[name][j], name);
    }
    if FallsBack(groups, aliasOf, i) {
      var p, q, name :| p != q && Claims(groups, aliasOf, p, name) && Claims(groups, aliasOf, q, name) && i in groups[p];
      assert p in seen[name] && q in seen[name];
      var j :| 0 <= j < |seen[name]| && seen[name][j] == p;
      var k :| 0 <= k < |seen[name]| && seen[name][k] == q;
      assert InOneOf(groups, seen[name], i) && j != k;
    }
  }

  lemma SecondIsFinal(groups: Groups, aliasOf: string -> string, order: seq<string>, seen: map<string, seq<string>>,
                      aliases: map<string, string>)
    requires Filled(groups) && IsOrder(order, groups) && AreSeen(seen, groups, aliasOf, groups.Keys)
    requires forall k :: 0 <= k < |order| ==> order[k] in groups
    requires SetBack(FirstOver(groups, aliasOf, order), aliases, groups, seen, seen.Keys)
    ensures aliases == Final(groups, aliasOf, order)
  {
    forall i ensures IsBack(groups, seen, seen.Keys, i) <==> FallsBack(groups, aliasOf, i) {
      BackIsFallsBack(groups, aliasOf, seen, i);
    }
  }

  lemma SeenAreRegistered(groups: Groups, aliasOf: string -> string, order: seq<string>, seen: map<string, seq<string>>, name: string)
    requires Filled(groups) && IsOrder(order, groups) && AreSeen(seen, groups, aliasOf, groups.Keys) && name in seen
    requires forall k :: 0 <= k < |order| ==> order[k] in groups
    ensures forall i :: InOneOf(groups, seen[name], i) ==> i in FirstOver(groups, aliasOf, order)
  {
    forall i | InOneOf(groups, seen[name], i) ensures i in FirstOver(groups, aliasOf, order) {
      var k :| 0 <= k < |seen[name]| && seen[name][k] in groups && i in groups[seen[name][k]];
      var j :| 0 <= j < |order| && order[j] == seen[name][k];
      assert InOneOf(groups, order, i);
      InFirstOver(groups, aliasOf, order, i);
    }
  }

  class Store {
    var interfacesByPhc: Groups
    var phcByIface: map<string, string>
    var aliases: map<string, string>

    constructor ()
      ensures interfacesByPhc == map[] && phcByIface == map[] && aliases == map[]
    {
      interfacesByPhc, phcByIface, aliases := map[], map[], map[];
    }

    /** Groups are not empty, and an interface with one PHC is known under it. */
    ghost predicate Valid()
      reads this
    {
      && Filled(interfacesByPhc)
      && (forall i :: i in phcByIface <==> IsRegistered(interfacesByPhc, i))
      && (forall i :: i in phcByIface ==> phcByIface[i] in interfacesByPhc && i in interfacesByPhc[phcByIface[i]])
    }

    method AddInterface(phc: string, ifName: string)
      requires Valid()
      modifies this
      ensures Valid()
      ensures interfacesByPhc == WithInterface(old(interfacesByPhc), phc, ifName)
      ensures phcByIface == old(phcByIface)[ifName := phc] && aliases == old(aliases)
    {
      AddedIsRegistered(interfacesByPhc, phc, ifName);
      interfacesByPhc := WithInterface(interfacesByPhc, phc, ifName);
      phcByIface := phcByIface[ifName := phc];
    }

    /** The result is that of some order of the groups; it serves every group if and only if no interface is torn. */
    method CalculateAliases(aliasOf: string -> string) returns (ghost order: seq<string>)
      requires Filled(interfacesByPhc)
      modifies this`aliases
      ensures IsOrder(order, interfacesByPhc) && aliases == Final(interfacesByPhc, aliasOf, order)
      ensures AreAliases(aliases, interfacesByPhc, aliasOf) <==> NoneTorn(interfacesByPhc, aliasOf)
    {
      aliases := map[];
      var seen;
      seen, order := FirstPass(aliasOf);
      SecondPass(aliasOf, seen, order);
      FinalServesExactly(interfacesByPhc, aliasOf, order);
    }

    /** The groups, in any order. */
    method FirstPass(aliasOf: string -> string) returns (seen: map<string, seq<string>>, ghost order: seq<string>)
      requires Filled(interfacesByPhc) && aliases == map[]
      modifies this`aliases
      ensures IsOrder(order, interfacesByPhc) && forall k :: 0 <= k < |order| ==> order[k] in interfacesByPhc
      ensures aliases == FirstOver(interfacesByPhc, aliasOf, order)
      ensures AreSeen(seen, interfacesByPhc, aliasOf, interfacesByPhc.Keys)
    {
      seen, order := map[], [];
      var left := interfacesByPhc.Keys;
      while left != {}
        invariant left <= interfacesByPhc.Keys
        invariant forall k :: 0 <= k < |order| ==> order[k] in interfacesByPhc
        invariant forall phc :: phc in order <==> phc in interfacesByPhc.Keys - left
        invariant forall j, k :: 0 <= j < k < |order| ==> order[j] != order[k]
        invariant aliases == FirstOver(interfacesByPhc, aliasOf, order)
        invariant AreSeen(seen, interfacesByPhc, aliasOf, interfacesByPhc.Keys - left)
        decreases left
      {
        var phc :| phc in left;
        ghost var done := interfacesByPhc.Keys - left;
        var common := AliasGroup(interfacesByPhc[phc], aliasOf);
        FirstStep(interfacesByPhc, aliasOf, order, phc, aliases);
        SeenStep(seen, interfacesByPhc, aliasOf, done, phc);
        if common {
          seen := WithSeen(seen, aliasOf(interfacesByPhc[phc][0]), phc);
        }
        left, order := left - {phc}, order + [phc];
        assert interfacesByPhc.Keys - left == done + {phc};
      }
      assert interfacesByPhc.Keys - left == interfacesByPhc.Keys;
    }

    method AliasGroup(group: seq<string>, aliasOf: string -> string) returns (common: bool)
      requires group != []
      modifies this`aliases
      ensures common == IsCommon(group, aliasOf)
      ensures SetTo(old(aliases), aliases, group, if common then Common(aliasOf(group[0])) else OwnName)
    {
      var first := aliasOf(group[0]);
      ghost var before := aliases;
      aliases := aliases[group[0] := first];
      for k := 1 to |group|
        invariant forall j :: 0 <= j < k ==> aliasOf(group[j]) == first
        invariant SetTo(before, aliases, group[..k], Common(first))
      {
        var alias := aliasOf(group[k]);
        SetOneMore(before, aliases, group, k, first);
        aliases := aliases[group[k] := alias];
        if first != alias {
          FallBack(group);
          return false;
        }
      }
      assert group[..|group|] == group;
      return true;
    }

    method FallBack(group: seq<string>)
      modifies this`aliases
      ensures forall i :: i in aliases <==> i in old(aliases) || i in group
      ensures forall i :: i in aliases ==> aliases[i] == if i in group then i else old(aliases)[i]
    {
      for k := 0 to |group|
        invariant forall i :: i in aliases <==> i in old(aliases) || i in group[..k]
        invariant forall i :: i in aliases ==> aliases[i] == if i in group[..k] then i else old(aliases)[i]
      {
        aliases := aliases[group[k] := group[k]];
      }
    }

    /** The aliases seen, in any order: where several groups share one, all of them fall back. */
    method SecondPass(aliasOf: string -> string, seen: map<string, seq<string>>, ghost order: seq<string>)
      requires Filled(interfacesByPhc) && IsOrder(order, interfacesByPhc)
      requires forall k :: 0 <= k < |order| ==> order[k] in interfacesByPhc
      requires aliases == FirstOver(interfacesByPhc, aliasOf, order)
      requires AreSeen(seen, interfacesByPhc, aliasOf, interfacesByPhc.Keys)
      modifies this`aliases
      ensures aliases == Final(interfacesByPhc, aliasOf, order)
    {
      ghost var first := aliases;
      var left := seen.Keys;
      assert seen.Keys - left == {};
      while left != {}
        invariant left <= seen.Keys
        invariant SetBack(first, aliases, interfacesByPhc, seen, seen.Keys - left)
        decreases left
      {
        var name :| name in left;
        ghost var before, done := aliases, seen.Keys - left;
        SeenAreRegistered(interfacesByPhc, aliasOf, order, seen, name);
        if |seen[name]| > 1 {
          FallBackAll(seen[name]);
        }
        SecondStep(first, before, aliases, interfacesByPhc, seen, done, name);
        left := left - {name};
        assert seen.Keys - left == done + {name};
      }
      assert seen.Keys - left == seen.Keys;
      SecondIsFinal(interfacesByPhc, aliasOf, order, seen, aliases);
    }

    method FallBackAll(phcs: seq<string>)
      modifies this`aliases
      ensures forall i :: i in aliases <==> i in old(aliases) || InOneOf(interfacesByPhc, phcs, i)
      ensures forall i :: i in aliases ==> aliases[i] == if InOneOf(interfacesByPhc, phcs, i) then i else old(aliases)[i]
    {
      for k := 0 to |phcs|
        invariant forall i :: i in aliases <==> i in old(aliases) || InOneOf(interfacesByPhc, phcs[..k], i)
        invariant forall i :: i in aliases ==> aliases[i] == if InOneOf(interfacesByPhc, phcs[..k], i) then i else old(aliases)[i]
      {
        OneMorePhc(interfacesByPhc, phcs, k);
        if phcs[k] in interfacesByPhc {
          FallBack(interfacesByPhc[phcs[k]]);
        }
      }
      assert phcs[..|phcs|] == phcs;
    }

    method GetAlias(ifName: string) returns (name: string)
      ensures name == if ifName in aliases then aliases[ifName] else ifName
    {
      return if ifName in aliases then aliases[ifName] else ifName;
    }

    method Clear()
      modifies this
      ensures Valid() && interfacesByPhc == map[] && aliases == map[] && OnePhcEach(interfacesByPhc)
    {
      interfacesByPhc, phcByIface, aliases := map[], map[], map[];
    }
  }
}
