/**
  The synchronization states of pkg/linuxptp-daemon/pkg/event and the two ways in which
  pkg/linuxptp-daemon/pkg/clock combines them: worst-of (a clock with the OS clock) and
  best-of (the members of a High Availability clock).
 */
module SyncStates {
  datatype PTPState = NotSet | Freerun | Holdover | Locked | Unknown

  /** The states a clock can be in: NotSet < Freerun < Holdover < Locked. */
  predicate OnChain(s: PTPState) {
    s != Unknown
  }

  ghost function Rank(s: PTPState): int {
    match s
    case Unknown => -1
    case NotSet => 0
    case Freerun => 1
    case Holdover => 2
    case Locked => 3
  }

  function WorstOf(a: PTPState, b: PTPState): PTPState {
    if a == NotSet || b == NotSet then NotSet
    else if a == Freerun || b == Freerun then Freerun
    else if a == Holdover || b == Holdover then Holdover
    else Locked
  }

  function BestOf(a: PTPState, b: PTPState): PTPState {
    if a == Locked || b == Locked then Locked
    else if a == Holdover || b == Holdover then Holdover
    else if a == Freerun || b == Freerun then Freerun
    else a
  }

  /** WorstOf is the minimum of the chain; Unknown does not degrade the other operand. */
  lemma WorstOfIsMinimum(a: PTPState, b: PTPState)
    ensures OnChain(WorstOf(a, b))
    ensures OnChain(a) && OnChain(b) ==> Rank(WorstOf(a, b)) == if Rank(a) <= Rank(b) then Rank(a) else Rank(b)
    ensures OnChain(a) ==> WorstOf(a, Unknown) == WorstOf(Unknown, a) == a
    ensures WorstOf(Unknown, Unknown) == Locked
    ensures WorstOf(a, b) == WorstOf(b, a)
  {}

  /** BestOf is the maximum of the chain, and is commutative except on NotSet with Unknown. */
  lemma BestOfIsMaximum(a: PTPState, b: PTPState)
    ensures OnChain(a) && OnChain(b) ==> Rank(BestOf(a, b)) == if Rank(a) <= Rank(b) then Rank(b) else Rank(a)
    ensures BestOf(a, b) == BestOf(b, a) <==> {a, b} != {NotSet, Unknown}
  {
    assert {a, b} == {NotSet, Unknown} <==> (a == NotSet && b == Unknown) || (a == Unknown && b == NotSet) by {
      assert NotSet in {NotSet, Unknown} && Unknown in {NotSet, Unknown};
      if {a, b} == {NotSet, Unknown} {
        assert a in {NotSet, Unknown} && b in {NotSet, Unknown};
        assert NotSet in {a, b} && Unknown in {a, b};
      }
    }
  }

  /** `best` is the best of `states`: at least as good as every one of them, and one of them unless none is set. */
  ghost predicate IsBest(best: PTPState, states: set<PTPState>) {
    && OnChain(best)
    && (best in states || best == NotSet)
    && forall s :: s in states ==> Rank(s) <= Rank(best)
  }

  lemma BestIsUnique(a: PTPState, b: PTPState, states: set<PTPState>)
    requires IsBest(a, states) && IsBest(b, states)
    requires forall s :: s in states ==> OnChain(s)
    ensures a == b
  {
    assert Rank(a) <= Rank(b) by { if a in states {} }
    assert Rank(b) <= Rank(a) by { if b in states {} }
  }

  /** Overall state of a node: suppressing every state by the OS clock commutes with taking the best. */
  lemma WorstOfDistributesOverBest(best: PTPState, states: set<PTPState>, os: PTPState)
    requires IsBest(best, states)
    requires forall s :: s in states ==> OnChain(s)
    ensures IsBest(WorstOf(best, os), set s | s in states :: WorstOf(s, os))
  {
    var suppressed := set s | s in states :: WorstOf(s, os);
    if best in states {
      assert WorstOf(best, os) in suppressed;
    }
    forall t | t in suppressed ensures Rank(t) <= Rank(WorstOf(best, os)) {
      var s :| s in states && t == WorstOf(s, os);
      assert Rank(s) <= Rank(best);
    }
  }

  /** The state name that is published: everything below Holdover is published as FREERUN. */
  function ToIpc(s: PTPState): PTPState {
    if s == Locked || s == Holdover then s else Freerun
  }
}
