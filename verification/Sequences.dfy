/** What lookups and proofs about sequences share. */
module Sequences {
  /** The first position where `p` holds; the length if there is none. The loop behind every lookup in a slice. */
  function First<T>(s: seq<T>, p: T -> bool): (k: nat)
    ensures k <= |s|
    ensures k < |s| ==> p(s[k])
    ensures forall j :: 0 <= j < k ==> !p(s[j])
  {
    if s == [] then 0
    else if p(s[0]) then 0
    else 1 + First(s[1..], p)
  }

  lemma Regrouped<T>(a: seq<T>, b: seq<T>, c: seq<T>)
    ensures a + b + c == a + (b + c)
  {}

  /** One item goes from one sequence to the other. */
  lemma MoveOne<T>(before: seq<T>, rest: seq<T>)
    requires rest != []
    ensures before + [rest[0]] + rest[1..] == before + rest
  {}
}
