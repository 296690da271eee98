/**
  PubSub: the subscription store of pkg/linuxptp-daemon/pkg/cep/pubsub.go. Subscriptions live in slots;
  freed slots are kept on a list and reused, and an inverted index leads from a resource to its slots.

  The value-level operations on Store come first with their properties; class PubSub then performs the
  same operations in place and is proved to compute them.
 */
module PubSub {
  import opened Options
  import opened Sequences

  datatype Slot = Slot(id: string, resource: string, endpoint: string, writer: Option<nat>, active: bool)

  const EMPTY_SLOT := Slot("", "", "", None, false)

  datatype Record = Record(id: string, resource: string, endpoint: string)

  datatype Store = Store(subs: seq<Slot>, free: seq<nat>, index: map<string, seq<nat>>)

  const EMPTY_STORE := Store([], [], map[])

  /** The writers a factory makes for an endpoint; an endpoint that is not a key gets none. */
  type WriterFactory = map<string, nat>

  function WriterFor(factory: WriterFactory, endpoint: string): Option<nat> {
    if endpoint != "" && endpoint in factory then Some(factory[endpoint]) else None
  }

  function SlotOf(factory: WriterFactory, r: Record): Slot {
    Slot(r.id, r.resource, r.endpoint, WriterFor(factory, r.endpoint), true)
  }

  function RecordOf(s: Slot): Record {
    Record(s.id, s.resource, s.endpoint)
  }

  // ------------------------------------------------------------------ the operations

  predicate Matches(s: Slot, id: string) {
    s.active && s.id == id
  }

  /** The first active slot with this id; the number of slots if there is none. */
  function FindId(subs: seq<Slot>, id: string): (k: nat)
    ensures k <= |subs|
    ensures k < |subs| ==> Matches(subs[k], id)
    ensures forall j :: 0 <= j < k ==> !Matches(subs[j], id)
  {
    First(subs, (s: Slot) => Matches(s, id))
  }

  function Bucket(index: map<string, seq<nat>>, resource: string): seq<nat> {
    if resource in index then index[resource] else []
  }

  function FindSlot(bucket: seq<nat>, slot: nat): (k: nat)
    ensures k <= |bucket|
    ensures k < |bucket| ==> bucket[k] == slot
    ensures forall j :: 0 <= j < k ==> bucket[j] != slot
  {
    First(bucket, (i: nat) => i == slot)
  }

  /** The last entry takes the place of the removed one. */
  function SwapRemove(bucket: seq<nat>, slot: nat): seq<nat> {
    var k := FindSlot(bucket, slot);
    if k == |bucket| then bucket else bucket[k := bucket[|bucket| - 1]][..|bucket| - 1]
  }

  function Subscribed(s: Store, sub: Slot): Store
    requires forall k :: 0 <= k < |s.free| ==> s.free[k] < |s.subs|
  {
    if s.free == [] then
      Store(s.subs + [sub], [], s.index[sub.resource := Bucket(s.index, sub.resource) + [|s.subs|]])
    else
      var slot := s.free[|s.free| - 1];
      Store(s.subs[slot := sub], s.free[..|s.free| - 1],
            s.index[sub.resource := Bucket(s.index, sub.resource) + [slot]])
  }

  /** The index with a new bucket for a resource; a resource without slots is not in the index. */
  function WithBucket(index: map<string, seq<nat>>, resource: string, bucket: seq<nat>): map<string, seq<nat>> {
    if bucket == [] then index - {resource} else index[resource := bucket]
  }

  /** The slot is emptied, put on the free list, and taken out of the bucket of its resource. */
  function Vacated(s: Store, slot: nat): Store
    requires slot < |s.subs|
  {
    var resource := s.subs[slot].resource;
    Store(s.subs[slot := EMPTY_SLOT], s.free + [slot],
          WithBucket(s.index, resource, SwapRemove(Bucket(s.index, resource), slot)))
  }

  function Unsubscribed(s: Store, id: string): Store {
    var slot := FindId(s.subs, id);
    if slot == |s.subs| then s else Vacated(s, slot)
  }

  /** What save writes: the active slots, in slot order. */
  function Saved(subs: seq<Slot>): (records: seq<Record>) {
    if subs == [] then []
    else (if subs[0].active then [RecordOf(subs[0])] else []) + Saved(subs[1..])
  }

  function LoadedSlots(factory: WriterFactory, records: seq<Record>): seq<Slot> {
    seq(|records|, i requires 0 <= i < |records| => SlotOf(factory, records[i]))
  }

  /** The index built by appending the slots one by one. */
  function IndexOf(subs: seq<Slot>): map<string, seq<nat>> {
    if subs == [] then map[]
    else
      var last := |subs| - 1;
      var before := IndexOf(subs[..last]);
      before[subs[last].resource := Bucket(before, subs[last].resource) + [last]]
  }

  function Loaded(factory: WriterFactory, records: seq<Record>): Store {
    Store(LoadedSlots(factory, records), [], IndexOf(LoadedSlots(factory, records)))
  }

  datatype Target = Target(id: string, writer: nat)

  predicate InBounds(bucket: seq<nat>, n: nat) {
    forall k :: 0 <= k < |bucket| ==> bucket[k] < n
  }

  function TargetOf(sub: Slot): seq<Target> {
    if sub.writer.Some? then [Target(sub.id, sub.writer.value)] else []
  }

  function TargetsOf(subs: seq<Slot>, bucket: seq<nat>): seq<Target>
    requires InBounds(bucket, |subs|)
  {
    if bucket == [] then [] else TargetOf(subs[bucket[0]]) + TargetsOf(subs, bucket[1..])
  }

  // ------------------------------------------------------------------ the representation

  ghost predicate NoDuplicates<T(!new)>(s: seq<T>) {
    forall i, j :: 0 <= i < j < |s| ==> s[i] != s[j]
  }

  predicate ActiveAt(s: Store, i: nat) {
    i < |s.subs| && s.subs[i].active
  }

  predicate Holds(s: Store, i: nat, resource: string) {
    ActiveAt(s, i) && s.subs[i].resource == resource
  }

  /** The free list has no duplicates and is exactly the inactive slots. */
  ghost predicate FreeIsInactive(s: Store) {
    && NoDuplicates(s.free)
    && (forall k :: 0 <= k < |s.free| ==> s.free[k] < |s.subs|)
    && forall i: nat :: i in s.free <==> i < |s.subs| && !s.subs[i].active
  }

  /** The bucket of a resource has no duplicates and is exactly the active slots of that resource. */
  ghost predicate BucketIsExact(s: Store, resource: string) {
    && NoDuplicates(Bucket(s.index, resource))
    && forall i: nat :: i in Bucket(s.index, resource) <==> Holds(s, i, resource)
  }

  ghost predicate Shaped(s: Store) {
    && FreeIsInactive(s)
    && (forall r :: BucketIsExact(s, r))
    && (forall r :: r in s.index ==> s.index[r] != [])
  }

  ghost predicate UniqueIds(s: Store) {
    forall i: nat, j: nat :: ActiveAt(s, i) && ActiveAt(s, j) && s.subs[i].id == s.subs[j].id ==> i == j
  }

  ghost predicate MadeBy(s: Store, factory: WriterFactory) {
    forall i: nat :: ActiveAt(s, i) ==> s.subs[i].writer == WriterFor(factory, s.subs[i].endpoint)
  }

  /**
    A removed slot is gone from the bucket, the others stay, and duplicates do not appear; the last entry takes the
    place of the removed one, and all others keep theirs.
   */
  lemma SwapRemoveIsExact(bucket: seq<nat>, slot: nat)
    requires NoDuplicates(bucket)
    ensures NoDuplicates(SwapRemove(bucket, slot))
    ensures var r := SwapRemove(bucket, slot);
      && |r| == |bucket| - (if slot in bucket then 1 else 0)
      && forall j :: 0 <= j < |r| ==> r[j] == if bucket[j] == slot then bucket[|bucket| - 1] else bucket[j]
    ensures forall i: nat :: i in SwapRemove(bucket, slot) <==> i in bucket && i != slot
  {
    var k := FindSlot(bucket, slot);
    if k < |bucket| {
      var last := |bucket| - 1;
      var r := SwapRemove(bucket, slot);
      assert forall j :: 0 <= j < last ==> r[j] == if j == k then bucket[last] else bucket[j];
      forall i: nat | i in bucket && i != slot ensures i in r {
        var j :| 0 <= j < |bucket| && bucket[j] == i;
        assert r[if j == last then k else j] == i;
      }
    }
  }

  lemma AppendIsExact(bucket: seq<nat>, slot: nat)
    requires NoDuplicates(bucket) && slot !in bucket
    ensures NoDuplicates(bucket + [slot])
    ensures forall i: nat :: i in bucket + [slot] <==> i in bucket || i == slot
  {}

  lemma LastIsExact(free: seq<nat>)
    requires NoDuplicates(free) && free != []
    ensures NoDuplicates(free[..|free| - 1])
    ensures forall i: nat :: i in free[..|free| - 1] <==> i in free && i != free[|free| - 1]
  {
    forall i: nat | i in free && i != free[|free| - 1] ensures i in free[..|free| - 1] {
      var j :| 0 <= j < |free| && free[j] == i;
      assert free[..|free| - 1][j] == i;
    }
  }

  /** The slot a new subscription takes. */
  function NextSlot(s: Store): nat {
    if s.free == [] then |s.subs| else s.free[|s.free| - 1]
  }

  lemma SubscribeKeepsShape(s: Store, sub: Slot)
    requires Shaped(s) && sub.active
    ensures Shaped(Subscribed(s, sub))
    ensures forall i: nat :: ActiveAt(Subscribed(s, sub), i) <==> ActiveAt(s, i) || i == NextSlot(s)
    ensures !ActiveAt(s, NextSlot(s)) && NextSlot(s) < |Subscribed(s, sub).subs| && Subscribed(s, sub).subs[NextSlot(s)] == sub
    ensures forall i: nat :: ActiveAt(s, i) ==> Subscribed(s, sub).subs[i] == s.subs[i]
  {
    assert s.free != [] ==> s.free[|s.free| - 1] in s.free;
    var t, slot := Subscribed(s, sub), NextSlot(s);
    if s.free != [] {
      LastIsExact(s.free);
    } else {
      assert forall i: nat :: i < |s.subs| ==> s.subs[i].active;
    }
    assert BucketIsExact(s, sub.resource);
    AppendIsExact(Bucket(s.index, sub.resource), slot);
    forall r ensures BucketIsExact(t, r) {
      assert BucketIsExact(s, r);
    }
  }

  lemma UnsubscribeKeepsShape(s: Store, id: string)
    requires Shaped(s) && FindId(s.subs, id) < |s.subs|
    ensures Shaped(Unsubscribed(s, id))
    ensures forall i: nat :: ActiveAt(Unsubscribed(s, id), i) <==> ActiveAt(s, i) && i != FindId(s.subs, id)
    ensures forall i: nat :: ActiveAt(Unsubscribed(s, id), i) ==> Unsubscribed(s, id).subs[i] == s.subs[i]
  {
    VacateKeepsShape(s, FindId(s.subs, id));
  }

  /**
    A subscription after a removal takes the slot that has just become free, and only it; the slots that were
    free before stay free, in their order. Without a free slot it takes a new one at the end.
   */
  lemma LastFreedIsReused(s: Store, id: string, sub: Slot)
    requires Shaped(s) && FindId(s.subs, id) < |s.subs|
    ensures var t := Unsubscribed(s, id);
      && (forall k :: 0 <= k < |t.free| ==> t.free[k] < |t.subs|)
      && Subscribed(t, sub).subs == s.subs[FindId(s.subs, id) := sub] && Subscribed(t, sub).free == s.free
    ensures s.free == [] ==> Subscribed(s, sub).subs == s.subs + [sub]
  {
    var t, slot := Unsubscribed(s, id), FindId(s.subs, id);
    assert t.free == s.free + [slot] && t.free[..|s.free|] == s.free;
    assert s.subs[slot := EMPTY_SLOT][slot := sub] == s.subs[slot := sub];
  }

  lemma VacateKeepsShape(s: Store, slot: nat)
    requires Shaped(s) && ActiveAt(s, slot)
    ensures Shaped(Vacated(s, slot))
    ensures forall i: nat :: ActiveAt(Vacated(s, slot), i) <==> ActiveAt(s, i) && i != slot
    ensures forall i: nat :: ActiveAt(Vacated(s, slot), i) ==> Vacated(s, slot).subs[i] == s.subs[i]
  {
    var t := Vacated(s, slot);
    VacateKeepsFree(s, slot);
    forall r ensures BucketIsExact(t, r) && (r in t.index ==> t.index[r] != []) {
      assert BucketIsExact(s, r);
      VacateKeepsBucket(s, slot, r);
    }
  }

  lemma VacateKeepsFree(s: Store, slot: nat)
    requires FreeIsInactive(s) && ActiveAt(s, slot)
    ensures FreeIsInactive(Vacated(s, slot))
  {
    AppendIsExact(s.free, slot);
  }

  lemma VacateKeepsBucket(s: Store, slot: nat, r: string)
    requires ActiveAt(s, slot) && BucketIsExact(s, r)
    requires forall q :: q in s.index ==> s.index[q] != []
    ensures BucketIsExact(Vacated(s, slot), r)
    ensures r in Vacated(s, slot).index ==> Vacated(s, slot).index[r] != []
  {
    var bucket := Bucket(s.index, s.subs[slot].resource);
    if r == s.subs[slot].resource {
      SwapRemoveIsExact(bucket, slot);
    }
    EmptiedKeepsBucket(s, slot, SwapRemove(bucket, slot), s.free + [slot], r);
  }

  lemma EmptiedKeepsBucket(s: Store, slot: nat, left: seq<nat>, free: seq<nat>, r: string)
    requires ActiveAt(s, slot) && BucketIsExact(s, r)
    requires forall q :: q in s.index ==> s.index[q] != []
    requires r == s.subs[slot].resource ==>
      NoDuplicates(left) && forall i: nat :: i in left <==> i in Bucket(s.index, r) && i != slot
    ensures var t := Store(s.subs[slot := EMPTY_SLOT], free, WithBucket(s.index, s.subs[slot].resource, left));
      BucketIsExact(t, r) && (r in t.index ==> t.index[r] != [])
  {
    var t := Store(s.subs[slot := EMPTY_SLOT], free, WithBucket(s.index, s.subs[slot].resource, left));
    if r == s.subs[slot].resource {
      assert Bucket(t.index, r) == left;
      assert forall i: nat :: Holds(t, i, r) <==> Holds(s, i, r) && i != slot;
    } else {
      assert Bucket(t.index, r) == Bucket(s.index, r);
      assert forall i: nat :: Holds(t, i, r) <==> Holds(s, i, r);
    }
  }

  lemma {:induction false} IndexOfIsExact(subs: seq<Slot>)
    requires forall i :: 0 <= i < |subs| ==> subs[i].active
    ensures Shaped(Store(subs, [], IndexOf(subs)))
  {
    var s := Store(subs, [], IndexOf(subs));
    if subs != [] {
      var last := |subs| - 1;
      var before := Store(subs[..last], [], IndexOf(subs[..last]));
      IndexOfIsExact(subs[..last]);
      assert BucketIsExact(before, subs[last].resource);
      AppendIsExact(Bucket(before.index, subs[last].resource), last);
      forall r ensures BucketIsExact(s, r) {
        assert BucketIsExact(before, r);
        assert forall i: nat :: i < last ==> (Holds(s, i, r) <==> Holds(before, i, r));
      }
    }
  }

  // ------------------------------------------------------------------ the map it stands for

  datatype Interest = Interest(resource: string, endpoint: string)

  function InterestOf(s: Slot): Interest {
    Interest(s.resource, s.endpoint)
  }

  predicate HasId(s: Store, i: nat, id: string) {
    ActiveAt(s, i) && s.subs[i].id == id
  }

  ghost function Ids(s: Store): set<string> {
    set i: nat | i < |s.subs| && ActiveAt(s, i) :: s.subs[i].id
  }

  ghost function SlotWith(s: Store, id: string): (i: nat)
    requires id in Ids(s)
    ensures HasId(s, i, id)
  {
    var i: nat :| i < |s.subs| && ActiveAt(s, i) && s.subs[i].id == id;
    i
  }

  ghost function Abs(s: Store): map<string, Interest> {
    map id | id in Ids(s) :: InterestOf(s.subs[SlotWith(s, id)])
  }

  lemma AbsHas(s: Store, i: nat, id: string)
    requires UniqueIds(s) && HasId(s, i, id)
    ensures id in Abs(s) && Abs(s)[id] == InterestOf(s.subs[i])
  {
    assert id in Ids(s);
  }

  lemma AbsHasNot(s: Store, id: string)
    requires forall i: nat :: !HasId(s, i, id)
    ensures id !in Abs(s)
  {
    if id in Ids(s) {
      var _ := SlotWith(s, id);
    }
  }

  ghost predicate IsFreshId(s: Store, id: string) {
    forall i: nat :: ActiveAt(s, i) ==> s.subs[i].id != id
  }

  lemma SubscribeRefines(s: Store, sub: Slot)
    requires Shaped(s) && UniqueIds(s) && sub.active && IsFreshId(s, sub.id)
    ensures UniqueIds(Subscribed(s, sub))
    ensures Abs(Subscribed(s, sub)) == Abs(s)[sub.id := InterestOf(sub)]
  {
    SubscribeKeepsShape(s, sub);
    AddedRefines(s, Subscribed(s, sub), NextSlot(s));
  }

  lemma AddedRefines(s: Store, t: Store, slot: nat)
    requires UniqueIds(s) && ActiveAt(t, slot) && !ActiveAt(s, slot) && IsFreshId(s, t.subs[slot].id)
    requires forall i: nat :: ActiveAt(t, i) <==> ActiveAt(s, i) || i == slot
    requires forall i: nat :: ActiveAt(s, i) ==> ActiveAt(t, i) && t.subs[i] == s.subs[i]
    ensures UniqueIds(t)
    ensures Abs(t) == Abs(s)[t.subs[slot].id := InterestOf(t.subs[slot])]
  {
    AbsHas(t, slot, t.subs[slot].id);
    forall id | id in Abs(s) && id != t.subs[slot].id ensures id in Abs(t) && Abs(t)[id] == Abs(s)[id] {
      AbsHas(t, SlotWith(s, id), id);
    }
    forall id | id in Abs(t) && id != t.subs[slot].id ensures id in Abs(s) {
      AbsHas(s, SlotWith(t, id), id);
    }
  }

  lemma UnsubscribeRefines(s: Store, id: string)
    requires Shaped(s) && UniqueIds(s)
    ensures UniqueIds(Unsubscribed(s, id))
    ensures Abs(Unsubscribed(s, id)) == Abs(s) - {id}
  {
    var slot := FindId(s.subs, id);
    if slot < |s.subs| {
      UnsubscribeKeepsShape(s, id);
      RemovedRefines(s, Unsubscribed(s, id), slot);
    } else {
      AbsHasNot(s, id);
    }
  }

  lemma RemovedRefines(s: Store, t: Store, slot: nat)
    requires UniqueIds(s) && ActiveAt(s, slot)
    requires forall i: nat :: ActiveAt(t, i) <==> ActiveAt(s, i) && i != slot
    requires forall i: nat :: ActiveAt(t, i) ==> t.subs[i] == s.subs[i]
    ensures UniqueIds(t)
    ensures Abs(t) == Abs(s) - {s.subs[slot].id}
  {
    var id := s.subs[slot].id;
    AbsHas(s, slot, id);
    AbsHasNot(t, id);
    forall other | other in Abs(s) && other != id ensures other in Abs(t) && Abs(t)[other] == Abs(s)[other] {
      AbsHas(t, SlotWith(s, other), other);
    }
    forall other | other in Abs(t) ensures other in Abs(s) {
      AbsHas(s, SlotWith(t, other), other);
    }
  }

  /** Get answers with the subscription of this id, if there is one. */
  lemma GetIsLookup(s: Store, id: string)
    requires UniqueIds(s)
    ensures FindId(s.subs, id) < |s.subs| <==> id in Abs(s)
    ensures id in Abs(s) ==> Abs(s)[id] == InterestOf(s.subs[FindId(s.subs, id)])
  {
    var slot := FindId(s.subs, id);
    if slot < |s.subs| {
      AbsHas(s, slot, id);
    } else {
      AbsHasNot(s, id);
    }
  }

  // ------------------------------------------------------------------ publishing

  lemma {:induction false} TargetIn(subs: seq<Slot>, bucket: seq<nat>, t: Target)
    requires InBounds(bucket, |subs|)
    ensures t in TargetsOf(subs, bucket)
      <==> exists k :: 0 <= k < |bucket| && subs[bucket[k]].id == t.id && subs[bucket[k]].writer == Some(t.writer)
  {
    if bucket != [] {
      TargetIn(subs, bucket[1..], t);
      if exists k :: 0 <= k < |bucket| && subs[bucket[k]].id == t.id && subs[bucket[k]].writer == Some(t.writer) {
        var k :| 0 <= k < |bucket| && subs[bucket[k]].id == t.id && subs[bucket[k]].writer == Some(t.writer);
        if k > 0 {
          assert bucket[1..][k - 1] == bucket[k];
        }
      }
    }
  }

  /** An event is delivered to exactly the subscriptions of its source whose endpoint has a writer. */
  lemma TargetsAreExact(s: Store, factory: WriterFactory, source: string, t: Target)
    requires Shaped(s) && UniqueIds(s) && MadeBy(s, factory)
    requires InBounds(Bucket(s.index, source), |s.subs|)
    ensures t in TargetsOf(s.subs, Bucket(s.index, source))
      <==> t.id in Abs(s) && Abs(s)[t.id].resource == source
           && Abs(s)[t.id].endpoint != "" && Abs(s)[t.id].endpoint in factory && factory[Abs(s)[t.id].endpoint] == t.writer
  {
    var bucket := Bucket(s.index, source);
    TargetIn(s.subs, bucket, t);
    assert BucketIsExact(s, source);
    if t in TargetsOf(s.subs, bucket) {
      var k :| 0 <= k < |bucket| && s.subs[bucket[k]].id == t.id && s.subs[bucket[k]].writer == Some(t.writer);
      assert bucket[k] in bucket && Holds(s, bucket[k], source);
      AbsHas(s, bucket[k], t.id);
    }
    if t.id in Abs(s) && Abs(s)[t.id].resource == source && WriterFor(factory, Abs(s)[t.id].endpoint) == Some(t.writer) {
      var i := SlotWith(s, t.id);
      assert Holds(s, i, source);
      var k :| 0 <= k < |bucket| && bucket[k] == i;
    }
  }

  /** Places from i on in a list of n items, in order. */
  ghost predicate ArePlaces(at: seq<nat>, i: nat, n: nat) {
    (forall k :: 0 <= k < |at| ==> i <= at[k] < n) && forall j, k :: 0 <= j < k < |at| ==> at[j] < at[k]
  }

  /** One more item in front, which is or is not at one of the places. */
  lemma OnePlaceMore(rest: seq<nat>, i: nat, n: nat, first: bool) returns (at: seq<nat>)
    requires ArePlaces(rest, i + 1, n) && i < n
    ensures at == (if first then [i] else []) + rest && ArePlaces(at, i, n)
    ensures forall j: nat :: j in at <==> (j == i && first) || j in rest
  {
    at := (if first then [i] else []) + rest;
  }

  ghost predicate IsServed(subs: seq<Slot>, slot: nat, t: Target) {
    slot < |subs| && subs[slot].id == t.id && subs[slot].writer == Some(t.writer)
  }

  /** The targets are served in the order of their bucket: `at` are their places in it. */
  lemma {:induction false} TargetsInOrder(subs: seq<Slot>, bucket: seq<nat>, i: nat) returns (at: seq<nat>)
    requires InBounds(bucket, |subs|) && i <= |bucket|
    ensures ArePlaces(at, i, |bucket|) && |at| == |TargetsOf(subs, bucket[i..])|
    ensures forall j: nat :: j in at <==> i <= j < |bucket| && subs[bucket[j]].writer.Some?
    ensures forall k :: 0 <= k < |at| ==> IsServed(subs, bucket[at[k]], TargetsOf(subs, bucket[i..])[k])
    decreases |bucket| - i
  {
    if i == |bucket| {
      at := [];
    } else {
      var rest := TargetsInOrder(subs, bucket, i + 1);
      TargetsOfNext(subs, bucket, i);
      at := OnePlaceMore(rest, i, |bucket|, subs[bucket[i]].writer.Some?);
    }
  }

  lemma {:induction false} TargetsOfAppend(subs: seq<Slot>, bucket: seq<nat>, slot: nat)
    requires InBounds(bucket, |subs|) && slot < |subs|
    ensures InBounds(bucket + [slot], |subs|)
    ensures TargetsOf(subs, bucket + [slot]) == TargetsOf(subs, bucket) + TargetOf(subs[slot])
  {
    if bucket == [] {
      assert bucket + [slot] == [slot] && [slot][1..] == [];
      assert TargetOf(subs[slot]) + [] == [] + TargetOf(subs[slot]);
    } else {
      assert (bucket + [slot])[1..] == bucket[1..] + [slot];
      TargetsOfAppend(subs, bucket[1..], slot);
      Regrouped(TargetOf(subs[bucket[0]]), TargetsOf(subs, bucket[1..]), TargetOf(subs[slot]));
    }
  }

  lemma {:induction false} TargetsOfSame(a: seq<Slot>, b: seq<Slot>, bucket: seq<nat>)
    requires InBounds(bucket, |a|) && InBounds(bucket, |b|) && forall k :: 0 <= k < |bucket| ==> a[bucket[k]] == b[bucket[k]]
    ensures TargetsOf(a, bucket) == TargetsOf(b, bucket)
  {
    if bucket != [] {
      TargetsOfSame(a, b, bucket[1..]);
    }
  }

  /** A new subscription is served after those that were there, and nothing else changes for any source. */
  lemma NewIsServedLast(s: Store, sub: Slot, source: string)
    requires Shaped(s) && sub.active
    ensures (forall k :: 0 <= k < |s.free| ==> s.free[k] < |s.subs|) && InBounds(Bucket(s.index, source), |s.subs|)
    ensures var t := Subscribed(s, sub);
      && InBounds(Bucket(t.index, source), |t.subs|)
      && TargetsOf(t.subs, Bucket(t.index, source))
           == TargetsOf(s.subs, Bucket(s.index, source))
              + if sub.resource == source && sub.writer.Some? then [Target(sub.id, sub.writer.value)] else []
  {
    SubscribeKeepsShape(s, sub);
    BucketIsInBounds(s, source);
    SlotsStay(s, Subscribed(s, sub), source, Bucket(s.index, source));
    TargetsOfSame(s.subs, Subscribed(s, sub).subs, Bucket(s.index, source));
    if sub.resource == source {
      TargetsOfAppend(Subscribed(s, sub).subs, Bucket(s.index, source), NextSlot(s));
    } else {
      assert TargetsOf(s.subs, Bucket(s.index, source)) + [] == TargetsOf(s.subs, Bucket(s.index, source));
    }
  }

  lemma SlotsStay(s: Store, t: Store, source: string, bucket: seq<nat>)
    requires bucket == Bucket(s.index, source) && BucketIsExact(s, source)
    requires |s.subs| <= |t.subs| && forall i: nat :: ActiveAt(s, i) ==> t.subs[i] == s.subs[i]
    ensures InBounds(bucket, |t.subs|) && InBounds(bucket, |s.subs|)
    ensures forall k :: 0 <= k < |bucket| ==> t.subs[bucket[k]] == s.subs[bucket[k]]
  {
    assert forall k :: 0 <= k < |bucket| ==> bucket[k] in bucket && Holds(s, bucket[k], source);
  }

  /** No subscription is served twice. */
  lemma {:induction false} TargetsAreDistinct(s: Store, bucket: seq<nat>)
    requires UniqueIds(s) && NoDuplicates(bucket)
    requires forall k :: 0 <= k < |bucket| ==> ActiveAt(s, bucket[k])
    ensures forall j, k :: 0 <= j < k < |TargetsOf(s.subs, bucket)| ==>
      TargetsOf(s.subs, bucket)[j].id != TargetsOf(s.subs, bucket)[k].id
  {
    if bucket != [] {
      TargetsAreDistinct(s, bucket[1..]);
      var rest := TargetsOf(s.subs, bucket[1..]);
      forall j | 0 <= j < |rest| ensures rest[j].id != s.subs[bucket[0]].id {
        TargetIn(s.subs, bucket[1..], rest[j]);
        var k :| 0 <= k < |bucket[1..]| && s.subs[bucket[1..][k]].id == rest[j].id;
        assert bucket[1..][k] == bucket[k + 1] != bucket[0];
        assert ActiveAt(s, bucket[k + 1]) && ActiveAt(s, bucket[0]);
      }
    }
  }

  // ------------------------------------------------------------------ save and load

  ghost predicate UniqueRecords(records: seq<Record>) {
    forall i, j :: 0 <= i < |records| && 0 <= j < |records| && records[i].id == records[j].id ==> i == j
  }

  ghost function RecordMap(records: seq<Record>): map<string, Interest>
    requires UniqueRecords(records)
  {
    map i | 0 <= i < |records| :: records[i].id := Interest(records[i].resource, records[i].endpoint)
  }

  lemma {:induction false} RecordIn(subs: seq<Slot>, r: Record)
    ensures r in Saved(subs) <==> exists i :: 0 <= i < |subs| && subs[i].active && RecordOf(subs[i]) == r
  {
    if subs != [] {
      RecordIn(subs[1..], r);
      if exists i :: 0 <= i < |subs| && subs[i].active && RecordOf(subs[i]) == r {
        var i :| 0 <= i < |subs| && subs[i].active && RecordOf(subs[i]) == r;
        if i > 0 {
          assert subs[1..][i - 1] == subs[i];
        }
      }
    }
  }

  ghost predicate UniqueSlots(subs: seq<Slot>) {
    forall i, j :: 0 <= i < |subs| && 0 <= j < |subs| && subs[i].active && subs[j].active && subs[i].id == subs[j].id ==> i == j
  }

  lemma {:induction false} SavedIsUnique(subs: seq<Slot>)
    requires UniqueSlots(subs)
    ensures UniqueRecords(Saved(subs))
  {
    if subs != [] {
      assert UniqueSlots(subs[1..]) by {
        assert forall i :: 0 <= i < |subs| - 1 ==> subs[1..][i] == subs[i + 1];
      }
      SavedIsUnique(subs[1..]);
      if subs[0].active {
        FirstIsNotSaved(subs);
        UniqueCons(RecordOf(subs[0]), Saved(subs[1..]));
      }
    }
  }

  ghost predicate LacksId(records: seq<Record>, id: string) {
    forall j :: 0 <= j < |records| ==> records[j].id != id
  }

  lemma UniqueCons(r: Record, rest: seq<Record>)
    requires UniqueRecords(rest) && LacksId(rest, r.id)
    ensures UniqueRecords([r] + rest)
  {}

  lemma FirstIsNotSaved(subs: seq<Slot>)
    requires UniqueSlots(subs) && subs != [] && subs[0].active
    ensures LacksId(Saved(subs[1..]), subs[0].id)
  {
    var rest := Saved(subs[1..]);
    forall j | 0 <= j < |rest| ensures rest[j].id != subs[0].id {
      RecordIn(subs[1..], rest[j]);
      var i :| 0 <= i < |subs[1..]| && subs[1..][i].active && RecordOf(subs[1..][i]) == rest[j];
      assert subs[1..][i] == subs[i + 1];
    }
  }

  lemma SavedIsTheMap(s: Store)
    requires UniqueIds(s)
    ensures UniqueRecords(Saved(s.subs))
    ensures RecordMap(Saved(s.subs)) == Abs(s)
  {
    assert UniqueSlots(s.subs) by {
      forall i, j | 0 <= i < |s.subs| && 0 <= j < |s.subs| && s.subs[i].active && s.subs[j].active && s.subs[i].id == s.subs[j].id
        ensures i == j
      {
        assert ActiveAt(s, i) && ActiveAt(s, j);
      }
    }
    SavedIsUnique(s.subs);
    forall id | id in RecordMap(Saved(s.subs)) ensures id in Abs(s) && Abs(s)[id] == RecordMap(Saved(s.subs))[id] {
      SavedIsFromSlot(s, id);
    }
    forall id | id in Abs(s) ensures id in RecordMap(Saved(s.subs)) {
      var r := RecordOf(s.subs[SlotWith(s, id)]);
      RecordIn(s.subs, r);
      RecordMapHas(Saved(s.subs), r);
    }
  }

  lemma RecordMapHas(records: seq<Record>, r: Record)
    requires UniqueRecords(records) && r in records
    ensures r.id in RecordMap(records) && RecordMap(records)[r.id] == Interest(r.resource, r.endpoint)
  {
    var j :| 0 <= j < |records| && records[j] == r;
    assert records[j].id == r.id;
  }

  lemma SavedIsFromSlot(s: Store, id: string)
    requires UniqueIds(s) && UniqueRecords(Saved(s.subs)) && id in RecordMap(Saved(s.subs))
    ensures id in Abs(s) && Abs(s)[id] == RecordMap(Saved(s.subs))[id]
  {
    var j :| 0 <= j < |Saved(s.subs)| && Saved(s.subs)[j].id == id;
    var r := Saved(s.subs)[j];
    RecordIn(s.subs, r);
    var i: nat :| i < |s.subs| && s.subs[i].active && RecordOf(s.subs[i]) == r;
    AbsHas(s, i, id);
    RecordMapHas(Saved(s.subs), r);
  }

  /** Loading any file, even one with repeated ids, gives a well-shaped store with one active slot per record. */
  lemma LoadedIsShaped(factory: WriterFactory, records: seq<Record>)
    ensures Shaped(Loaded(factory, records)) && MadeBy(Loaded(factory, records), factory)
    ensures UniqueIds(Loaded(factory, records)) <==> UniqueRecords(records)
  {
    IndexOfIsExact(LoadedSlots(factory, records));
    var t := Loaded(factory, records);
    if UniqueIds(t) {
      forall i, j | 0 <= i < |records| && 0 <= j < |records| && records[i].id == records[j].id ensures i == j {
        assert ActiveAt(t, i) && ActiveAt(t, j);
      }
    }
  }

  /** Every slot is active and holds one of the records. */
  ghost predicate HoldRecords(t: Store, records: seq<Record>) {
    |t.subs| == |records| && forall j: nat :: j < |records| ==> HasId(t, j, records[j].id) && RecordOf(t.subs[j]) == records[j]
  }

  lemma HeldRecordsAreTheMap(t: Store, records: seq<Record>)
    requires UniqueRecords(records) && UniqueIds(t) && HoldRecords(t, records)
    ensures Abs(t) == RecordMap(records)
  {
    forall id | id in RecordMap(records) ensures id in Abs(t) && Abs(t)[id] == RecordMap(records)[id] {
      var j :| 0 <= j < |records| && records[j].id == id;
      AbsHas(t, j, id);
      RecordMapHas(records, records[j]);
    }
    forall id | id in Abs(t) ensures id in RecordMap(records) {
      RecordMapHas(records, records[SlotWith(t, id)]);
    }
  }

  lemma LoadedIsTheMap(factory: WriterFactory, records: seq<Record>)
    requires UniqueRecords(records) && UniqueIds(Loaded(factory, records))
    ensures Abs(Loaded(factory, records)) == RecordMap(records)
  {
    HeldRecordsAreTheMap(Loaded(factory, records), records);
  }

  /** The active slots in slot order: what List returns. */
  function Listed(subs: seq<Slot>): seq<Slot> {
    if subs == [] then []
    else (if subs[0].active then [subs[0]] else []) + Listed(subs[1..])
  }

  predicate IsRecordOf(r: Record, s: Slot) {
    r.id == s.id && r.resource == s.resource && r.endpoint == s.endpoint
  }

  /** List returns exactly the active slots, in slot order: `at` are their slots. */
  lemma {:induction false} ListedInOrder(subs: seq<Slot>, i: nat) returns (at: seq<nat>)
    requires i <= |subs|
    ensures ArePlaces(at, i, |subs|) && forall j: nat :: j in at <==> i <= j < |subs| && subs[j].active
    ensures |at| == |Listed(subs[i..])| && forall k :: 0 <= k < |at| ==> Listed(subs[i..])[k] == subs[at[k]]
    decreases |subs| - i
  {
    if i == |subs| {
      at := [];
    } else {
      var rest := ListedInOrder(subs, i + 1);
      assert subs[i..][1..] == subs[i + 1..];
      at := OnePlaceMore(rest, i, |subs|, subs[i].active);
    }
  }

  /** What save writes are the records of exactly these slots, in the same order. */
  lemma {:induction false} SavedInOrder(subs: seq<Slot>)
    ensures |Saved(subs)| == |Listed(subs)|
    ensures forall k :: 0 <= k < |Saved(subs)| ==> IsRecordOf(Saved(subs)[k], Listed(subs)[k])
  {
    if subs != [] {
      SavedInOrder(subs[1..]);
      var saved, listed := Saved(subs[1..]), Listed(subs[1..]);
      if subs[0].active {
        assert Saved(subs) == [RecordOf(subs[0])] + saved && Listed(subs) == [subs[0]] + listed;
      } else {
        assert Saved(subs) == saved && Listed(subs) == listed;
      }
    }
  }

  lemma {:induction false} AllActiveAreListed(subs: seq<Slot>)
    requires forall i :: 0 <= i < |subs| ==> subs[i].active
    ensures Listed(subs) == subs
  {
    if subs != [] {
      AllActiveAreListed(subs[1..]);
    }
  }

  lemma LoadedCons(factory: WriterFactory, r: Record, rest: seq<Record>)
    ensures LoadedSlots(factory, [r] + rest) == [SlotOf(factory, r)] + LoadedSlots(factory, rest)
  {}

  lemma {:induction false} SavedSlotsAreListed(subs: seq<Slot>, factory: WriterFactory)
    requires forall i :: 0 <= i < |subs| && subs[i].active ==> subs[i].writer == WriterFor(factory, subs[i].endpoint)
    ensures LoadedSlots(factory, Saved(subs)) == Listed(subs)
  {
    if subs != [] {
      SavedSlotsAreListed(subs[1..], factory);
      if subs[0].active {
        LoadedCons(factory, RecordOf(subs[0]), Saved(subs[1..]));
        assert SlotOf(factory, RecordOf(subs[0])) == subs[0];
      } else {
        assert [] + Saved(subs[1..]) == Saved(subs[1..]);
      }
    }
  }

  /** A restart restores the subscriptions: the same map, and the same list in the same order. */
  lemma RestartRestores(s: Store, factory: WriterFactory)
    requires UniqueIds(s) && MadeBy(s, factory)
    ensures var t := Loaded(factory, Saved(s.subs));
            Shaped(t) && UniqueIds(t) && Abs(t) == Abs(s) && Listed(t.subs) == Listed(s.subs)
  {
    var t := Loaded(factory, Saved(s.subs));
    SavedIsTheMap(s);
    LoadedIsShaped(factory, Saved(s.subs));
    LoadedIsTheMap(factory, Saved(s.subs));
    assert forall i :: 0 <= i < |s.subs| && s.subs[i].active ==> ActiveAt(s, i);
    SavedSlotsAreListed(s.subs, factory);
    AllActiveAreListed(t.subs);
  }

  // ------------------------------------------------------------------ runs

  /** The store, what its file holds, and the most active subscriptions since the last clear or load. */
  datatype System = System(store: Store, file: Option<seq<Record>>, peak: nat)

  /** One call; `saves` and `readable` say whether the disk cooperates. */
  datatype Op =
    | Add(id: string, resource: string, endpoint: string, saves: bool)
    | Remove(id: string, saves: bool)
    | Clear(saves: bool)
    | Load(readable: bool)

  function ActiveSlots(s: Store): set<nat> {
    set i: nat | i < |s.subs| && ActiveAt(s, i)
  }

  function Written(y: System, saves: bool): System {
    if saves then y.(file := Some(Saved(y.store.subs))) else y
  }

  ghost predicate Good(y: System, factory: WriterFactory) {
    && Shaped(y.store) && UniqueIds(y.store) && MadeBy(y.store, factory)
    && (y.file.Some? ==> UniqueRecords(y.file.value))
    && |y.store.subs| == y.peak
  }

  ghost predicate Allowed(y: System, op: Op) {
    op.Add? ==> IsFreshId(y.store, op.id)
  }

  function AddTo(y: System, sub: Slot): System
    requires forall k :: 0 <= k < |y.store.free| ==> y.store.free[k] < |y.store.subs|
  {
    var t := Subscribed(y.store, sub);
    y.(store := t, peak := if |ActiveSlots(t)| > y.peak then |ActiveSlots(t)| else y.peak)
  }

  function LoadFrom(y: System, factory: WriterFactory, records: seq<Record>): System {
    y.(store := Loaded(factory, records), peak := |records|)
  }

  function Step(y: System, op: Op, factory: WriterFactory): System
    requires forall k :: 0 <= k < |y.store.free| ==> y.store.free[k] < |y.store.subs|
  {
    match op
    case Add(id, resource, endpoint, saves) => Written(AddTo(y, SlotOf(factory, Record(id, resource, endpoint))), saves)
    case Remove(id, saves) =>
      if FindId(y.store.subs, id) == |y.store.subs| then y
      else Written(y.(store := Unsubscribed(y.store, id)), saves)
    case Clear(saves) => Written(y.(store := EMPTY_STORE, peak := 0), saves)
    case Load(readable) => if readable && y.file.Some? then LoadFrom(y, factory, y.file.value) else y
  }

  /** The simple form: a map of subscriptions, and a copy of it on disk. */
  datatype Plain = Plain(subs: map<string, Interest>, disk: Option<map<string, Interest>>)

  function PlainWritten(m: Plain, saves: bool): Plain {
    if saves then m.(disk := Some(m.subs)) else m
  }

  function PlainStep(m: Plain, op: Op): Plain {
    match op
    case Add(id, resource, endpoint, saves) => PlainWritten(m.(subs := m.subs[id := Interest(resource, endpoint)]), saves)
    case Remove(id, saves) => if id !in m.subs then m else PlainWritten(m.(subs := m.subs - {id}), saves)
    case Clear(saves) => PlainWritten(m.(subs := map[]), saves)
    case Load(readable) => if readable && m.disk.Some? then m.(subs := m.disk.value) else m
  }

  ghost function Plainly(y: System): Plain
    requires y.file.Some? ==> UniqueRecords(y.file.value)
  {
    Plain(Abs(y.store), if y.file.Some? then Some(RecordMap(y.file.value)) else None)
  }

  lemma WrittenRefines(y: System, saves: bool, factory: WriterFactory)
    requires Good(y, factory)
    ensures Good(Written(y, saves), factory)
    ensures Plainly(Written(y, saves)) == PlainWritten(Plainly(y), saves)
  {
    SavedIsTheMap(y.store);
  }

  /** A slot is appended only when every slot is active. */
  lemma PeakAfterAdd(s: Store, sub: Slot)
    requires Shaped(s) && sub.active
    ensures |Subscribed(s, sub).subs| == if |ActiveSlots(Subscribed(s, sub))| > |s.subs| then |ActiveSlots(Subscribed(s, sub))| else |s.subs|
  {
    SubscribeKeepsShape(s, sub);
    var t := Subscribed(s, sub);
    AtMostAll(t);
    if s.free == [] {
      assert forall i: nat :: i < |t.subs| ==> ActiveAt(t, i);
      AllAre(t);
    }
  }

  function AllSlots(n: nat): (r: set<nat>)
    ensures |r| == n && forall i: nat :: i in r <==> i < n
  {
    if n == 0 then {} else AllSlots(n - 1) + {n - 1}
  }

  lemma {:induction false} SubsetIsSmaller(a: set<nat>, b: set<nat>)
    requires a <= b
    ensures |a| <= |b|
    decreases a
  {
    if a != {} {
      var x :| x in a;
      SubsetIsSmaller(a - {x}, b - {x});
    }
  }

  lemma AtMostAll(s: Store)
    ensures |ActiveSlots(s)| <= |s.subs|
  {
    SubsetIsSmaller(ActiveSlots(s), AllSlots(|s.subs|));
  }

  lemma AllAre(s: Store)
    requires forall i: nat :: i < |s.subs| ==> ActiveAt(s, i)
    ensures |ActiveSlots(s)| == |s.subs|
  {
    assert ActiveSlots(s) == AllSlots(|s.subs|);
  }

  lemma AddRefines(y: System, sub: Slot, factory: WriterFactory)
    requires Good(y, factory) && sub.active && sub.writer == WriterFor(factory, sub.endpoint) && IsFreshId(y.store, sub.id)
    ensures Good(AddTo(y, sub), factory)
    ensures Plainly(AddTo(y, sub)) == Plainly(y).(subs := Plainly(y).subs[sub.id := InterestOf(sub)])
  {
    SubscribeKeepsShape(y.store, sub);
    SubscribeRefines(y.store, sub);
    PeakAfterAdd(y.store, sub);
  }

  lemma RemoveRefines(y: System, id: string, factory: WriterFactory)
    requires Good(y, factory) && FindId(y.store.subs, id) < |y.store.subs|
    ensures Good(y.(store := Unsubscribed(y.store, id)), factory)
    ensures Plainly(y.(store := Unsubscribed(y.store, id))) == Plainly(y).(subs := Plainly(y).subs - {id})
    ensures id in Plainly(y).subs
  {
    UnsubscribeKeepsShape(y.store, id);
    UnsubscribeRefines(y.store, id);
    GetIsLookup(y.store, id);
  }

  lemma LoadRefines(y: System, factory: WriterFactory, records: seq<Record>)
    requires Good(y, factory) && UniqueRecords(records)
    ensures Good(LoadFrom(y, factory, records), factory)
    ensures Plainly(LoadFrom(y, factory, records)) == Plainly(y).(subs := RecordMap(records))
  {
    LoadedIsShaped(factory, records);
    LoadedIsTheMap(factory, records);
  }

  /** Every call keeps the representation and does to the slots what the simple form does to the map. */
  lemma StepRefines(y: System, op: Op, factory: WriterFactory)
    requires Good(y, factory) && Allowed(y, op)
    ensures Good(Step(y, op, factory), factory)
    ensures Plainly(Step(y, op, factory)) == PlainStep(Plainly(y), op)
  {
    match op
    case Add(id, resource, endpoint, saves) =>
      var sub := SlotOf(factory, Record(id, resource, endpoint));
      AddRefines(y, sub, factory);
      WrittenRefines(AddTo(y, sub), saves, factory);
    case Remove(id, saves) =>
      GetIsLookup(y.store, id);
      if FindId(y.store.subs, id) < |y.store.subs| {
        RemoveRefines(y, id, factory);
        WrittenRefines(y.(store := Unsubscribed(y.store, id)), saves, factory);
      }
    case Clear(saves) =>
      var cleared := y.(store := EMPTY_STORE, peak := 0);
      assert Abs(EMPTY_STORE) == map[];
      WrittenRefines(cleared, saves, factory);
    case Load(readable) =>
      if readable && y.file.Some? {
        LoadRefines(y, factory, y.file.value);
      }
  }

  /** A run of calls, with the states in between. */
  ghost predicate IsRun(ys: seq<System>, ops: seq<Op>, factory: WriterFactory) {
    |ys| == |ops| + 1 && forall k :: 0 <= k < |ops| ==> IsStep(ys, ops, k, factory)
  }

  ghost predicate IsStep(ys: seq<System>, ops: seq<Op>, k: nat, factory: WriterFactory)
    requires k < |ops| && |ys| == |ops| + 1
  {
    && Allowed(ys[k], ops[k])
    && (forall i :: 0 <= i < |ys[k].store.free| ==> ys[k].store.free[i] < |ys[k].store.subs|)
    && ys[k + 1] == Step(ys[k], ops[k], factory)
  }

  function PlainRun(m: Plain, ops: seq<Op>): Plain {
    if ops == [] then m else PlainStep(PlainRun(m, ops[..|ops| - 1]), ops[|ops| - 1])
  }

  /**
    Over any run the store refines the map, keeps its representation, and has as many slots as there
    were active subscriptions at once since the last clear or load.
   */
  lemma {:induction false} RunRefines(ys: seq<System>, ops: seq<Op>, factory: WriterFactory, n: nat)
    requires IsRun(ys, ops, factory) && n <= |ops| && Good(ys[0], factory)
    ensures Good(ys[n], factory)
    ensures Plainly(ys[n]) == PlainRun(Plainly(ys[0]), ops[..n])
  {
    if n > 0 {
      RunRefines(ys, ops, factory, n - 1);
      assert IsStep(ys, ops, n - 1, factory);
      StepRefines(ys[n - 1], ops[n - 1], factory);
      assert ops[..n][..n - 1] == ops[..n - 1];
    }
  }

  // ------------------------------------------------------------------ the store in place

  lemma IndexOfSnoc(subs: seq<Slot>, sub: Slot)
    ensures IndexOf(subs + [sub]) == IndexOf(subs)[sub.resource := Bucket(IndexOf(subs), sub.resource) + [|subs|]]
  {
    assert (subs + [sub])[..|subs|] == subs;
  }

  lemma TargetsOfNext(subs: seq<Slot>, indices: seq<nat>, i: nat)
    requires i < |indices| && InBounds(indices, |subs|)
    ensures TargetsOf(subs, indices[i..]) == TargetOf(subs[indices[i]]) + TargetsOf(subs, indices[i + 1..])
  {
    assert indices[i..][1..] == indices[i + 1..];
  }

  lemma BucketIsInBounds(s: Store, source: string)
    requires Shaped(s)
    ensures BucketIsExact(s, source)
    ensures InBounds(Bucket(s.index, source), |s.subs|)
  {
    var indices := Bucket(s.index, source);
    assert BucketIsExact(s, source);
    assert forall k :: 0 <= k < |indices| ==> indices[k] in indices && Holds(s, indices[k], source);
  }

  lemma LoadedNext(factory: WriterFactory, records: seq<Record>, i: nat)
    requires i < |records|
    ensures LoadedSlots(factory, records[..i + 1]) == LoadedSlots(factory, records[..i]) + [SlotOf(factory, records[i])]
  {}

  class PubSub {
    var subs: seq<Slot>
    var free: seq<nat>
    var resourceIndex: map<string, seq<nat>>
    var file: Option<seq<Record>>
    const factory: WriterFactory

    function State(): Store
      reads this
    {
      Store(subs, free, resourceIndex)
    }

    constructor (factory: WriterFactory, file: Option<seq<Record>>)
      ensures State() == EMPTY_STORE && this.factory == factory && this.file == file
    {
      subs, free, resourceIndex, this.factory, this.file := [], [], map[], factory, file;
    }

    /** `id` is the identifier drawn for the new subscription; `saves` says whether the file can be written. */
    method Subscribe(id: string, resource: string, endpoint: string, saves: bool)
      requires Shaped(State())
      modifies this
      ensures Shaped(State()) && State() == Subscribed(old(State()), SlotOf(factory, Record(id, resource, endpoint)))
      ensures file == if saves then Some(Saved(subs)) else old(file)
    {
      var sub := SlotOf(factory, Record(id, resource, endpoint));
      SubscribeKeepsShape(State(), sub);
      var slot: nat;
      if |free| > 0 {
        slot := free[|free| - 1];
        free := free[..|free| - 1];
        subs := subs[slot := sub];
      } else {
        slot := |subs|;
        subs := subs + [sub];
      }
      resourceIndex := resourceIndex[resource := Bucket(resourceIndex, resource) + [slot]];
      Save(saves);
    }

    method Unsubscribe(id: string, saves: bool) returns (found: bool)
      requires Shaped(State())
      modifies this
      ensures found == (FindId(old(subs), id) < |old(subs)|)
      ensures Shaped(State()) && State() == Unsubscribed(old(State()), id)
      ensures file == if found && saves then Some(Saved(subs)) else old(file)
    {
      var slot := Find(id);
      if slot == |subs| {
        return false;
      }
      UnsubscribeKeepsShape(State(), id);
      Vacate(slot);
      Save(saves);
      return true;
    }

    method Vacate(slot: nat)
      requires slot < |subs|
      modifies this`subs, this`free, this`resourceIndex
      ensures State() == Vacated(old(State()), slot)
    {
      var resource := subs[slot].resource;
      subs := subs[slot := EMPTY_SLOT];
      free := free + [slot];
      var indices := RemoveFromBucket(Bucket(resourceIndex, resource), slot);
      if indices == [] {
        resourceIndex := resourceIndex - {resource};
      } else {
        resourceIndex := resourceIndex[resource := indices];
      }
    }

    method Find(id: string) returns (slot: nat)
      ensures slot == FindId(subs, id)
    {
      slot := 0;
      while slot < |subs|
        invariant slot <= |subs|
        invariant forall j :: 0 <= j < slot ==> !Matches(subs[j], id)
      {
        if Matches(subs[slot], id) {
          return;
        }
        slot := slot + 1;
      }
    }

    static method RemoveFromBucket(bucket: seq<nat>, slot: nat) returns (indices: seq<nat>)
      ensures indices == SwapRemove(bucket, slot)
    {
      indices := bucket;
      for i := 0 to |bucket|
        invariant indices == bucket
        invariant forall j :: 0 <= j < i ==> bucket[j] != slot
      {
        if indices[i] == slot {
          indices := indices[i := indices[|indices| - 1]];
          indices := indices[..|indices| - 1];
          return;
        }
      }
    }

    method UnsubscribeAll(saves: bool)
      modifies this
      ensures State() == EMPTY_STORE
      ensures file == if saves then Some([]) else old(file)
    {
      subs, free, resourceIndex := [], [], map[];
      Save(saves);
    }

    method Save(saves: bool)
      modifies this`file
      ensures file == if saves then Some(Saved(subs)) else old(file)
    {
      var records := Records();
      if saves {
        file := Some(records);
      }
    }

    method Records() returns (records: seq<Record>)
      ensures records == Saved(subs)
    {
      records := [];
      for i := 0 to |subs|
        invariant records + Saved(subs[i..]) == Saved(subs)
      {
        assert subs[i..][1..] == subs[i + 1..];
        if subs[i].active {
          records := records + [RecordOf(subs[i])];
        }
      }
    }

    /** `readable` says whether the file, if there is one, can be read and decoded. */
    method LoadFromDisk(readable: bool) returns (ok: bool)
      modifies this
      ensures ok == (file.None? || readable)
      ensures State() == if readable && file.Some? then Loaded(factory, file.value) else old(State())
      ensures file == old(file)
    {
      if file.None? {
        return true;
      }
      if !readable {
        return false;
      }
      subs, free, resourceIndex := [], [], map[];
      Fill(file.value);
      return true;
    }

    method Fill(records: seq<Record>)
      requires subs == [] && resourceIndex == map[]
      modifies this`subs, this`resourceIndex
      ensures subs == LoadedSlots(factory, records)
      ensures resourceIndex == IndexOf(subs)
    {
      assert records[..|records|] == records;
      for i := 0 to |records|
        invariant subs == LoadedSlots(factory, records[..i])
        invariant resourceIndex == IndexOf(subs)
      {
        var sub := SlotOf(factory, records[i]);
        IndexOfSnoc(subs, sub);
        LoadedNext(factory, records, i);
        resourceIndex := resourceIndex[sub.resource := Bucket(resourceIndex, sub.resource) + [i]];
        subs := subs + [sub];
      }
    }

    method GetTargets(source: string) returns (targets: seq<Target>)
      requires Shaped(State())
      ensures BucketIsExact(State(), source)
      ensures InBounds(Bucket(resourceIndex, source), |subs|)
      ensures targets == TargetsOf(subs, Bucket(resourceIndex, source))
    {
      BucketIsInBounds(State(), source);
      targets := Collect(subs, Bucket(resourceIndex, source));
    }

    static method Collect(subs: seq<Slot>, indices: seq<nat>) returns (targets: seq<Target>)
      requires InBounds(indices, |subs|)
      ensures targets == TargetsOf(subs, indices)
    {
      targets := [];
      for i := 0 to |indices|
        invariant targets + TargetsOf(subs, indices[i..]) == TargetsOf(subs, indices)
      {
        TargetsOfNext(subs, indices, i);
        var sub := subs[indices[i]];
        if sub.writer.Some? {
          targets := targets + [Target(sub.id, sub.writer.value)];
        }
      }
    }

    /** Get: the slot with this id, if there is one. */
    method Get(id: string) returns (sub: Option<Slot>)
      ensures sub == if FindId(subs, id) < |subs| then Some(subs[FindId(subs, id)]) else None
    {
      var slot := Find(id);
      return if slot < |subs| then Some(subs[slot]) else None;
    }

    method List() returns (out: seq<Slot>)
      ensures out == Listed(subs)
    {
      out := [];
      for i := 0 to |subs|
        invariant out + Listed(subs[i..]) == Listed(subs)
      {
        assert subs[i..][1..] == subs[i + 1..];
        if subs[i].active {
          out := out + [subs[i]];
        }
      }
    }
  }
}
