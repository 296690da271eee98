/** The messages the clocks publish, and the overall state every clock publishes through them. */
module Ipc {
  import opened Sequences
  import opened SyncStates

  datatype Message =
    | PtpState(profile: string, iface: string, state: PTPState)
    | ClockClass(profile: string, iface: string, clockClass: nat)
    | SyncState(profile: string, state: PTPState)
    | OsClockState(iface: string, state: PTPState, offset: int)
    | SyncEState(profile: string, iface: string, eec: string)
    | SyncEQuality(profile: string, iface: string, ql: nat, extQl: nat)

  /** What emitOverallSyncStateIfChanged publishes when the overall state moves from `overall` to `next`. */
  function OverallChange(overall: PTPState, next: PTPState, profile: string): seq<Message> {
    if next != overall then [SyncState(profile, next)] else []
  }

  /** The sync_state values of a list of messages, in order. */
  function Published(ms: seq<Message>): seq<PTPState> {
    if ms == [] then []
    else (if ms[0].SyncState? then [ms[0].state] else []) + Published(ms[1..])
  }

  /** The best-effort filter of a High Availability clock: member sync_state messages are dropped. */
  function WithoutSyncState(ms: seq<Message>): seq<Message> {
    if ms == [] then []
    else (if ms[0].SyncState? then [] else [ms[0]]) + WithoutSyncState(ms[1..])
  }

  lemma {:induction false} PublishedAppend(a: seq<Message>, b: seq<Message>)
    ensures Published(a + b) == Published(a) + Published(b)
  {
    if a == [] {
      assert a + b == b;
    } else {
      var first := if a[0].SyncState? then [a[0].state] else [];
      assert (a + b)[1..] == a[1..] + b && (a + b)[0] == a[0];
      PublishedAppend(a[1..], b);
      assert first + (Published(a[1..]) + Published(b)) == first + Published(a[1..]) + Published(b);
    }
  }

  lemma PublishedOne(m: Message)
    ensures Published([m]) == if m.SyncState? then [m.state] else []
    ensures WithoutSyncState([m]) == if m.SyncState? then [] else [m]
  {
    assert [m][1..] == [];
  }

  lemma OverallChangePublishes(before: PTPState, next: PTPState, name: string)
    ensures Published(OverallChange(before, next, name)) == if next != before then [next] else []
  {
    PublishedOne(SyncState(name, next));
  }

  /** `out` is what is at the positions `kept` of `ms`, which are those of all messages but the sync_state ones, in order. */
  ghost predicate AreKept(kept: seq<nat>, ms: seq<Message>, out: seq<Message>) {
    && |kept| == |out|
    && (forall j, k :: 0 <= j < k < |kept| ==> kept[j] < kept[k])
    && (forall k :: 0 <= k < |kept| ==> kept[k] < |ms| && out[k] == ms[kept[k]])
    && (forall i: nat :: i < |ms| ==> (i in kept <==> !ms[i].SyncState?))
  }

  lemma {:induction false} FilterAppend(a: seq<Message>, b: seq<Message>)
    ensures WithoutSyncState(a + b) == WithoutSyncState(a) + WithoutSyncState(b)
  {
    if a == [] {
      assert a + b == b;
    } else {
      assert (a + b)[1..] == a[1..] + b && (a + b)[0] == a[0];
      FilterAppend(a[1..], b);
      Regrouped(if a[0].SyncState? then [] else [a[0]], WithoutSyncState(a[1..]), WithoutSyncState(b));
    }
  }

  lemma OneMoreKept(kept: seq<nat>, ms: seq<Message>, out: seq<Message>, m: Message)
    requires AreKept(kept, ms, out)
    ensures if m.SyncState? then AreKept(kept, ms + [m], out) else AreKept(kept + [|ms|], ms + [m], out + [m])
  {
    var more := ms + [m];
    assert |ms| !in kept;
    forall i: nat | i < |ms| ensures more[i] == ms[i] && (i in kept + [|ms|] <==> i in kept) {}
    assert (kept + [|ms|])[|kept|] == |ms|;
  }

  /** The filter lets through everything but the sync_state messages, each as often as it was sent and in order. */
  lemma {:induction false} FilterKeepsOthers(ms: seq<Message>) returns (kept: seq<nat>)
    ensures AreKept(kept, ms, WithoutSyncState(ms))
  {
    if ms == [] {
      kept := [];
    } else {
      var init, last := ms[..|ms| - 1], ms[|ms| - 1];
      kept := FilterKeepsOthers(init);
      assert ms == init + [last];
      FilterAppend(init, [last]);
      PublishedOne(last);
      OneMoreKept(kept, init, WithoutSyncState(init), last);
      assert WithoutSyncState(init) + [] == WithoutSyncState(init);
      kept := if last.SyncState? then kept else kept + [|init|];
    }
  }

  lemma {:induction false} FilterCounts(ms: seq<Message>, m: Message)
    ensures multiset(WithoutSyncState(ms))[m] == if m.SyncState? then 0 else multiset(ms)[m]
  {
    if ms != [] {
      FilterCounts(ms[1..], m);
      assert ms == [ms[0]] + ms[1..];
    }
  }

  lemma {:induction false} FilterTwice(ms: seq<Message>)
    ensures WithoutSyncState(WithoutSyncState(ms)) == WithoutSyncState(ms)
  {
    if ms != [] {
      FilterTwice(ms[1..]);
      var head := if ms[0].SyncState? then [] else [ms[0]];
      FilterAppend(head, WithoutSyncState(ms[1..]));
      if head != [] {
        PublishedOne(ms[0]);
      }
    }
  }

  /** The ptp_state messages, in order. */
  function PortStates(ms: seq<Message>): seq<Message> {
    if ms == [] then []
    else (if ms[0].PtpState? then [ms[0]] else []) + PortStates(ms[1..])
  }

  lemma {:induction false} PortStatesAppend(a: seq<Message>, b: seq<Message>)
    ensures PortStates(a + b) == PortStates(a) + PortStates(b)
  {
    if a == [] {
      assert a + b == b;
    } else {
      assert (a + b)[1..] == a[1..] + b && (a + b)[0] == a[0];
      PortStatesAppend(a[1..], b);
      Regrouped(if a[0].PtpState? then [a[0]] else [], PortStates(a[1..]), PortStates(b));
    }
  }

  // ------------------------------------------------------------------ what a consumer has heard

  /** What a consumer knows of the clock of a profile. */
  datatype View = View(port: PTPState, clockClass: nat, overall: PTPState)

  /** The view after some messages: of each kind the last one of the profile counts. */
  function Heard(v: View, ms: seq<Message>, profile: string): View {
    if ms == [] then v
    else
      var m, before := ms[|ms| - 1], Heard(v, ms[..|ms| - 1], profile);
      match m
      case PtpState(p, _, state) => if p == profile then before.(port := state) else before
      case ClockClass(p, _, clockClass) => if p == profile then before.(clockClass := clockClass) else before
      case SyncState(p, state) => if p == profile then before.(overall := state) else before
      case _ => before
  }

  lemma {:induction false} HeardAppend(v: View, a: seq<Message>, b: seq<Message>, profile: string)
    ensures Heard(v, a + b, profile) == Heard(Heard(v, a, profile), b, profile)
  {
    if b == [] {
      assert a + b == a;
    } else {
      assert (a + b)[..|a + b| - 1] == a + b[..|b| - 1];
      HeardAppend(v, a, b[..|b| - 1], profile);
    }
  }

  lemma HeardOne(v: View, m: Message, profile: string)
    ensures Heard(v, [m], profile) == match m
      case PtpState(p, _, state) => if p == profile then v.(port := state) else v
      case ClockClass(p, _, clockClass) => if p == profile then v.(clockClass := clockClass) else v
      case SyncState(p, state) => if p == profile then v.(overall := state) else v
      case _ => v
  {
    assert [m][..0] == [];
  }

  /** One message for each thing that changed, in the order in which clocks tell. */
  function Changes(v: View, w: View, profile: string, iface: string, classIface: string): seq<Message> {
    (if w.port != v.port then [PtpState(profile, iface, w.port)] else [])
    + (if w.clockClass != v.clockClass then [ClockClass(profile, classIface, w.clockClass)] else [])
    + (if w.overall != v.overall then [SyncState(profile, w.overall)] else [])
  }

  /** It tells a consumer everything. */
  lemma ChangesAreHeard(v: View, w: View, profile: string, iface: string, classIface: string)
    ensures Heard(v, Changes(v, w, profile, iface, classIface), profile) == w
  {
    var port := if w.port != v.port then [PtpState(profile, iface, w.port)] else [];
    var cls := if w.clockClass != v.clockClass then [ClockClass(profile, classIface, w.clockClass)] else [];
    var all := if w.overall != v.overall then [SyncState(profile, w.overall)] else [];
    HeardAppend(v, port + cls, all, profile);
    HeardAppend(v, port, cls, profile);
    HeardOne(v, PtpState(profile, iface, w.port), profile);
    HeardOne(v.(port := w.port), ClockClass(profile, classIface, w.clockClass), profile);
    HeardOne(v.(port := w.port, clockClass := w.clockClass), SyncState(profile, w.overall), profile);
  }

  lemma PortStatesOfChanges(v: View, w: View, profile: string, iface: string, classIface: string)
    ensures PortStates(Changes(v, w, profile, iface, classIface))
         == if w.port != v.port then [PtpState(profile, iface, w.port)] else []
  {
    var cls := if w.clockClass != v.clockClass then [ClockClass(profile, classIface, w.clockClass)] else [];
    var all := if w.overall != v.overall then [SyncState(profile, w.overall)] else [];
    var port := if w.port != v.port then [PtpState(profile, iface, w.port)] else [];
    PortStatesAppend(port + cls, all);
    PortStatesAppend(port, cls);
    assert port != [] ==> port[1..] == [];
    assert cls != [] ==> cls[1..] == [];
    assert all != [] ==> all[1..] == [];
  }

  lemma {:induction false} FilteredHasNoSyncState(ms: seq<Message>)
    ensures Published(WithoutSyncState(ms)) == []
  {
    if ms != [] {
      FilteredHasNoSyncState(ms[1..]);
      var head := if ms[0].SyncState? then [] else [ms[0]];
      PublishedAppend(head, WithoutSyncState(ms[1..]));
      assert Published(head) == [] by { if head != [] { assert head[1..] == []; } }
    }
  }
}
