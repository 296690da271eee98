/**
  HAClock: the High Availability clock of pkg/linuxptp-daemon/pkg/clock/ha.go, a composite of
  boundary clocks behind one phc2sys.
 */
module HaClock {
  import opened Options
  import opened SyncStates
  import opened Ipc
  import opened OsClocks
  import opened BoundaryClock

  datatype HaState = HaState(members: map<string, BcState>, sync: PTPState, overall: PTPState, activeCfg: string)

  datatype HaEvent =
    | Selected(iface: string)                // phc2sys selected the member on this interface
    | ForMember(cfgName: string, ev: Event)

  datatype HaEffect = HaEffect(
    next: HaState, sent: seq<Message>, closed: Option<nat>, started: Option<Timer>, report: Report)

  function MemberStates(members: map<string, BcState>): set<PTPState> {
    set cfg | cfg in members :: members[cfg].sync
  }

  /** The best of a set of states, whatever order they are looked at in. */
  function Best(states: set<PTPState>): PTPState {
    if Locked in states then Locked
    else if Holdover in states then Holdover
    else if Freerun in states then Freerun
    else NotSet
  }

  lemma BestIsBest(states: set<PTPState>)
    ensures IsBest(Best(states), states)
  {}

  /** Folding one more state into a best-of that started at NotSet. */
  lemma BestOfExtends(states: set<PTPState>, s: PTPState)
    ensures BestOf(Best(states), s) == Best(states + {s})
  {}

  /** A member event: the member handles it, then the composite and overall states are recomputed. */
  function OnMemberEvent(name: string, cfg: Config, s: HaState, member: string, ev: Event, os: PTPState): HaEffect
    requires member in s.members && HasNeededOffset(ev)
  {
    var e := OnEvent(cfg, s.members[member], ev, os);
    var members := s.members[member := e.next];
    var best := Best(MemberStates(members));
    var overall := WorstOf(best, os);
    HaEffect(s.(members := members, sync := best, overall := overall),
             WithoutSyncState(e.sent) + OverallChange(s.overall, overall, name),
             e.closed, e.started, ReportOf(e.next))
  }

  /** The members once those outside `left` have reconciled with the OS clock. */
  function SettledOutside(members: map<string, BcState>, left: set<string>, os: PTPState): map<string, BcState> {
    map cfg | cfg in members :: if cfg in left then members[cfg] else Settled(members[cfg], os)
  }

  /** The members once those outside `left` have been reset. */
  function ResetOutside(members: map<string, BcState>, left: set<string>): map<string, BcState> {
    map cfg | cfg in members :: if cfg in left then members[cfg] else OnReset(members[cfg]).next
  }

  /** An OS clock change: the composite is reconciled and every member reconciles itself, silently. */
  function OnHaSystemClock(s: HaState, os: PTPState): HaState {
    s.(members := SettledOutside(s.members, {}, os), overall := WorstOf(s.sync, os))
  }

  function OnHaReset(s: HaState): HaState {
    HaState(ResetOutside(s.members, {}), Freerun, Freerun, "")
  }

  /** The members selected by `iface`; with none of them the previous selection stays. */
  ghost predicate SelectionAllows(s: HaState, iface: string, activeCfg: string) {
    if exists cfg :: cfg in s.members && s.members[cfg].iface == iface
    then activeCfg in s.members && s.members[activeCfg].iface == iface
    else activeCfg == s.activeCfg
  }

  // ------------------------------------------------------------------ what holds of every composite

  ghost predicate Composed(s: HaState) {
    && (forall cfg :: cfg in s.members ==> Valid(s.members[cfg]))
    && s.sync == Best(MemberStates(s.members))
  }

  lemma MemberEventKeepsComposed(name: string, cfg: Config, s: HaState, member: string, ev: Event, os: PTPState)
    requires Composed(s) && member in s.members && HasNeededOffset(ev)
    ensures Composed(OnMemberEvent(name, cfg, s, member, ev, os).next)
  {
    EventKeepsValid(cfg, s.members[member], ev, os);
  }

  lemma SystemClockKeepsComposed(s: HaState, os: PTPState)
    requires Composed(s)
    ensures Composed(OnHaSystemClock(s, os)) && OnHaSystemClock(s, os).overall == WorstOf(s.sync, os)
  {
    assert MemberStates(OnHaSystemClock(s, os).members) == MemberStates(s.members) by {
      forall cfg | cfg in s.members ensures OnHaSystemClock(s, os).members[cfg].sync == s.members[cfg].sync {}
    }
  }

  /** Reset puts the composite in Freerun, which is the best of its members as long as it has any. */
  lemma ResetKeepsComposed(s: HaState)
    requires Composed(s)
    ensures Composed(OnHaReset(s)) <==> s.members != map[]
  {
    var t := OnHaReset(s);
    if s.members != map[] {
      var cfg :| cfg in s.members;
      assert t.members[cfg].sync in MemberStates(t.members);
    }
    assert forall state :: state in MemberStates(t.members) ==> state == Freerun;
    assert s.members == map[] ==> MemberStates(t.members) == {};
  }

  /** After a change of the OS clock every member agrees with it, too; a reset also clears every member and the selection. */
  lemma MembersFollow(s: HaState, os: PTPState, member: string)
    ensures var t, r := OnHaSystemClock(s, os), OnHaReset(s);
      && t.members.Keys == r.members.Keys == s.members.Keys && t.activeCfg == s.activeCfg && r.activeCfg == ""
      && t.sync == s.sync && t.overall == WorstOf(s.sync, os) && r.sync == r.overall == Freerun
      && (member in s.members ==>
            && t.members[member] == s.members[member].(overall := WorstOf(s.members[member].sync, os))
            && r.members[member] == OnReset(s.members[member]).next)
  {}

  /** A member's overall state never leaves the composite: at most one sync_state is published, the composite's own. */
  lemma MemberEventReconciles(name: string, cfg: Config, s: HaState, member: string, ev: Event, os: PTPState)
    requires member in s.members && HasNeededOffset(ev)
    ensures var e := OnMemberEvent(name, cfg, s, member, ev, os);
      && e.next.overall == WorstOf(e.next.sync, os)
      && Published(e.sent) == if e.next.overall != s.overall then [e.next.overall] else []
  {
    var sent := OnEvent(cfg, s.members[member], ev, os).sent;
    var e := OnMemberEvent(name, cfg, s, member, ev, os);
    var own := OverallChange(s.overall, e.next.overall, name);
    PublishedAppend(WithoutSyncState(sent), own);
    FilteredHasNoSyncState(sent);
    OverallChangePublishes(s.overall, e.next.overall, name);
  }

  /** The published node state is the best of the member states, each suppressed by the OS clock. */
  lemma OverallIsBestOfSuppressed(s: HaState, os: PTPState)
    requires Composed(s) && s.overall == WorstOf(s.sync, os)
    ensures s.overall == Best(set state | state in MemberStates(s.members) :: WorstOf(state, os))
  {
    var suppressed := set state | state in MemberStates(s.members) :: WorstOf(state, os);
    BestIsBest(MemberStates(s.members));
    WorstOfDistributesOverBest(s.sync, MemberStates(s.members), os);
    BestIsBest(suppressed);
    BestIsUnique(s.overall, Best(suppressed), suppressed);
  }

  /**
    AddEvent reports the member's state, not the composite's. Still, whenever the composite state
    changes the reported state differs from the composite state before the event, which is what the
    event loop looks at to signal a change.
   */
  lemma CompositeChangeIsReported(name: string, cfg: Config, s: HaState, member: string, ev: Event, os: PTPState)
    requires Composed(s) && member in s.members && HasNeededOffset(ev)
    ensures var e := OnMemberEvent(name, cfg, s, member, ev, os);
      e.next.sync != s.sync ==> e.report.state != s.sync
  {
    var e := OnMemberEvent(name, cfg, s, member, ev, os);
    var before, after := MemberStates(s.members), MemberStates(e.next.members);
    BestIsBest(before);
    BestIsBest(after);
    assert s.members[member].sync in before;
    assert e.next.members[member].sync in after;
    forall t | t in after && t != e.report.state ensures t in before {
      var c :| c in e.next.members && e.next.members[c].sync == t;
      assert s.members[c].sync == t;
    }
  }

  /** Once some member has a state, the composite has one for good. */
  lemma CompositeStaysSet(name: string, cfg: Config, s: HaState, member: string, ev: Event, os: PTPState)
    requires Composed(s) && member in s.members && HasNeededOffset(ev)
    ensures OnMemberEvent(name, cfg, s, member, ev, os).next.sync == NotSet ==> s.sync == NotSet
  {
    var t := OnMemberEvent(name, cfg, s, member, ev, os).next;
    EventDecidesState(cfg, s.members[member], ev, os);
    if s.sync != NotSet {
      BestIsBest(MemberStates(s.members));
      var c :| c in s.members && s.members[c].sync == s.sync;
      assert t.members[c].sync in MemberStates(t.members);
      BestIsBest(MemberStates(t.members));
    }
  }

  // ------------------------------------------------------------------ what is sent

  /** Everything a member sends but its sync_state passes, unchanged, in order and as often as it was sent. */
  lemma MemberMessagesPass(name: string, cfg: Config, s: HaState, member: string, ev: Event, os: PTPState)
    requires member in s.members && HasNeededOffset(ev)
    ensures WithoutSyncState(OnMemberEvent(name, cfg, s, member, ev, os).sent)
         == WithoutSyncState(OnEvent(cfg, s.members[member], ev, os).sent)
  {
    var sent := OnEvent(cfg, s.members[member], ev, os).sent;
    var own := OverallChange(s.overall, OnMemberEvent(name, cfg, s, member, ev, os).next.overall, name);
    FilterAppend(WithoutSyncState(sent), own);
    FilterTwice(sent);
    if own != [] {
      PublishedOne(own[0]);
    }
  }

  /**
    Everything a member event sends, by the member and the composite before and after it: the member's state
    and class, each if it changed, under the member's name, then the composite's overall state if that changed.
   */
  lemma MemberEventSends(name: string, cfg: Config, s: HaState, member: string, ev: Event, os: PTPState)
    requires member in s.members && HasNeededOffset(ev)
    ensures var e := OnMemberEvent(name, cfg, s, member, ev, os);
      && member in e.next.members
      && var m, n := s.members[member], e.next.members[member];
      e.sent
        == (if n.sync != m.sync then [PtpState(cfg.name, if ev.data.HoldoverExpired? then m.iface else ev.iface, n.sync)] else [])
         + (if n.clockClass != m.clockClass then [ClockClass(cfg.name, m.iface, n.clockClass)] else [])
         + (if e.next.overall != s.overall then [SyncState(name, e.next.overall)] else [])
  {
    var m, n := s.members[member], OnEvent(cfg, s.members[member], ev, os).next;
    EventSends(cfg, m, ev, os);
    FilteredChanges(if n.sync != m.sync then [PtpState(cfg.name, if ev.data.HoldoverExpired? then m.iface else ev.iface, n.sync)] else [],
                    if n.clockClass != m.clockClass then [ClockClass(cfg.name, m.iface, n.clockClass)] else [],
                    if n.overall != m.overall then [SyncState(cfg.name, n.overall)] else []);
  }

  lemma FilteredChanges(port: seq<Message>, cls: seq<Message>, all: seq<Message>)
    requires |port| <= 1 && |cls| <= 1 && |all| <= 1
    requires forall i :: 0 <= i < |port| ==> !port[i].SyncState?
    requires forall i :: 0 <= i < |cls| ==> !cls[i].SyncState?
    requires forall i :: 0 <= i < |all| ==> all[i].SyncState?
    ensures WithoutSyncState(port + cls + all) == port + cls
  {
    FilterAppend(port + cls, all);
    FilterAppend(port, cls);
    if port != [] { PublishedOne(port[0]); }
    if cls != [] { PublishedOne(cls[0]); }
    if all != [] { PublishedOne(all[0]); }
  }

  /** The member handles its event; what is returned is its state, class and interface, its timer is passed on, the others stay. */
  lemma MemberIsReported(name: string, cfg: Config, s: HaState, member: string, ev: Event, os: PTPState)
    requires member in s.members && HasNeededOffset(ev)
    ensures var e := OnMemberEvent(name, cfg, s, member, ev, os);
      && member in e.next.members
      && var n := e.next.members[member];
      && n == OnEvent(cfg, s.members[member], ev, os).next
      && e.report.state == n.sync && e.report.clockClass == n.clockClass
      && e.report.leading == (if n.iface == "" then None else Some(n.iface))
      && e.closed == OnEvent(cfg, s.members[member], ev, os).closed && e.started == OnEvent(cfg, s.members[member], ev, os).started
      && e.next.activeCfg == s.activeCfg && e.next.members.Keys == s.members.Keys
      && forall c :: c in s.members && c != member ==> e.next.members[c] == s.members[c]
  {}

  // ------------------------------------------------------------------ whole runs

  datatype Label =
    | Deliver(member: string, ev: Event, os: PTPState)
    | Select(iface: string, activeCfg: string)
    | SystemClock(os: PTPState)
    | ResetAll

  ghost predicate Enabled(s: HaState, l: Label) {
    match l
    case Deliver(_, ev, _) => HasNeededOffset(ev)
    case Select(iface, active) => SelectionAllows(s, iface, active)
    case SystemClock(_) => true
    case ResetAll => true
  }

  function Next(name: string, cfgs: map<string, Config>, s: HaState, l: Label): HaState
    requires cfgs.Keys == s.members.Keys && (l.Deliver? ==> HasNeededOffset(l.ev))
  {
    match l
    case Deliver(member, ev, os) => if member in s.members then OnMemberEvent(name, cfgs[member], s, member, ev, os).next else s
    case Select(_, active) => s.(activeCfg := active)
    case SystemClock(os) => OnHaSystemClock(s, os)
    case ResetAll => OnHaReset(s)
  }

  predicate IsNew(s: HaState) {
    (forall cfg :: cfg in s.members ==> s.members[cfg] == INITIAL) && s.sync == NotSet && s.overall == NotSet
  }

  ghost predicate IsStep(name: string, cfgs: map<string, Config>, states: seq<HaState>, labels: seq<Label>, k: nat)
    requires k < |labels| < |states|
  {
    cfgs.Keys == states[k].members.Keys && Enabled(states[k], labels[k]) && states[k + 1] == Next(name, cfgs, states[k], labels[k])
  }

  ghost predicate IsRun(name: string, cfgs: map<string, Config>, states: seq<HaState>, labels: seq<Label>) {
    && |states| == |labels| + 1 && IsNew(states[0])
    && forall k :: 0 <= k < |labels| ==> IsStep(name, cfgs, states, labels, k)
  }

  lemma StepKeepsComposed(name: string, cfgs: map<string, Config>, s: HaState, l: Label)
    requires Composed(s) && s.members != map[] && cfgs.Keys == s.members.Keys && Enabled(s, l)
    ensures Composed(Next(name, cfgs, s, l)) && Next(name, cfgs, s, l).members.Keys == s.members.Keys
  {
    match l
    case Deliver(member, ev, os) =>
      if member in s.members {
        MemberEventKeepsComposed(name, cfgs[member], s, member, ev, os);
      }
    case Select(_, _) =>
    case SystemClock(os) => SystemClockKeepsComposed(s, os);
    case ResetAll => ResetKeepsComposed(s);
  }

  /** In every reachable state of a clock with members, resets included, the composite is the best of the members. */
  lemma {:induction false} RunKeepsComposed(name: string, cfgs: map<string, Config>, states: seq<HaState>, labels: seq<Label>, n: nat)
    requires IsRun(name, cfgs, states, labels) && n < |states| && states[0].members != map[]
    ensures Composed(states[n]) && states[n].members.Keys == states[0].members.Keys
  {
    if n == 0 {
      assert forall state :: state in MemberStates(states[0].members) ==> state == NotSet;
    } else {
      RunKeepsComposed(name, cfgs, states, labels, n - 1);
      assert IsStep(name, cfgs, states, labels, n - 1);
      StepKeepsComposed(name, cfgs, states[n - 1], labels[n - 1]);
    }
  }

  // ------------------------------------------------------------------ what a consumer hears over a run

  function SentBy(name: string, cfgs: map<string, Config>, s: HaState, l: Label): seq<Message>
    requires cfgs.Keys == s.members.Keys && (l.Deliver? ==> HasNeededOffset(l.ev))
  {
    match l
    case Deliver(member, ev, os) => if member in s.members then OnMemberEvent(name, cfgs[member], s, member, ev, os).sent else []
    case SystemClock(os) => OverallChange(s.overall, WorstOf(s.sync, os), name)
    case _ => []
  }

  ghost predicate IsSentAt(name: string, cfgs: map<string, Config>, states: seq<HaState>, labels: seq<Label>,
                           sent: seq<seq<Message>>, k: nat)
    requires k < |sent| == |labels| < |states|
  {
    && cfgs.Keys == states[k].members.Keys && Enabled(states[k], labels[k])
    && sent[k] == SentBy(name, cfgs, states[k], labels[k])
  }

  /** `sent` says of every step of a run what was sent. */
  ghost predicate AreSent(name: string, cfgs: map<string, Config>, states: seq<HaState>, labels: seq<Label>, sent: seq<seq<Message>>) {
    |sent| == |labels| < |states| && forall k :: 0 <= k < |labels| ==> IsSentAt(name, cfgs, states, labels, sent, k)
  }

  /** What has been sent in the first k steps, after the last reset among them if there is one. */
  function SinceReset(labels: seq<Label>, sent: seq<seq<Message>>, k: nat): seq<Message>
    requires k <= |labels| == |sent|
  {
    if k == 0 || labels[k - 1].ResetAll? then [] else SinceReset(labels, sent, k - 1) + sent[k - 1]
  }

  function StartState(labels: seq<Label>, k: nat): PTPState
    requires k <= |labels|
  {
    if ResetAll in labels[..k] then Freerun else NotSet
  }

  lemma StartStateNext(labels: seq<Label>, k: nat)
    requires k < |labels|
    ensures StartState(labels, k + 1) == if labels[k].ResetAll? then Freerun else StartState(labels, k)
  {
    assert labels[..k + 1] == labels[..k] + [labels[k]];
  }

  /** The view `v` of a member's name shows the member, and the view `w` of the composite's name the composite. */
  ghost predicate Shows(v: View, w: View, s: HaState, member: string)
    requires member in s.members
  {
    v.port == s.members[member].sync && v.clockClass == s.members[member].clockClass && w.overall == s.overall
  }

  ghost predicate KeysAreNames(cfgs: map<string, Config>) {
    forall c :: c in cfgs ==> cfgs[c].name == c
  }

  lemma MemberEventIsHeard(name: string, cfg: Config, s: HaState, from: string, ev: Event, os: PTPState, v: View, w: View, member: string)
    requires from in s.members && member in s.members && HasNeededOffset(ev) && cfg.name == from && Shows(v, w, s, member)
    ensures var e := OnMemberEvent(name, cfg, s, from, ev, os);
      member in e.next.members && Shows(Heard(v, e.sent, member), Heard(w, e.sent, name), e.next, member)
  {
    MemberIsHeard(name, cfg, s, from, ev, os, v, member);
    CompositeIsHeard(name, cfg, s, from, ev, os, w);
  }

  lemma MemberIsHeard(name: string, cfg: Config, s: HaState, from: string, ev: Event, os: PTPState, v: View, member: string)
    requires from in s.members && member in s.members && HasNeededOffset(ev) && cfg.name == from
    requires v.port == s.members[member].sync && v.clockClass == s.members[member].clockClass
    ensures var e := OnMemberEvent(name, cfg, s, from, ev, os);
      var h := Heard(v, e.sent, member);
      member in e.next.members && h.port == e.next.members[member].sync && h.clockClass == e.next.members[member].clockClass
  {
    var e := OnMemberEvent(name, cfg, s, from, ev, os);
    var m, n := s.members[from], e.next.members[from];
    MemberEventSends(name, cfg, s, from, ev, os);
    PartsAreHeard(v, if n.sync != m.sync then [PtpState(from, if ev.data.HoldoverExpired? then m.iface else ev.iface, n.sync)] else [],
                  if n.clockClass != m.clockClass then [ClockClass(from, m.iface, n.clockClass)] else [],
                  if e.next.overall != s.overall then [SyncState(name, e.next.overall)] else [], member);
  }

  lemma CompositeIsHeard(name: string, cfg: Config, s: HaState, from: string, ev: Event, os: PTPState, w: View)
    requires from in s.members && HasNeededOffset(ev) && w.overall == s.overall
    ensures var e := OnMemberEvent(name, cfg, s, from, ev, os); Heard(w, e.sent, name).overall == e.next.overall
  {
    var e := OnMemberEvent(name, cfg, s, from, ev, os);
    var m, n := s.members[from], e.next.members[from];
    MemberEventSends(name, cfg, s, from, ev, os);
    PartsAreHeard(w, if n.sync != m.sync then [PtpState(cfg.name, if ev.data.HoldoverExpired? then m.iface else ev.iface, n.sync)] else [],
                  if n.clockClass != m.clockClass then [ClockClass(cfg.name, m.iface, n.clockClass)] else [],
                  if e.next.overall != s.overall then [SyncState(name, e.next.overall)] else [], name);
  }

  lemma PartsAreHeard(v: View, port: seq<Message>, cls: seq<Message>, all: seq<Message>, profile: string)
    requires |port| <= 1 && |cls| <= 1 && |all| <= 1
    requires port != [] ==> port[0].PtpState?
    requires cls != [] ==> cls[0].ClockClass?
    requires all != [] ==> all[0].SyncState?
    ensures var h := Heard(v, port + cls + all, profile);
      && h.port == (if port != [] && port[0].profile == profile then port[0].state else v.port)
      && h.clockClass == (if cls != [] && cls[0].profile == profile then cls[0].clockClass else v.clockClass)
      && h.overall == (if all != [] && all[0].profile == profile then all[0].state else v.overall)
  {
    HeardAppend(v, port + cls, all, profile);
    HeardAppend(v, port, cls, profile);
    if port != [] { HeardOne(v, port[0], profile); }
    if cls != [] { HeardOne(Heard(v, port, profile), cls[0], profile); }
    if all != [] { HeardOne(Heard(v, port + cls, profile), all[0], profile); }
  }

  lemma StepIsHeard(name: string, cfgs: map<string, Config>, s: HaState, l: Label, ms: seq<Message>, t: HaState, v: View, w: View, member: string)
    requires cfgs.Keys == s.members.Keys && Enabled(s, l) && KeysAreNames(cfgs) && member in s.members && !l.ResetAll?
    requires ms == SentBy(name, cfgs, s, l) && t == Next(name, cfgs, s, l) && Shows(v, w, s, member)
    ensures member in t.members && Shows(Heard(v, ms, member), Heard(w, ms, name), t, member)
  {
    match l
    case Deliver(from, ev, os) =>
      if from in s.members {
        MemberEventIsHeard(name, cfgs[from], s, from, ev, os, v, w, member);
      }
    case SystemClock(os) =>
      PartsAreHeard(v, [], [], ms, member);
      PartsAreHeard(w, [], [], ms, name);
      assert [] + [] + ms == ms;
    case Select(_, _) =>
  }

  lemma RunStepIsHeard(name: string, cfgs: map<string, Config>, states: seq<HaState>, labels: seq<Label>,
                       sent: seq<seq<Message>>, k: nat, v: View, w: View, member: string)
    requires IsRun(name, cfgs, states, labels) && AreSent(name, cfgs, states, labels, sent) && KeysAreNames(cfgs) && k < |labels|
    requires member in cfgs && member in states[k].members && (!labels[k].ResetAll? ==> Shows(v, w, states[k], member))
    ensures member in states[k + 1].members
    ensures if labels[k].ResetAll? then Shows(View(Freerun, CLASS_UNINITIALIZED, Freerun), View(Freerun, CLASS_UNINITIALIZED, Freerun), states[k + 1], member)
            else Shows(Heard(v, sent[k], member), Heard(w, sent[k], name), states[k + 1], member)
  {
    assert IsStep(name, cfgs, states, labels, k) && IsSentAt(name, cfgs, states, labels, sent, k);
    if !labels[k].ResetAll? {
      StepIsHeard(name, cfgs, states[k], labels[k], sent[k], states[k + 1], v, w, member);
    }
  }

  /**
    Over whole runs: who listened since the start, or since the last reset, knows the state and class of every
    member under its own name, and the overall state of the composite under the composite's name.
   */
  lemma {:induction false} ConsumerKnowsMembers(name: string, cfgs: map<string, Config>, states: seq<HaState>, labels: seq<Label>,
                                                sent: seq<seq<Message>>, k: nat, member: string)
    requires IsRun(name, cfgs, states, labels) && AreSent(name, cfgs, states, labels, sent) && KeysAreNames(cfgs)
    requires k < |states| && member in cfgs && member in states[0].members
    ensures member in states[k].members
    ensures var start, ms := View(StartState(labels, k), CLASS_UNINITIALIZED, StartState(labels, k)), SinceReset(labels, sent, k);
      Shows(Heard(start, ms, member), Heard(start, ms, name), states[k], member)
  {
    if k > 0 {
      ConsumerKnowsMembers(name, cfgs, states, labels, sent, k - 1, member);
      StartStateNext(labels, k - 1);
      var before := SinceReset(labels, sent, k - 1);
      var start := View(StartState(labels, k - 1), CLASS_UNINITIALIZED, StartState(labels, k - 1));
      RunStepIsHeard(name, cfgs, states, labels, sent, k - 1, Heard(start, before, member), Heard(start, before, name), member);
      HeardAppend(start, before, sent[k - 1], member);
      HeardAppend(start, before, sent[k - 1], name);
    }
  }

  // ------------------------------------------------------------------ the clock itself

  lemma SettledNone(before: map<string, BcState>, os: PTPState)
    ensures SettledOutside(before, before.Keys, os) == before
  {}

  lemma SettledOne(before: map<string, BcState>, left: set<string>, cfg: string, os: PTPState)
    requires cfg in left && left <= before.Keys
    ensures cfg in SettledOutside(before, left, os) && SettledOutside(before, left, os)[cfg] == before[cfg]
    ensures SettledOutside(before, left, os)[cfg := Settled(before[cfg], os)] == SettledOutside(before, left - {cfg}, os)
  {}

  lemma ResetNone(before: map<string, BcState>)
    ensures ResetOutside(before, before.Keys) == before
  {}

  lemma ResetOne(before: map<string, BcState>, left: set<string>, cfg: string)
    requires cfg in left && left <= before.Keys
    ensures cfg in ResetOutside(before, left) && ResetOutside(before, left)[cfg] == before[cfg]
    ensures ResetOutside(before, left)[cfg := OnReset(before[cfg]).next] == ResetOutside(before, left - {cfg})
  {}

  class HAClock {
    const name: string
    const members: map<string, BCClock>
    var osClock: OsClock
    var sync: PTPState
    var overall: PTPState
    var activeCfg: string

    /** Every member is registered under its own config name and shares the OS clock. */
    ghost predicate Wired()
      reads this, members.Values
    {
      && forall cfg :: cfg in members ==> members[cfg].cfg.name == cfg && members[cfg].osClock == osClock
    }

    function MemberMap(): map<string, BcState>
      reads members.Values
    {
      map cfg | cfg in members :: members[cfg].State()
    }

    function State(): HaState
      reads this, members.Values
    {
      HaState(MemberMap(), sync, overall, activeCfg)
    }

    constructor (name: string, members: map<string, BCClock>, osClock: OsClock)
      requires forall cfg :: cfg in members ==>
        members[cfg].cfg.name == cfg && members[cfg].osClock == osClock && members[cfg].State() == INITIAL
      ensures this.name == name && this.members == members && this.osClock == osClock
      ensures Wired() && Composed(State()) && overall == NotSet && activeCfg == ""
    {
      this.name, this.members, this.osClock := name, members, osClock;
      sync, overall, activeCfg := NotSet, NotSet, "";
    }

    method BestMemberState() returns (state: PTPState)
      ensures state == Best(MemberStates(MemberMap()))
    {
      state := NotSet;
      var left := members.Keys;
      ghost var seen: set<PTPState> := {};
      while left != {}
        invariant left <= members.Keys
        invariant seen == set cfg | cfg in members && cfg !in left :: members[cfg].sync
        invariant state == Best(seen)
        decreases left
      {
        var cfg :| cfg in left;
        BestOfExtends(seen, members[cfg].sync);
        state := BestOf(state, members[cfg].sync);
        left, seen := left - {cfg}, seen + {members[cfg].sync};
      }
      assert forall cfg :: cfg in members ==> MemberMap()[cfg].sync == members[cfg].sync;
    }

    /** The first member found on `iface`, in whatever order the members are visited. */
    method SetActiveByIface(iface: string)
      modifies this`activeCfg
      ensures SelectionAllows(old(State()), iface, activeCfg)
      ensures State() == old(State()).(activeCfg := activeCfg)
    {
      var left := members.Keys;
      while left != {}
        invariant left <= members.Keys
        invariant forall cfg :: cfg in members && cfg !in left ==> members[cfg].iface != iface
        invariant activeCfg == old(activeCfg)
        decreases left
      {
        var cfg :| cfg in left;
        if members[cfg].iface == iface {
          activeCfg := cfg;
          assert old(State()).members[cfg].iface == iface;
          return;
        }
        left := left - {cfg};
      }
      assert forall cfg :: cfg in old(State()).members ==> old(State()).members[cfg].iface == members[cfg].iface;
    }

    /** Hands an event to the member it is for; only that member changes. */
    method ForwardToMember(cfgName: string, ev: Event) returns (sent: seq<Message>, closed: Option<nat>, started: Option<Timer>)
      requires Wired() && Composed(State()) && cfgName in members && HasNeededOffset(ev)
      modifies members[cfgName]
      ensures Wired() && osClock == old(osClock) && osClock.state == old(osClock.state)
      ensures var e := OnEvent(members[cfgName].cfg, old(MemberMap())[cfgName], ev, osClock.state);
        && MemberMap() == old(MemberMap())[cfgName := e.next]
        && sent == e.sent && closed == e.closed && started == e.started
    {
      var m := members[cfgName];
      assert Valid(State().members[cfgName]);
      var panicked;
      sent, closed, started, panicked := m.AddEvent(ev);
    }

    /** The composite and overall states are recomputed once the member has handled the event. */
    method Recompute() returns (sent: seq<Message>)
      modifies this`sync, this`overall
      ensures sync == Best(MemberStates(MemberMap())) && overall == WorstOf(sync, osClock.state)
      ensures State() == old(State()).(sync := sync, overall := overall)
      ensures sent == OverallChange(old(overall), overall, name)
    {
      sync := BestMemberState();
      var next := WorstOf(sync, osClock.state);
      sent := OverallChange(overall, next, name);
      overall := next;
    }

    method AddMemberEvent(cfgName: string, ev: Event)
      returns (sent: seq<Message>, closed: Option<nat>, started: Option<Timer>, report: Report)
      requires Wired() && Composed(State()) && cfgName in members && HasNeededOffset(ev)
      modifies this, members.Values
      ensures Wired() && osClock == old(osClock) && osClock.state == old(osClock.state)
      ensures HaEffect(State(), sent, closed, started, report)
                == OnMemberEvent(name, members[cfgName].cfg, old(State()), cfgName, ev, osClock.state)
    {
      sent, closed, started := ForwardToMember(cfgName, ev);
      report := members[cfgName].CurrentSyncState();
      assert report == ReportOf(MemberMap()[cfgName]);
      var own := Recompute();
      sent := WithoutSyncState(sent) + own;
    }

    method AddEvent(ev: HaEvent)
      returns (sent: seq<Message>, closed: Option<nat>, started: Option<Timer>, report: Report)
      requires Wired() && Composed(State())
      requires ev.ForMember? && ev.cfgName in members ==> HasNeededOffset(ev.ev)
      modifies this, members.Values
      ensures Wired() && osClock == old(osClock) && osClock.state == old(osClock.state)
      ensures ev.ForMember? && ev.cfgName in members ==>
        HaEffect(State(), sent, closed, started, report)
          == OnMemberEvent(name, members[ev.cfgName].cfg, old(State()), ev.cfgName, ev.ev, osClock.state)
      ensures ev.ForMember? && ev.cfgName !in members ==>
        HaEffect(State(), sent, closed, started, report) == HaEffect(old(State()), [], None, None, Report(old(sync), 0, None))
      ensures ev.Selected? ==>
        && SelectionAllows(old(State()), ev.iface, activeCfg)
        && HaEffect(State(), sent, closed, started, report)
             == HaEffect(old(State()).(activeCfg := activeCfg), [], None, None, Report(old(sync), 0, None))
    {
      sent, closed, started, report := [], None, None, Report(sync, 0, None);
      if ev.Selected? {
        SetActiveByIface(ev.iface);
      } else if ev.cfgName in members {
        sent, closed, started, report := AddMemberEvent(ev.cfgName, ev.ev);
      }
    }

    method SystemClockUpdate() returns (sent: seq<Message>)
      requires Wired()
      modifies this, members.Values
      ensures Wired() && osClock == old(osClock) && osClock.state == old(osClock.state)
      ensures State() == OnHaSystemClock(old(State()), osClock.state)
      ensures sent == OverallChange(old(overall), WorstOf(sync, osClock.state), name)
    {
      var next := WorstOf(sync, osClock.state);
      sent := OverallChange(overall, next, name);
      overall := next;
      UpdateMembers();
    }

    method UpdateMembers()
      requires Wired()
      modifies members.Values
      ensures Wired() && osClock.state == old(osClock.state)
      ensures MemberMap() == SettledOutside(old(MemberMap()), {}, osClock.state)
    {
      ghost var before := MemberMap();
      var left := members.Keys;
      SettledNone(before, osClock.state);
      while left != {}
        invariant left <= members.Keys && Wired() && osClock.state == old(osClock.state)
        invariant MemberMap() == SettledOutside(before, left, osClock.state)
        decreases left
      {
        var cfg :| cfg in left;
        SettledOne(before, left, cfg, osClock.state);
        UpdateMember(cfg);
        left := left - {cfg};
      }
    }

    /** The interceptor drops whatever the member sends: it is only ever a sync_state message. */
    method UpdateMember(cfgName: string)
      requires Wired() && cfgName in members
      modifies members[cfgName]
      ensures Wired() && osClock.state == old(osClock.state)
      ensures MemberMap() == old(MemberMap())[cfgName := Settled(old(MemberMap())[cfgName], osClock.state)]
    {
      var intercepted := members[cfgName].SystemClockUpdate();
    }

    /** Each member's own Reset closes its cancel channel. */
    method ResetMembers()
      requires Wired()
      modifies members.Values, osClock
      ensures Wired() && MemberMap() == ResetOutside(old(MemberMap()), {})
    {
      ghost var before := MemberMap();
      var left := members.Keys;
      ResetNone(before);
      while left != {}
        invariant left <= members.Keys && Wired()
        invariant MemberMap() == ResetOutside(before, left)
        decreases left
      {
        var cfg :| cfg in left;
        ResetOne(before, left, cfg);
        ResetMember(cfg);
        left := left - {cfg};
      }
    }

    method ResetMember(cfgName: string)
      requires Wired() && cfgName in members
      modifies members[cfgName], osClock
      ensures Wired()
      ensures MemberMap() == old(MemberMap())[cfgName := OnReset(old(MemberMap())[cfgName]).next]
    {
      var closed := members[cfgName].Reset();
    }

    method Reset()
      requires Wired()
      modifies this, members.Values, osClock
      ensures Wired() && osClock == old(osClock) && osClock.state == Freerun
      ensures State() == OnHaReset(old(State()))
    {
      ResetMembers();
      ResetComposite();
    }

    method ResetComposite()
      requires Wired()
      modifies this`sync, this`overall, this`activeCfg, osClock
      ensures Wired() && osClock.state == Freerun
      ensures State() == HaState(old(MemberMap()), Freerun, Freerun, "")
    {
      osClock.Reset();
      sync, overall, activeCfg := Freerun, Freerun, "";
    }
  }
}
