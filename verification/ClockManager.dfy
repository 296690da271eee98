/**
  ClockManager: the serialized event loop of pkg/linuxptp-daemon/pkg/clockmgr/clockmgr.go over
  boundary, Telecom boundary and High Availability clocks.

  Clocks are objects shared between config names; here they are instances with handles, so that two
  names can lead to one instance as two map entries lead to one clock in the original.
 */
module ClockManager {
  import opened Options
  import opened SyncStates
  import opened Ipc
  import opened Sequences
  import BC = BoundaryClock
  import TB = TelecomClock
  import HA = HaClock

  datatype Clock =
    | Boundary(cfg: BC.Config, bc: BC.BcState)
    | Telecom(profile: string, tbc: TB.TbcState)
    | Composite(name: string, memberCfgs: map<string, BC.Config>, ha: HA.HaState)

  function Sync(c: Clock): PTPState {
    match c
    case Boundary(_, s) => s.sync
    case Telecom(_, s) => s.sync
    case Composite(_, _, s) => s.sync
  }

  function Overall(c: Clock): PTPState {
    match c
    case Boundary(_, s) => s.overall
    case Telecom(_, s) => s.overall
    case Composite(_, _, s) => s.overall
  }

  ghost predicate WellFormed(c: Clock) {
    match c
    case Boundary(_, s) => BC.Valid(s)
    case Telecom(_, s) => TB.Good(s)
    case Composite(_, cfgs, s) => HA.Composed(s) && s.members != map[] && cfgs.Keys == s.members.Keys
  }

  ghost predicate Agrees(c: Clock, os: PTPState) {
    Overall(c) == WorstOf(Sync(c), os)
  }

  /** An event for a clock: every kind of clock reads the part of it that concerns it. */
  datatype Payload = Payload(cfgName: string, selected: Option<string>, bc: BC.Event, tbc: TB.Event, now: TB.Moment)

  datatype Outcome = Outcome(clock: Clock, sent: seq<Message>, reported: PTPState)

  predicate Readable(p: Payload) {
    BC.HasNeededOffset(p.bc)
  }

  /** AddEvent of a clock, when the OS clock is in state `os`; `active` is the member a selection picks. */
  function AddEvent(c: Clock, p: Payload, active: string, os: PTPState): Outcome
    requires WellFormed(c) && Readable(p)
  {
    match c
    case Boundary(cfg, s) =>
      var e := BC.OnEvent(cfg, s, p.bc, os);
      Outcome(c.(bc := e.next), e.sent, e.next.sync)
    case Telecom(profile, s) =>
      var e := TB.OnEvent(profile, s, p.tbc, p.now.(os := os));
      Outcome(c.(tbc := e.next), e.sent, e.next.sync)
    case Composite(name, cfgs, s) =>
      if p.selected.Some? then Outcome(c.(ha := s.(activeCfg := active)), [], s.sync)
      else if p.cfgName !in s.members then Outcome(c, [], s.sync)
      else
        var e := HA.OnMemberEvent(name, cfgs[p.cfgName], s, p.cfgName, p.bc, os);
        Outcome(c.(ha := e.next), e.sent, e.report.state)
  }

  /** The name a clock publishes under. */
  function PublishedName(c: Clock): string {
    match c
    case Boundary(cfg, _) => cfg.name
    case Telecom(profile, _) => profile
    case Composite(name, _, _) => name
  }

  function SystemClockUpdate(c: Clock, os: PTPState): Clock {
    match c
    case Boundary(_, s) => c.(bc := BC.Settled(s, os))
    case Telecom(_, s) => c.(tbc := s.(overall := WorstOf(s.sync, os)))
    case Composite(_, _, s) => c.(ha := HA.OnHaSystemClock(s, os))
  }

  function ClockReset(c: Clock, nextToken: nat): Clock {
    match c
    case Boundary(_, s) => c.(bc := BC.OnReset(s).next)
    case Telecom(_, s) => c.(tbc := TB.OnReset(s, nextToken))
    case Composite(_, _, s) => c.(ha := HA.OnHaReset(s))
  }

  // ------------------------------------------------------------------ what one clock does

  /** A clock went from `c` to `d`, having sent `sent`, with the OS clock in state `os`. */
  ghost predicate Moved(c: Clock, d: Clock, sent: seq<Message>, os: PTPState) {
    && WellFormed(d)
    && Agrees(d, os)
    && Published(sent) == (if Overall(d) != Overall(c) then [Overall(d)] else [])
    && (Sync(d) == NotSet ==> Sync(c) == NotSet)
  }

  lemma BoundaryMoves(c: Clock, p: Payload, active: string, os: PTPState)
    requires WellFormed(c) && Readable(p) && Agrees(c, os) && c.Boundary?
    ensures var o := AddEvent(c, p, active, os); Moved(c, o.clock, o.sent, os)
  {
    BC.EventKeepsValid(c.cfg, c.bc, p.bc, os);
    BC.EventDecidesState(c.cfg, c.bc, p.bc, os);
    BC.EventReconciles(c.cfg, c.bc, p.bc, os);
  }

  lemma TelecomMoves(c: Clock, p: Payload, active: string, os: PTPState)
    requires WellFormed(c) && Readable(p) && Agrees(c, os) && c.Telecom?
    ensures var o := AddEvent(c, p, active, os); Moved(c, o.clock, o.sent, os)
  {
    var now := p.now.(os := os);
    TB.EventKeepsGood(c.profile, c.tbc, p.tbc, now);
    TB.EventTransitions(c.profile, c.tbc, p.tbc, now);
    TB.EventReconciles(c.profile, c.tbc, p.tbc, now);
  }

  lemma CompositeMoves(c: Clock, p: Payload, active: string, os: PTPState)
    requires WellFormed(c) && Readable(p) && Agrees(c, os) && c.Composite?
    ensures var o := AddEvent(c, p, active, os); Moved(c, o.clock, o.sent, os)
  {
    if p.selected.None? && p.cfgName in c.ha.members {
      var cfg := c.memberCfgs[p.cfgName];
      HA.MemberEventKeepsComposed(c.name, cfg, c.ha, p.cfgName, p.bc, os);
      HA.MemberEventReconciles(c.name, cfg, c.ha, p.cfgName, p.bc, os);
      HA.CompositeStaysSet(c.name, cfg, c.ha, p.cfgName, p.bc, os);
      MemberMoves(c, HA.OnMemberEvent(c.name, cfg, c.ha, p.cfgName, p.bc, os), os);
    }
  }

  lemma MemberMoves(c: Clock, e: HA.HaEffect, os: PTPState)
    requires WellFormed(c) && c.Composite? && HA.Composed(e.next) && e.next.members.Keys == c.ha.members.Keys
    requires e.next.overall == WorstOf(e.next.sync, os) && (e.next.sync == NotSet ==> c.ha.sync == NotSet)
    requires Published(e.sent) == if e.next.overall != c.ha.overall then [e.next.overall] else []
    ensures Moved(c, c.(ha := e.next), e.sent, os)
  {}

  lemma EventMoves(c: Clock, p: Payload, active: string, os: PTPState)
    requires WellFormed(c) && Readable(p) && Agrees(c, os)
    ensures var o := AddEvent(c, p, active, os); Moved(c, o.clock, o.sent, os)
  {
    match c
    case Boundary(_, _) => BoundaryMoves(c, p, active, os);
    case Telecom(_, _) => TelecomMoves(c, p, active, os);
    case Composite(_, _, _) => CompositeMoves(c, p, active, os);
  }

  lemma UpdateMoves(c: Clock, os: PTPState)
    requires WellFormed(c)
    ensures Moved(c, SystemClockUpdate(c, os), OverallChange(Overall(c), WorstOf(Sync(c), os), PublishedName(c)), os)
    ensures Sync(SystemClockUpdate(c, os)) == Sync(c)
  {
    OverallChangePublishes(Overall(c), WorstOf(Sync(c), os), PublishedName(c));
    UpdateKeepsWellFormed(c, os);
  }

  /** An update touches nothing but overall states; a reset leaves of a clock only how it is configured and the generations of its timers. */
  lemma UpdateAndResetAre(c: Clock, os: PTPState, token: nat)
    ensures var u, r := SystemClockUpdate(c, os), ClockReset(c, token);
      match c
      case Boundary(cfg, s) =>
        && u == Boundary(cfg, s.(overall := WorstOf(s.sync, os)))
        && r == Boundary(cfg, BC.BcState(Freerun, Freerun, 0, "", None, if s.cancel.Some? then s.gen + 1 else s.gen))
      case Telecom(profile, s) =>
        && u == Telecom(profile, s.(overall := WorstOf(s.sync, os)))
        && r == Telecom(profile, TB.NewTbc(s.configuredLeading, token).(overall := Freerun))
      case Composite(name, cfgs, s) =>
        && u.Composite? && u.name == name && u.memberCfgs == cfgs && u.ha.sync == s.sync && u.ha.activeCfg == s.activeCfg
        && u.ha.overall == WorstOf(s.sync, os) && u.ha.members.Keys == s.members.Keys
        && (forall m :: m in s.members ==> u.ha.members[m] == s.members[m].(overall := WorstOf(s.members[m].sync, os)))
        && r.Composite? && r.name == name && r.memberCfgs == cfgs && r.ha.sync == r.ha.overall == Freerun && r.ha.activeCfg == ""
        && r.ha.members.Keys == s.members.Keys
        && (forall m :: m in s.members ==> r.ha.members[m] == BC.OnReset(s.members[m]).next)
  {
    if c.Composite? {
      forall m ensures var u, r := HA.OnHaSystemClock(c.ha, os), HA.OnHaReset(c.ha);
        m in c.ha.members ==>
          && u.members[m] == c.ha.members[m].(overall := WorstOf(c.ha.members[m].sync, os))
          && r.members[m] == BC.OnReset(c.ha.members[m]).next
      {
        HA.MembersFollow(c.ha, os, m);
      }
    }
  }

  lemma UpdateKeepsWellFormed(c: Clock, os: PTPState)
    requires WellFormed(c)
    ensures WellFormed(SystemClockUpdate(c, os))
  {
    if c.Composite? {
      HA.SystemClockKeepsComposed(c.ha, os);
    }
  }

  // ------------------------------------------------------------------ the loop

  /** A message and the instance it came from; None is the manager itself. */
  datatype Posted = Posted(from: Option<nat>, msg: Message)

  datatype Manager = Manager(
    clocks: map<string, nat>, instances: map<nat, Clock>, os: PTPState, log: seq<Posted>, signals: nat)

  datatype LoopEvent =
    | Incoming(lookupName: string, p: Payload, applying: bool, active: string)
    | OsSample(iface: string, state: PTPState, offset: int)   // a phc2sys or chronyd offset sample
    | ResetEvent(cfgName: string, nextToken: nat)
    | AddClock(names: set<string>, h: nat, c: Clock)
    | RemoveAllClocks

  function Tagged(h: nat, sent: seq<Message>): seq<Posted> {
    if sent == [] then [] else [Posted(Some(h), sent[0])] + Tagged(h, sent[1..])
  }

  /** The sync_state values instance `h` has published. */
  ghost function StatesOf(log: seq<Posted>, h: nat): seq<PTPState> {
    if log == [] then []
    else
      var last := log[|log| - 1];
      StatesOf(log[..|log| - 1], h) + if last.from == Some(h) && last.msg.SyncState? then [last.msg.state] else []
  }

  /** Everything instance `h` has published. */
  ghost function MessagesOf(log: seq<Posted>, h: nat): seq<Message> {
    if log == [] then []
    else
      var last := log[|log| - 1];
      MessagesOf(log[..|log| - 1], h) + if last.from == Some(h) then [last.msg] else []
  }

  lemma MessagesOfSnoc(log: seq<Posted>, p: Posted, h: nat)
    ensures MessagesOf(log + [p], h) == MessagesOf(log, h) + if p.from == Some(h) then [p.msg] else []
  {
    assert (log + [p])[..|log|] == log;
  }

  lemma {:induction false} MessagesOfTagged(log: seq<Posted>, h: nat, sent: seq<Message>, g: nat)
    ensures MessagesOf(log + Tagged(h, sent), g) == MessagesOf(log, g) + if g == h then sent else []
    decreases sent
  {
    if sent == [] {
      assert log + Tagged(h, sent) == log;
    } else {
      var first := Posted(Some(h), sent[0]);
      TaggedCons(log, h, sent);
      MessagesOfTagged(log + [first], h, sent[1..], g);
      MessagesOfSnoc(log, first, g);
      if g == h {
        MoveOne(MessagesOf(log, g), sent);
      } else {
        assert MessagesOf(log, g) + [] + [] == MessagesOf(log, g) + [];
      }
    }
  }

  lemma {:induction false} StatesAreMessages(log: seq<Posted>, h: nat)
    ensures StatesOf(log, h) == Published(MessagesOf(log, h))
  {
    if log != [] {
      var last := log[|log| - 1];
      StatesAreMessages(log[..|log| - 1], h);
      PublishedAppend(MessagesOf(log[..|log| - 1], h), if last.from == Some(h) then [last.msg] else []);
      PublishedOne(last.msg);
    }
  }

  lemma StatesOfSnoc(log: seq<Posted>, p: Posted, h: nat)
    ensures StatesOf(log + [p], h) == StatesOf(log, h) + if p.from == Some(h) && p.msg.SyncState? then [p.msg.state] else []
  {
    assert (log + [p])[..|log|] == log;
  }

  lemma {:induction false} StatesOfTagged(log: seq<Posted>, h: nat, sent: seq<Message>, g: nat)
    ensures StatesOf(log + Tagged(h, sent), g) == StatesOf(log, g) + if g == h then Published(sent) else []
    decreases sent
  {
    if sent == [] {
      assert log + Tagged(h, sent) == log;
    } else {
      var first := Posted(Some(h), sent[0]);
      TaggedCons(log, h, sent);
      StatesOfTagged(log + [first], h, sent[1..], g);
      StatesOfSnoc(log, first, g);
      PublishedCons(StatesOf(log, g), sent);
    }
  }

  lemma TaggedCons(log: seq<Posted>, h: nat, sent: seq<Message>)
    requires sent != []
    ensures log + Tagged(h, sent) == (log + [Posted(Some(h), sent[0])]) + Tagged(h, sent[1..])
  {}

  lemma PublishedCons(states: seq<PTPState>, sent: seq<Message>)
    requires sent != []
    ensures states + Published(sent) == (states + if sent[0].SyncState? then [sent[0].state] else []) + Published(sent[1..])
  {}

  predicate WellFormedManager(s: Manager) {
    forall name :: name in s.clocks ==> s.clocks[name] in s.instances
  }

  predicate IsNew(c: Clock) {
    match c
    case Boundary(_, s) => s == BC.INITIAL
    case Telecom(_, s) => s == TB.NewTbc(s.configuredLeading, s.announceToken)
    case Composite(_, cfgs, s) =>
      && s.members != map[] && cfgs.Keys == s.members.Keys
      && (forall cfg :: cfg in s.members ==> s.members[cfg] == BC.INITIAL)
      && s.sync == NotSet && s.overall == NotSet
  }

  predicate IsRegistered(s: Manager, h: nat) {
    exists name :: name in s.clocks && s.clocks[name] == h
  }

  predicate Enabled(s: Manager, ev: LoopEvent) {
    match ev
    case Incoming(_, p, _, _) => Readable(p)
    case AddClock(_, h, c) => h !in s.instances && IsNew(c)
    case _ => true
  }

  /** The clock an event is handed to, unless it is skipped. */
  predicate Accepts(s: Manager, ev: LoopEvent)
    requires WellFormedManager(s) && ev.Incoming?
  {
    ev.lookupName in s.clocks && !(s.instances[s.clocks[ev.lookupName]].Telecom? && ev.applying)
  }

  /** One clock handles one event; a change is signalled by comparing what it reports with what it was. */
  ghost predicate IncomingStep(s: Manager, ev: LoopEvent, t: Manager)
    requires WellFormedManager(s) && ev.Incoming? && Readable(ev.p)
  {
    if !Accepts(s, ev) then t == s
    else
      var h := s.clocks[ev.lookupName];
      var c := s.instances[h];
      && WellFormed(c)
      && (c.Composite? && ev.p.selected.Some? ==> HA.SelectionAllows(c.ha, ev.p.selected.value, ev.active))
      && var o := AddEvent(c, ev.p, ev.active, s.os);
      t == s.(instances := s.instances[h := o.clock],
              log := s.log + Tagged(h, o.sent),
              signals := if Sync(c) != NotSet && Sync(c) != o.reported then s.signals + 1 else s.signals)
  }

  /** What the event is for a clock of its kind, with the messages of it. */
  ghost predicate Handles(c: Clock, ev: LoopEvent, os: PTPState, d: Clock, sent: seq<Message>)
    requires ev.Incoming? && Readable(ev.p) && WellFormed(c)
  {
    match c
    case Boundary(cfg, s) =>
      var e := BC.OnEvent(cfg, s, ev.p.bc, os);
      d == Boundary(cfg, e.next) && sent == e.sent
    case Telecom(profile, s) =>
      var e := TB.OnEvent(profile, s, ev.p.tbc, TB.Moment(ev.p.now.readings, os, ev.p.now.utcOffset, ev.p.now.nextToken));
      d == Telecom(profile, e.next) && sent == e.sent
    case Composite(name, cfgs, s) =>
      if ev.p.selected.Some? then
        d == Composite(name, cfgs, s.(activeCfg := ev.active)) && sent == []
      else if ev.p.cfgName in s.members then
        var e := HA.OnMemberEvent(name, cfgs[ev.p.cfgName], s, ev.p.cfgName, ev.p.bc, os);
        d == Composite(name, cfgs, e.next) && sent == e.sent
      else d == c && sent == []
  }

  /**
    An event is handled by the clock registered under its name and by no other, and everything that clock sends is
    published, in order; it is skipped if there is none, or if that is a telecom clock of a profile being applied.
   */
  lemma IncomingReachesItsClock(s: Manager, ev: LoopEvent, t: Manager) returns (sent: seq<Message>)
    requires WellFormedManager(s) && ev.Incoming? && Readable(ev.p) && IncomingStep(s, ev, t)
    ensures t.clocks == s.clocks && t.os == s.os && t.instances.Keys == s.instances.Keys
    ensures forall h :: h in s.instances && (ev.lookupName !in s.clocks || h != s.clocks[ev.lookupName]) ==>
      t.instances[h] == s.instances[h]
    ensures ev.lookupName in s.clocks && !(s.instances[s.clocks[ev.lookupName]].Telecom? && ev.applying) ==>
      var h := s.clocks[ev.lookupName];
      && WellFormed(s.instances[h]) && Handles(s.instances[h], ev, s.os, t.instances[h], sent)
      && (forall g :: MessagesOf(t.log, g) == MessagesOf(s.log, g) + if g == h then sent else [])
    ensures ev.lookupName !in s.clocks || (s.instances[s.clocks[ev.lookupName]].Telecom? && ev.applying) ==> t == s
  {
    sent := [];
    if Accepts(s, ev) {
      var h := s.clocks[ev.lookupName];
      sent := AddEvent(s.instances[h], ev.p, ev.active, s.os).sent;
      forall g ensures MessagesOf(t.log, g) == MessagesOf(s.log, g) + if g == h then sent else [] {
        MessagesOfTagged(s.log, h, sent, g);
      }
    }
  }

  /**
    A change of the OS clock reaches every registered clock, in whatever order of names; a clock
    registered under several names publishes at most once.
   */
  ghost predicate OsStep(s: Manager, ev: LoopEvent, t: Manager)
    requires WellFormedManager(s) && ev.OsSample?
  {
    if s.os == ev.state then t == s
    else
      && t.clocks == s.clocks && t.os == ev.state && t.signals == s.signals + 1
      && t.instances == (map h | h in s.instances ::
           if IsRegistered(s, h) then SystemClockUpdate(s.instances[h], ev.state) else s.instances[h])
      && s.log + [Posted(None, OsClockState(ev.iface, ev.state, ev.offset))] <= t.log
      && (forall k :: |s.log| < k < |t.log| ==>
            t.log[k].msg.SyncState? && t.log[k].from.Some? && IsRegistered(s, t.log[k].from.value))
      && (forall h :: h in s.instances ==>
            MessagesOf(t.log, h)
              == MessagesOf(s.log, h) + if IsRegistered(s, h) then UpdateMessages(s.instances[h], ev.state) else [])
  }

  /** What `c` publishes when the OS clock turns to `os`. */
  function UpdateMessages(c: Clock, os: PTPState): seq<Message> {
    OverallChange(Overall(c), WorstOf(Sync(c), os), PublishedName(c))
  }

  /** The overall state `c` publishes when the OS clock turns to `os`, if it changes. */
  function ChangedTo(c: Clock, os: PTPState): seq<PTPState> {
    if WorstOf(Sync(c), os) != Overall(c) then [WorstOf(Sync(c), os)] else []
  }

  lemma MoreMessagesMoreStates(before: seq<Posted>, after: seq<Posted>, h: nat, c: Clock, os: PTPState, updated: bool)
    requires MessagesOf(after, h) == MessagesOf(before, h) + if updated then UpdateMessages(c, os) else []
    ensures StatesOf(after, h) == StatesOf(before, h) + if updated then ChangedTo(c, os) else []
  {
    StatesAreMessages(before, h);
    StatesAreMessages(after, h);
    PublishedAppend(MessagesOf(before, h), if updated then UpdateMessages(c, os) else []);
    OverallChangePublishes(Overall(c), WorstOf(Sync(c), os), PublishedName(c));
  }

  ghost predicate Next(s: Manager, ev: LoopEvent, t: Manager)
    requires WellFormedManager(s) && Enabled(s, ev)
  {
    match ev
    case Incoming(_, _, _, _) => IncomingStep(s, ev, t)
    case OsSample(_, _, _) => OsStep(s, ev, t)
    case ResetEvent(cfgName, nextToken) =>
      if cfgName in s.clocks then
        var h := s.clocks[cfgName];
        t == s.(instances := s.instances[h := ClockReset(s.instances[h], nextToken)], os := Freerun)
      else t == s
    case AddClock(names, h, c) =>
      t == s.(instances := s.instances[h := c],
              clocks := map name | name in s.clocks.Keys + names :: if name in names then h else s.clocks[name])
    case RemoveAllClocks => t == s.(clocks := map[], os := Freerun)
  }

  // ------------------------------------------------------------------ runs without a reset

  ghost predicate Distinct(states: seq<PTPState>) {
    && (states != [] ==> states[0] != NotSet)
    && forall k :: 0 < k < |states| ==> states[k] != states[k - 1]
  }

  function LastState(states: seq<PTPState>): PTPState {
    if states == [] then NotSet else states[|states| - 1]
  }

  /** What holds of a clock that has published `states`; `osSet`: the OS clock has never been in state NotSet. */
  ghost predicate ClockOk(c: Clock, states: seq<PTPState>, registered: bool, os: PTPState, osSet: bool) {
    && WellFormed(c)
    && (registered ==> Agrees(c, os))
    && (Sync(c) == NotSet ==> Overall(c) == NotSet && states == [])
    && Distinct(states) && LastState(states) == Overall(c)
    && Unknown !in states && (osSet ==> NotSet !in states)
  }

  ghost predicate InstanceOk(s: Manager, h: nat, osSet: bool)
    requires h in s.instances
  {
    ClockOk(s.instances[h], StatesOf(s.log, h), IsRegistered(s, h), s.os, osSet)
  }

  ghost predicate Inv(s: Manager, osSet: bool) {
    && WellFormedManager(s)
    && (osSet ==> s.os != NotSet)
    && (forall h :: h in s.instances ==> InstanceOk(s, h, osSet))
    && (forall k :: 0 <= k < |s.log| && s.log[k].from.Some? ==> s.log[k].from.value in s.instances)
  }

  lemma MovedStaysOk(c: Clock, d: Clock, sent: seq<Message>, before: PTPState, os: PTPState, states: seq<PTPState>, osSet: bool)
    requires Moved(c, d, sent, os) && ClockOk(c, states, true, before, osSet)
    requires osSet ==> os != NotSet
    ensures ClockOk(d, states + Published(sent), true, os, osSet)
  {
    var after := states + Published(sent);
    if Overall(d) != Overall(c) {
      assert after[|states|] == Overall(d);
    } else {
      assert after == states;
    }
  }

  lemma NewIsWellFormed(c: Clock)
    requires IsNew(c)
    ensures WellFormed(c) && Sync(c) == NotSet && Overall(c) == NotSet
  {
    if c.Composite? {
      assert forall state :: state in HA.MemberStates(c.ha.members) ==> state == NotSet;
    }
  }

  lemma {:induction false} UnmentionedIsSilent(log: seq<Posted>, h: nat)
    requires forall k :: 0 <= k < |log| ==> log[k].from != Some(h)
    ensures StatesOf(log, h) == []
  {
    if log != [] {
      UnmentionedIsSilent(log[..|log| - 1], h);
    }
  }

  lemma {:induction false} TaggedIsFrom(h: nat, sent: seq<Message>)
    ensures forall k :: 0 <= k < |Tagged(h, sent)| ==> Tagged(h, sent)[k].from == Some(h)
  {
    if sent != [] {
      TaggedIsFrom(h, sent[1..]);
    }
  }

  lemma IncomingKeepsInv(s: Manager, ev: LoopEvent, t: Manager, osSet: bool)
    requires Inv(s, osSet) && ev.Incoming? && Enabled(s, ev) && IncomingStep(s, ev, t) && Accepts(s, ev)
    ensures Inv(t, osSet)
  {
    var h := s.clocks[ev.lookupName];
    var o := AddEvent(s.instances[h], ev.p, ev.active, s.os);
    assert InstanceOk(s, h, osSet) && IsRegistered(s, h);
    EventMoves(s.instances[h], ev.p, ev.active, s.os);
    MovedStaysOk(s.instances[h], o.clock, o.sent, s.os, s.os, StatesOf(s.log, h), osSet);
    TaggedIsFrom(h, o.sent);
    HandledKeepsInv(s, h, o, t, osSet);
  }

  lemma HandledKeepsInv(s: Manager, h: nat, o: Outcome, t: Manager, osSet: bool)
    requires Inv(s, osSet) && IsRegistered(s, h) && h in s.instances
    requires t == s.(instances := s.instances[h := o.clock], log := s.log + Tagged(h, o.sent), signals := t.signals)
    requires ClockOk(o.clock, StatesOf(s.log, h) + Published(o.sent), true, s.os, osSet)
    requires forall k :: 0 <= k < |Tagged(h, o.sent)| ==> Tagged(h, o.sent)[k].from == Some(h)
    ensures Inv(t, osSet)
  {
    forall g | g in t.instances ensures InstanceOk(t, g, osSet) {
      StatesOfTagged(s.log, h, o.sent, g);
      assert IsRegistered(t, g) == IsRegistered(s, g);
      if g != h {
        OtherInstanceIsKept(s, t, g, osSet);
      }
    }
    AllFromKnown(s, Tagged(h, o.sent), h);
  }

  lemma OtherInstanceIsKept(s: Manager, t: Manager, g: nat, osSet: bool)
    requires g in s.instances && g in t.instances && InstanceOk(s, g, osSet)
    requires t.instances[g] == s.instances[g] && t.os == s.os && IsRegistered(t, g) == IsRegistered(s, g)
    requires StatesOf(t.log, g) == StatesOf(s.log, g) + []
    ensures InstanceOk(t, g, osSet)
  {
    assert StatesOf(s.log, g) + [] == StatesOf(s.log, g);
  }

  lemma AllFromKnown(s: Manager, more: seq<Posted>, h: nat)
    requires h in s.instances && forall k :: 0 <= k < |more| ==> more[k].from == Some(h)
    requires forall k :: 0 <= k < |s.log| && s.log[k].from.Some? ==> s.log[k].from.value in s.instances
    ensures forall k :: 0 <= k < |s.log + more| && (s.log + more)[k].from.Some? ==> (s.log + more)[k].from.value in s.instances
  {}

  lemma OsKeepsInv(s: Manager, ev: LoopEvent, t: Manager, osSet: bool)
    requires Inv(s, osSet) && ev.OsSample? && OsStep(s, ev, t) && s.os != ev.state
    requires osSet ==> ev.state != NotSet
    ensures Inv(t, osSet)
  {
    var before := s.log + [Posted(None, OsClockState(ev.iface, ev.state, ev.offset))];
    forall k | 0 <= k < |t.log| && t.log[k].from.Some? ensures t.log[k].from.value in t.instances {
      if k < |before| { assert t.log[k] == before[k]; }
    }
    forall h | h in t.instances ensures InstanceOk(t, h, osSet) {
      assert InstanceOk(s, h, osSet);
      assert IsRegistered(t, h) == IsRegistered(s, h);
      MoreMessagesMoreStates(s.log, t.log, h, s.instances[h], ev.state, IsRegistered(s, h));
      if IsRegistered(s, h) {
        UpdateStaysOk(s.instances[h], StatesOf(s.log, h), s.os, ev.state, osSet);
      } else {
        assert StatesOf(s.log, h) + [] == StatesOf(s.log, h);
      }
    }
  }

  lemma UpdateStaysOk(c: Clock, states: seq<PTPState>, before: PTPState, os: PTPState, osSet: bool)
    requires ClockOk(c, states, true, before, osSet) && (osSet ==> os != NotSet)
    ensures ClockOk(SystemClockUpdate(c, os), states + ChangedTo(c, os), true, os, osSet)
  {
    var sent := OverallChange(Overall(c), WorstOf(Sync(c), os), PublishedName(c));
    UpdateMoves(c, os);
    MovedStaysOk(c, SystemClockUpdate(c, os), sent, before, os, states, osSet);
    OverallChangePublishes(Overall(c), WorstOf(Sync(c), os), PublishedName(c));
    assert Published(sent) == ChangedTo(c, os);
  }

  lemma AddKeepsInv(s: Manager, ev: LoopEvent, t: Manager, osSet: bool)
    requires Inv(s, osSet) && ev.AddClock? && Enabled(s, ev) && Next(s, ev, t)
    ensures Inv(t, osSet)
  {
    UnmentionedIsSilent(s.log, ev.h);
    NewIsWellFormed(ev.c);
    assert InstanceOk(t, ev.h, osSet);
    forall h | h in t.instances ensures InstanceOk(t, h, osSet) {
      if h != ev.h {
        assert InstanceOk(s, h, osSet);
        assert IsRegistered(t, h) ==> IsRegistered(s, h);
      }
    }
  }

  /** Every step but a reset keeps the invariant. */
  lemma StepKeepsInv(s: Manager, ev: LoopEvent, t: Manager, osSet: bool)
    requires Inv(s, osSet) && Enabled(s, ev) && Next(s, ev, t) && !ev.ResetEvent?
    requires osSet && ev.OsSample? ==> ev.state != NotSet
    ensures Inv(t, osSet)
  {
    match ev
    case Incoming(_, _, _, _) =>
      if Accepts(s, ev) { IncomingKeepsInv(s, ev, t, osSet); }
    case OsSample(_, _, _) =>
      if s.os != ev.state { OsKeepsInv(s, ev, t, osSet); }
    case AddClock(_, _, _) => AddKeepsInv(s, ev, t, osSet);
    case RemoveAllClocks =>
      forall h | h in t.instances ensures InstanceOk(t, h, osSet) {
        assert InstanceOk(s, h, osSet);
      }
  }

  // ------------------------------------------------------------------ whole runs

  const START := Manager(map[], map[], Freerun, [], 0)

  ghost predicate IsStep(states: seq<Manager>, events: seq<LoopEvent>, k: nat)
    requires k < |events| < |states|
  {
    && WellFormedManager(states[k]) && Enabled(states[k], events[k]) && Next(states[k], events[k], states[k + 1])
    && !events[k].ResetEvent?
  }

  /** A run of the loop without reset events. */
  ghost predicate IsRun(states: seq<Manager>, events: seq<LoopEvent>) {
    && |states| == |events| + 1
    && states[0] == START
    && forall k :: 0 <= k < |events| ==> IsStep(states, events, k)
  }

  /** No OS clock sample of the run reports the state NotSet. */
  predicate OsAlwaysSet(events: seq<LoopEvent>) {
    forall k :: 0 <= k < |events| && events[k].OsSample? ==> events[k].state != NotSet
  }

  lemma {:induction false} RunKeepsInv(states: seq<Manager>, events: seq<LoopEvent>, n: nat)
    requires IsRun(states, events) && n < |states|
    ensures Inv(states[n], OsAlwaysSet(events))
  {
    if n > 0 {
      RunKeepsInv(states, events, n - 1);
      assert IsStep(states, events, n - 1);
      StepKeepsInv(states[n - 1], events[n - 1], states[n], OsAlwaysSet(events));
    }
  }

  /** After every step, every registered clock's overall state is the worst of its own state and the OS clock's. */
  lemma RegisteredClocksAgree(states: seq<Manager>, events: seq<LoopEvent>, n: nat, name: string)
    requires IsRun(states, events) && n < |states| && name in states[n].clocks
    ensures states[n].clocks[name] in states[n].instances
    ensures Agrees(states[n].instances[states[n].clocks[name]], states[n].os)
  {
    RunKeepsInv(states, events, n);
    assert InstanceOk(states[n], states[n].clocks[name], OsAlwaysSet(events));
  }

  /** NotSet and Freerun are published under one name. */
  predicate AreAliased(a: PTPState, b: PTPState) {
    (a == NotSet && b == Freerun) || (a == Freerun && b == NotSet)
  }

  /**
    No clock publishes the same overall state twice in a row. What the consumers see is the state's
    published name, and that repeats if and only if the state goes between NotSet and Freerun.
   */
  lemma PublishedNeverRepeats(states: seq<Manager>, events: seq<LoopEvent>, n: nat, h: nat, k: nat)
    requires IsRun(states, events) && n < |states| && h in states[n].instances
    requires 0 < k < |StatesOf(states[n].log, h)|
    ensures var published := StatesOf(states[n].log, h);
      && published[k] != published[k - 1]
      && (ToIpc(published[k]) == ToIpc(published[k - 1]) <==> AreAliased(published[k], published[k - 1]))
      && (OsAlwaysSet(events) ==> ToIpc(published[k]) != ToIpc(published[k - 1]))
  {
    RunKeepsInv(states, events, n);
    assert InstanceOk(states[n], h, OsAlwaysSet(events));
    NamesDiffer(StatesOf(states[n].log, h), k, OsAlwaysSet(events));
  }

  lemma NamesDiffer(published: seq<PTPState>, k: nat, osSet: bool)
    requires Distinct(published) && Unknown !in published && (osSet ==> NotSet !in published)
    requires 0 < k < |published|
    ensures published[k] != published[k - 1]
    ensures ToIpc(published[k]) == ToIpc(published[k - 1]) <==> AreAliased(published[k], published[k - 1])
    ensures osSet ==> ToIpc(published[k]) != ToIpc(published[k - 1])
  {
    assert published[k] in published && published[k - 1] in published;
  }

  /** From `before` to `after`, something was published under the name of what was published last. */
  predicate RepeatsName(before: seq<PTPState>, after: seq<PTPState>) {
    before != [] && |after| > |before| && ToIpc(after[|before|]) == ToIpc(before[|before| - 1])
  }

  /** An OS clock sample makes the clock go between NotSet and Freerun, after it has published before. */
  predicate SampleRepeats(s: Manager, ev: LoopEvent, h: nat, published: seq<PTPState>)
    requires h in s.instances
  {
    && ev.OsSample? && ev.state != s.os && IsRegistered(s, h) && published != []
    && AreAliased(Overall(s.instances[h]), WorstOf(Sync(s.instances[h]), ev.state))
  }

  lemma OtherStepsPublishNothing(s: Manager, ev: LoopEvent, t: Manager, h: nat)
    requires WellFormedManager(s) && Enabled(s, ev) && Next(s, ev, t) && h in s.instances
    requires ev.ResetEvent? || ev.AddClock? || ev.RemoveAllClocks? || (ev.Incoming? && !Accepts(s, ev))
    ensures t.log == s.log
  {}

  lemma IncomingPublishes(s: Manager, ev: LoopEvent, t: Manager, h: nat, osSet: bool)
    requires Inv(s, osSet) && Enabled(s, ev) && ev.Incoming? && Accepts(s, ev) && IncomingStep(s, ev, t) && h in s.instances
    ensures h in t.instances && (Sync(t.instances[h]) == NotSet ==> Sync(s.instances[h]) == NotSet)
    ensures StatesOf(t.log, h) == StatesOf(s.log, h)
      || (IsRegistered(s, h) && Agrees(t.instances[h], s.os) && Overall(t.instances[h]) != Overall(s.instances[h])
          && StatesOf(t.log, h) == StatesOf(s.log, h) + [Overall(t.instances[h])])
  {
    var g := s.clocks[ev.lookupName];
    var o := AddEvent(s.instances[g], ev.p, ev.active, s.os);
    assert InstanceOk(s, g, osSet) && IsRegistered(s, g);
    EventMoves(s.instances[g], ev.p, ev.active, s.os);
    OneHandled(s, t, g, o, h);
  }

  lemma OneHandled(s: Manager, t: Manager, g: nat, o: Outcome, h: nat)
    requires g in s.instances && h in s.instances && Moved(s.instances[g], o.clock, o.sent, s.os)
    requires t.instances == s.instances[g := o.clock] && t.log == s.log + Tagged(g, o.sent)
    ensures h in t.instances && (Sync(t.instances[h]) == NotSet ==> Sync(s.instances[h]) == NotSet)
    ensures StatesOf(t.log, h) == StatesOf(s.log, h)
      || (h == g && Agrees(t.instances[h], s.os) && Overall(t.instances[h]) != Overall(s.instances[h])
          && StatesOf(t.log, h) == StatesOf(s.log, h) + [Overall(t.instances[h])])
  {
    StatesOfTagged(s.log, g, o.sent, h);
    assert StatesOf(s.log, h) + [] == StatesOf(s.log, h);
  }

  lemma IncomingNeverRepeats(s: Manager, ev: LoopEvent, t: Manager, h: nat, osSet: bool)
    requires Inv(s, osSet) && Enabled(s, ev) && ev.Incoming? && Accepts(s, ev) && IncomingStep(s, ev, t) && h in s.instances
    ensures !RepeatsName(StatesOf(s.log, h), StatesOf(t.log, h))
  {
    IncomingPublishes(s, ev, t, h, osSet);
    assert InstanceOk(s, h, osSet);
    if StatesOf(t.log, h) != StatesOf(s.log, h) {
      NewNameDiffers(s.instances[h], t.instances[h], StatesOf(s.log, h), s.os, osSet);
    }
  }

  /** While the OS clock stays as it is, a clock that has published does not go between NotSet and Freerun. */
  lemma NewNameDiffers(c: Clock, d: Clock, states: seq<PTPState>, os: PTPState, osSet: bool)
    requires ClockOk(c, states, true, os, osSet) && Agrees(d, os) && Overall(d) != Overall(c)
    requires Sync(d) == NotSet ==> Sync(c) == NotSet
    ensures !RepeatsName(states, states + [Overall(d)])
  {
    if states != [] {
      assert states[|states| - 1] == Overall(c) && Overall(c) in states;
    }
  }

  /** The one cause of a repeated name: an OS clock sample that takes an overall state between NotSet and Freerun. */
  lemma NameRepeatsExactly(states: seq<Manager>, events: seq<LoopEvent>, n: nat, h: nat)
    requires IsRun(states, events) && n < |events| && h in states[n].instances
    ensures var published := StatesOf(states[n].log, h);
      RepeatsName(published, StatesOf(states[n + 1].log, h)) <==> SampleRepeats(states[n], events[n], h, published)
  {
    RunKeepsInv(states, events, n);
    assert IsStep(states, events, n);
    StepRepeatsExactly(states[n], events[n], states[n + 1], h, OsAlwaysSet(events));
  }

  lemma StepRepeatsExactly(s: Manager, ev: LoopEvent, t: Manager, h: nat, osSet: bool)
    requires Inv(s, osSet) && Enabled(s, ev) && Next(s, ev, t) && h in s.instances
    ensures RepeatsName(StatesOf(s.log, h), StatesOf(t.log, h)) <==> SampleRepeats(s, ev, h, StatesOf(s.log, h))
  {
    assert InstanceOk(s, h, osSet);
    if ev.Incoming? && Accepts(s, ev) {
      IncomingNeverRepeats(s, ev, t, h, osSet);
    } else if ev.OsSample? && ev.state != s.os {
      SampleStepRepeats(s, ev, t, h, osSet);
    } else if ev.OsSample? {
      assert t == s;
    } else {
      OtherStepsPublishNothing(s, ev, t, h);
    }
  }

  lemma SampleStepRepeats(s: Manager, ev: LoopEvent, t: Manager, h: nat, osSet: bool)
    requires Inv(s, osSet) && ev.OsSample? && ev.state != s.os && OsStep(s, ev, t) && h in s.instances
    ensures RepeatsName(StatesOf(s.log, h), StatesOf(t.log, h)) <==> SampleRepeats(s, ev, h, StatesOf(s.log, h))
  {
    assert InstanceOk(s, h, osSet);
    MoreMessagesMoreStates(s.log, t.log, h, s.instances[h], ev.state, IsRegistered(s, h));
    SampleName(s.instances[h], StatesOf(s.log, h), IsRegistered(s, h), s.os, ev.state, osSet);
  }

  lemma SampleName(c: Clock, published: seq<PTPState>, registered: bool, before: PTPState, os: PTPState, osSet: bool)
    requires ClockOk(c, published, registered, before, osSet)
    ensures RepeatsName(published, published + if registered then ChangedTo(c, os) else [])
      <==> registered && published != [] && AreAliased(Overall(c), WorstOf(Sync(c), os))
  {
    if published != [] {
      assert published[|published| - 1] == Overall(c) && Overall(c) in published;
    }
    if registered && ChangedTo(c, os) != [] {
      assert (published + ChangedTo(c, os))[|published|] == WorstOf(Sync(c), os);
    } else {
      assert published + [] == published;
    }
  }

  /** A locking sample for a boundary clock, as an event for the name "bc". */
  function LockingEvent(cfg: BC.Config): LoopEvent {
    Incoming("bc", Payload("bc", None, BC.Event(false, "", BC.Offset(cfg.minOffset + 1, false)), TB.OtherPmc,
                           TB.Moment(TB.Readings(false, 0, false, false, false), NotSet, 0, 0)), false, "")
  }

  function AddedManager(cfg: BC.Config): Manager {
    Manager(map["bc" := 0], map[0 := Boundary(cfg, BC.INITIAL)], Freerun, [], 0)
  }

  function LockedManager(cfg: BC.Config): Manager {
    var o := AddEvent(Boundary(cfg, BC.INITIAL), LockingEvent(cfg).p, "", Freerun);
    Manager(map["bc" := 0], map[0 := o.clock], Freerun, Tagged(0, o.sent), 0)
  }

  function UnsetManager(cfg: BC.Config): Manager {
    var s := LockedManager(cfg);
    s.(instances := map[0 := SystemClockUpdate(s.instances[0], NotSet)], os := NotSet, signals := 1,
       log := s.log + [Posted(None, OsClockState("", NotSet, 0))] + [Posted(Some(0), SyncState(cfg.name, NotSet))])
  }

  lemma AddingStep(cfg: BC.Config)
    ensures Enabled(START, LoopEvent.AddClock({"bc"}, 0, Boundary(cfg, BC.INITIAL)))
    ensures Next(START, LoopEvent.AddClock({"bc"}, 0, Boundary(cfg, BC.INITIAL)), AddedManager(cfg))
  {
    assert "bc" in {"bc"};
  }

  lemma FirstLock(cfg: BC.Config)
    requires cfg.minOffset + 1 < cfg.maxOffset
    ensures var o := AddEvent(Boundary(cfg, BC.INITIAL), LockingEvent(cfg).p, "", Freerun);
      Sync(o.clock) == Locked && Overall(o.clock) == Freerun && Published(o.sent) == [Freerun]
  {
    EventMoves(Boundary(cfg, BC.INITIAL), LockingEvent(cfg).p, "", Freerun);
  }

  lemma LockingStep(cfg: BC.Config)
    requires cfg.minOffset + 1 < cfg.maxOffset
    ensures WellFormedManager(AddedManager(cfg)) && Enabled(AddedManager(cfg), LockingEvent(cfg))
    ensures Next(AddedManager(cfg), LockingEvent(cfg), LockedManager(cfg))
  {
    var s, ev := AddedManager(cfg), LockingEvent(cfg);
    var o := AddEvent(Boundary(cfg, BC.INITIAL), ev.p, "", Freerun);
    assert Accepts(s, ev) && s.instances[0 := o.clock] == map[0 := o.clock];
    assert s.log + Tagged(0, o.sent) == Tagged(0, o.sent);
  }

  lemma LockedPublished(cfg: BC.Config)
    requires cfg.minOffset + 1 < cfg.maxOffset
    ensures var t := LockedManager(cfg);
      StatesOf(t.log, 0) == [Freerun] && Sync(t.instances[0]) == Locked && Overall(t.instances[0]) == Freerun
  {
    FirstLock(cfg);
    var sent := AddEvent(Boundary(cfg, BC.INITIAL), LockingEvent(cfg).p, "", Freerun).sent;
    StatesOfTagged([], 0, sent, 0);
    assert [] + Tagged(0, sent) == Tagged(0, sent);
  }

  lemma UnsetPublished(cfg: BC.Config, h: nat)
    ensures MessagesOf(UnsetManager(cfg).log, h)
         == MessagesOf(LockedManager(cfg).log, h) + if h == 0 then [SyncState(cfg.name, NotSet)] else []
    ensures StatesOf(UnsetManager(cfg).log, h) == StatesOf(LockedManager(cfg).log, h) + if h == 0 then [NotSet] else []
    ensures LockedManager(cfg).log + [Posted(None, OsClockState("", NotSet, 0))] <= UnsetManager(cfg).log
  {
    var log, os := LockedManager(cfg).log, Posted(None, OsClockState("", NotSet, 0));
    StatesOfSnoc(log, os, h);
    StatesOfSnoc(log + [os], Posted(Some(0), SyncState(cfg.name, NotSet)), h);
    MessagesOfSnoc(log, os, h);
    MessagesOfSnoc(log + [os], Posted(Some(0), SyncState(cfg.name, NotSet)), h);
  }

  lemma UnsettingStep(cfg: BC.Config)
    requires Overall(LockedManager(cfg).instances[0]) == Freerun
    ensures WellFormedManager(LockedManager(cfg)) && Next(LockedManager(cfg), OsSample("", NotSet, 0), UnsetManager(cfg))
  {
    UnsetPublished(cfg, 0);
    assert LockedManager(cfg).clocks["bc"] == 0 && IsRegistered(LockedManager(cfg), 0);
    assert UpdateMessages(LockedManager(cfg).instances[0], NotSet) == [SyncState(cfg.name, NotSet)];
  }

  lemma RunExtended(states: seq<Manager>, events: seq<LoopEvent>, ev: LoopEvent, t: Manager)
    requires IsRun(states, events) && !ev.ResetEvent?
    requires var s := states[|events|]; WellFormedManager(s) && Enabled(s, ev) && Next(s, ev, t)
    ensures IsRun(states + [t], events + [ev])
  {
    var more, all := states + [t], events + [ev];
    forall k | 0 <= k < |all| ensures IsStep(more, all, k) {
      assert k < |events| ==> IsStep(states, events, k);
    }
  }

  /** A run in which one clock publishes FREERUN twice in a row: the OS clock reports NotSet after FREERUN was published. */
  lemma FreerunIsPublishedTwice(cfg: BC.Config) returns (states: seq<Manager>, events: seq<LoopEvent>)
    requires cfg.minOffset + 1 < cfg.maxOffset
    ensures IsRun(states, events) && |events| == 3 && events[2] == OsSample("", NotSet, 0) && 0 in states[3].instances
    ensures var published := StatesOf(states[3].log, 0);
      |published| == 2 && ToIpc(published[0]) == ToIpc(published[1]) == Freerun
  {
    states, events := LockedRun(cfg);
    LockedPublished(cfg);
    UnsettingStep(cfg);
    UnsetPublished(cfg, 0);
    RunExtended(states, events, OsSample("", NotSet, 0), UnsetManager(cfg));
    states, events := states + [UnsetManager(cfg)], events + [OsSample("", NotSet, 0)];
  }

  lemma LockedRun(cfg: BC.Config) returns (states: seq<Manager>, events: seq<LoopEvent>)
    requires cfg.minOffset + 1 < cfg.maxOffset
    ensures IsRun(states, events) && |events| == 2 && states[2] == LockedManager(cfg)
  {
    var adding := LoopEvent.AddClock({"bc"}, 0, Boundary(cfg, BC.INITIAL));
    AddingStep(cfg);
    RunExtended([START], [], adding, AddedManager(cfg));
    LockingStep(cfg);
    RunExtended([START] + [AddedManager(cfg)], [] + [adding], LockingEvent(cfg), LockedManager(cfg));
    states, events := [START] + [AddedManager(cfg)] + [LockedManager(cfg)], [] + [adding] + [LockingEvent(cfg)];
  }

  /** The state of instance `h` changes, and the loop signals nothing. */
  predicate ChangesUnsignalled(s: Manager, t: Manager, h: nat)
    requires h in s.instances
  {
    h in t.instances && Sync(t.instances[h]) != Sync(s.instances[h]) && t.signals == s.signals
  }

  /**
    Over every step of the loop, and for every kind of clock: a clock that is set changes its state without a
    signal if and only if the step is a reset of that very clock in a state other than the one a reset leaves.
   */
  lemma ChangeIsSignalled(s: Manager, ev: LoopEvent, t: Manager, h: nat)
    requires WellFormedManager(s) && Enabled(s, ev) && Next(s, ev, t)
    requires h in s.instances && Sync(s.instances[h]) != NotSet
    ensures ChangesUnsignalled(s, t, h)
      <==> && ev.ResetEvent? && ev.cfgName in s.clocks && s.clocks[ev.cfgName] == h
           && Sync(s.instances[h]) != if s.instances[h].Telecom? then NotSet else Freerun
  {
    match ev
    case Incoming(_, _, _, _) =>
      if Accepts(s, ev) && s.clocks[ev.lookupName] == h {
        IncomingSignals(s, ev, t);
        EventChangeIsSignalled(s, ev, t);
      }
    case _ =>
  }

  /**
    When an event is signalled: for a clock of its own exactly if it was set and its state changed, for a
    composite exactly if it was set and the member's state is now another one than the composite's was.
   */
  lemma IncomingSignals(s: Manager, ev: LoopEvent, t: Manager)
    requires WellFormedManager(s) && ev.Incoming? && Enabled(s, ev) && IncomingStep(s, ev, t) && Accepts(s, ev)
    ensures s.clocks[ev.lookupName] in t.instances
    ensures var before, after := s.instances[s.clocks[ev.lookupName]], t.instances[s.clocks[ev.lookupName]];
      if before.Composite? then
        && after.Composite? && after.ha.members.Keys == before.ha.members.Keys
        && t.signals == s.signals
             + if Sync(before) != NotSet && ev.p.selected.None? && ev.p.cfgName in before.ha.members
                  && after.ha.members[ev.p.cfgName].sync != Sync(before) then 1 else 0
      else t.signals == s.signals + if Sync(before) != NotSet && Sync(after) != Sync(before) then 1 else 0
  {}

  /** An event that changes a state that was set is signalled, although for a composite the loop compares with the member's. */
  lemma EventChangeIsSignalled(s: Manager, ev: LoopEvent, t: Manager)
    requires WellFormedManager(s) && ev.Incoming? && Enabled(s, ev) && IncomingStep(s, ev, t) && Accepts(s, ev)
    ensures var before, after := s.instances[s.clocks[ev.lookupName]], t.instances[s.clocks[ev.lookupName]];
      Sync(before) != NotSet && Sync(after) != Sync(before) ==> t.signals == s.signals + 1
  {
    var c := s.instances[s.clocks[ev.lookupName]];
    IncomingSignals(s, ev, t);
    if c.Composite? && ev.p.selected.None? && ev.p.cfgName in c.ha.members {
      HA.CompositeChangeIsReported(c.name, c.memberCfgs[ev.p.cfgName], c.ha, ev.p.cfgName, ev.p.bc, s.os);
    }
  }

  // ------------------------------------------------------------------ what a consumer hears over a run

  const NEW_VIEW := View(NotSet, BC.CLASS_UNINITIALIZED, NotSet)

  /**
    Who has heard `ms` knows the clock: its state, class and overall state under its name and, of a composite,
    the overall state under its name and state and class of every member under the member's.
   */
  ghost predicate IsKnown(c: Clock, ms: seq<Message>) {
    match c
    case Boundary(cfg, s) => Heard(NEW_VIEW, ms, cfg.name) == View(s.sync, s.clockClass, s.overall)
    case Telecom(profile, s) => Heard(NEW_VIEW, ms, profile) == View(s.sync, s.clockClass, s.overall)
    case Composite(name, cfgs, s) =>
      && Heard(NEW_VIEW, ms, name).overall == s.overall
      && forall m :: m in s.members && HA.KeysAreNames(cfgs) ==> HA.Shows(Heard(NEW_VIEW, ms, m), Heard(NEW_VIEW, ms, name), s, m)
  }

  lemma OwnEventIsKnown(c: Clock, p: Payload, active: string, os: PTPState, ms: seq<Message>)
    requires WellFormed(c) && Readable(p) && IsKnown(c, ms) && !c.Composite?
    ensures var o := AddEvent(c, p, active, os); IsKnown(o.clock, ms + o.sent)
  {
    var o := AddEvent(c, p, active, os);
    match c
    case Boundary(cfg, s) =>
      BC.EventIsHeard(cfg, s, p.bc, os);
      HeardAppend(NEW_VIEW, ms, o.sent, cfg.name);
    case Telecom(profile, s) =>
      TB.EventIsHeard(profile, s, p.tbc, p.now.(os := os));
      HeardAppend(NEW_VIEW, ms, o.sent, profile);
  }

  lemma MemberEventIsKnown(c: Clock, e: HA.HaEffect, from: string, ev: BC.Event, os: PTPState, ms: seq<Message>)
    requires WellFormed(c) && IsKnown(c, ms) && c.Composite? && from in c.ha.members && BC.HasNeededOffset(ev)
    requires e == HA.OnMemberEvent(c.name, c.memberCfgs[from], c.ha, from, ev, os)
    ensures IsKnown(c.(ha := e.next), ms + e.sent)
  {
    HeardAppend(NEW_VIEW, ms, e.sent, c.name);
    HA.CompositeIsHeard(c.name, c.memberCfgs[from], c.ha, from, ev, os, Heard(NEW_VIEW, ms, c.name));
    forall m | m in e.next.members && HA.KeysAreNames(c.memberCfgs)
      ensures HA.Shows(Heard(NEW_VIEW, ms + e.sent, m), Heard(NEW_VIEW, ms + e.sent, c.name), e.next, m)
    {
      HeardAppend(NEW_VIEW, ms, e.sent, m);
      HA.MemberEventIsHeard(c.name, c.memberCfgs[from], c.ha, from, ev, os, Heard(NEW_VIEW, ms, m), Heard(NEW_VIEW, ms, c.name), m);
    }
  }

  lemma EventIsKnown(c: Clock, p: Payload, active: string, os: PTPState, ms: seq<Message>)
    requires WellFormed(c) && Readable(p) && IsKnown(c, ms)
    ensures var o := AddEvent(c, p, active, os); IsKnown(o.clock, ms + o.sent)
  {
    if !c.Composite? {
      OwnEventIsKnown(c, p, active, os, ms);
    } else if p.selected.None? && p.cfgName in c.ha.members {
      MemberEventIsKnown(c, HA.OnMemberEvent(c.name, c.memberCfgs[p.cfgName], c.ha, p.cfgName, p.bc, os), p.cfgName, p.bc, os, ms);
    } else {
      assert ms + [] == ms;
      SelectionIsKnown(c, active, ms);
    }
  }

  lemma SelectionIsKnown(c: Clock, active: string, ms: seq<Message>)
    requires c.Composite? && IsKnown(c, ms)
    ensures IsKnown(c.(ha := c.ha.(activeCfg := active)), ms)
  {
    var d := c.(ha := c.ha.(activeCfg := active));
    forall m | m in d.ha.members && HA.KeysAreNames(d.memberCfgs)
      ensures HA.Shows(Heard(NEW_VIEW, ms, m), Heard(NEW_VIEW, ms, d.name), d.ha, m)
    {
      assert HA.Shows(Heard(NEW_VIEW, ms, m), Heard(NEW_VIEW, ms, c.name), c.ha, m);
    }
  }

  /** A change of the OS clock tells the overall state, under the clock's own name, and nothing about a port or a class. */
  lemma UpdateIsHeard(v: View, c: Clock, os: PTPState, profile: string)
    ensures var h := Heard(v, UpdateMessages(c, os), profile);
      && h.port == v.port && h.clockClass == v.clockClass
      && (profile == PublishedName(c) && v.overall == Overall(c) ==> h.overall == Overall(SystemClockUpdate(c, os)))
  {
    HeardOne(v, SyncState(PublishedName(c), WorstOf(Sync(c), os)), profile);
  }

  lemma UpdateIsKnown(c: Clock, os: PTPState, ms: seq<Message>)
    requires IsKnown(c, ms)
    ensures IsKnown(SystemClockUpdate(c, os), ms + UpdateMessages(c, os))
  {
    var sent, d := UpdateMessages(c, os), SystemClockUpdate(c, os);
    HeardAppend(NEW_VIEW, ms, sent, PublishedName(c));
    UpdateIsHeard(Heard(NEW_VIEW, ms, PublishedName(c)), c, os, PublishedName(c));
    if c.Composite? {
      forall m | m in d.ha.members && HA.KeysAreNames(d.memberCfgs)
        ensures HA.Shows(Heard(NEW_VIEW, ms + sent, m), Heard(NEW_VIEW, ms + sent, d.name), d.ha, m)
      {
        assert HA.Shows(Heard(NEW_VIEW, ms, m), Heard(NEW_VIEW, ms, c.name), c.ha, m);
        HeardAppend(NEW_VIEW, ms, sent, m);
        UpdateIsHeard(Heard(NEW_VIEW, ms, m), c, os, m);
      }
    }
  }

  ghost predicate AllKnown(s: Manager) {
    forall h :: h in s.instances ==> IsKnown(s.instances[h], MessagesOf(s.log, h))
  }

  lemma {:induction false} UnmentionedSaysNothing(log: seq<Posted>, h: nat)
    requires forall k :: 0 <= k < |log| ==> log[k].from != Some(h)
    ensures MessagesOf(log, h) == []
  {
    if log != [] {
      UnmentionedSaysNothing(log[..|log| - 1], h);
    }
  }

  lemma NewIsKnown(c: Clock)
    requires IsNew(c)
    ensures IsKnown(c, [])
  {}

  lemma IncomingKeepsKnown(s: Manager, ev: LoopEvent, t: Manager)
    requires WellFormedManager(s) && AllKnown(s) && ev.Incoming? && Enabled(s, ev) && IncomingStep(s, ev, t) && Accepts(s, ev)
    ensures AllKnown(t)
  {
    var h := s.clocks[ev.lookupName];
    var o := AddEvent(s.instances[h], ev.p, ev.active, s.os);
    EventIsKnown(s.instances[h], ev.p, ev.active, s.os, MessagesOf(s.log, h));
    forall g | g in t.instances ensures IsKnown(t.instances[g], MessagesOf(t.log, g)) {
      MessagesOfTagged(s.log, h, o.sent, g);
      if g != h {
        assert MessagesOf(s.log, g) + [] == MessagesOf(s.log, g);
      }
    }
  }

  lemma OsKeepsKnown(s: Manager, ev: LoopEvent, t: Manager)
    requires WellFormedManager(s) && AllKnown(s) && ev.OsSample? && OsStep(s, ev, t) && s.os != ev.state
    ensures AllKnown(t)
  {
    forall h | h in t.instances ensures IsKnown(t.instances[h], MessagesOf(t.log, h)) {
      if IsRegistered(s, h) {
        UpdateIsKnown(s.instances[h], ev.state, MessagesOf(s.log, h));
      } else {
        assert MessagesOf(s.log, h) + [] == MessagesOf(s.log, h);
      }
    }
  }

  lemma StepKeepsKnown(s: Manager, ev: LoopEvent, t: Manager, osSet: bool)
    requires Inv(s, osSet) && AllKnown(s) && Enabled(s, ev) && Next(s, ev, t) && !ev.ResetEvent?
    ensures AllKnown(t)
  {
    match ev
    case Incoming(_, _, _, _) =>
      if Accepts(s, ev) { IncomingKeepsKnown(s, ev, t); }
    case OsSample(_, _, _) =>
      if s.os != ev.state { OsKeepsKnown(s, ev, t); }
    case AddClock(_, h, c) =>
      UnmentionedSaysNothing(s.log, h);
      NewIsKnown(c);
    case RemoveAllClocks =>
  }

  /**
    Over every run without a reset, whatever clocks there are: who has listened from the start knows the state,
    the class and the overall state of every clock, and of every member of a composite.
   */
  lemma {:induction false} ConsumerKnowsEveryClock(states: seq<Manager>, events: seq<LoopEvent>, n: nat)
    requires IsRun(states, events) && n < |states|
    ensures AllKnown(states[n])
  {
    if n > 0 {
      ConsumerKnowsEveryClock(states, events, n - 1);
      RunStepKeepsKnown(states, events, n - 1, states[n - 1], events[n - 1], states[n]);
    }
  }

  lemma RunStepKeepsKnown(states: seq<Manager>, events: seq<LoopEvent>, k: nat, s: Manager, ev: LoopEvent, t: Manager)
    requires IsRun(states, events) && k < |events| && s == states[k] && ev == events[k] && t == states[k + 1] && AllKnown(s)
    ensures AllKnown(t)
  {
    RunKeepsInv(states, events, k);
    assert IsStep(states, events, k);
    StepKeepsKnown(s, ev, t, OsAlwaysSet(events));
  }

  /** The OS clock state that was published last; before any, the one the manager starts with. */
  ghost function LastOsState(log: seq<Posted>): PTPState {
    if log == [] then Freerun
    else
      var last := log[|log| - 1];
      if last.from.None? && last.msg.OsClockState? then last.msg.state else LastOsState(log[..|log| - 1])
  }

  lemma {:induction false} ClocksSayNothingOfOs(log: seq<Posted>, more: seq<Posted>)
    requires log <= more && forall k :: |log| <= k < |more| ==> more[k].from.Some?
    ensures LastOsState(more) == LastOsState(log)
    decreases |more|
  {
    if |more| > |log| {
      ClocksSayNothingOfOs(log, more[..|more| - 1]);
    } else {
      assert more == log;
    }
  }

  /**
    Who knew the OS clock's state before a step knows it after, unless the step sets the OS clock to Freerun
    silently: a reset of a clock, or the removal of all, while the OS clock is in another state.
   */
  lemma OsStateIsKnownExactly(s: Manager, ev: LoopEvent, t: Manager)
    requires WellFormedManager(s) && Enabled(s, ev) && Next(s, ev, t) && LastOsState(s.log) == s.os
    ensures LastOsState(t.log) == t.os
      <==> !((ev.RemoveAllClocks? || (ev.ResetEvent? && ev.cfgName in s.clocks)) && s.os != Freerun)
  {
    match ev
    case Incoming(_, _, _, _) =>
      if Accepts(s, ev) {
        var h := s.clocks[ev.lookupName];
        TaggedIsFrom(h, AddEvent(s.instances[h], ev.p, ev.active, s.os).sent);
        ClocksSayNothingOfOs(s.log, t.log);
      }
    case OsSample(_, _, _) =>
      if s.os != ev.state {
        var told := s.log + [Posted(None, OsClockState(ev.iface, ev.state, ev.offset))];
        ClocksSayNothingOfOs(told, t.log);
      }
    case _ =>
  }

  // ------------------------------------------------------------------ where the guarantee ends

  /** A reset clock agrees with the OS clock it has just reset, unless it is a Telecom boundary clock. */
  lemma ResetClockAgreesExactly(c: Clock, nextToken: nat)
    ensures Agrees(ClockReset(c, nextToken), Freerun) <==> !c.Telecom?
  {}

  /**
    A reset sets the shared OS clock to Freerun without telling the other clocks: exactly which of
    them still agree depends on their state and on the OS clock before.
   */
  lemma OtherClockAgreesExactly(d: Clock, os: PTPState)
    requires Agrees(d, os) && OnChain(Sync(d))
    ensures Agrees(d, Freerun) <==> Sync(d) == NotSet || os == Freerun || (Sync(d) == Freerun && os != NotSet)
  {}

  // ------------------------------------------------------------------ the manager itself

  lemma UpdateIsIdempotent(c: Clock, os: PTPState)
    ensures SystemClockUpdate(SystemClockUpdate(c, os), os) == SystemClockUpdate(c, os)
    ensures UpdateMessages(SystemClockUpdate(c, os), os) == []
  {
    if c.Composite? {
      var once := HA.OnHaSystemClock(c.ha, os);
      assert HA.OnHaSystemClock(once, os).members == once.members;
    }
  }

  /** From `log` to `more`, exactly the instances in `hs` have published their change to `os`, and nothing else was posted. */
  ghost predicate Posts(s: Manager, hs: set<nat>, more: seq<Posted>, os: PTPState) {
    && s.log <= more
    && (forall k :: |s.log| <= k < |more| ==> more[k].msg.SyncState? && more[k].from.Some? && more[k].from.value in hs)
    && (forall h :: h in s.instances ==>
          MessagesOf(more, h) == MessagesOf(s.log, h) + if h in hs then UpdateMessages(s.instances[h], os) else [])
  }

  function Updated(s: Manager, hs: set<nat>, os: PTPState): map<nat, Clock> {
    map h | h in s.instances :: if h in hs then SystemClockUpdate(s.instances[h], os) else s.instances[h]
  }

  /** One more update: a second update of the same instance changes nothing. */
  lemma OneMoreUpdate(s: Manager, hs: set<nat>, h: nat, os: PTPState)
    requires h in s.instances
    ensures Updated(s, hs, os)[h := SystemClockUpdate(Updated(s, hs, os)[h], os)] == Updated(s, hs + {h}, os)
    ensures (if h in hs then [] else UpdateMessages(s.instances[h], os)) == UpdateMessages(Updated(s, hs, os)[h], os)
  {
    UpdateIsIdempotent(s.instances[h], os);
  }

  /** One more update: a second update of the same instance posts nothing. */
  lemma OneMorePost(s: Manager, hs: set<nat>, log: seq<Posted>, h: nat, more: seq<Posted>, os: PTPState, posted: seq<Message>)
    requires Posts(s, hs, log, os) && h in s.instances
    requires posted == if h in hs then [] else UpdateMessages(s.instances[h], os)
    requires log <= more && forall k :: |log| <= k < |more| ==> more[k].msg.SyncState? && more[k].from == Some(h)
    requires forall g :: g in s.instances ==> MessagesOf(more, g) == MessagesOf(log, g) + if g == h then posted else []
    ensures Posts(s, hs + {h}, more, os)
  {
    forall k | |s.log| <= k < |more| ensures more[k].msg.SyncState? && more[k].from.Some? && more[k].from.value in hs + {h} {
      if k < |log| {
        assert more[k] == log[k];
      }
    }
    forall g | g in s.instances
      ensures MessagesOf(more, g) == MessagesOf(s.log, g) + if g in hs + {h} then UpdateMessages(s.instances[g], os) else []
    {
      if g != h {
        assert MessagesOf(more, g) == MessagesOf(log, g) + [] == MessagesOf(log, g);
      }
    }
  }

  lemma OsStepBySteps(s: Manager, ev: LoopEvent, m: Manager, t: Manager)
    requires WellFormedManager(s) && ev.OsSample? && s.os != ev.state
    requires m == s.(os := ev.state, signals := s.signals + 1,
                     log := s.log + [Posted(None, OsClockState(ev.iface, ev.state, ev.offset))])
    requires t == m.(instances := Updated(m, Visited(s.clocks, {}), ev.state), log := t.log)
    requires Posts(m, Visited(s.clocks, {}), t.log, ev.state)
    ensures OsStep(s, ev, t)
  {
    assert forall h :: h in Visited(s.clocks, {}) <==> IsRegistered(s, h);
    forall h | h in s.instances ensures MessagesOf(m.log, h) == MessagesOf(s.log, h) {
      MessagesOfSnoc(s.log, Posted(None, OsClockState(ev.iface, ev.state, ev.offset)), h);
    }
  }

  /** The instances registered under the names that are not in `left`. */
  function Visited(clocks: map<string, nat>, left: set<string>): set<nat> {
    set name | name in clocks && name !in left :: clocks[name]
  }

  lemma OneMoreVisited(clocks: map<string, nat>, left: set<string>, name: string) returns (hs: set<nat>)
    requires name in left && name in clocks
    ensures hs == Visited(clocks, left - {name}) == Visited(clocks, left) + {clocks[name]}
  {
    hs := Visited(clocks, left - {name});
  }

  class ClockManager {
    var clocks: map<string, nat>
    var instances: map<nat, Clock>
    var osState: PTPState
    var log: seq<Posted>
    var signals: nat

    function State(): Manager
      reads this
    {
      Manager(clocks, instances, osState, log, signals)
    }

    constructor ()
      ensures State() == START
    {
      clocks, instances, osState, log, signals := map[], map[], Freerun, [], 0;
    }

    method HandleOSClockEvent(iface: string, state: PTPState, offset: int)
      requires WellFormedManager(State())
      modifies this
      ensures OsStep(old(State()), OsSample(iface, state, offset), State())
    {
      if osState == state {
        return;
      }
      osState := state;
      signals := signals + 1;
      log := log + [Posted(None, OsClockState(iface, state, offset))];
      ghost var s := State();
      FanOut(state);
      OsStepBySteps(old(State()), OsSample(iface, state, offset), s, State());
    }

    /** `for _, clk := range m.clocks`: one update per name, in any order. */
    method FanOut(state: PTPState)
      requires WellFormedManager(State())
      modifies this`instances, this`log
      ensures instances == Updated(old(State()), Visited(clocks, {}), state)
      ensures Posts(old(State()), Visited(clocks, {}), log, state)
    {
      var left := clocks.Keys;
      ghost var s, hs := State(), Visited(clocks, left);
      while left != {}
        invariant left <= clocks.Keys && hs == Visited(clocks, left)
        invariant instances == Updated(s, hs, state) && Posts(s, hs, log, state)
        decreases left
      {
        var name :| name in left;
        UpdateNext(s, hs, clocks[name], state);
        hs := OneMoreVisited(clocks, left, name);
        left := left - {name};
      }
    }

    method UpdateNext(ghost s: Manager, ghost hs: set<nat>, h: nat, state: PTPState)
      requires h in s.instances && instances == Updated(s, hs, state) && Posts(s, hs, log, state)
      modifies this`instances, this`log
      ensures instances == Updated(s, hs + {h}, state) && Posts(s, hs + {h}, log, state)
    {
      ghost var seen, posted := log, UpdateMessages(instances[h], state);
      OneMoreUpdate(s, hs, h, state);
      UpdateOne(h, state);
      OneMorePost(s, hs, seen, h, log, state, posted);
    }

    method UpdateOne(h: nat, state: PTPState)
      requires h in instances
      modifies this`instances, this`log
      ensures instances == old(instances)[h := SystemClockUpdate(old(instances)[h], state)]
      ensures old(log) <= log
      ensures forall k :: |old(log)| <= k < |log| ==> log[k].msg.SyncState? && log[k].from == Some(h)
      ensures forall g :: MessagesOf(log, g) == MessagesOf(old(log), g) + if g == h then UpdateMessages(old(instances)[h], state) else []
    {
      var c := instances[h];
      var next := WorstOf(Sync(c), state);
      if next != Overall(c) {
        log := log + [Posted(Some(h), SyncState(PublishedName(c), next))];
        forall g ensures MessagesOf(log, g) == MessagesOf(old(log), g) + if g == h then [SyncState(PublishedName(c), next)] else [] {
          MessagesOfSnoc(old(log), Posted(Some(h), SyncState(PublishedName(c), next)), g);
        }
      }
      instances := instances[h := SystemClockUpdate(c, state)];
    }

    /** One turn of the loop for an event that is for a clock. */
    method ProcessEvent(ev: LoopEvent)
      requires WellFormedManager(State()) && ev.Incoming? && Enabled(State(), ev)
      requires Accepts(State(), ev) ==>
        var c := instances[clocks[ev.lookupName]];
        WellFormed(c) && (c.Composite? && ev.p.selected.Some? ==> HA.SelectionAllows(c.ha, ev.p.selected.value, ev.active))
      modifies this
      ensures IncomingStep(old(State()), ev, State())
    {
      if ev.lookupName !in clocks {
        return;
      }
      var h := clocks[ev.lookupName];
      var c := instances[h];
      if c.Telecom? && ev.applying {
        return;
      }
      var prev := Sync(c);
      var o := AddEvent(c, ev.p, ev.active, osState);
      instances, log := instances[h := o.clock], log + Tagged(h, o.sent);
      if prev != NotSet && prev != o.reported {
        signals := signals + 1;
      }
    }

    method AddClock(names: set<string>, h: nat, c: Clock)
      requires WellFormedManager(State()) && Enabled(State(), LoopEvent.AddClock(names, h, c))
      modifies this
      ensures Next(old(State()), LoopEvent.AddClock(names, h, c), State())
    {
      instances := instances[h := c];
      Register(names, h);
    }

    method Register(names: set<string>, h: nat)
      modifies this`clocks
      ensures clocks == map name | name in old(clocks).Keys + names :: if name in names then h else old(clocks)[name]
    {
      var left := names;
      while left != {}
        invariant left <= names
        invariant clocks == map name | name in old(clocks).Keys + (names - left) ::
          if name in names - left then h else old(clocks)[name]
        decreases left
      {
        var name :| name in left;
        left, clocks := left - {name}, clocks[name := h];
      }
      assert names - left == names;
    }

    method Reset(cfgName: string, nextToken: nat)
      requires WellFormedManager(State())
      modifies this
      ensures Next(old(State()), ResetEvent(cfgName, nextToken), State())
    {
      if cfgName in clocks {
        var h := clocks[cfgName];
        instances := instances[h := ClockReset(instances[h], nextToken)];
        osState := Freerun;
      }
    }

    method RemoveAllClocks()
      modifies this
      ensures State() == old(State()).(clocks := map[], os := Freerun)
    {
      osState := Freerun;
      clocks := map[];
    }
  }
}
