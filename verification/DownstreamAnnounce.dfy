/**
  Any number of Telecom Boundary Clocks on one event loop, beside the PMC fetches they have started.
  A fetch may take any time, fail, or complete after its clock was reset or replaced; its result is
  routed by config name, to whichever clock is registered under that name when it arrives.

  A log records what happened to every clock. It is history only: no step looks at it.
 */
module DownstreamAnnounce {
  import opened Options
  import opened SyncStates
  import opened TelecomClock

  datatype Entry =
    | Created(inst: nat, token: nat)
    | WasReset(inst: nat, token: nat)
    | Handled(inst: nat,
              parentChanged: bool,       // the upstream parent dataset changed
              evaluated: Option<bool>,   // the outcome of the in-sync range check, if it was made
              entered: bool,             // Locked was entered,
              asTtsc: bool,              //   as a T-TSC,
              times: int,                //   with this inSyncConditionTimes
              left: bool,                // Locked was left
              requested: Option<nat>,    // the token of the fetch started
              applied: Option<nat>,      // the token of the fetch result applied
              announced: Option<Announcement>)   // what the downstream ports were told

  datatype Result = Result(cfgName: string, parent: ParentDataSet, time: TimeProperties, steps: nat)

  datatype Instance = Instance(cfgName: string, clock: TbcState)

  datatype System = System(
    clocks: seq<Instance>,        // every clock ever created, registered or not
    names: map<string, nat>,      // the clocks registered with the clock manager, by config name
    lastToken: nat,
    inFlight: map<nat, string>,   // fetches under way: token to config name
    queue: map<nat, Result>,      // results posted to the loop and not yet handled
    log: seq<Entry>)

  datatype Label =
    | Add(cfgName: string, aliases: set<string>, configuredLeading: string)
    | RemoveAll
    | Handle(cfgName: string, ev: Event, readings: Readings, os: PTPState, utcOffset: int)
    | Complete(token: nat, parent: ParentDataSet, time: TimeProperties, steps: nat)
    | Fail(token: nat)
    | Deliver(token: nat)   // a result reaches the clock registered under its config name
    | Drop(token: nat)      // no clock is registered under it, or profiles are being applied
    | ResetClock(cfgName: string)

  predicate Enabled(s: System, l: Label) {
    match l
    case Add(_, _, _) => true
    case RemoveAll => true
    case Handle(cfgName, ev, _, _, _) => cfgName in s.names && !ev.Fetched?
    case Complete(token, _, _, _) => token in s.inFlight
    case Fail(token) => token in s.inFlight
    case Deliver(token) => token in s.queue && s.queue[token].cfgName in s.names
    case Drop(token) => token in s.queue
    case ResetClock(cfgName) => cfgName in s.names
  }

  function Record(i: nat, before: TbcState, ev: Event, e: Effect): Entry {
    Handled(i, ev.ParentDs? && ev.parent != before.params.upstreamParent, e.evaluated,
            before.sync != Locked && e.next.sync == Locked, IsTtsc(e.next), e.next.params.inSyncTimes,
            before.sync == Locked && e.next.sync != Locked, e.request, e.applied, e.announced)
  }

  /** Instance `i` handles `ev`. */
  function Handling(s: System, i: nat, ev: Event, now: Moment): System
    requires i < |s.clocks|
  {
    Affected(s, i, ev, OnEvent(s.clocks[i].cfgName, s.clocks[i].clock, ev, now))
  }

  /** What the effect on instance `i` comes to; a request starts a fetch under the clock's own config name. */
  function Affected(s: System, i: nat, ev: Event, e: Effect): System
    requires i < |s.clocks|
  {
    var inst := s.clocks[i];
    s.(clocks := s.clocks[i := inst.(clock := e.next)],
       lastToken := if e.request.Some? then s.lastToken + 1 else s.lastToken,
       inFlight := if e.request.Some? then s.inFlight[e.request.value := inst.cfgName] else s.inFlight,
       log := s.log + [Record(i, inst.clock, ev, e)])
  }

  predicate Registered(s: System) {
    forall name :: name in s.names ==> s.names[name] < |s.clocks|
  }

  function Next(s: System, l: Label): System
    requires Registered(s) && Enabled(s, l)
  {
    match l
    case Add(cfgName, aliases, configuredLeading) =>
      var i, token := |s.clocks|, s.lastToken + 1;
      s.(clocks := s.clocks + [Instance(cfgName, NewTbc(configuredLeading, token))],
         names := map name | name in s.names.Keys + aliases + {cfgName} ::
           if name in aliases + {cfgName} then i else s.names[name],
         lastToken := token, log := s.log + [Created(i, token)])
    case RemoveAll => s.(names := map[])
    case Handle(cfgName, ev, readings, os, utcOffset) =>
      Handling(s, s.names[cfgName], ev, Moment(readings, os, utcOffset, s.lastToken + 1))
    case Complete(token, parent, time, steps) =>
      s.(inFlight := s.inFlight - {token}, queue := s.queue[token := Result(s.inFlight[token], parent, time, steps)])
    case Fail(token) => s.(inFlight := s.inFlight - {token})
    case Deliver(token) =>
      var r, i := s.queue[token], s.names[s.queue[token].cfgName];
      var ev := Fetched(r.parent, r.time, r.steps, token);
      Affected(s.(queue := s.queue - {token}), i, ev, ApplyFetched(s.clocks[i].clock, ev))
    case Drop(token) => s.(queue := s.queue - {token})
    case ResetClock(cfgName) =>
      var i, token := s.names[cfgName], s.lastToken + 1;
      s.(clocks := s.clocks[i := s.clocks[i].(clock := OnReset(s.clocks[i].clock, token))],
         lastToken := token, log := s.log + [WasReset(i, token)])
  }

  const START := System([], map[], 0, map[], map[], [])

  // ------------------------------------------------------------------ reading the log

  function TokenTaken(e: Entry): Option<nat> {
    if e.Handled? then e.requested else Some(e.token)
  }

  /** The last thing that concerns instance `i`'s token is its request for `t`, not yet applied. */
  ghost predicate Awaiting(log: seq<Entry>, i: nat, t: nat) {
    log != [] &&
    var e, rest := log[|log| - 1], log[..|log| - 1];
    if e.inst == i && TokenTaken(e).Some? then e.Handled? && TokenTaken(e).value == t
    else !(e.inst == i && e.Handled? && e.applied.Some?) && Awaiting(rest, i, t)
  }

  /** As above, and the clock has not left Locked since that request. */
  ghost predicate AwaitingHere(log: seq<Entry>, i: nat, t: nat) {
    log != [] &&
    var e, rest := log[|log| - 1], log[..|log| - 1];
    if e.inst == i && TokenTaken(e).Some? then e.Handled? && TokenTaken(e).value == t
    else !(e.inst == i && e.Handled? && (e.applied.Some? || e.left)) && AwaitingHere(rest, i, t)
  }

  /** How many in-sync evaluations of instance `i` in a row were in range, up to the end of the log. */
  ghost function InRangeStreak(log: seq<Entry>, i: nat): nat {
    if log == [] then 0
    else
      var e, rest := log[|log| - 1], log[..|log| - 1];
      if e.inst != i then InRangeStreak(rest, i)
      else if !e.Handled? then 0
      else CounterAfter(InRangeStreak(rest, i), e.evaluated)
  }

  function CounterAfter(counter: nat, evaluated: Option<bool>): nat {
    match evaluated
    case None => counter
    case Some(inRange) => if inRange then counter + 1 else 0
  }

  /** Requests made by instance `i`, less its entries to Locked and its changes of parent dataset. */
  ghost function RequestBalance(log: seq<Entry>, i: nat): int {
    if log == [] then 0
    else
      var e, rest := log[|log| - 1], log[..|log| - 1];
      RequestBalance(rest, i) + if e.inst == i then BalanceOf(e) else 0
  }

  function BalanceOf(e: Entry): int {
    if !e.Handled? then 0
    else (if e.requested.Some? then 1 else 0) - (if e.entered then 1 else 0) - (if e.parentChanged then 1 else 0)
  }

  predicate TtscEntered(log: seq<Entry>, i: nat) {
    exists k :: 0 <= k < |log| && log[k].inst == i && log[k].Handled? && log[k].entered && log[k].asTtsc
  }

  predicate TokensBelow(log: seq<Entry>, t: nat) {
    forall k :: 0 <= k < |log| && TokenTaken(log[k]).Some? ==> TokenTaken(log[k]).value < t
  }

  /** What every entry of a log says about the log before it. */
  ghost predicate EntryOk(before: seq<Entry>, e: Entry) {
    && (TokenTaken(e).Some? ==> TokensBelow(before, TokenTaken(e).value))
    && (e.Handled? && e.applied.Some? ==> Awaiting(before, e.inst, e.applied.value))
    && (e.Handled? && e.applied.Some? && !TtscEntered(before, e.inst) ==> AwaitingHere(before, e.inst, e.applied.value))
    && (e.Handled? && e.entered ==>
          var streak := CounterAfter(InRangeStreak(before, e.inst), e.evaluated);
          streak >= 1 && streak >= e.times)
  }

  ghost predicate LogOk(log: seq<Entry>) {
    forall k :: 0 <= k < |log| ==> EntryOk(log[..k], log[k])
  }

  lemma AppendOk(log: seq<Entry>, e: Entry)
    requires LogOk(log) && EntryOk(log, e)
    ensures LogOk(log + [e])
  {
    var l := log + [e];
    forall k | 0 <= k < |l| ensures EntryOk(l[..k], l[k]) {
      if k < |log| {
        assert l[..k] == log[..k];
      } else {
        assert l[..k] == log;
      }
    }
  }

  /** An entry of another instance changes none of the readings. */
  lemma OtherEntry(log: seq<Entry>, e: Entry, i: nat, t: nat)
    requires e.inst != i
    ensures Awaiting(log + [e], i, t) == Awaiting(log, i, t) && AwaitingHere(log + [e], i, t) == AwaitingHere(log, i, t)
    ensures InRangeStreak(log + [e], i) == InRangeStreak(log, i) && RequestBalance(log + [e], i) == RequestBalance(log, i)
    ensures TtscEntered(log + [e], i) == TtscEntered(log, i)
  {
    var l := log + [e];
    assert l[..|l| - 1] == log && l[|l| - 1] == e;
    assert forall k :: 0 <= k < |log| ==> l[k] == log[k];
  }

  lemma OwnEntry(log: seq<Entry>, e: Entry, t: nat)
    ensures var l := log + [e];
      && (e.Handled? && e.requested.None? && e.applied.None? ==>
            && (Awaiting(log, e.inst, t) ==> Awaiting(l, e.inst, t))
            && (AwaitingHere(log, e.inst, t) && !e.left ==> AwaitingHere(l, e.inst, t)))
      && (e.Handled? && e.requested == Some(t) ==> Awaiting(l, e.inst, t) && AwaitingHere(l, e.inst, t))
      && InRangeStreak(l, e.inst) == (if e.Handled? then CounterAfter(InRangeStreak(log, e.inst), e.evaluated) else 0)
      && RequestBalance(l, e.inst) == RequestBalance(log, e.inst) + BalanceOf(e)
      && (TtscEntered(l, e.inst) <==> TtscEntered(log, e.inst) || (e.Handled? && e.entered && e.asTtsc))
  {
    var l := log + [e];
    assert l[..|l| - 1] == log && l[|l| - 1] == e;
    assert forall k :: 0 <= k < |log| ==> l[k] == log[k];
  }

  // ------------------------------------------------------------------ what one evaluation does

  function Debt(c: TbcState): nat {
    if c.params.upstreamParent != c.params.downstreamParent then 1 else 0
  }

  /** From `s` to `t`, with a request for the downstream ports or not, after an in-sync evaluation or none. */
  ghost predicate Moves(s: TbcState, t: TbcState, requested: bool, evaluated: Option<bool>) {
    && Good(t)
    && (requested ==> t.sync == Locked && !IsTtsc(t))
    && ((s.sync == Freerun || s.sync == Holdover) && t.sync == Locked && !IsTtsc(t) ==> requested)
    && (t.sync == NotSet ==> s.sync == NotSet)
    && t.params.inSyncCounter == CounterAfter(s.params.inSyncCounter, evaluated)
    && (s.sync != Locked && t.sync == Locked ==> evaluated == Some(true) && t.params.inSyncCounter >= t.params.inSyncTimes)
    && (if requested then 1 else 0) + Debt(t) <= (if s.sync != Locked && t.sync == Locked then 1 else 0) + Debt(s)
  }

  ghost predicate DecisionMoves(s: TbcState, d: Decision) {
    Moves(s, d.next, d.update && d.next.sync == Locked, d.evaluated) && d.next.announceToken == s.announceToken
  }

  lemma UpdateMoves(s: TbcState, r: Readings)
    requires Good(s)
    ensures DecisionMoves(s, UpdateState(s, r))
  {
    UpdateKeepsGood(s, r);
    match s.sync
    case Locked => UpdateMovesFromLocked(s, r);
    case Holdover => UpdateMovesFromHoldover(s, r);
    case _ =>
  }

  lemma UpdateMovesFromLocked(s: TbcState, r: Readings)
    requires Good(s) && s.sync == Locked && Good(UpdateState(s, r).next)
    ensures DecisionMoves(s, UpdateState(s, r))
  {}

  lemma UpdateMovesFromHoldover(s: TbcState, r: Readings)
    requires Good(s) && s.sync == Holdover && Good(UpdateState(s, r).next)
    ensures DecisionMoves(s, UpdateState(s, r))
  {}

  lemma EvaluateMoves(profile: string, s: TbcState, now: Moment)
    requires Good(s)
    ensures var e := Evaluate(profile, s, now);
      && Moves(s, e.next, e.request.Some?, e.evaluated) && e.applied.None?
      && (e.request.Some? ==> e.request.value == now.nextToken == e.next.announceToken)
      && (e.request.None? ==> e.next.announceToken == s.announceToken)
  {
    UpdateMoves(s, now.readings);
  }

  /** The same for a whole event, which may itself change the upstream parent dataset. */
  ghost predicate EventEffect(s: TbcState, ev: Event, e: Effect, nextToken: nat) {
    && Good(e.next) && e.applied.None?
    && (e.request.Some? ==> e.request.value == nextToken == e.next.announceToken && e.next.sync == Locked && !IsTtsc(e.next))
    && (e.request.None? ==> e.next.announceToken == s.announceToken)
    && ((s.sync == Freerun || s.sync == Holdover) && e.next.sync == Locked && !IsTtsc(e.next) ==> e.request.Some?)
    && (e.next.sync == NotSet ==> s.sync == NotSet)
    && e.next.params.inSyncCounter == CounterAfter(s.params.inSyncCounter, e.evaluated)
    && (s.sync != Locked && e.next.sync == Locked ==>
          e.evaluated == Some(true) && e.next.params.inSyncCounter >= e.next.params.inSyncTimes)
    && Debt(e.next) + BalanceOf(Record(0, s, ev, e)) <= Debt(s)
  }

  lemma EventMoves(profile: string, s: TbcState, ev: Event, now: Moment)
    requires Good(s) && !ev.Fetched?
    ensures EventEffect(s, ev, OnEvent(profile, s, ev, now), now.nextToken)
  {
    match ev
    case ParentDs(parent) => ParentMoves(profile, s, parent, now);
    case ProcessReport(report) => ReportMoves(profile, s, report, now);
    case _ =>
  }

  /** `u` is the clock as it is when the event's evaluation starts. */
  lemma EffectFromMoves(s: TbcState, u: TbcState, ev: Event, e: Effect, nextToken: nat)
    requires u.sync == s.sync && u.announceToken == s.announceToken && u.params.inSyncCounter == s.params.inSyncCounter
    requires Debt(u) <= Debt(s) + (if ev.ParentDs? && ev.parent != s.params.upstreamParent then 1 else 0)
    requires Moves(u, e.next, e.request.Some?, e.evaluated) && e.applied.None?
    requires e.request.Some? ==> e.request.value == nextToken == e.next.announceToken
    requires e.request.None? ==> e.next.announceToken == u.announceToken
    ensures EventEffect(s, ev, e, nextToken)
  {}

  lemma ParentMoves(profile: string, s: TbcState, parent: ParentDataSet, now: Moment)
    requires Good(s)
    ensures EventEffect(s, ParentDs(parent), OnEvent(profile, s, ParentDs(parent), now), now.nextToken)
  {
    var u := s.(params := s.params.(upstreamParent := parent));
    EvaluateMoves(profile, u, now);
    EffectFromMoves(s, u, ParentDs(parent), Evaluate(profile, u, now), now.nextToken);
  }

  lemma ConfiguredKeeps(s: TbcState, report: Report)
    requires Good(s)
    ensures var u := Configured(s.(hasData := true), report);
      && Good(u) && u.sync == s.sync && u.announceToken == s.announceToken
      && u.params.inSyncCounter == s.params.inSyncCounter && Debt(u) == Debt(s)
  {}

  lemma ReportMoves(profile: string, s: TbcState, report: Report, now: Moment)
    requires Good(s)
    ensures EventEffect(s, ProcessReport(report), OnEvent(profile, s, ProcessReport(report), now), now.nextToken)
  {
    var u := Configured(s.(hasData := true), report);
    ConfiguredKeeps(s, report);
    EvaluateMoves(profile, u, now);
    EffectFromMoves(s, u, ProcessReport(report), Evaluate(profile, u, now), now.nextToken);
  }

  // ------------------------------------------------------------------ the invariant

  ghost predicate InstanceOk(log: seq<Entry>, i: nat, c: TbcState, pending: set<nat>, last: nat) {
    && Good(c)
    && c.announceToken <= last
    && (c.announceToken in pending ==> c.sync != NotSet && Awaiting(log, i, c.announceToken))
    && (c.announceToken in pending && c.sync == Locked && !TtscEntered(log, i) ==> AwaitingHere(log, i, c.announceToken))
    && c.params.inSyncCounter == InRangeStreak(log, i)
    && RequestBalance(log, i) + Debt(c) <= 0
  }

  ghost predicate Inv(s: System) {
    && Registered(s)
    && LogOk(s.log) && TokensBelow(s.log, s.lastToken + 1)
    && (forall t :: t in Pending(s) ==> t <= s.lastToken)
    && s.inFlight.Keys !! s.queue.Keys
    && (forall i :: 0 <= i < |s.clocks| ==> InstanceOk(s.log, i, s.clocks[i].clock, Pending(s), s.lastToken))
    && (forall k :: 0 <= k < |s.log| ==> s.log[k].inst < |s.clocks|)
  }

  function Pending(s: System): set<nat> {
    s.inFlight.Keys + s.queue.Keys
  }

  /** The instances other than the one an entry is about are not affected by it, nor by tokens handed out since. */
  lemma OthersKeep(s: System, t: System, e: Entry)
    requires Inv(s) && t.log == s.log + [e] && |t.clocks| >= |s.clocks| && s.lastToken <= t.lastToken
    requires forall j :: 0 <= j < |s.clocks| && j != e.inst ==> t.clocks[j] == s.clocks[j]
    requires forall token :: token in Pending(t) && token <= s.lastToken ==> token in Pending(s)
    ensures forall j :: 0 <= j < |s.clocks| && j != e.inst ==> InstanceOk(t.log, j, t.clocks[j].clock, Pending(t), t.lastToken)
  {
    forall j | 0 <= j < |s.clocks| && j != e.inst
      ensures InstanceOk(t.log, j, t.clocks[j].clock, Pending(t), t.lastToken)
    {
      OtherEntry(s.log, e, j, s.clocks[j].clock.announceToken);
    }
  }

  lemma {:induction false} UnmentionedBalance(log: seq<Entry>, i: nat)
    requires forall k :: 0 <= k < |log| ==> log[k].inst != i
    ensures RequestBalance(log, i) == 0
  {
    if log != [] {
      UnmentionedBalance(log[..|log| - 1], i);
    }
  }

  /** An instance that had effect `e` on an event from outside, with the entry it leaves in the log. */
  lemma EffectKeepsInstance(log: seq<Entry>, i: nat, c: TbcState, ev: Event, e: Effect, p: set<nat>, last: nat)
    requires InstanceOk(log, i, c, p, last) && EventEffect(c, ev, e, last + 1)
    ensures var entry := Record(i, c, ev, e);
      if e.request.Some? then InstanceOk(log + [entry], i, e.next, p + {last + 1}, last + 1)
      else InstanceOk(log + [entry], i, e.next, p, last)
  {
    OwnEntry(log, Record(i, c, ev, e), e.next.announceToken);
  }

  lemma EffectKeepsLog(log: seq<Entry>, i: nat, c: TbcState, ev: Event, e: Effect, p: set<nat>, last: nat)
    requires InstanceOk(log, i, c, p, last) && EventEffect(c, ev, e, last + 1)
    requires LogOk(log) && TokensBelow(log, last + 1)
    ensures var entry := Record(i, c, ev, e);
      LogOk(log + [entry]) && TokensBelow(log + [entry], if e.request.Some? then last + 2 else last + 1)
  {
    AppendOk(log, Record(i, c, ev, e));
  }

  /** A step that was about instance `i` alone keeps the invariant once it keeps that instance and the log. */
  lemma OneInstanceKeepsInv(s: System, t: System, e: Entry)
    requires Inv(s) && t.log == s.log + [e] && s.lastToken <= t.lastToken
    requires e.inst < |t.clocks| && |s.clocks| <= |t.clocks| <= |s.clocks| + 1 && (|t.clocks| > |s.clocks| ==> e.inst == |s.clocks|)
    requires forall j :: 0 <= j < |s.clocks| && j != e.inst ==> t.clocks[j] == s.clocks[j]
    requires forall token :: token in Pending(t) && token <= s.lastToken ==> token in Pending(s)
    requires forall token :: token in Pending(t) ==> token <= t.lastToken
    requires Registered(t) && t.inFlight.Keys !! t.queue.Keys
    requires InstanceOk(t.log, e.inst, t.clocks[e.inst].clock, Pending(t), t.lastToken)
    requires LogOk(t.log) && TokensBelow(t.log, t.lastToken + 1)
    ensures Inv(t)
  {
    OthersKeep(s, t, e);
  }

  lemma HandleKeepsInv(s: System, l: Label)
    requires Inv(s) && Enabled(s, l) && l.Handle?
    ensures Inv(Next(s, l))
  {
    HandlingKeepsInv(s, Next(s, l), s.names[l.cfgName], l.ev, Moment(l.readings, l.os, l.utcOffset, s.lastToken + 1));
  }

  lemma HandlingKeepsInv(s: System, t: System, i: nat, ev: Event, now: Moment)
    requires Inv(s) && i < |s.clocks| && !ev.Fetched? && now.nextToken == s.lastToken + 1
    requires t == Handling(s, i, ev, now)
    ensures Inv(t)
  {
    var c := s.clocks[i];
    EventMoves(c.cfgName, c.clock, ev, now);
    AffectedKeepsInv(s, t, i, ev, OnEvent(c.cfgName, c.clock, ev, now));
  }

  lemma AffectedKeepsInv(s: System, t: System, i: nat, ev: Event, e: Effect)
    requires Inv(s) && i < |s.clocks| && EventEffect(s.clocks[i].clock, ev, e, s.lastToken + 1)
    requires t == Affected(s, i, ev, e)
    ensures Inv(t)
  {
    if e.request.Some? {
      RequestKeepsInv(s, t, i, ev, e);
    } else {
      QuietKeepsInv(s, t, i, ev, e);
    }
  }

  lemma QuietKeepsInv(s: System, t: System, i: nat, ev: Event, e: Effect)
    requires Inv(s) && i < |s.clocks| && e.request.None?
    requires EventEffect(s.clocks[i].clock, ev, e, s.lastToken + 1)
    requires t == s.(clocks := s.clocks[i := s.clocks[i].(clock := e.next)],
                     log := s.log + [Record(i, s.clocks[i].clock, ev, e)])
    ensures Inv(t)
  {
    EffectKeepsInstance(s.log, i, s.clocks[i].clock, ev, e, Pending(s), s.lastToken);
    EffectKeepsLog(s.log, i, s.clocks[i].clock, ev, e, Pending(s), s.lastToken);
    assert Pending(t) == Pending(s);
    OneInstanceKeepsInv(s, t, Record(i, s.clocks[i].clock, ev, e));
  }

  lemma RequestKeepsInv(s: System, t: System, i: nat, ev: Event, e: Effect)
    requires Inv(s) && i < |s.clocks| && e.request == Some(s.lastToken + 1)
    requires EventEffect(s.clocks[i].clock, ev, e, s.lastToken + 1)
    requires t == s.(clocks := s.clocks[i := s.clocks[i].(clock := e.next)],
                     lastToken := s.lastToken + 1,
                     inFlight := s.inFlight[s.lastToken + 1 := s.clocks[i].cfgName],
                     log := s.log + [Record(i, s.clocks[i].clock, ev, e)])
    ensures Inv(t)
  {
    EffectKeepsInstance(s.log, i, s.clocks[i].clock, ev, e, Pending(s), s.lastToken);
    EffectKeepsLog(s.log, i, s.clocks[i].clock, ev, e, Pending(s), s.lastToken);
    assert Pending(t) == Pending(s) + {s.lastToken + 1};
    OneInstanceKeepsInv(s, t, Record(i, s.clocks[i].clock, ev, e));
  }

  /** An instance that handles a fetch result; whether it applies it or not, the result is gone. */
  lemma ResultKeepsInstance(log: seq<Entry>, i: nat, c: TbcState, ev: Event, p: set<nat>, q: set<nat>, last: nat)
    requires ev.Fetched? && InstanceOk(log, i, c, p, last) && ev.token in p && q <= p - {ev.token}
    requires LogOk(log) && TokensBelow(log, last + 1)
    ensures var e := ApplyFetched(c, ev);
      var entry := Record(i, c, ev, e);
      && e.request.None?
      && InstanceOk(log + [entry], i, e.next, q, last)
      && LogOk(log + [entry]) && TokensBelow(log + [entry], last + 1)
  {
    var entry := Record(i, c, ev, ApplyFetched(c, ev));
    OwnEntry(log, entry, c.announceToken);
    AppendOk(log, entry);
  }

  lemma DeliverKeepsInv(s: System, token: nat)
    requires Inv(s) && Enabled(s, Deliver(token))
    ensures Inv(Next(s, Deliver(token)))
  {
    var t := Next(s, Deliver(token));
    var r := s.queue[token];
    var i := s.names[r.cfgName];
    var ev := Fetched(r.parent, r.time, r.steps, token);
    assert Pending(t) == Pending(s) - {token};
    ResultKeepsInstance(s.log, i, s.clocks[i].clock, ev, Pending(s), Pending(t), s.lastToken);
    OneInstanceKeepsInv(s, t, Record(i, s.clocks[i].clock, ev, ApplyFetched(s.clocks[i].clock, ev)));
  }

  lemma ResetKeepsInv(s: System, cfgName: string)
    requires Inv(s) && Enabled(s, ResetClock(cfgName))
    ensures Inv(Next(s, ResetClock(cfgName)))
  {
    var t, i := Next(s, ResetClock(cfgName)), s.names[cfgName];
    assert Pending(t) == Pending(s);
    ResetKeepsInstance(s.log, i, s.clocks[i].clock, Pending(s), s.lastToken);
    OneInstanceKeepsInv(s, t, WasReset(i, t.lastToken));
  }

  /** A reset clock starts over with a token that no fetch has. */
  lemma ResetKeepsInstance(log: seq<Entry>, i: nat, c: TbcState, p: set<nat>, last: nat)
    requires InstanceOk(log, i, c, p, last) && LogOk(log) && TokensBelow(log, last + 1) && last + 1 !in p
    ensures InstanceOk(log + [WasReset(i, last + 1)], i, OnReset(c, last + 1), p, last + 1)
    ensures LogOk(log + [WasReset(i, last + 1)]) && TokensBelow(log + [WasReset(i, last + 1)], last + 2)
  {
    AppendOk(log, WasReset(i, last + 1));
    OwnEntry(log, WasReset(i, last + 1), last + 1);
  }

  lemma AddKeepsInv(s: System, l: Label)
    requires Inv(s) && l.Add?
    ensures Inv(Next(s, l))
  {
    var t := Next(s, l);
    var entry := Created(|s.clocks|, t.lastToken);
    AppendOk(s.log, entry);
    UnmentionedBalance(s.log, |s.clocks|);
    OwnEntry(s.log, entry, t.lastToken);
    assert Pending(t) == Pending(s);
    OneInstanceKeepsInv(s, t, entry);
  }

  lemma QueueKeepsInv(s: System, l: Label)
    requires Inv(s) && Enabled(s, l) && (l.RemoveAll? || l.Complete? || l.Fail? || l.Drop?)
    ensures Inv(Next(s, l))
  {
    var t := Next(s, l);
    assert Pending(t) <= Pending(s);
    assert t.log == s.log && t.clocks == s.clocks && t.lastToken == s.lastToken;
    forall j | 0 <= j < |t.clocks|
      ensures InstanceOk(t.log, j, t.clocks[j].clock, Pending(t), t.lastToken)
    {
      assert InstanceOk(s.log, j, s.clocks[j].clock, Pending(s), s.lastToken);
    }
  }

  lemma StepKeepsInv(s: System, l: Label)
    requires Inv(s) && Enabled(s, l)
    ensures Inv(Next(s, l))
  {
    match l
    case Handle(_, _, _, _, _) => HandleKeepsInv(s, l);
    case Deliver(token) => DeliverKeepsInv(s, token);
    case Add(_, _, _) => AddKeepsInv(s, l);
    case ResetClock(cfgName) => ResetKeepsInv(s, cfgName);
    case _ => QueueKeepsInv(s, l);
  }

  // ------------------------------------------------------------------ whole runs

  ghost predicate IsRun(states: seq<System>, labels: seq<Label>) {
    && |states| == |labels| + 1
    && states[0] == START
    && forall k :: 0 <= k < |labels| ==> IsStep(states, labels, k)
  }

  ghost predicate IsStep(states: seq<System>, labels: seq<Label>, k: nat)
    requires k < |labels| < |states|
  {
    Registered(states[k]) && Enabled(states[k], labels[k]) && states[k + 1] == Next(states[k], labels[k])
  }

  lemma {:induction false} RunKeepsInv(states: seq<System>, labels: seq<Label>, k: nat)
    requires IsRun(states, labels) && k < |states|
    ensures Inv(states[k])
  {
    if k > 0 {
      RunKeepsInv(states, labels, k - 1);
      assert IsStep(states, labels, k - 1);
      StepKeepsInv(states[k - 1], labels[k - 1]);
    }
  }

  /** Nothing that instance `i` did in log[from..to] took a token or applied a result. */
  ghost predicate Quiet(log: seq<Entry>, i: nat, from: nat, to: nat) {
    forall m :: from <= m < to && m < |log| && log[m].inst == i ==> log[m].Handled? && log[m].requested.None? && log[m].applied.None?
  }

  ghost predicate StayedLocked(log: seq<Entry>, i: nat, from: nat, to: nat) {
    forall m :: from <= m < to && m < |log| && log[m].inst == i && log[m].Handled? ==> !log[m].left
  }

  ghost predicate RequestedAt(log: seq<Entry>, j: nat, i: nat, t: nat) {
    j < |log| && log[j].Handled? && log[j].inst == i && log[j].requested == Some(t)
  }

  lemma {:induction false} AwaitingOrigin(log: seq<Entry>, i: nat, t: nat) returns (j: nat)
    requires Awaiting(log, i, t)
    ensures RequestedAt(log, j, i, t) && Quiet(log, i, j + 1, |log|)
    ensures AwaitingHere(log, i, t) ==> StayedLocked(log, i, j + 1, |log|)
  {
    var e, rest := log[|log| - 1], log[..|log| - 1];
    if e.inst == i && TokenTaken(e).Some? {
      j := |log| - 1;
    } else {
      j := AwaitingOrigin(rest, i, t);
      assert forall m :: 0 <= m < |rest| ==> log[m] == rest[m];
    }
  }

  /**
    A fetch result is applied only if it answers the applying clock's most recent request: between
    that request and the result the clock made no other request, was not reset and applied nothing.
    If it never entered Locked as a T-TSC, it has been Locked all the time since that request.
   */
  lemma AppliedAnswersLatestRequest(states: seq<System>, labels: seq<Label>, n: nat, k: nat) returns (j: nat)
    requires IsRun(states, labels) && n < |states| && k < |states[n].log|
    requires states[n].log[k].Handled? && states[n].log[k].applied.Some?
    ensures var log, i, t := states[n].log, states[n].log[k].inst, states[n].log[k].applied.value;
      && j < k && RequestedAt(log, j, i, t) && Quiet(log, i, j + 1, k)
      && (!TtscEntered(log[..k], i) ==> StayedLocked(log, i, j + 1, k))
  {
    RunKeepsInv(states, labels, n);
    var log := states[n].log;
    var i, t := log[k].inst, log[k].applied.value;
    assert EntryOk(log[..k], log[k]);
    j := AwaitingOrigin(log[..k], i, t);
    assert forall m :: 0 <= m < k ==> log[..k][m] == log[m];
  }

  /** The fetch with token `t` completed at step `m`, with these datasets. */
  ghost predicate CompletedAt(labels: seq<Label>, m: nat, t: nat, parent: ParentDataSet, time: TimeProperties, steps: nat) {
    m < |labels| && labels[m] == Complete(t, parent, time, steps)
  }

  /** A result in the queue is what its fetch returned. */
  lemma {:induction false} QueuedWasFetched(states: seq<System>, labels: seq<Label>, n: nat, t: nat) returns (m: nat)
    requires IsRun(states, labels) && n < |states| && t in states[n].queue
    ensures m < n && CompletedAt(labels, m, t, states[n].queue[t].parent, states[n].queue[t].time, states[n].queue[t].steps)
  {
    assert n > 0;
    assert IsStep(states, labels, n - 1);
    var l := labels[n - 1];
    if l.Complete? && l.token == t {
      m := n - 1;
    } else {
      QueueKeeps(states[n - 1], l, t);
      m := QueuedWasFetched(states, labels, n - 1, t);
    }
  }

  lemma QueueKeeps(s: System, l: Label, t: nat)
    requires Registered(s) && Enabled(s, l) && t in Next(s, l).queue && !(l.Complete? && l.token == t)
    ensures t in s.queue && Next(s, l).queue[t] == s.queue[t]
  {}

  /** What one step adds to the log. */
  lemma LogGrows(s: System, l: Label)
    requires Registered(s) && Enabled(s, l)
    ensures var t := Next(s, l);
      && s.log <= t.log && |t.log| <= |s.log| + 1
      && (|t.log| > |s.log| && t.log[|s.log|].Handled? && t.log[|s.log|].applied.Some? ==>
            && l.Deliver? && t.log[|s.log|].applied == Some(l.token)
            && Announces(t.log[|s.log|], s.queue[l.token].parent, s.queue[l.token].time, s.queue[l.token].steps))
  {
    if l.Handle? {
      var c := s.clocks[s.names[l.cfgName]];
      AppliesNothing(c.cfgName, c.clock, l.ev, Moment(l.readings, l.os, l.utcOffset, s.lastToken + 1));
    } else if l.Deliver? {
      var r, c := s.queue[l.token], s.clocks[s.names[s.queue[l.token].cfgName]];
      FetchedIsAnnounced(c.cfgName, c.clock, Fetched(r.parent, r.time, r.steps, l.token), NO_MOMENT);
    }
  }

  const NO_MOMENT := Moment(Readings(false, 0, false, false, false), NotSet, 0, 0)

  lemma AppliesNothing(profile: string, c: TbcState, ev: Event, now: Moment)
    requires !ev.Fetched?
    ensures OnEvent(profile, c, ev, now).applied.None?
  {}

  /** The downstream ports were told just these datasets, field by field. */
  ghost predicate Announces(e: Entry, parent: ParentDataSet, time: TimeProperties, steps: nat)
    requires e.Handled?
  {
    && e.announced.Some?
    && var a := e.announced.value;
    && a.clockClass == parent.gmClass && a.accuracy == parent.gmAccuracy && a.variance == parent.gmVariance
    && a.gmIdentity == parent.gmIdentity && a.time == time && a.stepsRemoved == steps
  }

  /**
    What the downstream ports are told when a result is applied is what the fetch with that token returned,
    whatever else happened to the clock and the other clocks in between.
   */
  lemma {:induction false} AnnouncedWasFetched(states: seq<System>, labels: seq<Label>, n: nat, k: nat)
    returns (m: nat, parent: ParentDataSet, time: TimeProperties, steps: nat)
    requires IsRun(states, labels) && n < |states| && k < |states[n].log|
    requires states[n].log[k].Handled? && states[n].log[k].applied.Some?
    ensures m < n && CompletedAt(labels, m, states[n].log[k].applied.value, parent, time, steps)
    ensures Announces(states[n].log[k], parent, time, steps)
  {
    assert n > 0;
    assert IsStep(states, labels, n - 1);
    var s := states[n - 1];
    LogGrows(s, labels[n - 1]);
    if k < |s.log| {
      assert states[n].log[k] == s.log[k];
      m, parent, time, steps := AnnouncedWasFetched(states, labels, n - 1, k);
    } else {
      var r := s.queue[labels[n - 1].token];
      m := QueuedWasFetched(states, labels, n - 1, labels[n - 1].token);
      parent, time, steps := r.parent, r.time, r.steps;
    }
  }

  /** The tokens a clock applies strictly increase, so no request is answered twice. */
  lemma AppliedTokensIncrease(states: seq<System>, labels: seq<Label>, n: nat, k1: nat, k2: nat)
    requires IsRun(states, labels) && n < |states| && k1 < k2 < |states[n].log|
    requires var log := states[n].log;
      log[k1].Handled? && log[k1].applied.Some? && log[k2].Handled? && log[k2].applied.Some? && log[k1].inst == log[k2].inst
    ensures states[n].log[k1].applied.value < states[n].log[k2].applied.value
  {
    var log := states[n].log;
    var j1 := AppliedAnswersLatestRequest(states, labels, n, k1);
    var j2 := AppliedAnswersLatestRequest(states, labels, n, k2);
    RunKeepsInv(states, labels, n);
    assert EntryOk(log[..j2], log[j2]);
    assert log[..j2][j1] == log[j1] by {
      assert j1 < k1 <= j2;
    }
  }

  /** A clock requests at most as many fetches as it entered Locked and saw its parent dataset change. */
  lemma RequestsAreBounded(states: seq<System>, labels: seq<Label>, n: nat, i: nat)
    requires IsRun(states, labels) && n < |states| && i < |states[n].clocks|
    ensures RequestBalance(states[n].log, i) <= 0
  {
    RunKeepsInv(states, labels, n);
    assert InstanceOk(states[n].log, i, states[n].clocks[i].clock, Pending(states[n]), states[n].lastToken);
  }

  /** In every reachable state: the counter is the streak of in-range evaluations, and the time datasets agree. */
  lemma CounterIsStreak(states: seq<System>, labels: seq<Label>, n: nat, i: nat)
    requires IsRun(states, labels) && n < |states| && i < |states[n].clocks|
    ensures var c := states[n].clocks[i].clock;
      && c.params.inSyncCounter == InRangeStreak(states[n].log, i)
      && c.params.upstreamTime == c.params.downstreamTime
      && (c.sync == Locked || c.sync == Holdover ==> c.hasData)
  {
    RunKeepsInv(states, labels, n);
    assert InstanceOk(states[n].log, i, states[n].clocks[i].clock, Pending(states[n]), states[n].lastToken);
  }

  /** Locked is only entered at the end of a streak of at least inSyncConditionTimes in-range evaluations. */
  lemma EnteredAfterStreak(states: seq<System>, labels: seq<Label>, n: nat, k: nat)
    requires IsRun(states, labels) && n < |states| && k < |states[n].log|
    requires states[n].log[k].Handled? && states[n].log[k].entered
    ensures var log := states[n].log;
      var streak := InRangeStreak(log[..k + 1], log[k].inst);
      streak >= 1 && streak >= log[k].times
  {
    RunKeepsInv(states, labels, n);
    var log := states[n].log;
    assert EntryOk(log[..k], log[k]);
    assert log[..k + 1] == log[..k] + [log[k]];
    OwnEntry(log[..k], log[k], 0);
  }

  /** Once a result is applied, a clock that stays Locked under the same parent dataset asks for nothing more. */
  lemma AppliedDataIsNotRequestedAgain(profile: string, s: TbcState, ev: Event, report: Report, now: Moment)
    requires Good(s) && ev.Fetched? && Applies(s, ev)
    ensures OnEvent(profile, ApplyFetched(s, ev).next, ProcessReport(report), now).request.None?
  {
    EventMoves(profile, ApplyFetched(s, ev).next, ProcessReport(report), now);
  }

  /** Instance `i`, once created, has not been a T-TSC up to state `n`. */
  ghost predicate NeverTtsc(states: seq<System>, i: nat, n: nat) {
    forall m :: 0 <= m <= n && m < |states| && i < |states[m].clocks| ==> !IsTtsc(states[m].clocks[i].clock)
  }

  lemma HandleKeepsClass(s: System, l: Label, i: nat)
    requires Registered(s) && Enabled(s, l) && l.Handle? && i < |s.clocks|
    requires Good(s.clocks[i].clock) && ClassMatches(s.clocks[i].clock)
    requires !IsTtsc(Next(s, l).clocks[i].clock)
    ensures ClassMatches(Next(s, l).clocks[i].clock) && ClassMayFollow(s.clocks[i].clock, Next(s, l).clocks[i].clock)
  {
    HandlingKeepsClass(s, Next(s, l), s.names[l.cfgName], l.ev, Moment(l.readings, l.os, l.utcOffset, s.lastToken + 1), i);
  }

  lemma HandlingKeepsClass(s: System, t: System, j: nat, ev: Event, now: Moment, i: nat)
    requires i < |s.clocks| && j < |s.clocks| && t == Handling(s, j, ev, now)
    requires Good(s.clocks[i].clock) && ClassMatches(s.clocks[i].clock)
    ensures |t.clocks| == |s.clocks|
    ensures !IsTtsc(t.clocks[i].clock) ==> ClassMatches(t.clocks[i].clock) && ClassMayFollow(s.clocks[i].clock, t.clocks[i].clock)
  {
    HandledClock(s, j, ev, OnEvent(s.clocks[j].cfgName, s.clocks[j].clock, ev, now), i);
    if i == j {
      EventKeepsClass(s.clocks[i].cfgName, s.clocks[i].clock, ev, now);
    }
  }

  lemma HandledClock(s: System, j: nat, ev: Event, e: Effect, i: nat)
    requires i < |s.clocks| && j < |s.clocks|
    ensures Affected(s, j, ev, e).clocks[i].clock == if i == j then e.next else s.clocks[i].clock
  {}

  lemma StepKeepsClass(s: System, l: Label, i: nat)
    requires Inv(s) && Enabled(s, l) && i < |Next(s, l).clocks|
    requires i < |s.clocks| ==> ClassMatches(s.clocks[i].clock)
    requires !IsTtsc(Next(s, l).clocks[i].clock)
    ensures ClassMatches(Next(s, l).clocks[i].clock)
    ensures i < |s.clocks| ==> ClassMayFollow(s.clocks[i].clock, Next(s, l).clocks[i].clock)
  {
    if i < |s.clocks| {
      assert InstanceOk(s.log, i, s.clocks[i].clock, Pending(s), s.lastToken);
      if l.Handle? {
        HandleKeepsClass(s, l, i);
      }
    }
  }

  /** A clock that is never a T-TSC shows the class of its state: 248 in Freerun, 135 or 165 in Holdover. */
  lemma {:induction false} ClassMatchesState(states: seq<System>, labels: seq<Label>, n: nat, i: nat)
    requires IsRun(states, labels) && n < |states| && i < |states[n].clocks| && NeverTtsc(states, i, n)
    ensures ClassMatches(states[n].clocks[i].clock)
  {
    RunKeepsInv(states, labels, n - 1);
    assert IsStep(states, labels, n - 1);
    if i < |states[n - 1].clocks| {
      ClassMatchesState(states, labels, n - 1, i);
    }
    StepKeepsClass(states[n - 1], labels[n - 1], i);
  }

  ghost predicate InHoldover(states: seq<System>, i: nat, k: nat) {
    k < |states| && i < |states[k].clocks| && states[k].clocks[i].clock.sync == Holdover
  }

  ghost predicate InSpec(states: seq<System>, i: nat, k: nat) {
    k < |states| && i < |states[k].clocks| && states[k].clocks[i].clock.clockClass == CLASS_IN_SPEC
  }

  lemma InSpecBefore(states: seq<System>, labels: seq<Label>, n: nat, i: nat)
    requires IsRun(states, labels) && 0 < n < |states| && NeverTtsc(states, i, n)
    requires InHoldover(states, i, n - 1) && InHoldover(states, i, n) && InSpec(states, i, n)
    ensures InSpec(states, i, n - 1)
  {
    RunKeepsInv(states, labels, n - 1);
    assert IsStep(states, labels, n - 1);
    ClassMatchesState(states, labels, n - 1, i);
    StepKeepsClass(states[n - 1], labels[n - 1], i);
  }

  /** As long as one holdover lasts, a class that is in spec now has been in spec all along. */
  lemma {:induction false} HoldoverClassNeverImproves(states: seq<System>, labels: seq<Label>, m: nat, n: nat, i: nat)
    requires IsRun(states, labels) && m <= n < |states| && NeverTtsc(states, i, n)
    requires forall k :: m <= k <= n ==> InHoldover(states, i, k)
    requires InSpec(states, i, n)
    ensures InSpec(states, i, m)
  {
    if m < n {
      assert InHoldover(states, i, n - 1) && InHoldover(states, i, n);
      InSpecBefore(states, labels, n, i);
      HoldoverClassNeverImproves(states, labels, m, n - 1, i);
    }
  }

  // ------------------------------------------------------------------ where the guarantees end

  /**
    The streak is not reset when Locked is entered or left: a clock that was Locked and fell to
    Freerun is Locked again after a single in-range evaluation, whatever inSyncConditionTimes is.
   */
  lemma RelockNeedsOneEvaluation(s: TbcState, r: Readings, good: Readings)
    requires Good(s) && Ready(s) && s.sync == Locked && s.params.inSyncCounter + 1 >= s.params.inSyncTimes
    requires FreeRun(s, r) && !good.sourceLost && OffsetInRange(s, good) && s.params.inSyncThreshold != 0
    ensures var fallen := UpdateState(s, r).next;
      fallen.sync == Freerun && UpdateState(fallen, good).next.sync == Locked
  {}

  /** A clock that locks again takes a new token, which outdates every fetch under way, unless it is a T-TSC. */
  lemma RelockTakesTokenExactly(profile: string, s: TbcState, ev: Event, now: Moment)
    requires Good(s) && !ev.Fetched? && (s.sync == Freerun || s.sync == Holdover)
    ensures OnEvent(profile, s, ev, now).next.sync == Locked ==>
      (OnEvent(profile, s, ev, now).request.Some? <==> !IsTtsc(OnEvent(profile, s, ev, now).next))
  {
    EventMoves(profile, s, ev, now);
    RelockByEffect(s, ev, OnEvent(profile, s, ev, now), now.nextToken);
  }

  lemma RelockByEffect(s: TbcState, ev: Event, e: Effect, nextToken: nat)
    requires EventEffect(s, ev, e, nextToken) && (s.sync == Freerun || s.sync == Holdover)
    ensures e.next.sync == Locked ==> (e.request.Some? <==> !IsTtsc(e.next))
  {}

  /** A T-TSC that locks again keeps the token it has. */
  lemma TtscRelocks(profile: string, s: TbcState, good: Moment)
    requires Good(s) && Ready(s) && s.sync == Freerun && s.params.controlledPorts == ""
    requires !good.readings.sourceLost && OffsetInRange(s, good.readings)
    requires s.params.inSyncThreshold != 0 && s.params.inSyncCounter + 1 >= s.params.inSyncTimes
    ensures var relocked := OnEvent(profile, s, ProcessReport(FromPtp4l("", "id")), good).next;
            relocked.sync == Locked && relocked.announceToken == s.announceToken
  {}

  lemma LosesLock(profile: string, s: TbcState, lost: Moment)
    requires Good(s) && Ready(s) && s.sync == Locked && FreeRun(s, lost.readings)
    ensures var fallen := OnEvent(profile, s, ProcessReport(OtherReport), lost).next;
            && fallen.sync == Freerun && fallen.announceToken == s.announceToken && fallen.params == s.params
            && Good(fallen) && Ready(fallen)
  {
    EventKeepsGood(profile, s, ProcessReport(OtherReport), lost);
  }

  /**
    So a Locked clock that asked for a fetch, lost its lock, learned its clock ID (and controls no
    ports) and locked again applies the result of that fetch in the new Locked episode.
   */
  lemma TtscAppliesResultOfEarlierEpisode(profile: string, s: TbcState, lost: Moment, good: Moment, result: Event)
    requires Good(s) && Ready(s) && s.sync == Locked && s.params.controlledPorts == ""
    requires FreeRun(s, lost.readings) && !good.readings.sourceLost && OffsetInRange(s, good.readings)
    requires s.params.inSyncThreshold != 0 && s.params.inSyncCounter + 1 >= s.params.inSyncTimes
    requires result.Fetched? && result.token == s.announceToken
    ensures
      var fallen := OnEvent(profile, s, ProcessReport(OtherReport), lost).next;
      var relocked := OnEvent(profile, fallen, ProcessReport(FromPtp4l("", "id")), good).next;
      fallen.sync == Freerun && OnEvent(profile, relocked, result, good).applied == Some(s.announceToken)
  {
    LosesLock(profile, s, lost);
    TtscRelocks(profile, OnEvent(profile, s, ProcessReport(OtherReport), lost).next, good);
  }

  lemma RunExtended(states: seq<System>, labels: seq<Label>, l: Label)
    requires IsRun(states, labels) && Registered(states[|labels|]) && Enabled(states[|labels|], l)
    ensures IsRun(states + [Next(states[|labels|], l)], labels + [l])
  {
    var more, all := states + [Next(states[|labels|], l)], labels + [l];
    forall k | 0 <= k < |all| ensures IsStep(more, all, k) {
      assert k < |labels| ==> IsStep(states, labels, k);
    }
  }

  const GOOD := Readings(false, 0, false, false, true)
  const LOST := Readings(false, 0, true, false, false)
  const DPLL := ProcessReport(FromDpll("eth0", true, false, 100, 1, 1000, 0))
  const PARENT := ParentDataSet(6, 0x21, 0, "gm", "")
  const OTHER := ProcessReport(OtherReport)
  const PTP4L := ProcessReport(FromPtp4l("", "id"))

  function Report(ev: Event, r: Readings): Label {
    Handle("c", ev, r, Freerun, 37)
  }

  /** One clock, registered under "c". */
  predicate IsSingle(s: System, c: TbcState) {
    s.clocks == [Instance("c", c)] && s.names == map["c" := 0]
  }

  /** What the one clock does with an event, and what is left in the log. */
  lemma SingleHandles(s: System, c: TbcState, ev: Event, r: Readings) returns (t: System, e: Effect)
    requires IsSingle(s, c) && !ev.Fetched?
    ensures Registered(s) && Enabled(s, Report(ev, r)) && t == Next(s, Report(ev, r))
    ensures e == OnEvent("c", c, ev, Moment(r, Freerun, 37, s.lastToken + 1))
    ensures FollowsSingle(s, t, c, ev, e)
  {
    assert s.clocks[0] == Instance("c", c) && s.names["c"] == 0;
    t, e := Next(s, Report(ev, r)), OnEvent("c", c, ev, Moment(r, Freerun, 37, s.lastToken + 1));
    SingleAffected(s, t, c, ev, e);
  }

  /** What the effect on the one clock leaves behind. */
  ghost predicate FollowsSingle(s: System, t: System, c: TbcState, ev: Event, e: Effect) {
    && IsSingle(t, e.next) && t.log == s.log + [Record(0, c, ev, e)] && t.queue == s.queue
    && t.inFlight == (if e.request.Some? then s.inFlight[e.request.value := "c"] else s.inFlight)
    && t.lastToken == s.lastToken + if e.request.Some? then 1 else 0
  }

  lemma SingleAffected(s: System, t: System, c: TbcState, ev: Event, e: Effect)
    requires IsSingle(s, c) && t == Affected(s, 0, ev, e)
    ensures FollowsSingle(s, t, c, ev, e)
  {}

  /** A clock set up by the report of its DPLL, with no clock ID yet. */
  predicate IsSetUp(c: TbcState) {
    && Good(c) && Ready(c) && c.params.controlledPorts == "" && c.params.clockId == ""
    && c.params.inSyncThreshold == 100 && c.params.inSyncTimes == 1 && c.params.toFreeRunThreshold == 1000
  }

  lemma DpllLocks(now: Moment)
    requires now.readings == GOOD
    ensures var e := OnEvent("c", NewTbc("", 1), DPLL, now);
      && e.next.sync == Locked && IsSetUp(e.next) && e.next.announceToken == 1 && e.request.None?
      && e.next.params.upstreamParent == e.next.params.downstreamParent == NO_PARENT
  {
    assert |"eth0"| != |LEADING_UNKNOWN|;
    EventKeepsGood("c", NewTbc("", 1), DPLL, now);
  }

  lemma ParentRequests(c: TbcState, now: Moment)
    requires IsSetUp(c) && c.sync == Locked && now.readings == GOOD && c.params.downstreamParent == NO_PARENT
    ensures var e := OnEvent("c", c, ParentDs(PARENT), now);
      && e.next.sync == Locked && IsSetUp(e.next) && e.request == Some(now.nextToken) && e.next.announceToken == now.nextToken
  {
    EventKeepsGood("c", c, ParentDs(PARENT), now);
    ParentIsFollowed(c.(params := c.params.(upstreamParent := PARENT)), GOOD);
  }

  lemma ParentIsFollowed(c: TbcState, r: Readings)
    requires IsSetUp(c) && c.sync == Locked && r == GOOD
    requires c.params.upstreamParent == PARENT && c.params.downstreamParent == NO_PARENT
    ensures var d := UpdateState(c, r); IsSetUp(d.next) && d.next.sync == Locked && d.update
  {
    assert PARENT != NO_PARENT;
    UpdateKeepsGood(c, r);
  }

  lemma AddRun() returns (states: seq<System>, labels: seq<Label>)
    ensures IsRun(states, labels) && IsSingle(states[|labels|], NewTbc("", 1))
    ensures var s := states[|labels|]; s.inFlight == map[] && s.queue == map[] && s.lastToken == 1 && |s.log| == 1
  {
    var add := Add("c", {}, "");
    RunExtended([START], [], add);
    states, labels := [START] + [Next(START, add)], [] + [add];
    assert states[1].names == map["c" := 0];
  }

  lemma LockRun() returns (states: seq<System>, labels: seq<Label>, c: TbcState)
    ensures IsRun(states, labels) && IsSingle(states[|labels|], c) && IsSetUp(c) && c.sync == Locked
    ensures c.announceToken == 1 && c.params.downstreamParent == NO_PARENT
    ensures var s := states[|labels|]; s.inFlight == map[] && s.queue == map[] && s.lastToken == 1 && |s.log| == 2
  {
    var rs, ls := AddRun();
    var s := rs[|ls|];
    var t, e := SingleHandles(s, NewTbc("", 1), DPLL, GOOD);
    DpllLocks(Moment(GOOD, Freerun, 37, 2));
    RunExtended(rs, ls, Report(DPLL, GOOD));
    states, labels, c := rs + [t], ls + [Report(DPLL, GOOD)], e.next;
  }

  /** The clock locks, and asks for a fetch when its parent dataset changes. */
  lemma RequestRun() returns (states: seq<System>, labels: seq<Label>, c: TbcState)
    ensures IsRun(states, labels) && IsSingle(states[|labels|], c) && IsSetUp(c) && c.sync == Locked && c.announceToken == 2
    ensures var s := states[|labels|];
      && s.inFlight == map[2 := "c"] && s.queue == map[] && s.lastToken == 2
      && |s.log| == 3 && RequestedAt(s.log, 2, 0, 2)
  {
    var rs, ls, c0 := LockRun();
    var s, asks := rs[|ls|], Report(ParentDs(PARENT), GOOD);
    var t, e := SingleHandles(s, c0, ParentDs(PARENT), GOOD);
    ParentRequests(c0, Moment(GOOD, Freerun, 37, 2));
    RunExtended(rs, ls, asks);
    states, labels, c := rs + [t], ls + [asks], e.next;
  }

  /** The fetch completes, and the clock loses its lock before the result is delivered. */
  lemma FallRun() returns (states: seq<System>, labels: seq<Label>, c: TbcState)
    ensures IsRun(states, labels) && IsSingle(states[|labels|], c) && IsSetUp(c) && c.sync == Freerun && c.announceToken == 2
    ensures var s := states[|labels|];
      && s.queue == map[2 := Result("c", PARENT, NO_TIME, 0)] && s.lastToken == 2
      && |s.log| == 4 && RequestedAt(s.log, 2, 0, 2) && s.log[3].Handled? && s.log[3].inst == 0 && s.log[3].left
  {
    var rs, ls, c0 := RequestRun();
    var complete := Complete(2, PARENT, NO_TIME, 0);
    RunExtended(rs, ls, complete);
    var s0 := Next(rs[|ls|], complete);
    var s1, e := SingleHandles(s0, c0, OTHER, LOST);
    LosesLock("c", c0, Moment(LOST, Freerun, 37, 3));
    RunExtended(rs + [s0], ls + [complete], Report(OTHER, LOST));
    c := e.next;
    states, labels := rs + [s0] + [s1], ls + [complete] + [Report(OTHER, LOST)];
  }

  /** It learns its clock ID and locks again with the token it had. */
  lemma RelockRun() returns (states: seq<System>, labels: seq<Label>, c: TbcState)
    ensures IsRun(states, labels) && IsSingle(states[|labels|], c) && c.sync == Locked && c.announceToken == 2
    ensures var s := states[|labels|];
      && s.queue == map[2 := Result("c", PARENT, NO_TIME, 0)]
      && |s.log| == 5 && RequestedAt(s.log, 2, 0, 2) && s.log[3].Handled? && s.log[3].inst == 0 && s.log[3].left
  {
    var rs, ls, c0 := FallRun();
    var s0 := rs[|ls|];
    var s1, e := SingleHandles(s0, c0, PTP4L, GOOD);
    TtscRelocks("c", c0, Moment(GOOD, Freerun, 37, 3));
    RunExtended(rs, ls, Report(PTP4L, GOOD));
    c := e.next;
    states, labels := rs + [s1], ls + [Report(PTP4L, GOOD)];
  }

  /**
    A run from the start in which a T-TSC applies, in one Locked episode, the result of a fetch it asked
    for in an earlier one.
   */
  lemma ResultCrossesEpisodes() returns (states: seq<System>, labels: seq<Label>, j: nat, k: nat)
    ensures IsRun(states, labels)
    ensures var log := states[|labels|].log;
      && j < k < |log| && RequestedAt(log, j, 0, 2)
      && log[k].Handled? && log[k].inst == 0 && log[k].applied == Some(2) && !StayedLocked(log, 0, j + 1, k)
  {
    var rs, ls, c := RelockRun();
    var s := rs[|ls|];
    RunExtended(rs, ls, Deliver(2));
    states, labels, j, k := rs + [Next(s, Deliver(2))], ls + [Deliver(2)], 2, 5;
    var log := states[|labels|].log;
    assert log == s.log + [Record(0, c, Fetched(PARENT, NO_TIME, 0, 2), ApplyFetched(c, Fetched(PARENT, NO_TIME, 0, 2)))];
    assert log[3] == s.log[3] && log[2] == s.log[2];
  }
}
