/**
  TBC: the Telecom Boundary Clock of pkg/linuxptp-daemon/pkg/clock/tbc.go.

  TbcState and the functions on it say what every operation does to the clock's fields; class TBC
  is the clock itself. DownstreamAnnounce.dfy puts any number of them beside their PMC fetches.
 */
module TelecomClock {
  import opened Options
  import opened SyncStates
  import opened Ipc
  import opened OsClocks

  const CLASS_UNINITIALIZED: nat := 0
  const CLASS_IN_SPEC: nat := 135
  const CLASS_OUT_OF_SPEC: nat := 165
  const CLASS_FREERUN: nat := 248
  const CLASS_SLAVE_ONLY: nat := 255
  const ACCURACY_UNKNOWN: nat := 0xFE

  /** `others` stands for the fields that are only compared. */
  datatype ParentDataSet = ParentDataSet(gmClass: nat, gmAccuracy: nat, gmVariance: nat, gmIdentity: string, others: string)

  datatype TimeProperties = TimeProperties(
    utcOffset: int, utcOffsetValid: bool, leap59: bool, leap61: bool,
    timeTraceable: bool, frequencyTraceable: bool, ptpTimescale: bool, timeSource: nat)

  const NO_PARENT := ParentDataSet(0, 0, 0, "", "")
  const NO_TIME := TimeProperties(0, false, false, false, false, false, false, 0)
  const LEADING_UNKNOWN := "unknown"
  const INTERNAL_OSCILLATOR: nat := 0xA0

  datatype TbcState = TbcState(
    sync: PTPState, clockClass: nat, accuracy: nat, leading: string, overall: PTPState,
    hasData: bool,                       // some process has reported since the last reset
    configuredLeading: string,
    params: LeadingClockParams,
    announceToken: nat)

  datatype LeadingClockParams = LeadingClockParams(
    upstreamTime: TimeProperties, upstreamParent: ParentDataSet, upstreamSteps: nat,
    downstreamTime: TimeProperties, downstreamParent: ParentDataSet,
    leadingInterface: string, controlledPorts: string,
    inSyncThreshold: int, inSyncTimes: int, toFreeRunThreshold: int, maxInSpecOffset: nat,
    holdoverDisabled: bool, lastInSpec: bool, inSyncCounter: nat, clockId: string)

  const NEW_PARAMS := LeadingClockParams(
    NO_TIME, NO_PARENT, 0, NO_TIME, NO_PARENT, "", "", 0, 0, 0, 0, false, false, 0, "")

  function NewTbc(configuredLeading: string, token: nat): TbcState {
    TbcState(NotSet, CLASS_UNINITIALIZED, ACCURACY_UNKNOWN, "", NotSet, false, configuredLeading, NEW_PARAMS, token)
  }

  /** What the collected process data says at the moment of an evaluation. */
  datatype Readings = Readings(
    sourceLost: bool,      // no ptp4l port is locked, or some DPLL is not
    worstOffset: int,      // getLargestOffset
    aboveFreeRun: bool,    // a leading DPLL or mean ptp4l offset is above toFreeRunThreshold
    followerFault: bool,   // hasNonLeadingDPLLFault
    withinSpec: bool)      // every leading DPLL offset is within maxInSpecOffset

  /** What surrounds the handling of an event; `nextToken` is the next announce token to be handed out. */
  datatype Moment = Moment(readings: Readings, os: PTPState, utcOffset: int, nextToken: nat)

  datatype Report =
    | FromPtp4l(controlledPorts: string, clockId: string)
    | FromDpll(iface: string, leadingSource: bool, holdoverDisabled: bool,
               inSyncThreshold: nat, inSyncTimes: nat, toFreeRunThreshold: nat, maxInSpecOffset: nat)
    | OtherReport

  datatype Event =
    | SyncE(iface: string, eec: string, ql: Option<nat>, extQl: Option<nat>)
    | ParentDs(parent: ParentDataSet)
    | Fetched(parent: ParentDataSet, time: TimeProperties, steps: nat, token: nat)
    | OtherPmc
    | ProcessReport(report: Report)

  // ------------------------------------------------------------------ conditions

  /** A Telecom Time Slave Clock: it knows its clock ID and controls no downstream ports. */
  predicate IsTtsc(s: TbcState) {
    s.params.clockId != "" && s.params.controlledPorts == ""
  }

  function LeadingInterface(s: TbcState): string {
    if s.params.leadingInterface != "" then s.params.leadingInterface
    else if s.configuredLeading != "" then s.configuredLeading
    else LEADING_UNKNOWN
  }

  function Abs(x: int): nat {
    if x < 0 then -x else x
  }

  predicate OffsetInRange(s: TbcState, r: Readings) {
    Abs(r.worstOffset) < s.params.inSyncThreshold
  }

  /** What evaluating the in-sync condition leaves behind; an unset threshold leaves everything as it was. */
  function Counted(s: TbcState, r: Readings): TbcState {
    if s.params.inSyncThreshold == 0 then s
    else s.(params := s.params.(inSyncCounter := if OffsetInRange(s, r) then s.params.inSyncCounter + 1 else 0))
  }

  function Evaluation(s: TbcState, r: Readings): Option<bool> {
    if s.params.inSyncThreshold == 0 then None else Some(OffsetInRange(s, r))
  }

  predicate InSync(s: TbcState, r: Readings) {
    s.params.inSyncThreshold != 0 && OffsetInRange(s, r) && s.params.inSyncCounter + 1 >= s.params.inSyncTimes
  }

  predicate FreeRun(s: TbcState, r: Readings) {
    s.params.toFreeRunThreshold == 0 || r.aboveFreeRun
  }

  predicate InSpec(s: TbcState, r: Readings) {
    s.params.maxInSpecOffset != 0 && r.withinSpec
  }

  // ------------------------------------------------------------------ the state machine

  /** `update`: the downstream ports should hear of it. `evaluated`: the outcome of the in-sync range check, if made. */
  datatype Decision = Decision(next: TbcState, update: bool, evaluated: Option<bool>)

  function Freed(s: TbcState): TbcState {
    s.(sync := Freerun, clockClass := CLASS_FREERUN)
  }

  function WithLastInSpec(s: TbcState, inSpec: bool): TbcState {
    s.(params := s.params.(lastInSpec := inSpec))
  }

  /** A transition does not change what makes a clock a T-TSC, its published state or its token. */
  predicate SameIdentity(s: TbcState, t: TbcState) {
    && s.params.clockId == t.params.clockId && s.params.controlledPorts == t.params.controlledPorts
    && s.overall == t.overall && s.announceToken == t.announceToken && s.hasData == t.hasData
  }

  function FromFreerun(s: TbcState, r: Readings): (d: Decision)
    ensures SameIdentity(s, d.next)
  {
    if r.sourceLost then Decision(s, false, None)
    else if InSync(s, r) then Decision(WithLastInSpec(Counted(s, r), true).(sync := Locked), true, Evaluation(s, r))
    else Decision(Counted(s, r), false, Evaluation(s, r))
  }

  function FollowUpstream(s: TbcState): TbcState {
    if s.params.upstreamParent.gmClass != CLASS_FREERUN && !IsTtsc(s)
    then s.(clockClass := s.params.upstreamParent.gmClass, accuracy := s.params.upstreamParent.gmAccuracy)
    else s
  }

  function FromLocked(s: TbcState, r: Readings): (d: Decision)
    ensures SameIdentity(s, d.next)
  {
    if FreeRun(s, r) || r.followerFault then Decision(Freed(s), true, None)
    else if r.sourceLost then
      if s.params.holdoverDisabled then Decision(Freed(s), true, None)
      else Decision(WithLastInSpec(s, true).(sync := Holdover, clockClass := CLASS_IN_SPEC), true, None)
    else
      var changed := s.params.upstreamTime != s.params.downstreamTime || s.params.upstreamParent != s.params.downstreamParent;
      var passed := s.params.(downstreamTime := s.params.upstreamTime, downstreamParent := s.params.upstreamParent);
      Decision(FollowUpstream(s.(params := passed)),
               changed && s.params.upstreamParent.gmClass != CLASS_FREERUN, None)
  }

  function FromHoldover(s: TbcState, r: Readings): (d: Decision)
    ensures SameIdentity(s, d.next)
  {
    if r.followerFault || FreeRun(s, r) then Decision(Freed(s), true, None)
    else if InSync(s, r) && !r.sourceLost then Decision(Counted(s, r).(sync := Locked), true, Evaluation(s, r))
    else
      var inSpec := s.params.lastInSpec && InSpec(s, r);
      var c := WithLastInSpec(Counted(s, r), inSpec);
      if s.params.lastInSpec == inSpec then Decision(Counted(s, r), false, Evaluation(s, r))
      else if !inSpec then Decision(c.(clockClass := CLASS_OUT_OF_SPEC), s.clockClass != CLASS_OUT_OF_SPEC, Evaluation(s, r))
      else Decision(c.(clockClass := CLASS_IN_SPEC), s.clockClass != CLASS_IN_SPEC, Evaluation(s, r))
  }

  function Transition(s: TbcState, r: Readings): (d: Decision)
    ensures SameIdentity(s, d.next)
  {
    match s.sync
    case NotSet => FromFreerun(s, r)
    case Freerun => FromFreerun(s, r)
    case Locked => FromLocked(s, r)
    case Holdover => FromHoldover(s, r)
    case Unknown => Decision(s, false, None)
  }

  /** Outside Locked the accuracy is unknown; a T-TSC always has the slave-only class. */
  function Finished(s: TbcState): TbcState {
    s.(accuracy := if s.sync != Locked then ACCURACY_UNKNOWN else s.accuracy,
       clockClass := if IsTtsc(s) then CLASS_SLAVE_ONLY else s.clockClass)
  }

  /** updateState. A clock without a leading interface waits; one without process data is in Freerun. */
  function UpdateState(s: TbcState, r: Readings): (d: Decision)
    ensures SameIdentity(s, d.next)
  {
    var leading := LeadingInterface(s);
    if leading == LEADING_UNKNOWN then Decision(s.(leading := leading), false, None)
    else if !s.hasData then
      Decision(Freed(s).(accuracy := ACCURACY_UNKNOWN, leading := leading), false, None)
    else
      var d := Transition(s.(leading := leading), r);
      var t := Finished(d.next);
      Decision(t, d.update && t.clockClass != CLASS_UNINITIALIZED && !IsTtsc(s), d.evaluated)
  }

  // ------------------------------------------------------------------ what the downstream ports are told

  datatype Announcement = Announcement(
    clockClass: nat, accuracy: nat, variance: nat, time: TimeProperties, gmIdentity: string, stepsRemoved: nat)

  /** announceLocalData, Table VIII.3 of Rec. ITU-T G.8275 (2024) Amd. 1. */
  function LocalAnnouncement(s: TbcState, utcOffset: int): Announcement {
    var none := NO_TIME.(timeSource := INTERNAL_OSCILLATOR);
    var down := s.params.downstreamTime;
    Announcement(s.clockClass, ACCURACY_UNKNOWN, 0xFFFF,
      if s.clockClass == CLASS_FREERUN then
        none.(ptpTimescale := true, utcOffset := utcOffset)
      else if s.clockClass == CLASS_OUT_OF_SPEC || s.clockClass == CLASS_IN_SPEC then
        none.(utcOffset := down.utcOffset, utcOffsetValid := down.utcOffsetValid,
              leap59 := down.leap59, leap61 := down.leap61, ptpTimescale := true,
              timeTraceable := s.clockClass == CLASS_IN_SPEC)
      else none,
      s.params.clockId, 0)
  }

  // ------------------------------------------------------------------ events

  /** `request`: a fetch started with this token. `applied`: the token of a fetch result that was applied. */
  datatype Effect = Effect(
    next: TbcState, sent: seq<Message>, evaluated: Option<bool>,
    request: Option<nat>, announced: Option<Announcement>, applied: Option<nat>)

  function StateMessages(profile: string, before: TbcState, after: TbcState): seq<Message> {
    (if after.sync != before.sync then [PtpState(profile, after.leading, after.sync)] else []) +
    (if after.clockClass != before.clockClass then [ClockClass(profile, "", after.clockClass)] else [])
  }

  /** evaluateState: update the state, then announce what changed and inform the downstream ports. */
  function Evaluate(profile: string, s: TbcState, now: Moment): Effect {
    Reported(profile, s, UpdateState(s, now.readings), now)
  }

  function Reported(profile: string, before: TbcState, d: Decision, now: Moment): Effect {
    var overall := WorstOf(d.next.sync, now.os);
    var sent := StateMessages(profile, before, d.next) + OverallChange(d.next.overall, overall, profile);
    var t := d.next.(overall := overall);
    if d.update && t.sync == Locked then
      Effect(t.(announceToken := now.nextToken), sent, d.evaluated, Some(now.nextToken), None, None)
    else if d.update then Effect(t, sent, d.evaluated, None, Some(LocalAnnouncement(t, now.utcOffset)), None)
    else Effect(t, sent, d.evaluated, None, None, None)
  }

  function Unchanged(s: TbcState): Effect {
    Effect(s, [], None, None, None, None)
  }

  predicate Applies(s: TbcState, ev: Event)
    requires ev.Fetched?
  {
    ev.token == s.announceToken && s.sync == Locked
  }

  function ApplyFetched(s: TbcState, ev: Event): Effect
    requires ev.Fetched?
  {
    if !Applies(s, ev) then Unchanged(s)
    else
      var p := s.params.(upstreamParent := ev.parent, upstreamTime := ev.time, upstreamSteps := ev.steps,
                         downstreamParent := ev.parent, downstreamTime := ev.time);
      Effect(s.(params := p), [], None, None,
             Some(Announcement(ev.parent.gmClass, ev.parent.gmAccuracy, ev.parent.gmVariance, ev.time,
                               ev.parent.gmIdentity, ev.steps)),
             Some(ev.token))
  }

  /** The thresholds, the leading interface, the ports and the clock ID may differ, nothing else. */
  predicate DifferInSetup(s: TbcState, t: TbcState) {
    && t.(params := s.params) == s
    && t.params.upstreamParent == s.params.upstreamParent && t.params.downstreamParent == s.params.downstreamParent
    && t.params.upstreamTime == s.params.upstreamTime && t.params.downstreamTime == s.params.downstreamTime
    && t.params.inSyncCounter == s.params.inSyncCounter && t.params.lastInSpec == s.params.lastInSpec
  }

  /** updateLeadingClockData: what a process report configures. */
  function Configured(s: TbcState, report: Report): (t: TbcState)
    ensures DifferInSetup(s, t)
  {
    var p := s.params;
    match report
    case OtherReport => s
    case FromPtp4l(ports, id) =>
      s.(params := p.(controlledPorts := if ports != "" then ports else p.controlledPorts,
                      clockId := if id != "" then id else p.clockId))
    case FromDpll(_, _, _, _, _, _, _) => WithThresholds(WithLeading(s, report), report)
  }

  /** The leading DPLL is matched by interface, so a report can name the leading interface and configure it at once. */
  function WithLeading(s: TbcState, report: Report): TbcState
    requires report.FromDpll?
  {
    var t := if report.leadingSource then s.(params := s.params.(leadingInterface := report.iface)) else s;
    if report.iface == LeadingInterface(t) then t.(params := t.params.(holdoverDisabled := report.holdoverDisabled)) else t
  }

  function WithThresholds(s: TbcState, report: Report): TbcState
    requires report.FromDpll?
  {
    s.(params := s.params.(
      inSyncThreshold := if report.inSyncThreshold != 0 then report.inSyncThreshold else s.params.inSyncThreshold,
      inSyncTimes := if report.inSyncTimes != 0 then report.inSyncTimes else s.params.inSyncTimes,
      toFreeRunThreshold := if report.toFreeRunThreshold != 0 then report.toFreeRunThreshold else s.params.toFreeRunThreshold,
      maxInSpecOffset := if report.maxInSpecOffset != 0 then report.maxInSpecOffset else s.params.maxInSpecOffset))
  }

  /** processSyncE: an EEC state and a quality level are passed on as they are. */
  function SyncEMessages(profile: string, ev: Event): seq<Message>
    requires ev.SyncE?
  {
    (if ev.eec != "" then [SyncEState(profile, ev.iface, ev.eec)] else []) +
    (if ev.ql.Some? || ev.extQl.Some? then
       [SyncEQuality(profile, ev.iface, if ev.ql.Some? then ev.ql.value else 0, if ev.extQl.Some? then ev.extQl.value else 0)]
     else [])
  }

  /** AddEvent. */
  function OnEvent(profile: string, s: TbcState, ev: Event, now: Moment): Effect {
    match ev
    case SyncE(_, _, _, _) => Unchanged(s).(sent := SyncEMessages(profile, ev))
    case OtherPmc => Unchanged(s)
    case ParentDs(parent) =>
      Evaluate(profile, s.(params := s.params.(upstreamParent := parent)), now)
    case Fetched(_, _, _, _) => ApplyFetched(s, ev)
    case ProcessReport(report) =>
      Evaluate(profile, Configured(s.(hasData := true), report), now)
  }

  function OnReset(s: TbcState, nextToken: nat): TbcState {
    NewTbc(s.configuredLeading, nextToken).(overall := Freerun)
  }

  // ------------------------------------------------------------------ what holds between events

  /** Every parameter that a report can set; `leading` is the leading interface that results. */
  predicate IsSetBy(p: LeadingClockParams, q: LeadingClockParams, report: Report, leading: string) {
    && q.controlledPorts == (if report.FromPtp4l? && report.controlledPorts != "" then report.controlledPorts else p.controlledPorts)
    && q.clockId == (if report.FromPtp4l? && report.clockId != "" then report.clockId else p.clockId)
    && q.inSyncThreshold == (if report.FromDpll? && report.inSyncThreshold != 0 then report.inSyncThreshold else p.inSyncThreshold)
    && q.inSyncTimes == (if report.FromDpll? && report.inSyncTimes != 0 then report.inSyncTimes else p.inSyncTimes)
    && q.toFreeRunThreshold
         == (if report.FromDpll? && report.toFreeRunThreshold != 0 then report.toFreeRunThreshold else p.toFreeRunThreshold)
    && q.maxInSpecOffset == (if report.FromDpll? && report.maxInSpecOffset != 0 then report.maxInSpecOffset else p.maxInSpecOffset)
    && q.leadingInterface == (if report.FromDpll? && report.leadingSource then report.iface else p.leadingInterface)
    && q.holdoverDisabled
         == (if report.FromDpll? && report.iface == leading then report.holdoverDisabled else p.holdoverDisabled)
  }

  /** The interface a DPLL reported as leading, or else the configured one, or else none. */
  predicate IsLeading(s: TbcState, leading: string) {
    leading == if s.params.leadingInterface != "" then s.params.leadingInterface
               else if s.configuredLeading != "" then s.configuredLeading else "unknown"
  }

  /**
    What a report leaves of every parameter: a ptp4l report its ports and clock ID unless they are empty, a DPLL
    report its thresholds unless they are zero, the leading interface if it is the leading source, and the holdover
    setting if it is on the leading interface then.
   */
  lemma ReportSets(s: TbcState, report: Report) returns (leading: string)
    ensures IsSetBy(s.params, Configured(s, report).params, report, leading) && IsLeading(Configured(s, report), leading)
  {
    leading := LeadingInterface(Configured(s, report));
  }

  /**
    A parent dataset and a report are an evaluation of the clock with what they bring, and of nothing else; an event
    of SyncE or another answer of pmc leaves the clock as it is.
   */
  lemma EventEvaluates(profile: string, s: TbcState, ev: Event, now: Moment) returns (u: TbcState, leading: string)
    ensures ev.ParentDs? || ev.ProcessReport? ==> OnEvent(profile, s, ev, now) == Evaluate(profile, u, now)
    ensures u.(params := s.params) == s.(hasData := s.hasData || ev.ProcessReport?) && IsLeading(u, leading)
    ensures IsSetBy(s.params, u.params, if ev.ProcessReport? then ev.report else OtherReport, leading)
    ensures u.params.upstreamParent == if ev.ParentDs? then ev.parent else s.params.upstreamParent
    ensures u.params.upstreamTime == s.params.upstreamTime && u.params.downstreamTime == s.params.downstreamTime
    ensures u.params.downstreamParent == s.params.downstreamParent && u.params.upstreamSteps == s.params.upstreamSteps
    ensures u.params.inSyncCounter == s.params.inSyncCounter && u.params.lastInSpec == s.params.lastInSpec
    ensures ev.SyncE? || ev.OtherPmc? ==>
      OnEvent(profile, s, ev, now).(sent := []) == Effect(s, [], None, None, None, None)
  {
    u, leading := s, LeadingInterface(s);
    match ev
    case ParentDs(parent) => u := s.(params := s.params.(upstreamParent := parent));
    case ProcessReport(report) =>
      u := Configured(s.(hasData := true), report);
      leading := ReportSets(s.(hasData := true), report);
    case _ =>
  }

  /** What an evaluation leaves as it is. */
  predicate KeepsSetup(s: TbcState, t: TbcState) {
    && t.hasData == s.hasData && t.configuredLeading == s.configuredLeading
    && IsSetBy(s.params, t.params, OtherReport, "")
    && t.params.upstreamParent == s.params.upstreamParent && t.params.upstreamTime == s.params.upstreamTime
    && t.params.upstreamSteps == s.params.upstreamSteps
  }

  lemma FreerunKeepsSetup(s: TbcState, r: Readings)
    ensures KeepsSetup(s, FromFreerun(s, r).next) && FromFreerun(s, r).next.leading == s.leading
  {}

  lemma LockedKeepsSetup(s: TbcState, r: Readings)
    ensures KeepsSetup(s, FromLocked(s, r).next) && FromLocked(s, r).next.leading == s.leading
  {}

  lemma HoldoverKeepsSetup(s: TbcState, r: Readings)
    ensures KeepsSetup(s, FromHoldover(s, r).next) && FromHoldover(s, r).next.leading == s.leading
  {}

  lemma TransitionKeepsSetup(s: TbcState, r: Readings) returns (t: TbcState)
    ensures t == Transition(s, r).next && KeepsSetup(s, t) && t.leading == s.leading
  {
    t := Transition(s, r).next;
    match s.sync
    case Locked => LockedKeepsSetup(s, r);
    case Holdover => HoldoverKeepsSetup(s, r);
    case Unknown =>
    case _ => FreerunKeepsSetup(s, r);
  }

  lemma UpdateKeepsSetup(s: TbcState, r: Readings) returns (t: TbcState)
    ensures t == UpdateState(s, r).next && KeepsSetup(s, t) && IsLeading(s, t.leading)
  {
    var u := TransitionKeepsSetup(s.(leading := LeadingInterface(s)), r);
    t := UpdateState(s, r).next;
    assert t.params == u.params || t.params == s.params;
  }

  lemma EvaluateKeepsSetup(profile: string, s: TbcState, now: Moment) returns (t: TbcState)
    ensures t == Evaluate(profile, s, now).next && KeepsSetup(s, t) && IsLeading(s, t.leading)
  {
    var u := UpdateKeepsSetup(s, now.readings);
    t := Evaluate(profile, s, now).next;
    assert t.(overall := u.overall, announceToken := u.announceToken) == u;
  }

  /**
    What an event leaves of what the clock knows: a report sets its parameters, a parent dataset or a result that is
    applied the upstream side, and only a report brings process data. Whatever else the event does, it keeps the rest.
   */
  lemma EventSets(profile: string, s: TbcState, ev: Event, now: Moment) returns (t: TbcState, leading: string)
    ensures t == OnEvent(profile, s, ev, now).next && IsLeading(t, leading)
    ensures t.hasData == (s.hasData || ev.ProcessReport?) && t.configuredLeading == s.configuredLeading
    ensures IsSetBy(s.params, t.params, if ev.ProcessReport? then ev.report else OtherReport, leading)
    ensures ev.ProcessReport? || ev.ParentDs? ==> t.leading == leading
    ensures var fetched := ev.Fetched? && ev.token == s.announceToken && s.sync == Locked;
      && t.params.upstreamParent == (if ev.ParentDs? || fetched then ev.parent else s.params.upstreamParent)
      && t.params.upstreamTime == (if fetched then ev.time else s.params.upstreamTime)
      && t.params.upstreamSteps == (if fetched then ev.steps else s.params.upstreamSteps)
  {
    match ev
    case ParentDs(parent) =>
      t := EvaluateKeepsSetup(profile, s.(params := s.params.(upstreamParent := parent)), now);
      leading := t.leading;
    case ProcessReport(report) =>
      leading := ReportSets(s.(hasData := true), report);
      t := ReportedSets(profile, s, report, leading, now);
    case _ =>
      t := OnEvent(profile, s, ev, now).next;
      leading := LeadingInterface(t);
  }

  lemma ReportedSets(profile: string, s: TbcState, report: Report, leading: string, now: Moment) returns (t: TbcState)
    requires var u := Configured(s.(hasData := true), report); IsSetBy(s.params, u.params, report, leading) && IsLeading(u, leading)
    ensures t == OnEvent(profile, s, ProcessReport(report), now).next && IsLeading(t, leading)
    ensures t.hasData && t.configuredLeading == s.configuredLeading && t.leading == leading
    ensures IsSetBy(s.params, t.params, report, leading)
    ensures t.params.upstreamParent == s.params.upstreamParent && t.params.upstreamTime == s.params.upstreamTime
    ensures t.params.upstreamSteps == s.params.upstreamSteps
  {
    var u := Configured(s.(hasData := true), report);
    t := EvaluateKeepsSetup(profile, u, now);
    SetOnce(s.params, u.params, t.params, report, leading);
  }

  lemma SetOnce(p: LeadingClockParams, q: LeadingClockParams, r: LeadingClockParams, report: Report, leading: string)
    requires IsSetBy(p, q, report, leading) && IsSetBy(q, r, OtherReport, "")
    ensures IsSetBy(p, r, report, leading)
  {}

  /** Nothing of what a clock knew survives a reset but its configured leading interface. */
  lemma ResetForgets(s: TbcState, t: TbcState, token: nat)
    ensures OnReset(s, token) == OnReset(t, token) <==> s.configuredLeading == t.configuredLeading
    ensures var r := OnReset(s, token);
      && r.sync == NotSet && r.clockClass == CLASS_UNINITIALIZED && r.overall == Freerun && r.announceToken == token
      && !r.hasData && r.params.upstreamParent == r.params.downstreamParent && r.params.inSyncCounter == 0 && r.params.clockId == ""
      && r.params.inSyncThreshold == r.params.toFreeRunThreshold == r.params.maxInSpecOffset == 0
  {}

  /** Properties of every clock, T-TSC or not. */
  predicate Good(s: TbcState) {
    && OnChain(s.sync)
    && s.params.upstreamTime == s.params.downstreamTime
    && (s.sync == Locked || s.sync == Holdover ==> s.hasData)
    && (s.sync == Freerun || s.sync == Holdover ==> s.clockClass != CLASS_UNINITIALIZED)
  }

  lemma UpdateKeepsGood(s: TbcState, r: Readings)
    requires Good(s)
    ensures Good(UpdateState(s, r).next)
  {
    var ready := s.(leading := LeadingInterface(s));
    match s.sync
    case Locked => LockedKeepsGood(ready, r);
    case Holdover => HoldoverKeepsGood(ready, r);
    case _ => FreerunKeepsGood(ready, r);
  }

  lemma LockedKeepsGood(s: TbcState, r: Readings)
    requires Good(s) && s.sync == Locked
    ensures Good(FromLocked(s, r).next)
  {}

  lemma HoldoverKeepsGood(s: TbcState, r: Readings)
    requires Good(s) && s.sync == Holdover
    ensures Good(FromHoldover(s, r).next)
  {}

  lemma FreerunKeepsGood(s: TbcState, r: Readings)
    requires Good(s) && (s.sync == NotSet || s.sync == Freerun)
    ensures s.hasData ==> Good(FromFreerun(s, r).next)
  {}

  lemma EvaluateKeepsGood(profile: string, s: TbcState, now: Moment)
    requires Good(s)
    ensures Good(Evaluate(profile, s, now).next)
  {
    UpdateKeepsGood(s, now.readings);
  }

  lemma EventKeepsGood(profile: string, s: TbcState, ev: Event, now: Moment)
    requires Good(s)
    ensures Good(OnEvent(profile, s, ev, now).next)
  {
    match ev
    case ParentDs(parent) =>
      EvaluateKeepsGood(profile, s.(params := s.params.(upstreamParent := parent)), now);
    case ProcessReport(report) =>
      EvaluateKeepsGood(profile, Configured(s.(hasData := true), report), now);
    case _ =>
  }

  /** The clock is set up: it has a leading interface and has heard from some process. */
  predicate Ready(s: TbcState) {
    s.hasData && LeadingInterface(s) != LEADING_UNKNOWN
  }

  /**
    Exactly which readings move a ready clock from which state to which: `enough` when the worst offset is within
    the threshold for the last time needed, `free` when the clock has no limit for free-running or is above it.
   */
  lemma TransitionTable(s: TbcState, r: Readings)
    requires Good(s) && Ready(s)
    ensures var t := UpdateState(s, r).next.sync;
      var enough := s.params.inSyncThreshold != 0 && -s.params.inSyncThreshold < r.worstOffset < s.params.inSyncThreshold
                    && s.params.inSyncCounter + 1 >= s.params.inSyncTimes;
      var free := s.params.toFreeRunThreshold == 0 || r.aboveFreeRun;
      && (s.sync != Locked ==> (t == Locked <==>
            enough && !r.sourceLost && (s.sync == Holdover ==> !free && !r.followerFault)))
      && (s.sync == Locked ==> (t == Freerun <==>
            free || r.followerFault || (r.sourceLost && s.params.holdoverDisabled)))
      && (s.sync == Locked ==> (t == Holdover <==>
            r.sourceLost && !s.params.holdoverDisabled && !free && !r.followerFault))
      && (s.sync == Holdover ==> (t == Freerun <==> free || r.followerFault))
      && (s.sync == NotSet || s.sync == Freerun ==> t == s.sync || t == Locked)
  {}

  /** When the range check is made, and what it leaves: one more evaluation in a row within range, or none. */
  lemma EvaluationCounts(s: TbcState, r: Readings)
    requires Ready(s) && OnChain(s.sync)
    ensures var d := UpdateState(s, r);
      var n, free := s.params.inSyncThreshold, s.params.toFreeRunThreshold == 0 || r.aboveFreeRun;
      var checked := n != 0 && (if s.sync == Holdover then !free && !r.followerFault else s.sync != Locked && !r.sourceLost);
      && d.evaluated == (if checked then Some(-n < r.worstOffset < n) else None)
      && d.next.params.inSyncCounter
           == (if !checked then s.params.inSyncCounter else if -n < r.worstOffset < n then s.params.inSyncCounter + 1 else 0)
  {}

  /** A holdover starts in spec, and stays in spec for as long as every reading is within a limit that is set. */
  lemma InSpecExactly(s: TbcState, r: Readings)
    requires Good(s) && Ready(s)
    ensures var t := UpdateState(s, r).next;
      && (t.sync == Holdover && s.sync != Holdover ==> t.params.lastInSpec)
      && (t.sync == s.sync == Holdover ==>
            (t.params.lastInSpec <==> s.params.lastInSpec && s.params.maxInSpecOffset != 0 && r.withinSpec))
  {}

  /** A T-TSC shows the class of a slave and asks for no announcement; outside Locked the accuracy is unknown. */
  lemma ReadyShows(s: TbcState, r: Readings)
    requires Ready(s)
    ensures var d := UpdateState(s, r);
      && (s.params.clockId != "" && s.params.controlledPorts == "" ==> d.next.clockClass == 255 && !d.update)
      && (d.next.sync != Locked ==> d.next.accuracy == 0xFE)
  {}

  /** A clock without a leading interface waits; one without process data is in Freerun with the class of that. */
  lemma WaitsForSetup(s: TbcState, r: Readings)
    requires !Ready(s)
    ensures var d := UpdateState(s, r);
      && !d.update && d.evaluated.None? && d.next.params == s.params
      && (d.next.leading == "unknown" ==> d.next == s.(leading := "unknown"))
      && (d.next.leading != "unknown" ==> !s.hasData && d.next.sync == Freerun && d.next.clockClass == 248 && d.next.accuracy == 0xFE)
  {}

  /** The state changes there are; NotSet is left for good until a reset. */
  predicate MayFollow(s: PTPState, t: PTPState) {
    || s == t
    || (s == NotSet && (t == Locked || t == Freerun))
    || (s == Freerun && t == Locked)
    || (s == Locked && (t == Holdover || t == Freerun))
    || (s == Holdover && (t == Locked || t == Freerun))
  }

  lemma UpdateTransitions(s: TbcState, r: Readings)
    requires Good(s)
    ensures MayFollow(s.sync, UpdateState(s, r).next.sync)
  {}

  lemma EventTransitions(profile: string, s: TbcState, ev: Event, now: Moment)
    requires Good(s)
    ensures MayFollow(s.sync, OnEvent(profile, s, ev, now).next.sync)
  {
    match ev
    case ParentDs(parent) =>
      UpdateTransitions(s.(params := s.params.(upstreamParent := parent)), now.readings);
    case ProcessReport(report) =>
      UpdateTransitions(Configured(s.(hasData := true), report), now.readings);
    case _ =>
  }

  /** The clock class a clock that is never a T-TSC shows outside Locked. */
  predicate ClassMatches(s: TbcState) {
    && (s.sync == NotSet ==> s.clockClass == CLASS_UNINITIALIZED)
    && (s.sync == Freerun ==> s.clockClass == CLASS_FREERUN)
    && (s.sync == Holdover ==> s.clockClass == if s.params.lastInSpec then CLASS_IN_SPEC else CLASS_OUT_OF_SPEC)
  }

  /** Without T-TSC the class matches the state; in one holdover it only ever moves from 135 to 165. */
  lemma UpdateKeepsClass(s: TbcState, r: Readings)
    requires Good(s) && ClassMatches(s) && !IsTtsc(s)
    ensures var t := UpdateState(s, r).next;
      && ClassMatches(t) && !IsTtsc(t) && ClassMayFollow(s, t)
      && (s.sync == Locked && t.sync == Holdover ==> t.clockClass == CLASS_IN_SPEC)
  {}

  /** What a holdover may show next: in spec it may go out of spec, out of spec it stays. */
  predicate ClassMayFollow(s: TbcState, t: TbcState) {
    s.sync == Holdover && t.sync == Holdover ==>
      t.clockClass == s.clockClass || (s.clockClass == CLASS_IN_SPEC && t.clockClass == CLASS_OUT_OF_SPEC)
  }

  lemma UpdateKeepsTtsc(s: TbcState, r: Readings)
    ensures IsTtsc(UpdateState(s, r).next) == IsTtsc(s)
  {}

  lemma EvaluateKeepsClass(profile: string, s: TbcState, now: Moment)
    requires Good(s) && ClassMatches(s)
    ensures var t := Evaluate(profile, s, now).next;
      !IsTtsc(t) ==> ClassMatches(t) && ClassMayFollow(s, t)
  {
    UpdateKeepsTtsc(s, now.readings);
    if !IsTtsc(s) {
      UpdateKeepsClass(s, now.readings);
    }
  }

  lemma EventKeepsClass(profile: string, s: TbcState, ev: Event, now: Moment)
    requires Good(s) && ClassMatches(s)
    ensures var t := OnEvent(profile, s, ev, now).next;
      !IsTtsc(t) ==> ClassMatches(t) && ClassMayFollow(s, t)
  {
    match ev
    case ParentDs(parent) =>
      EvaluateKeepsClass(profile, s.(params := s.params.(upstreamParent := parent)), now);
    case ProcessReport(report) =>
      EvaluateKeepsClass(profile, Configured(s.(hasData := true), report), now);
    case _ =>
  }

  /** The branch that would put a holdover back in spec is never taken. */
  lemma NeverBackInSpec(s: TbcState, r: Readings)
    requires s.sync == Holdover
    ensures UpdateState(s, r).next.params.lastInSpec ==> s.params.lastInSpec || UpdateState(s, r).next.sync == Locked
  {}

  /**
    What the clock tells its downstream ports when it is not Locked: its own class and identity, that it is the
    origin, with the time marked traceable exactly while a holdover is in spec; every other property of the time
    is that of an unlocked clock in Freerun and, in Holdover, the last one known.
   */
  lemma LocalAnnouncementFollowsState(profile: string, s: TbcState, now: Moment)
    requires Good(s) && ClassMatches(s) && !IsTtsc(s)
    ensures var e := Evaluate(profile, s, now);
      e.announced.Some? ==>
        var a, t := e.announced.value, e.next;
        && (t.sync == Freerun || t.sync == Holdover) && a.clockClass == t.clockClass && a.gmIdentity == t.params.clockId
        && a.accuracy == ACCURACY_UNKNOWN && a.variance == 0xFFFF && a.stepsRemoved == 0
        && a.time.ptpTimescale && !a.time.frequencyTraceable && a.time.timeSource == INTERNAL_OSCILLATOR
        && (a.time.timeTraceable <==> t.sync == Holdover && t.params.lastInSpec)
        && a.time.utcOffset == (if t.sync == Holdover then t.params.upstreamTime.utcOffset else now.utcOffset)
        && (t.sync == Freerun ==> !a.time.utcOffsetValid && !a.time.leap59 && !a.time.leap61)
        && (t.sync == Holdover ==>
              && a.time.utcOffsetValid == t.params.upstreamTime.utcOffsetValid
              && a.time.leap59 == t.params.upstreamTime.leap59 && a.time.leap61 == t.params.upstreamTime.leap61)
  {
    UpdateKeepsGood(s, now.readings);
    UpdateKeepsClass(s, now.readings);
    UpdateIsHeard(s, now.readings);
  }

  /**
    A fetched result is announced if and only if its token is the current one and the clock is Locked. What is
    announced then, and what the clock holds for both sides from then on, is what was fetched, field by field.
   */
  lemma FetchedIsAnnounced(profile: string, s: TbcState, ev: Event, now: Moment)
    requires ev.Fetched?
    ensures var e := OnEvent(profile, s, ev, now);
      && e.sent == [] && e.evaluated.None? && e.request.None?
      && (e.announced.Some? <==> ev.token == s.announceToken && s.sync == Locked)
      && e.applied == (if ev.token == s.announceToken && s.sync == Locked then Some(ev.token) else None)
      && (e.announced.None? ==> e.next == s)
      && (e.announced.Some? ==>
            var a, p := e.announced.value, e.next.params;
            && a.clockClass == ev.parent.gmClass && a.accuracy == ev.parent.gmAccuracy && a.variance == ev.parent.gmVariance
            && a.time == ev.time && a.gmIdentity == ev.parent.gmIdentity && a.stepsRemoved == ev.steps
            && p.upstreamParent == p.downstreamParent == ev.parent && p.upstreamTime == p.downstreamTime == ev.time
            && p.upstreamSteps == ev.steps
            && e.next.(params := s.params) == s
            && p.(upstreamParent := s.params.upstreamParent, downstreamParent := s.params.downstreamParent,
                  upstreamTime := s.params.upstreamTime, downstreamTime := s.params.downstreamTime,
                  upstreamSteps := s.params.upstreamSteps) == s.params)
  {}

  /** Locked, a clock that is no T-TSC shows the class and accuracy of its upstream grandmaster, unless that is free-running. */
  lemma LockedFollowsUpstream(s: TbcState, r: Readings)
    requires Good(s) && Ready(s) && s.sync == Locked && UpdateState(s, r).next.sync == Locked
    ensures var t := UpdateState(s, r).next;
      && t.params == s.params.(downstreamTime := s.params.upstreamTime, downstreamParent := s.params.upstreamParent)
      && (!IsTtsc(s) && s.params.upstreamParent.gmClass != CLASS_FREERUN ==>
            t.clockClass == s.params.upstreamParent.gmClass && t.accuracy == s.params.upstreamParent.gmAccuracy)
      && (!IsTtsc(s) && s.params.upstreamParent.gmClass == CLASS_FREERUN ==>
            t.clockClass == s.clockClass && t.accuracy == s.accuracy)
  {}

  predicate DatasetsDiffer(s: TbcState) {
    s.params.upstreamTime != s.params.downstreamTime || s.params.upstreamParent != s.params.downstreamParent
  }

  /** When a fetch is started, and when local data are announced instead, of a clock that is no T-TSC. */
  lemma DownstreamHearsExactly(profile: string, s: TbcState, now: Moment)
    requires Good(s) && Ready(s) && !IsTtsc(s)
    ensures var e := Evaluate(profile, s, now);
      var t := e.next;
      && (e.request.Some? <==>
            && t.sync == Locked && t.clockClass != CLASS_UNINITIALIZED
            && (s.sync != Locked || (DatasetsDiffer(s) && s.params.upstreamParent.gmClass != CLASS_FREERUN)))
      && (e.request.Some? ==> e.request.value == now.nextToken == t.announceToken)
      && (e.announced.Some? <==>
            && t.sync != Locked
            && (((s.sync == Locked || s.sync == Holdover) && t.sync != s.sync)
                || (s.sync == t.sync == Holdover && t.clockClass != s.clockClass)))
  {
    DecisionIsHeardExactly(s, now.readings);
  }

  lemma DecisionIsHeardExactly(s: TbcState, r: Readings)
    requires Good(s) && Ready(s) && !IsTtsc(s)
    ensures var d := UpdateState(s, r);
      && (d.next.sync == Locked ==>
            (d.update <==> d.next.clockClass != CLASS_UNINITIALIZED
                           && (s.sync != Locked || (DatasetsDiffer(s) && s.params.upstreamParent.gmClass != CLASS_FREERUN))))
      && (d.next.sync != Locked ==>
            (d.update <==> ((s.sync == Locked || s.sync == Holdover) && d.next.sync != s.sync)
                           || (s.sync == d.next.sync == Holdover && d.next.clockClass != s.clockClass)))
  {
    var ready := s.(leading := LeadingInterface(s));
    if s.sync == Locked {
      assert UpdateState(s, r).next == Finished(FromLocked(ready, r).next);
    } else if s.sync == Holdover {
      assert UpdateState(s, r).next == Finished(FromHoldover(ready, r).next);
    } else {
      assert UpdateState(s, r).next == Finished(FromFreerun(ready, r).next);
    }
  }

  lemma UpdateIsHeard(s: TbcState, r: Readings)
    requires Good(s)
    ensures UpdateState(s, r).update ==> UpdateState(s, r).next.sync in {Freerun, Locked, Holdover} && !IsTtsc(s)
  {}

  // ------------------------------------------------------------------ what is published

  /** A sync_state is published exactly when the overall state changes, and it is the worst of clock and OS clock. */
  lemma EvaluateReconciles(profile: string, s: TbcState, now: Moment)
    ensures var e := Evaluate(profile, s, now);
      && e.next.overall == WorstOf(e.next.sync, now.os)
      && Published(e.sent) == if e.next.overall != s.overall then [e.next.overall] else []
  {
    var d := UpdateState(s, now.readings);
    assert d.next.overall == s.overall;
    ReportedReconciles(profile, s, d, now);
  }

  lemma SyncEIsSilent(profile: string, ev: Event)
    requires ev.SyncE?
    ensures Published(SyncEMessages(profile, ev)) == []
  {
    var state := if ev.eec != "" then [SyncEState(profile, ev.iface, ev.eec)] else [];
    var quality := SyncEMessages(profile, ev.(eec := ""));
    PublishedOne(SyncEState(profile, ev.iface, ev.eec));
    if quality != [] {
      PublishedOne(quality[0]);
    }
    PublishedAppend(state, quality);
  }

  function ViewOf(s: TbcState): View {
    View(s.sync, s.clockClass, s.overall)
  }

  /** The SyncE messages of an event: the EEC state and the quality it carries. */
  function SyncEOf(profile: string, ev: Event): seq<Message> {
    if !ev.SyncE? then []
    else
      (if ev.eec == "" then [] else [SyncEState(profile, ev.iface, ev.eec)])
      + (match (ev.ql, ev.extQl)
         case (None, None) => []
         case (Some(ql), None) => [SyncEQuality(profile, ev.iface, ql, 0)]
         case (None, Some(extQl)) => [SyncEQuality(profile, ev.iface, 0, extQl)]
         case (Some(ql), Some(extQl)) => [SyncEQuality(profile, ev.iface, ql, extQl)])
  }

  /**
    Everything an event sends: the clock's own state, on the leading interface, its class and the overall state,
    each exactly if it changed, or what a SyncE event carries. In this order, and nothing else.
   */
  lemma EventSends(profile: string, s: TbcState, ev: Event, now: Moment)
    ensures var e := OnEvent(profile, s, ev, now);
      var t := e.next;
      e.sent
        == (if t.sync != s.sync then [PtpState(profile, t.leading, t.sync)] else [])
         + (if t.clockClass != s.clockClass then [ClockClass(profile, "", t.clockClass)] else [])
         + (if t.overall != s.overall then [SyncState(profile, t.overall)] else [])
         + SyncEOf(profile, ev)
  {
    match ev
    case ParentDs(parent) => EvaluateSends(profile, s.(params := s.params.(upstreamParent := parent)), s, now);
    case ProcessReport(report) => EvaluateSends(profile, Configured(s.(hasData := true), report), s, now);
    case _ =>
  }

  lemma EvaluateSends(profile: string, u: TbcState, s: TbcState, now: Moment)
    requires ViewOf(u) == ViewOf(s)
    ensures var e := Evaluate(profile, u, now);
      e.sent == Changes(ViewOf(s), ViewOf(e.next), profile, e.next.leading, "") + []
  {
    ReportedSends(profile, u, UpdateState(u, now.readings), now);
  }

  lemma ReportedSends(profile: string, before: TbcState, d: Decision, now: Moment)
    requires d.next.overall == before.overall
    ensures var e := Reported(profile, before, d, now);
      e.sent == Changes(ViewOf(before), ViewOf(e.next), profile, e.next.leading, "")
  {}

  /** A consumer that knew the clock before an event knows it after the event's messages. */
  lemma EventIsHeard(profile: string, s: TbcState, ev: Event, now: Moment)
    ensures var e := OnEvent(profile, s, ev, now); Heard(ViewOf(s), e.sent, profile) == ViewOf(e.next)
  {
    var e := OnEvent(profile, s, ev, now);
    EventSends(profile, s, ev, now);
    var changes := Changes(ViewOf(s), ViewOf(e.next), profile, e.next.leading, "");
    ChangesAreHeard(ViewOf(s), ViewOf(e.next), profile, e.next.leading, "");
    HeardAppend(ViewOf(s), changes, SyncEOf(profile, ev), profile);
    SyncEIsNotHeard(ViewOf(e.next), profile, ev);
  }

  lemma SyncEIsNotHeard(v: View, profile: string, ev: Event)
    ensures Heard(v, SyncEOf(profile, ev), profile) == v
  {
    if ev.SyncE? {
      var state := if ev.eec == "" then [] else [SyncEState(profile, ev.iface, ev.eec)];
      var quality := SyncEOf(profile, ev.(eec := ""));
      HeardAppend(v, state, quality, profile);
      HeardOne(v, SyncEState(profile, ev.iface, ev.eec), profile);
      if quality != [] {
        HeardOne(v, quality[0], profile);
      }
    }
  }

  lemma EventReconciles(profile: string, s: TbcState, ev: Event, now: Moment)
    requires s.overall == WorstOf(s.sync, now.os)
    ensures var e := OnEvent(profile, s, ev, now);
      && e.next.overall == WorstOf(e.next.sync, now.os)
      && Published(e.sent) == if e.next.overall != s.overall then [e.next.overall] else []
  {
    match ev
    case SyncE(_, _, _, _) => SyncEIsSilent(profile, ev);
    case ParentDs(_) => ParentReconciles(profile, s, ev, now);
    case ProcessReport(_) => ReportReconciles(profile, s, ev, now);
    case Fetched(_, _, _, _) =>
    case OtherPmc =>
  }

  lemma ParentReconciles(profile: string, s: TbcState, ev: Event, now: Moment)
    requires s.overall == WorstOf(s.sync, now.os) && ev.ParentDs?
    ensures var e := OnEvent(profile, s, ev, now);
      && e.next.overall == WorstOf(e.next.sync, now.os)
      && Published(e.sent) == if e.next.overall != s.overall then [e.next.overall] else []
  {
    EvaluateReconciles(profile, s.(params := s.params.(upstreamParent := ev.parent)), now);
  }

  lemma ReportReconciles(profile: string, s: TbcState, ev: Event, now: Moment)
    requires s.overall == WorstOf(s.sync, now.os) && ev.ProcessReport?
    ensures var e := OnEvent(profile, s, ev, now);
      && e.next.overall == WorstOf(e.next.sync, now.os)
      && Published(e.sent) == if e.next.overall != s.overall then [e.next.overall] else []
  {
    var u := Configured(s.(hasData := true), ev.report);
    assert u.overall == s.overall;
    EvaluateReconciles(profile, u, now);
  }

  lemma ReportedReconciles(profile: string, before: TbcState, d: Decision, now: Moment)
    ensures var e := Reported(profile, before, d, now);
      && e.next.overall == WorstOf(d.next.sync, now.os) && e.next.sync == d.next.sync
      && Published(e.sent) == if e.next.overall != d.next.overall then [e.next.overall] else []
  {
    var overall := WorstOf(d.next.sync, now.os);
    StateMessagesAreSilent(profile, before, d.next);
    OverallChangePublishes(d.next.overall, overall, profile);
    PublishedAppend(StateMessages(profile, before, d.next), OverallChange(d.next.overall, overall, profile));
  }

  lemma StateMessagesAreSilent(profile: string, before: TbcState, after: TbcState)
    ensures Published(StateMessages(profile, before, after)) == []
  {
    var port := if after.sync != before.sync then [PtpState(profile, after.leading, after.sync)] else [];
    var cls := if after.clockClass != before.clockClass then [ClockClass(profile, "", after.clockClass)] else [];
    PublishedOne(PtpState(profile, after.leading, after.sync));
    PublishedOne(ClockClass(profile, "", after.clockClass));
    PublishedAppend(port, cls);
  }

  // ------------------------------------------------------------------ the clock itself

  /** announceSeq: hands out tokens that are unique in the process and increasing. */
  class AnnounceSeq {
    var last: nat

    constructor ()
      ensures last == 0
    {
      last := 0;
    }

    method Next() returns (token: nat)
      modifies this
      ensures token == last == old(last) + 1
    {
      last := last + 1;
      token := last;
    }
  }

  class TBC {
    const profile: string
    const announceSeq: AnnounceSeq
    var osClock: OsClock
    var sync: PTPState
    var clockClass: nat
    var accuracy: nat
    var leading: string
    var overall: PTPState
    var hasData: bool
    var configuredLeading: string
    var params: LeadingClockParams
    var announceToken: nat

    function State(): TbcState
      reads this
    {
      TbcState(sync, clockClass, accuracy, leading, overall, hasData, configuredLeading, params, announceToken)
    }

    constructor (profile: string, announceSeq: AnnounceSeq, osClock: OsClock, configuredLeading: string)
      modifies announceSeq
      ensures this.profile == profile && this.announceSeq == announceSeq && this.osClock == osClock
      ensures announceSeq.last == old(announceSeq.last) + 1
      ensures State() == NewTbc(configuredLeading, announceSeq.last)
    {
      this.profile, this.announceSeq, this.osClock, this.configuredLeading := profile, announceSeq, osClock, configuredLeading;
      sync, clockClass, accuracy, leading, overall := NotSet, CLASS_UNINITIALIZED, ACCURACY_UNKNOWN, "", NotSet;
      hasData, params := false, NEW_PARAMS;
      var token := announceSeq.Next();
      announceToken := token;
    }

    method AddEvent(ev: Event, readings: Readings, utcOffset: int)
      returns (sent: seq<Message>, evaluated: Option<bool>, request: Option<nat>,
               announced: Option<Announcement>, applied: Option<nat>)
      modifies this, announceSeq
      ensures Effect(State(), sent, evaluated, request, announced, applied)
        == OnEvent(profile, old(State()), ev, Moment(readings, osClock.state, utcOffset, old(announceSeq.last) + 1))
      ensures announceSeq.last == old(announceSeq.last) + if request.Some? then 1 else 0
      ensures osClock == old(osClock)
    {
      sent, evaluated, request, announced, applied := [], None, None, None, None;
      match ev
      case SyncE(_, _, _, _) =>
        sent := SyncEMessages(profile, ev);
      case OtherPmc =>
      case ParentDs(parent) =>
        if parent != params.upstreamParent {
          params := params.(upstreamParent := parent);
        }
        sent, evaluated, request, announced := EvaluateState(readings, utcOffset);
      case Fetched(_, _, _, _) =>
        announced, applied := HandleDownstreamAnnounce(ev);
      case ProcessReport(report) =>
        hasData := true;
        UpdateLeadingClockData(report);
        sent, evaluated, request, announced := EvaluateState(readings, utcOffset);
    }

    method EvaluateState(readings: Readings, utcOffset: int)
      returns (sent: seq<Message>, evaluated: Option<bool>, request: Option<nat>, announced: Option<Announcement>)
      modifies this, announceSeq
      ensures Effect(State(), sent, evaluated, request, announced, None)
        == Evaluate(profile, old(State()), Moment(readings, osClock.state, utcOffset, old(announceSeq.last) + 1))
      ensures announceSeq.last == old(announceSeq.last) + if request.Some? then 1 else 0
      ensures osClock == old(osClock)
    {
      ghost var before := State();
      var prevSync, prevClass := sync, clockClass;
      var update;
      update, evaluated := UpdateStateMachine(readings);
      sent, request, announced := ReportDecision(before, prevSync, prevClass, update, evaluated, readings, utcOffset);
    }

    method ReportDecision(ghost before: TbcState, prevSync: PTPState, prevClass: nat, update: bool,
                          ghost evaluated: Option<bool>, ghost readings: Readings, utcOffset: int)
      returns (sent: seq<Message>, request: Option<nat>, announced: Option<Announcement>)
      requires before.sync == prevSync && before.clockClass == prevClass
      modifies this, announceSeq
      ensures Effect(State(), sent, evaluated, request, announced, None)
        == Reported(profile, before, Decision(old(State()), update, evaluated),
                    Moment(readings, osClock.state, utcOffset, old(announceSeq.last) + 1))
      ensures announceSeq.last == old(announceSeq.last) + if request.Some? then 1 else 0
      ensures osClock == old(osClock)
    {
      var changes := if sync != prevSync then [PtpState(profile, leading, sync)] else [];
      changes := changes + if clockClass != prevClass then [ClockClass(profile, "", clockClass)] else [];
      var overallMessage := SystemClockUpdate();
      sent := changes + overallMessage;
      request, announced := None, None;
      if update {
        request, announced := UpdateDownstreamData(utcOffset);
      }
    }

    method UpdateDownstreamData(utcOffset: int) returns (request: Option<nat>, announced: Option<Announcement>)
      modifies this`announceToken, announceSeq
      ensures State() == if sync == Locked then old(State()).(announceToken := announceSeq.last) else old(State())
      ensures announceSeq.last == old(announceSeq.last) + if request.Some? then 1 else 0
      ensures request == if sync == Locked then Some(announceSeq.last) else None
      ensures announced == if sync == Locked then None else Some(LocalAnnouncement(old(State()), utcOffset))
    {
      if sync != Locked {
        return None, Some(LocalAnnouncement(State(), utcOffset));
      }
      announceToken := announceSeq.Next();
      request, announced := Some(announceToken), None;
    }

    method SystemClockUpdate() returns (sent: seq<Message>)
      modifies this`overall
      ensures State() == old(State()).(overall := WorstOf(sync, osClock.state))
      ensures sent == OverallChange(old(overall), overall, profile)
    {
      var next := WorstOf(sync, osClock.state);
      sent := OverallChange(overall, next, profile);
      overall := next;
    }

    method HandleDownstreamAnnounce(ev: Event) returns (announced: Option<Announcement>, applied: Option<nat>)
      requires ev.Fetched?
      modifies this`params
      ensures Effect(State(), [], None, None, announced, applied) == ApplyFetched(old(State()), ev)
    {
      if ev.token != announceToken || sync != Locked {
        return None, None;
      }
      params := params.(upstreamParent := ev.parent, upstreamTime := ev.time, upstreamSteps := ev.steps);
      announced := Some(Announcement(ev.parent.gmClass, ev.parent.gmAccuracy, ev.parent.gmVariance, ev.time,
                                     ev.parent.gmIdentity, ev.steps));
      params := params.(downstreamParent := ev.parent, downstreamTime := ev.time);
      applied := Some(ev.token);
    }

    method UpdateLeadingClockData(report: Report)
      modifies this`params
      ensures State() == Configured(old(State()), report)
    {
      match report
      case OtherReport =>
      case FromPtp4l(ports, id) =>
        if ports != "" { params := params.(controlledPorts := ports); }
        if id != "" { params := params.(clockId := id); }
      case FromDpll(_, _, _, _, _, _, _) =>
        if report.leadingSource { params := params.(leadingInterface := report.iface); }
        if report.iface == LeadingInterface(State()) { params := params.(holdoverDisabled := report.holdoverDisabled); }
        UpdateThresholds(report);
    }

    method UpdateThresholds(report: Report)
      requires report.FromDpll?
      modifies this`params
      ensures State() == WithThresholds(old(State()), report)
    {
      if report.inSyncThreshold != 0 { params := params.(inSyncThreshold := report.inSyncThreshold); }
      if report.inSyncTimes != 0 { params := params.(inSyncTimes := report.inSyncTimes); }
      if report.toFreeRunThreshold != 0 { params := params.(toFreeRunThreshold := report.toFreeRunThreshold); }
      if report.maxInSpecOffset != 0 { params := params.(maxInSpecOffset := report.maxInSpecOffset); }
    }

    /** inSyncCondition counts consecutive in-range evaluations and says whether there have been enough. */
    method InSyncCondition(readings: Readings) returns (inSync: bool, evaluated: Option<bool>)
      modifies this`params
      ensures State() == Counted(old(State()), readings)
      ensures inSync == InSync(old(State()), readings) && evaluated == Evaluation(old(State()), readings)
    {
      if params.inSyncThreshold == 0 {
        return false, None;
      }
      if Abs(readings.worstOffset) < params.inSyncThreshold {
        params := params.(inSyncCounter := params.inSyncCounter + 1);
        if params.inSyncCounter >= params.inSyncTimes {
          return true, Some(true);
        }
        return false, Some(true);
      }
      params := params.(inSyncCounter := 0);
      return false, Some(false);
    }

    method FromFreerunState(readings: Readings) returns (update: bool, evaluated: Option<bool>)
      modifies this
      ensures Decision(State(), update, evaluated) == FromFreerun(old(State()), readings)
      ensures osClock == old(osClock)
    {
      update, evaluated := false, None;
      if !readings.sourceLost {
        var inSync;
        inSync, evaluated := InSyncCondition(readings);
        if inSync {
          sync := Locked;
          params := params.(lastInSpec := true);
          update := true;
        }
      }
    }

    method FromLockedState(readings: Readings) returns (update: bool, evaluated: Option<bool>)
      modifies this
      ensures Decision(State(), update, evaluated) == FromLocked(old(State()), readings)
      ensures osClock == old(osClock)
    {
      update, evaluated := false, None;
      if FreeRun(State(), readings) || readings.followerFault {
        sync, clockClass, update := Freerun, CLASS_FREERUN, true;
      } else if readings.sourceLost {
        if params.holdoverDisabled {
          sync, clockClass := Freerun, CLASS_FREERUN;
        } else {
          sync, clockClass := Holdover, CLASS_IN_SPEC;
          params := params.(lastInSpec := true);
        }
        update := true;
      } else {
        if params.upstreamTime != params.downstreamTime {
          params := params.(downstreamTime := params.upstreamTime);
          update := true;
        }
        if params.upstreamParent != params.downstreamParent {
          params := params.(downstreamParent := params.upstreamParent);
          update := true;
        }
        if params.upstreamParent.gmClass == CLASS_FREERUN {
          update := false;
        } else if !IsTtsc(State()) {
          clockClass, accuracy := params.upstreamParent.gmClass, params.upstreamParent.gmAccuracy;
        }
      }
    }

    method FromHoldoverState(readings: Readings) returns (update: bool, evaluated: Option<bool>)
      modifies this
      ensures Decision(State(), update, evaluated) == FromHoldover(old(State()), readings)
      ensures osClock == old(osClock)
    {
      update, evaluated := false, None;
      if readings.followerFault || FreeRun(State(), readings) {
        sync, clockClass, update := Freerun, CLASS_FREERUN, true;
        return;
      }
      var inSync;
      inSync, evaluated := InSyncCondition(readings);
      if inSync && !readings.sourceLost {
        sync, update := Locked, true;
        return;
      }
      var inSpec := params.lastInSpec && InSpec(State(), readings);
      if params.lastInSpec != inSpec {
        params := params.(lastInSpec := inSpec);
        var reported := if inSpec then CLASS_IN_SPEC else CLASS_OUT_OF_SPEC;
        if clockClass != reported {
          clockClass, update := reported, true;
        }
      }
    }

    method UpdateStateMachine(readings: Readings) returns (update: bool, evaluated: Option<bool>)
      modifies this
      ensures Decision(State(), update, evaluated) == UpdateState(old(State()), readings)
      ensures osClock == old(osClock)
    {
      update, evaluated := false, None;
      leading := LeadingInterface(State());
      if leading == LEADING_UNKNOWN {
        return;
      }
      if !hasData {
        sync, clockClass, accuracy := Freerun, CLASS_FREERUN, ACCURACY_UNKNOWN;
        return;
      }
      update, evaluated := TransitionState(readings);
      FinishState();
      update := update && clockClass != CLASS_UNINITIALIZED && !IsTtsc(State());
    }

    method TransitionState(readings: Readings) returns (update: bool, evaluated: Option<bool>)
      modifies this
      ensures Decision(State(), update, evaluated) == Transition(old(State()), readings)
      ensures osClock == old(osClock)
    {
      update, evaluated := false, None;
      match sync {
        case NotSet => update, evaluated := FromFreerunState(readings);
        case Freerun => update, evaluated := FromFreerunState(readings);
        case Locked => update, evaluated := FromLockedState(readings);
        case Holdover => update, evaluated := FromHoldoverState(readings);
        case Unknown =>
      }
    }

    method FinishState()
      modifies this`accuracy, this`clockClass
      ensures State() == Finished(old(State()))
    {
      if sync != Locked {
        accuracy := ACCURACY_UNKNOWN;
      }
      if IsTtsc(State()) {
        clockClass := CLASS_SLAVE_ONLY;
      }
    }

    method Reset()
      modifies this, announceSeq, osClock
      ensures announceSeq.last == old(announceSeq.last) + 1 && osClock == old(osClock) && osClock.state == Freerun
      ensures State() == OnReset(old(State()), announceSeq.last)
    {
      osClock.Reset();
      params, hasData := NEW_PARAMS, false;
      sync, clockClass, accuracy, leading := NotSet, CLASS_UNINITIALIZED, ACCURACY_UNKNOWN, "";
      overall := Freerun;
      announceToken := announceSeq.Next();
    }
  }
}
