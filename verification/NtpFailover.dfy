/**
  NtpFailover: the GNSS failover state machine of
  pkg/linuxptp-daemon/addons/generic/ntpfailover.go, driven by log lines.

  Times and durations are in any one unit. The machine is driven by one log line at a time, the one that
  holds the lock; other lines and configurations can come between any two turns of its loop.
 */
module NtpFailover {
  import opened Options
  import opened Sequences

  datatype Fsm = StartupDefault | Active | OutOfSpec | Failover

  datatype Event = GnssRecovered | GnssFailover

  /** The plugin after some operations, with every event it was due to emit. */
  datatype Plugin = Plugin(enabled: bool, fsm: Fsm, expiry: int, tolerance: int, trace: seq<Event>)

  const INITIAL := Plugin(false, StartupDefault, 0, 0, [])

  datatype Op =
    | Configure(enable: bool, startupDelay: int, ts2phcTolerance: int, now: int)
    | LogLine(isTs2phc: bool, hasS3Offset: bool, now: int)

  /** Where the machine comes to rest, given whether the line is from ts2phc. */
  function Rest(fsm: Fsm, isTs2phc: bool, now: int, expiry: int): Fsm {
    if isTs2phc && now > expiry then Failover
    else if fsm == StartupDefault || (fsm == Failover && isTs2phc && now < expiry) then Active
    else fsm
  }

  /** What it emits on the way. */
  function Emitted(fsm: Fsm, isTs2phc: bool, now: int, expiry: int): seq<Event> {
    (if fsm == StartupDefault then [GnssRecovered]
     else if fsm == Failover && isTs2phc && now < expiry then [GnssRecovered, GnssRecovered]
     else [])
    + (if fsm != Failover && isTs2phc && now > expiry then [GnssFailover] else [])
  }

  predicate IsHealthyLine(op: Op) {
    op.LogLine? && op.isTs2phc && op.hasS3Offset
  }

  /** What an operation writes without the lock. */
  function Noted(p: Plugin, op: Op): Plugin {
    match op
    case Configure(enable, startupDelay, ts2phcTolerance, now) =>
      p.(enabled := enable, expiry := now + startupDelay, tolerance := ts2phcTolerance)
    case LogLine(_, _, now) =>
      if p.enabled && IsHealthyLine(op) then p.(expiry := now + p.tolerance) else p
  }

  /** An operation that nothing comes between; a line that finds the lock taken leaves the machine alone. */
  function Handled(p: Plugin, op: Op, locked: bool): Plugin {
    var q := Noted(p, op);
    if op.Configure? || !p.enabled || locked then q
    else
      q.(fsm := Rest(p.fsm, op.isTs2phc, op.now, q.expiry),
         trace := p.trace + Emitted(p.fsm, op.isTs2phc, op.now, q.expiry))
  }

  /** The line emits a failover. */
  predicate FailsOver(p: Plugin, op: Op) {
    var trace := Handled(p, op, false).trace;
    |trace| > |p.trace| && trace[|trace| - 1] == GnssFailover
  }

  /** A failover is emitted exactly on a ts2phc line strictly after the expiry, unless the machine has failed over already. */
  lemma FailoverExactly(p: Plugin, op: Op)
    ensures FailsOver(p, op)
      <==> op.LogLine? && p.enabled && op.isTs2phc && op.now > Handled(p, op, false).expiry && p.fsm != Failover
  {
    if op.LogLine? && p.enabled {
      var e := Emitted(p.fsm, op.isTs2phc, op.now, Noted(p, op).expiry);
      assert Handled(p, op, false).trace == p.trace + e;
    }
  }

  /** A failed-over machine recovers exactly on a ts2phc line strictly before the expiry. */
  lemma RecoveryExactly(p: Plugin, op: Op)
    requires p.fsm == Failover
    ensures Handled(p, op, false).fsm == Active
      <==> op.LogLine? && p.enabled && op.isTs2phc && op.now < Handled(p, op, false).expiry
  {}

  /**
    Where a line leaves the machine, and how many events it emits: failed over by a stale line, and until a line
    before the expiry; out of spec only from there; and Active otherwise, from the start on with any line.
   */
  lemma RestsExactly(p: Plugin, op: Op)
    requires p.enabled && op.LogLine?
    ensures var q := Handled(p, op, false);
      var stale, early := op.isTs2phc && op.now > q.expiry, op.isTs2phc && op.now < q.expiry;
      && (q.fsm == Failover <==> stale || (p.fsm == Failover && !early))
      && (q.fsm == OutOfSpec <==> p.fsm == OutOfSpec && !stale)
      && q.fsm != StartupDefault
      && |q.trace| - |p.trace| == (if p.fsm == StartupDefault then 1 else if p.fsm == Failover && early then 2 else 0)
                                  + (if p.fsm != Failover && stale then 1 else 0)
  {}

  /**
    With a positive tolerance one healthy line brings the machine back to Active from wherever it rests,
    out of spec excepted.
   */
  lemma HealthyLineRecovers(p: Plugin, op: Op)
    requires p.enabled && p.tolerance > 0 && IsHealthyLine(op)
    ensures Handled(p, op, false).fsm == Active <==> p.fsm != OutOfSpec
    ensures !FailsOver(p, op)
  {
    FailoverExactly(p, op);
  }

  /** A negative tolerance is accepted from the configuration, and then every healthy line fails over. */
  lemma NegativeToleranceFailsOver(p: Plugin, op: Op)
    requires p.enabled && IsHealthyLine(op) && p.fsm != Failover
    ensures FailsOver(p, op) <==> p.tolerance < 0
  {
    FailoverExactly(p, op);
  }

  // ------------------------------------------------------------------ lines at the same time

  /** The line that holds the lock. */
  datatype Driver = Driver(isTs2phc: bool, now: int)

  datatype System = System(plugin: Plugin, driver: Option<Driver>)

  /** An operation begins, or the line with the lock takes a turn of its loop. */
  datatype Label = Begin(op: Op) | Turn

  const START := System(INITIAL, None)

  /** One turn: the state that follows and what is emitted, or nothing if the loop is left. */
  function Moved(fsm: Fsm, d: Driver, expiry: int): Option<(Fsm, seq<Event>)> {
    match fsm
    case StartupDefault => Some((Active, [GnssRecovered]))
    case Active => if d.isTs2phc && d.now > expiry then Some((OutOfSpec, [])) else None
    case OutOfSpec => if d.isTs2phc && d.now > expiry then Some((Failover, [GnssFailover])) else None
    case Failover => if d.isTs2phc && d.now < expiry then Some((StartupDefault, [GnssRecovered])) else None
  }

  /** A turn emits the first of what is due and comes to rest where the machine would; without one nothing is due. */
  lemma MovedLeads(fsm: Fsm, d: Driver, expiry: int)
    ensures match Moved(fsm, d, expiry)
            case None => Emitted(fsm, d.isTs2phc, d.now, expiry) == [] && Rest(fsm, d.isTs2phc, d.now, expiry) == fsm
            case Some(m) =>
              && m.1 + Emitted(m.0, d.isTs2phc, d.now, expiry) == Emitted(fsm, d.isTs2phc, d.now, expiry)
              && Rest(m.0, d.isTs2phc, d.now, expiry) == Rest(fsm, d.isTs2phc, d.now, expiry)
  {}

  /** What has been emitted and what is still to come make up all there is to emit. */
  ghost predicate IsOnTheWay(trace: seq<Event>, fsm: Fsm, d: Driver, expiry: int, all: seq<Event>, rest: Fsm) {
    trace + Emitted(fsm, d.isTs2phc, d.now, expiry) == all && Rest(fsm, d.isTs2phc, d.now, expiry) == rest
  }

  lemma FurtherOn(trace: seq<Event>, fsm: Fsm, d: Driver, expiry: int, all: seq<Event>, rest: Fsm)
    requires IsOnTheWay(trace, fsm, d, expiry, all, rest)
    ensures match Moved(fsm, d, expiry)
            case None => trace == all && fsm == rest
            case Some(m) => IsOnTheWay(trace + m.1, m.0, d, expiry, all, rest)
  {
    MovedLeads(fsm, d, expiry);
    match Moved(fsm, d, expiry)
    case None =>
    case Some(m) => Regrouped(trace, m.1, Emitted(m.0, d.isTs2phc, d.now, expiry));
  }

  predicate TakesLock(s: System, op: Op) {
    op.LogLine? && s.plugin.enabled && s.driver.None?
  }

  function Begun(s: System, op: Op): System {
    System(Noted(s.plugin, op), if TakesLock(s, op) then Some(Driver(op.isTs2phc, op.now)) else s.driver)
  }

  function Turned(s: System): System
    requires s.driver.Some?
  {
    var p := s.plugin;
    match Moved(p.fsm, s.driver.value, p.expiry)
    case None => s.(driver := None)
    case Some(m) => s.(plugin := p.(fsm := m.0, trace := p.trace + m.1))
  }

  function Next(s: System, l: Label): System
    requires l.Turn? ==> s.driver.Some?
  {
    if l.Turn? then Turned(s) else Begun(s, l.op)
  }

  ghost predicate IsRun(ss: seq<System>, ls: seq<Label>) {
    && |ss| == |ls| + 1 && ss[0] == START
    && forall k :: 0 <= k < |ls| ==> IsStep(ss, ls, k)
  }

  ghost predicate IsStep(ss: seq<System>, ls: seq<Label>, k: nat)
    requires |ss| == |ls| + 1 && k < |ls|
  {
    (ls[k].Turn? ==> ss[k].driver.Some?) && ss[k + 1] == Next(ss[k], ls[k])
  }

  /** The letters of R(FRR)*. */
  function Letter(i: nat): Event {
    if i % 3 == 1 then GnssFailover else GnssRecovered
  }

  ghost predicate IsPattern(trace: seq<Event>) {
    forall i :: 0 <= i < |trace| ==> trace[i] == Letter(i)
  }

  /** The state tells how far the trace is within the pattern. */
  ghost predicate InPattern(p: Plugin) {
    && IsPattern(p.trace)
    && |p.trace| % 3 == match p.fsm { case StartupDefault => 0 case Active => 1 case OutOfSpec => 1 case Failover => 2 }
  }

  lemma TurnKeepsPattern(s: System)
    requires InPattern(s.plugin) && s.driver.Some?
    ensures InPattern(Turned(s).plugin)
  {
    var p := s.plugin;
    match Moved(p.fsm, s.driver.value, p.expiry)
    case None =>
    case Some(m) =>
      assert m.1 == [] || m.1 == [Letter(|p.trace|)];
  }

  /** Whatever comes between the turns, the events are a prefix of R(FRR)*. */
  lemma {:induction false} TraceIsPattern(ss: seq<System>, ls: seq<Label>, k: nat)
    requires IsRun(ss, ls) && k < |ss|
    ensures InPattern(ss[k].plugin)
  {
    if k > 0 {
      TraceIsPattern(ss, ls, k - 1);
      assert IsStep(ss, ls, k - 1);
      if ls[k - 1].Turn? {
        TurnKeepsPattern(ss[k - 1]);
      }
    }
  }

  ghost predicate TimeMovesOn(ls: seq<Label>) {
    forall i, j :: 0 <= i < j < |ls| && ls[i].Begin? && ls[j].Begin? ==> ls[i].op.now <= ls[j].op.now
  }

  ghost predicate NoConfigure(ls: seq<Label>, from: nat, to: nat)
    requires from <= to <= |ls|
  {
    forall i :: from <= i < to ==> ls[i].Begin? ==> ls[i].op.LogLine?
  }

  /** A healthy line that the enabled plugin takes note of, with the lock or without it. */
  ghost predicate HealthyAt(ss: seq<System>, ls: seq<Label>, j: nat)
    requires |ss| == |ls| + 1 && j < |ls|
  {
    ls[j].Begin? && IsHealthyLine(ls[j].op) && ss[j].plugin.enabled
  }

  /** After a healthy line, and until the next configuration, the expiry stays at least a tolerance after it. */
  lemma {:induction false} ExpiryAfterHealthy(ss: seq<System>, ls: seq<Label>, j: nat, k: nat)
    requires IsRun(ss, ls) && TimeMovesOn(ls) && j < k <= |ls|
    requires HealthyAt(ss, ls, j) && NoConfigure(ls, j, k)
    ensures ss[k].plugin.enabled && ss[k].plugin.tolerance == ss[j].plugin.tolerance
    ensures ss[k].plugin.expiry >= ls[j].op.now + ss[j].plugin.tolerance
    decreases k
  {
    assert IsStep(ss, ls, k - 1);
    if j < k - 1 {
      ExpiryAfterHealthy(ss, ls, j, k - 1);
    }
  }

  /** A configuration, or a healthy line that the enabled plugin takes note of. */
  ghost predicate WritesExpiry(ss: seq<System>, ls: seq<Label>, j: nat)
    requires |ss| == |ls| + 1 && j < |ls|
  {
    ls[j].Begin? && (ls[j].op.Configure? || HealthyAt(ss, ls, j))
  }

  /**
    The expiry is always that of the last write: a configuration's startup delay after it, or a tolerance after a
    healthy line; the tolerance and whether the plugin is enabled are as last configured.
   */
  lemma {:induction false} ExpiryIsOfLastWrite(ss: seq<System>, ls: seq<Label>, j: nat, k: nat)
    requires IsRun(ss, ls) && j < k <= |ls| && WritesExpiry(ss, ls, j)
    requires forall i :: j < i < k ==> !WritesExpiry(ss, ls, i)
    ensures var p, op := ss[k].plugin, ls[j].op;
      if op.Configure? then
        p.expiry == op.now + op.startupDelay && p.tolerance == op.ts2phcTolerance && p.enabled == op.enable
      else
        p.expiry == op.now + ss[j].plugin.tolerance && p.tolerance == ss[j].plugin.tolerance && p.enabled
    decreases k
  {
    assert IsStep(ss, ls, k - 1);
    if j < k - 1 {
      ExpiryIsOfLastWrite(ss, ls, j, k - 1);
      assert !WritesExpiry(ss, ls, k - 1);
    }
  }

  /** A turn that emits a failover. */
  ghost predicate FailsAt(ss: seq<System>, ls: seq<Label>, k: nat)
    requires |ss| == |ls| + 1 && k < |ls|
  {
    ls[k].Turn? && ss[k + 1].plugin.trace == ss[k].plugin.trace + [GnssFailover]
  }

  /**
    No failover within the tolerance of a healthy line, be it before or after the line with the lock began:
    that line comes strictly later than the tolerance after every healthy line since the last configuration.
   */
  lemma FailoverMeansStale(ss: seq<System>, ls: seq<Label>, j: nat, k: nat)
    requires IsRun(ss, ls) && TimeMovesOn(ls) && j < k < |ls| && FailsAt(ss, ls, k)
    requires HealthyAt(ss, ls, j) && NoConfigure(ls, j, k)
    ensures ss[k].driver.Some? && ss[k].driver.value.isTs2phc
    ensures ss[k].driver.value.now > ls[j].op.now + ss[j].plugin.tolerance
  {
    assert IsStep(ss, ls, k);
    ExpiryAfterHealthy(ss, ls, j, k);
    FailingTurn(ss[k]);
  }

  /** No failover within the startup delay of a configuration, if no healthy line has been noted since. */
  lemma NoFailoverInStartupDelay(ss: seq<System>, ls: seq<Label>, j: nat, k: nat)
    requires IsRun(ss, ls) && j < k < |ls| && FailsAt(ss, ls, k)
    requires ls[j].Begin? && ls[j].op.Configure? && forall i :: j < i < k ==> !WritesExpiry(ss, ls, i)
    ensures ss[k].driver.Some? && ss[k].driver.value.isTs2phc
    ensures ss[k].driver.value.now > ls[j].op.now + ls[j].op.startupDelay
  {
    assert IsStep(ss, ls, k);
    ExpiryIsOfLastWrite(ss, ls, j, k);
    FailingTurn(ss[k]);
  }

  lemma FailingTurn(s: System)
    requires s.driver.Some? && Turned(s).plugin.trace == s.plugin.trace + [GnssFailover]
    ensures s.driver.value.isTs2phc && s.driver.value.now > s.plugin.expiry
  {
    var added := Turned(s).plugin.trace[|s.plugin.trace|..];
    assert added == [GnssFailover];
  }

  /** If only turns follow, a line that got the lock leaves the plugin as if nothing could come between. */
  lemma {:induction false} UndisturbedIsHandled(ss: seq<System>, ls: seq<Label>, j: nat, k: nat)
    requires IsRun(ss, ls) && j < k <= |ls| && ls[j].Begin? && TakesLock(ss[j], ls[j].op)
    requires (forall i :: j < i < k ==> ls[i].Turn?) && ss[k].driver.None?
    ensures ss[k].plugin == Handled(ss[j].plugin, ls[j].op, false)
  {
    assert IsStep(ss, ls, j);
    var i := j + 1;
    while i < k
      invariant j < i <= k
      invariant IsUnderway(ss[j].plugin, ls[j].op, ss[i])
    {
      assert IsStep(ss, ls, i);
      TurnStaysUnderway(ss[j].plugin, ls[j].op, ss[i]);
      i := i + 1;
    }
  }

  /** What is still to come leads where the line leads, and the line is done only there. */
  ghost predicate IsUnderway(p: Plugin, op: Op, s: System)
    requires op.LogLine? && p.enabled
  {
    && s.plugin.(fsm := p.fsm, trace := p.trace) == Noted(p, op)
    && (s.driver == None ==> s.plugin == Handled(p, op, false))
    && (s.driver != None ==>
          && s.driver.value == Driver(op.isTs2phc, op.now)
          && IsOnTheWay(s.plugin.trace, s.plugin.fsm, s.driver.value, s.plugin.expiry,
                        Handled(p, op, false).trace, Handled(p, op, false).fsm))
  }

  lemma TurnStaysUnderway(p: Plugin, op: Op, s: System)
    requires op.LogLine? && p.enabled && IsUnderway(p, op, s) && s.driver.Some?
    ensures IsUnderway(p, op, Turned(s))
  {
    var q, end := s.plugin, Handled(p, op, false);
    FurtherOn(q.trace, q.fsm, s.driver.value, q.expiry, end.trace, end.fsm);
  }

  /** While a stale line has left Active, another operation moves the expiry so that the line is stale no more. */
  ghost predicate PutsOff(ss: seq<System>, ls: seq<Label>, j: nat)
    requires |ss| == |ls| + 1 && j < |ls|
  {
    && ls[j].Begin? && ss[j].driver.Some? && ss[j].plugin.fsm == OutOfSpec
    && ss[j + 1].plugin.expiry >= ss[j].driver.value.now
  }

  /** A machine that is never put off does not rest out of spec ... */
  lemma {:induction false} NeverRestsOutOfSpec(ss: seq<System>, ls: seq<Label>, k: nat)
    requires IsRun(ss, ls) && k < |ss| && forall j :: 0 <= j < k ==> !PutsOff(ss, ls, j)
    ensures ss[k].plugin.fsm == OutOfSpec ==>
      ss[k].driver.Some? && ss[k].driver.value.isTs2phc && ss[k].driver.value.now > ss[k].plugin.expiry
  {
    if k > 0 {
      NeverRestsOutOfSpec(ss, ls, k - 1);
      assert IsStep(ss, ls, k - 1) && !PutsOff(ss, ls, k - 1);
    }
  }

  /** ... and one that is put off rests there with the next turn. */
  lemma PutOffRestsOutOfSpec(ss: seq<System>, ls: seq<Label>, j: nat)
    requires IsRun(ss, ls) && j + 1 < |ls| && PutsOff(ss, ls, j) && ls[j + 1].Turn?
    ensures ss[j + 2].driver == None && ss[j + 2].plugin.fsm == OutOfSpec && ss[j + 2].plugin.trace == ss[j].plugin.trace
  {
    assert IsStep(ss, ls, j) && IsStep(ss, ls, j + 1);
  }

  /**
    Disturbed, the machine can rest out of spec with nothing emitted: a healthy line moves the expiry after
    a stale line has left Active and before its next turn.
   */
  lemma CanRestOutOfSpec() returns (ss: seq<System>, ls: seq<Label>)
    ensures IsRun(ss, ls) && TimeMovesOn(ls)
    ensures var last := ss[|ls|]; last.driver == None && last.plugin.fsm == OutOfSpec && last.plugin.trace == [GnssRecovered]
  {
    ls := [Begin(Configure(true, 0, 5, 0)), Begin(LogLine(true, false, 1)), Turn, Turn, Begin(LogLine(true, true, 2)), Turn];
    var configured := System(Plugin(true, StartupDefault, 0, 5, []), None);
    var line := Some(Driver(true, 1));
    var late := System(Plugin(true, OutOfSpec, 0, 5, [GnssRecovered]), line);
    ss := [START, configured, configured.(driver := line), System(Plugin(true, Active, 0, 5, [GnssRecovered]), line), late,
           late.(plugin := late.plugin.(expiry := 7)), System(late.plugin.(expiry := 7), None)];
    assert forall k :: 0 <= k < 6 ==> IsStep(ss, ls, k);
  }

  // ------------------------------------------------------------------ the plugin in place

  class NtpFailoverPlugin {
    var enabled: bool
    var fsm: Fsm
    var expiry: int
    var tolerance: int
    ghost var trace: seq<Event>   // every event due, whether or not there is a channel
    var hasChannel: bool
    var emitted: seq<Event>

    ghost function State(): Plugin
      reads this
    {
      Plugin(enabled, fsm, expiry, tolerance, trace)
    }

    constructor (hasChannel: bool)
      ensures State() == INITIAL && emitted == [] && this.hasChannel == hasChannel
    {
      enabled, fsm, expiry, tolerance, trace := false, StartupDefault, 0, 0, [];
      this.hasChannel, emitted := hasChannel, [];
    }

    method OnPTPConfigChange(enable: bool, startupDelay: int, ts2phcTolerance: int, now: int)
      modifies this
      ensures State() == Handled(old(State()), Configure(enable, startupDelay, ts2phcTolerance, now), false)
      ensures emitted == old(emitted) && hasChannel == old(hasChannel)
    {
      enabled, tolerance, expiry := enable, ts2phcTolerance, now + startupDelay;
    }

    method EmitEvent(e: Event)
      modifies this`trace, this`emitted
      ensures trace == old(trace) + [e]
      ensures emitted == if hasChannel then old(emitted) + [e] else old(emitted)
    {
      trace := trace + [e];
      if hasChannel {
        emitted := emitted + [e];
      }
    }

    /** How many moves are left; the time and the expiry do not change during a line. */
    static ghost function MovesLeft(fsm: Fsm, isTs2phc: bool, now: int, expiry: int): nat {
      match fsm
      case StartupDefault => if isTs2phc && now > expiry then 3 else 1
      case Active => if isTs2phc && now > expiry then 2 else 0
      case OutOfSpec => if isTs2phc && now > expiry then 1 else 0
      case Failover => if isTs2phc && now < expiry then 2 else 0
    }

    /** Whether another line is driving the machine is an input: the lock is tried, not waited for. */
    method ProcessLog(isTs2phc: bool, hasS3Offset: bool, now: int, locked: bool)
      modifies this
      ensures State() == Handled(old(State()), LogLine(isTs2phc, hasS3Offset, now), locked)
      ensures hasChannel == old(hasChannel)
      ensures old(trace) <= trace
      ensures emitted == if hasChannel then old(emitted) + trace[|old(trace)|..] else old(emitted)
    {
      if !enabled {
        return;
      }
      if isTs2phc && hasS3Offset {
        expiry := now + tolerance;
      }
      if locked {
        return;
      }
      Drive(isTs2phc, now);
    }

    method Drive(isTs2phc: bool, now: int)
      modifies this`fsm, this`trace, this`emitted
      ensures fsm == Rest(old(fsm), isTs2phc, now, expiry)
      ensures trace == old(trace) + Emitted(old(fsm), isTs2phc, now, expiry)
      ensures emitted == if hasChannel then old(emitted) + Emitted(old(fsm), isTs2phc, now, expiry) else old(emitted)
    {
      ghost var d, due := Driver(isTs2phc, now), Emitted(fsm, isTs2phc, now, expiry);
      ghost var rest, all, sent := Rest(fsm, isTs2phc, now, expiry), trace + due, emitted + due;
      var moved := true;
      while moved
        invariant if moved then IsOnTheWay(trace, fsm, d, expiry, all, rest) else trace == all && fsm == rest
        invariant hasChannel ==> if moved then IsOnTheWay(emitted, fsm, d, expiry, sent, rest) else emitted == sent
        invariant !hasChannel ==> emitted == old(emitted)
        decreases MovesLeft(fsm, isTs2phc, now, expiry), moved
      {
        FurtherOn(trace, fsm, d, expiry, all, rest);
        if hasChannel {
          FurtherOn(emitted, fsm, d, expiry, sent, rest);
        }
        moved := Move(isTs2phc, now);
      }
    }

    /** One turn of the loop; the loop is left when the machine does not move. */
    method Move(isTs2phc: bool, now: int) returns (moved: bool)
      modifies this`fsm, this`trace, this`emitted
      ensures var m := Moved(old(fsm), Driver(isTs2phc, now), expiry);
        && moved == m.Some?
        && (moved ==> fsm == m.value.0 && trace == old(trace) + m.value.1
                      && emitted == if hasChannel then old(emitted) + m.value.1 else old(emitted))
        && (!moved ==> fsm == old(fsm) && trace == old(trace) && emitted == old(emitted))
      ensures moved ==> MovesLeft(fsm, isTs2phc, now, expiry) < MovesLeft(old(fsm), isTs2phc, now, expiry)
    {
      moved := true;
      match fsm {
        case StartupDefault =>
          fsm := Active;
          EmitEvent(GnssRecovered);
        case Active =>
          if isTs2phc && now > expiry {
            fsm := OutOfSpec;
          } else {
            moved := false;
          }
        case OutOfSpec =>
          if isTs2phc && now > expiry {
            fsm := Failover;
            EmitEvent(GnssFailover);
          } else {
            moved := false;
          }
        case Failover =>
          if isTs2phc && now < expiry {
            fsm := StartupDefault;
            EmitEvent(GnssRecovered);
            } else {
            moved := false;
          }
      }
    }
  }
}
