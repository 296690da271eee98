/**
  BCClock: the boundary clock and ordinary clock of pkg/linuxptp-daemon/pkg/clock/bc.go.

  BcState and the functions on it say what every operation does to the clock's fields; class
  BCClock is the clock itself, updated in place. HoldoverTimers.dfy puts one such clock beside
  its timer goroutines and its event queue.
 */
module BoundaryClock {
  import opened Options
  import opened SyncStates
  import opened Ipc
  import opened OsClocks

  const CLASS_UNINITIALIZED: nat := 0
  const CLASS_SLAVE_ONLY: nat := 255

  /** What an operation needs to know beyond the clock's own state. */
  datatype Config = Config(name: string, ordinary: bool, minOffset: int, maxOffset: int)

  datatype EventData =
    | Offset(offset: int, sourceLost: bool)
    | StateChange(sourceLost: bool)
    | Dpll(dpllOffset: Option<int>, sourceLost: bool)
    | SyncE
    | HoldoverExpired(generation: nat)
    | ParentDataSet(grandmasterClass: nat)
    | OtherData

  datatype Event = Event(fromPmc: bool, iface: string, data: EventData)

  /** A timer goroutine: it holds the channel that cancels it, and the generation it will report. */
  datatype Timer = Timer(generation: nat, iface: string)

  /**
    `cancel` is the channel held in holdoverCancel. A channel is made for exactly one timer, so it
    is named by that timer's generation.
   */
  datatype BcState = BcState(
    sync: PTPState, overall: PTPState, clockClass: nat, iface: string, cancel: Option<nat>, gen: nat)

  const INITIAL := BcState(NotSet, NotSet, CLASS_UNINITIALIZED, "", None, 0)

  /** An operation's result: the new state, the messages sent, the channel closed, the timer started. */
  datatype Effect = Effect(next: BcState, sent: seq<Message>, closed: Option<nat>, started: Option<Timer>)

  predicate InRange(cfg: Config, offset: int) {
    cfg.minOffset < offset < cfg.maxOffset
  }

  /** The offset the clock judges itself by, if the event carries one. */
  function EventOffset(ev: Event): Option<int> {
    match ev.data
    case Offset(offset, _) => Some(offset)
    case Dpll(offset, _) => offset
    case _ => None
  }

  predicate SourceLost(ev: Event) {
    (ev.data.Offset? || ev.data.StateChange? || ev.data.Dpll?) && ev.data.sourceLost
  }

  /** The clock dereferences the offset of a DPLL sample without checking that there is one. */
  predicate HasNeededOffset(ev: Event) {
    ev.fromPmc || SourceLost(ev) || (ev.data.Dpll? ==> ev.data.dpllOffset.Some?)
  }

  /** An offset sample from a live source: the only event that ends or prevents a holdover. */
  predicate IsSample(ev: Event) {
    !ev.fromPmc && !SourceLost(ev) && EventOffset(ev).Some?
  }

  function Cancelled(s: BcState): (r: BcState) {
    if s.cancel.Some? then s.(cancel := None, gen := s.gen + 1) else s
  }

  /** onStateChanged: the overall state is reconciled with the OS clock ... */
  function Settled(s: BcState, os: PTPState): BcState {
    s.(overall := WorstOf(s.sync, os))
  }

  /** ... and the clock announces its own state if it is no longer `prev`, then the overall state if it moved. */
  function Announced(cfg: Config, s: BcState, prev: PTPState, iface: string, os: PTPState): seq<Message> {
    (if s.sync != prev then [PtpState(cfg.name, iface, s.sync)] else []) +
    OverallChange(s.overall, WorstOf(s.sync, os), cfg.name)
  }

  function OnParentDataSet(cfg: Config, s: BcState, grandmasterClass: nat): Effect {
    var reported := if cfg.ordinary then CLASS_SLAVE_ONLY else grandmasterClass;
    if reported == s.clockClass then Effect(s, [], None, None)
    else Effect(s.(clockClass := reported), [ClockClass(cfg.name, s.iface, reported)], None, None)
  }

  function OnExpired(cfg: Config, s: BcState, generation: nat, os: PTPState): Effect {
    if s.sync != Holdover || generation != s.gen then Effect(s, [], None, None)
    else
      var freed := s.(sync := Freerun, cancel := None);
      Effect(Settled(freed, os), Announced(cfg, freed, Holdover, s.iface, os), None, None)
  }

  /** A clock that has just entered Holdover: any pending timer is cancelled and a new one is armed. */
  function Armed(s: BcState): BcState {
    var c := Cancelled(s);
    c.(sync := Holdover, gen := c.gen + 1, cancel := Some(c.gen + 1))
  }

  /** A clock that has just judged an offset sample, which cancels any pending timer. */
  function Judged(cfg: Config, s: BcState, offset: int): BcState {
    Cancelled(s).(sync := if InRange(cfg, offset) then Locked else Freerun)
  }

  /** The follower interface is recorded from every event whose source is not lost. */
  function Known(s: BcState, ev: Event): BcState {
    if !SourceLost(ev) && ev.iface != "" then s.(iface := ev.iface) else s
  }

  function OnSourceLost(cfg: Config, s: BcState, iface: string, os: PTPState): Effect {
    if s.sync == Locked then
      Effect(Settled(Armed(s), os), Announced(cfg, Armed(s), Locked, iface, os), s.cancel,
             Some(Timer(Armed(s).gen, s.iface)))
    else
      Effect(Settled(s, os), Announced(cfg, s, s.sync, iface, os), None, None)
  }

  function OnSample(cfg: Config, s: BcState, offset: int, iface: string, os: PTPState): Effect {
    var judged := Judged(cfg, s, offset);
    Effect(Settled(judged, os), Announced(cfg, judged, s.sync, iface, os), s.cancel, None)
  }

  /** The effect of AddEvent when the OS clock is in state `os`. */
  function OnEvent(cfg: Config, s: BcState, ev: Event, os: PTPState): Effect
    requires HasNeededOffset(ev)
  {
    if ev.fromPmc then
      if ev.data.ParentDataSet? then OnParentDataSet(cfg, s, ev.data.grandmasterClass) else Effect(s, [], None, None)
    else if ev.data.HoldoverExpired? then OnExpired(cfg, s, ev.data.generation, os)
    else if ev.data.ParentDataSet? || ev.data.OtherData? then Effect(s, [], None, None)
    else
      if SourceLost(ev) then OnSourceLost(cfg, s, ev.iface, os)
      else if EventOffset(ev).None? then Effect(Known(s, ev), [], None, None)
      else OnSample(cfg, Known(s, ev), EventOffset(ev).value, ev.iface, os)
  }

  /** The part of a clock's SyncState that callers use; `leading` is None while no interface is known. */
  datatype Report = Report(state: PTPState, clockClass: nat, leading: Option<string>)

  function ReportOf(s: BcState): Report {
    Report(s.sync, s.clockClass, if s.iface != "" then Some(s.iface) else None)
  }

  function OnSystemClock(cfg: Config, s: BcState, os: PTPState): Effect {
    Effect(Settled(s, os), Announced(cfg, s, s.sync, "", os), None, None)
  }

  /** Reset also sets the OS clock, which the clock shares with every other clock, to Freerun. */
  function OnReset(s: BcState): Effect {
    Effect(BcState(Freerun, Freerun, CLASS_UNINITIALIZED, "", None, Cancelled(s).gen), [], s.cancel, None)
  }

  // ------------------------------------------------------------------ one step

  /** What holds of a clock between events: a cancel channel is held exactly while in Holdover. */
  predicate Valid(s: BcState) {
    && OnChain(s.sync)
    && (s.sync == Holdover <==> s.cancel.Some?)
    && (s.cancel.Some? ==> s.cancel.value == s.gen)
  }

  predicate Agrees(s: BcState, os: PTPState) {
    s.overall == WorstOf(s.sync, os)
  }

  lemma EventKeepsValid(cfg: Config, s: BcState, ev: Event, os: PTPState)
    requires Valid(s) && HasNeededOffset(ev)
    ensures Valid(OnEvent(cfg, s, ev, os).next)
  {
    if SourceLost(ev) {
      assert Valid(OnSourceLost(cfg, s, ev.iface, os).next);
    } else if EventOffset(ev).Some? {
      assert Valid(OnSample(cfg, Known(s, ev), EventOffset(ev).value, ev.iface, os).next);
    }
  }

  /** Which events these are, by their data alone: a lost source, and a sample with its offset. */
  lemma EventKinds(ev: Event)
    ensures SourceLost(ev) <==>
      match ev.data
      case Offset(_, sourceLost) => sourceLost
      case StateChange(sourceLost) => sourceLost
      case Dpll(_, sourceLost) => sourceLost
      case _ => false
    ensures HasNeededOffset(ev) <==> ev.fromPmc || ev.data != Dpll(None, false)
    ensures HasNeededOffset(ev) ==> (IsSample(ev) <==> !ev.fromPmc && (ev.data.Offset? || ev.data.Dpll?) && !ev.data.sourceLost)
    ensures HasNeededOffset(ev) && IsSample(ev) ==>
      EventOffset(ev) == if ev.data.Offset? then Some(ev.data.offset) else ev.data.dpllOffset
  {}

  /**
    A timer starts exactly when a Locked clock loses its source, and is cancelled exactly when a
    sample ends its holdover; the generation moves exactly then.
   */
  lemma EventMovesTimer(cfg: Config, s: BcState, ev: Event, os: PTPState)
    requires Valid(s) && HasNeededOffset(ev)
    ensures var e := OnEvent(cfg, s, ev, os);
      && (e.started.Some? <==> s.sync == Locked && SourceLost(ev) && !ev.fromPmc)
      && (e.started.Some? ==> e.closed.None? && e.started.value == Timer(e.next.gen, s.iface) && e.next.gen > s.gen)
      && (e.closed.Some? <==> s.sync == Holdover && IsSample(ev))
      && (e.closed.Some? ==> e.closed == s.cancel && e.next.gen > s.gen)
      && (e.closed.None? && e.started.None? ==> e.next.gen == s.gen)
  {}

  /**
    The state machine, read off the events: which event leads to which state, from every state.
    In particular a lost source leaves a clock that is not Locked where it was, NotSet included.
   */
  lemma EventDecidesState(cfg: Config, s: BcState, ev: Event, os: PTPState)
    requires Valid(s) && HasNeededOffset(ev)
    ensures var t := OnEvent(cfg, s, ev, os).next.sync;
      && (IsSample(ev) ==> t == if cfg.minOffset < EventOffset(ev).value < cfg.maxOffset then Locked else Freerun)
      && (!IsSample(ev) ==>
            || t == s.sync
            || (s.sync == Locked && t == Holdover && SourceLost(ev) && !ev.fromPmc)
            || (s.sync == Holdover && t == Freerun && !ev.fromPmc && ev.data == HoldoverExpired(s.gen)))
      && (s.sync == Locked && SourceLost(ev) && !ev.fromPmc ==> t == Holdover)
      && (s.sync == Holdover && !ev.fromPmc && ev.data == HoldoverExpired(s.gen) ==> t == Freerun)
  {}

  /** The overall state matches the clock and the OS clock, and is published exactly when it changed. */
  ghost predicate Reconciled(before: PTPState, e: Effect, os: PTPState) {
    && Agrees(e.next, os)
    && Published(e.sent) == if e.next.overall != before then [e.next.overall] else []
  }

  lemma AnnouncedPublishes(cfg: Config, s: BcState, prev: PTPState, iface: string, os: PTPState)
    ensures Published(Announced(cfg, s, prev, iface, os)) == if WorstOf(s.sync, os) != s.overall then [WorstOf(s.sync, os)] else []
  {
    var port := if s.sync != prev then [PtpState(cfg.name, iface, s.sync)] else [];
    PublishedAppend(port, OverallChange(s.overall, WorstOf(s.sync, os), cfg.name));
    PublishedOne(PtpState(cfg.name, iface, s.sync));
    OverallChangePublishes(s.overall, WorstOf(s.sync, os), cfg.name);
  }

  lemma ParentDataSetReconciles(cfg: Config, s: BcState, grandmasterClass: nat, os: PTPState)
    requires Agrees(s, os)
    ensures Reconciled(s.overall, OnParentDataSet(cfg, s, grandmasterClass), os)
  {
    PublishedOne(ClockClass(cfg.name, s.iface, if cfg.ordinary then CLASS_SLAVE_ONLY else grandmasterClass));
  }

  lemma ExpiryReconciles(cfg: Config, s: BcState, generation: nat, os: PTPState)
    requires Agrees(s, os)
    ensures Reconciled(s.overall, OnExpired(cfg, s, generation, os), os)
  {
    AnnouncedPublishes(cfg, s.(sync := Freerun, cancel := None), Holdover, s.iface, os);
  }

  lemma SourceLossReconciles(cfg: Config, s: BcState, iface: string, os: PTPState)
    requires Agrees(s, os)
    ensures Reconciled(s.overall, OnSourceLost(cfg, s, iface, os), os)
  {
    AnnouncedPublishes(cfg, if s.sync == Locked then Armed(s) else s, s.sync, iface, os);
  }

  lemma SampleReconciles(cfg: Config, s: BcState, offset: int, iface: string, os: PTPState)
    ensures Reconciled(s.overall, OnSample(cfg, s, offset, iface, os), os)
  {
    AnnouncedPublishes(cfg, Judged(cfg, s, offset), s.sync, iface, os);
  }

  /** After an event the published overall state is the worst of the clock and the OS clock. */
  lemma EventReconciles(cfg: Config, s: BcState, ev: Event, os: PTPState)
    requires Agrees(s, os) && HasNeededOffset(ev)
    ensures Reconciled(s.overall, OnEvent(cfg, s, ev, os), os)
  {
    if ev.fromPmc {
      if ev.data.ParentDataSet? { ParentDataSetReconciles(cfg, s, ev.data.grandmasterClass, os); }
    } else if ev.data.HoldoverExpired? {
      ExpiryReconciles(cfg, s, ev.data.generation, os);
    } else if SourceLost(ev) {
      SourceLossReconciles(cfg, s, ev.iface, os);
    } else if EventOffset(ev).Some? {
      SampleReconciles(cfg, Known(s, ev), EventOffset(ev).value, ev.iface, os);
    }
  }

  /** A reset closes the channel held and moves the generation exactly then; nothing else of the clock is left. */
  lemma ResetClears(s: BcState)
    requires Valid(s)
    ensures var e := OnReset(s);
      && Valid(e.next) && e.sent == [] && e.started.None? && e.closed == s.cancel
      && e.next.sync == e.next.overall == Freerun && e.next.clockClass == CLASS_UNINITIALIZED && e.next.iface == ""
      && e.next.gen == (if s.sync == Holdover then s.gen + 1 else s.gen)
  {}

  // ------------------------------------------------------------------ what is sent

  /** What a consumer knows of a clock that has told everything. */
  function ViewOf(s: BcState): View {
    View(s.sync, s.clockClass, s.overall)
  }

  lemma ParentDataSetSends(cfg: Config, s: BcState, grandmasterClass: nat, iface: string)
    ensures var e := OnParentDataSet(cfg, s, grandmasterClass);
      e.sent == Changes(ViewOf(s), ViewOf(e.next), cfg.name, iface, s.iface)
  {}

  lemma AnnouncedSends(cfg: Config, s: BcState, t: BcState, iface: string, classIface: string, os: PTPState)
    requires t.clockClass == s.clockClass && t.overall == s.overall
    ensures Announced(cfg, t, s.sync, iface, os) == Changes(ViewOf(s), ViewOf(Settled(t, os)), cfg.name, iface, classIface)
  {}

  lemma ExpirySends(cfg: Config, s: BcState, generation: nat, os: PTPState)
    ensures var e := OnExpired(cfg, s, generation, os);
      e.sent == Changes(ViewOf(s), ViewOf(e.next), cfg.name, s.iface, s.iface)
  {
    AnnouncedSends(cfg, s, s.(sync := Freerun, cancel := None), s.iface, s.iface, os);
  }

  lemma SourceLossSends(cfg: Config, s: BcState, iface: string, os: PTPState)
    ensures var e := OnSourceLost(cfg, s, iface, os);
      e.sent == Changes(ViewOf(s), ViewOf(e.next), cfg.name, iface, s.iface)
  {
    AnnouncedSends(cfg, s, if s.sync == Locked then Armed(s) else s, iface, s.iface, os);
  }

  lemma SampleSends(cfg: Config, s: BcState, known: BcState, offset: int, iface: string, os: PTPState)
    requires ViewOf(known) == ViewOf(s)
    ensures var e := OnSample(cfg, known, offset, iface, os);
      e.sent == Changes(ViewOf(s), ViewOf(e.next), cfg.name, iface, s.iface)
  {
    AnnouncedSends(cfg, known, Judged(cfg, known, offset), iface, s.iface, os);
  }

  lemma EventSendsChanges(cfg: Config, s: BcState, ev: Event, os: PTPState)
    requires HasNeededOffset(ev)
    ensures var e := OnEvent(cfg, s, ev, os);
      e.sent == Changes(ViewOf(s), ViewOf(e.next), cfg.name, if ev.data.HoldoverExpired? then s.iface else ev.iface, s.iface)
  {
    if ev.fromPmc {
      if ev.data.ParentDataSet? { ParentDataSetSends(cfg, s, ev.data.grandmasterClass, ev.iface); }
    } else if ev.data.HoldoverExpired? {
      ExpirySends(cfg, s, ev.data.generation, os);
    } else if SourceLost(ev) {
      SourceLossSends(cfg, s, ev.iface, os);
    } else if EventOffset(ev).Some? {
      SampleSends(cfg, s, Known(s, ev), EventOffset(ev).value, ev.iface, os);
    }
  }

  /**
    Everything an event sends, by the clock before and after it: its own state if that changed, on the
    interface of the event or, for an expiry, the recorded one; its class if that changed; the overall
    state if that changed. In this order, and nothing else.
   */
  lemma EventSends(cfg: Config, s: BcState, ev: Event, os: PTPState)
    requires HasNeededOffset(ev)
    ensures var e := OnEvent(cfg, s, ev, os);
      var t := e.next;
      e.sent
        == (if t.sync != s.sync then [PtpState(cfg.name, if ev.data.HoldoverExpired? then s.iface else ev.iface, t.sync)] else [])
         + (if t.clockClass != s.clockClass then [ClockClass(cfg.name, s.iface, t.clockClass)] else [])
         + (if t.overall != s.overall then [SyncState(cfg.name, t.overall)] else [])
  {
    EventSendsChanges(cfg, s, ev, os);
  }

  /** The ptp_state messages of an event: the new state exactly if it changed. */
  lemma EventSendsPortState(cfg: Config, s: BcState, ev: Event, os: PTPState)
    requires HasNeededOffset(ev)
    ensures var e := OnEvent(cfg, s, ev, os);
      PortStates(e.sent)
        == if e.next.sync != s.sync then
             [PtpState(cfg.name, if ev.data.HoldoverExpired? then s.iface else ev.iface, e.next.sync)]
           else []
  {
    var t := OnEvent(cfg, s, ev, os).next;
    EventSendsChanges(cfg, s, ev, os);
    PortStatesOfChanges(ViewOf(s), ViewOf(t), cfg.name, if ev.data.HoldoverExpired? then s.iface else ev.iface, s.iface);
  }

  /** A consumer that knew the clock before an event knows it after the event's messages. */
  lemma EventIsHeard(cfg: Config, s: BcState, ev: Event, os: PTPState)
    requires HasNeededOffset(ev)
    ensures var e := OnEvent(cfg, s, ev, os); Heard(ViewOf(s), e.sent, cfg.name) == ViewOf(e.next)
  {
    var t := OnEvent(cfg, s, ev, os).next;
    EventSendsChanges(cfg, s, ev, os);
    ChangesAreHeard(ViewOf(s), ViewOf(t), cfg.name, if ev.data.HoldoverExpired? then s.iface else ev.iface, s.iface);
  }

  lemma OsChangeIsHeard(cfg: Config, s: BcState, os: PTPState)
    ensures var e := OnSystemClock(cfg, s, os); Heard(ViewOf(s), e.sent, cfg.name) == ViewOf(e.next)
  {
    AnnouncedSends(cfg, s, s, "", "", os);
    ChangesAreHeard(ViewOf(s), ViewOf(Settled(s, os)), cfg.name, "", "");
  }

  /** The class and the follower interface an event leaves behind. */
  lemma EventRecords(cfg: Config, s: BcState, ev: Event, os: PTPState)
    requires HasNeededOffset(ev)
    ensures var t := OnEvent(cfg, s, ev, os).next;
      && t.clockClass == (if !ev.fromPmc || !ev.data.ParentDataSet? then s.clockClass
                          else if cfg.ordinary then CLASS_SLAVE_ONLY else ev.data.grandmasterClass)
      && t.iface == (if !ev.fromPmc && ev.data.SyncE? && ev.iface != "" then ev.iface
                     else if !ev.fromPmc && (ev.data.Offset? || ev.data.StateChange? || ev.data.Dpll?)
                             && !ev.data.sourceLost && ev.iface != "" then ev.iface
                     else s.iface)
  {
    if SourceLost(ev) {
      assert OnSourceLost(cfg, s, ev.iface, os).next.clockClass == s.clockClass && OnSourceLost(cfg, s, ev.iface, os).next.iface == s.iface;
    } else if EventOffset(ev).Some? {
      var known := Known(s, ev);
      var t := OnSample(cfg, known, EventOffset(ev).value, ev.iface, os).next;
      assert t.clockClass == s.clockClass && t.iface == known.iface;
    }
  }

  // ------------------------------------------------------------------ the clock itself

  class BCClock {
    const cfg: Config
    var osClock: OsClock
    var sync: PTPState
    var overall: PTPState
    var clockClass: nat
    var iface: string
    var holdoverCancel: Option<nat>   // the open cancel channel, named by its timer's generation
    var holdoverGen: nat

    function State(): BcState
      reads this
    {
      BcState(sync, overall, clockClass, iface, holdoverCancel, holdoverGen)
    }

    constructor (cfg: Config, osClock: OsClock)
      ensures State() == INITIAL
      ensures this.cfg == cfg && this.osClock == osClock
    {
      this.cfg, this.osClock := cfg, osClock;
      sync, overall, clockClass, iface := NotSet, NotSet, CLASS_UNINITIALIZED, "";
      holdoverCancel, holdoverGen := None, 0;
    }

    function CurrentSyncState(): Report
      reads this
    {
      Report(sync, clockClass, if iface != "" then Some(iface) else None)
    }

    /**
      Handles one event; returns what it sends, the cancel channel it closes and the timer it starts. It
      panics exactly on a DPLL sample without the offset it needs, with nothing changed but the interface.
     */
    method AddEvent(ev: Event)
      returns (sent: seq<Message>, closed: Option<nat>, started: Option<Timer>, panicked: bool)
      requires Valid(State())
      modifies this
      ensures panicked <==> !HasNeededOffset(ev)
      ensures !panicked ==> Effect(State(), sent, closed, started) == OnEvent(cfg, old(State()), ev, osClock.state)
      ensures panicked ==> Effect(State(), sent, closed, started) == Effect(Known(old(State()), ev), [], None, None)
      ensures osClock == old(osClock)
    {
      sent, closed, started, panicked := [], None, None, false;
      if ev.fromPmc {
        if ev.data.ParentDataSet? {
          sent := UpdateClockClass(if cfg.ordinary then CLASS_SLAVE_ONLY else ev.data.grandmasterClass);
        }
        return;
      }
      if ev.data.HoldoverExpired? {
        sent := HandleHoldoverExpired(ev.data.generation);
        return;
      }
      if ev.data.ParentDataSet? || ev.data.OtherData? {
        return;
      }
      if !SourceLost(ev) && ev.iface != "" {
        iface := ev.iface;
      }
      var prev := sync;
      if SourceLost(ev) {
        if sync == Locked {
          sync := Holdover;
          closed, started := ArmHoldoverTimer();
        }
        sent := OnStateChanged(prev, ev.iface);
        return;
      }
      var offset := EventOffset(ev);
      if offset.None? {
        panicked := ev.data.Dpll?;
        return;
      }
      closed := CancelHoldoverTimer();
      sync := if InRange(cfg, offset.value) then Locked else Freerun;
      sent := OnStateChanged(prev, ev.iface);
    }

    method HandleHoldoverExpired(generation: nat) returns (sent: seq<Message>)
      modifies this
      ensures Effect(State(), sent, None, None) == OnExpired(cfg, old(State()), generation, osClock.state)
      ensures osClock == old(osClock)
    {
      if sync != Holdover || generation != holdoverGen {
        return [];
      }
      var prev := sync;
      sync := Freerun;
      holdoverCancel := None;
      sent := OnStateChanged(prev, iface);
    }

    method ArmHoldoverTimer() returns (closed: Option<nat>, started: Option<Timer>)
      modifies this
      ensures State() == Armed(old(State())).(sync := old(sync))
      ensures closed == old(holdoverCancel) && started == Some(Timer(holdoverGen, iface))
      ensures osClock == old(osClock)
    {
      closed := CancelHoldoverTimer();
      holdoverGen := holdoverGen + 1;
      holdoverCancel := Some(holdoverGen);
      started := Some(Timer(holdoverGen, iface));
    }

    method CancelHoldoverTimer() returns (closed: Option<nat>)
      modifies this
      ensures State() == Cancelled(old(State())) && closed == old(holdoverCancel)
      ensures osClock == old(osClock)
    {
      closed := holdoverCancel;
      if holdoverCancel.Some? {
        holdoverCancel := None;
        holdoverGen := holdoverGen + 1;
      }
    }

    method OnStateChanged(prev: PTPState, port: string) returns (sent: seq<Message>)
      modifies this`overall
      ensures State() == Settled(old(State()), osClock.state)
      ensures sent == Announced(cfg, old(State()), prev, port, osClock.state)
    {
      sent := if sync != prev then [PtpState(cfg.name, port, sync)] else [];
      var overallMessage := SystemClockUpdate();
      sent := sent + overallMessage;
    }

    method SystemClockUpdate() returns (sent: seq<Message>)
      modifies this`overall
      ensures State() == Settled(old(State()), osClock.state)
      ensures sent == OverallChange(old(overall), WorstOf(sync, osClock.state), cfg.name)
    {
      var next := WorstOf(sync, osClock.state);
      sent := [];
      if next != overall {
        overall := next;
        sent := [SyncState(cfg.name, next)];
      }
    }

    method UpdateClockClass(reported: nat) returns (sent: seq<Message>)
      modifies this`clockClass
      ensures State() == old(State()).(clockClass := reported)
      ensures sent == if reported == old(clockClass) then [] else [ClockClass(cfg.name, iface, reported)]
    {
      if reported == clockClass {
        return [];
      }
      clockClass := reported;
      sent := [ClockClass(cfg.name, iface, reported)];
    }

    method Reset() returns (closed: Option<nat>)
      modifies this, osClock
      ensures Effect(State(), [], closed, None) == OnReset(old(State()))
      ensures osClock == old(osClock) && osClock.state == Freerun
    {
      closed := CancelHoldoverTimer();
      osClock.Reset();
      sync, overall, clockClass, iface := Freerun, Freerun, CLASS_UNINITIALIZED, "";
    }
  }
}
