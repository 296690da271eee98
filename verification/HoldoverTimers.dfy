/**
  One boundary clock running on the event loop, together with its timer goroutines and the expiry
  events they have posted. A timer goroutine waits for its timeout or for its cancel channel; it
  may still post its expiry after the channel is closed, and posted expiries may be delivered in
  any order and arbitrarily late.
 */
module HoldoverTimers {
  import opened Options
  import opened SyncStates
  import opened Ipc
  import opened BoundaryClock

  /** `loopback`: the clock was given a function to post events with; without one expiries are lost. */
  datatype System = System(
    clock: BcState,
    timers: multiset<nat>,   // generations of the goroutines still waiting
    queue: multiset<nat>,    // generations of the expiries posted and not yet delivered
    closed: set<nat>)        // cancel channels closed so far, named by their timer's generation

  datatype Label =
    | Deliver(ev: Event, os: PTPState)     // an event that is not a holdover expiry
    | Fire(generation: nat)                // a timer's timeout passes
    | Stop(generation: nat)                // a timer goroutine sees its channel closed
    | Expire(generation: nat, os: PTPState) // a posted expiry is delivered
    | OsChange(os: PTPState)
    | ResetClock

  function Expiry(generation: nat): Event {
    Event(false, "", HoldoverExpired(generation))
  }

  predicate Enabled(s: System, l: Label) {
    match l
    case Deliver(ev, _) => HasNeededOffset(ev) && !ev.data.HoldoverExpired?
    case Fire(g) => g in s.timers
    case Stop(g) => g in s.timers && g in s.closed
    case Expire(g, _) => g in s.queue
    case OsChange(_) => true
    case ResetClock => true
  }

  function Applied(s: System, e: Effect): System {
    System(e.next,
           if e.started.Some? then s.timers + multiset{e.started.value.generation} else s.timers,
           s.queue,
           if e.closed.Some? then s.closed + {e.closed.value} else s.closed)
  }

  function ClockEffect(cfg: Config, s: System, l: Label): Effect
    requires Enabled(s, l) && !l.Fire? && !l.Stop?
  {
    match l
    case Deliver(ev, os) => OnEvent(cfg, s.clock, ev, os)
    case Expire(g, os) => OnEvent(cfg, s.clock, Expiry(g), os)
    case OsChange(os) => OnSystemClock(cfg, s.clock, os)
    case ResetClock => OnReset(s.clock)
  }

  function Next(cfg: Config, loopback: bool, s: System, l: Label): System
    requires Enabled(s, l)
  {
    match l
    case Fire(g) => s.(timers := s.timers - multiset{g}, queue := if loopback then s.queue + multiset{g} else s.queue)
    case Stop(g) => s.(timers := s.timers - multiset{g})
    case Expire(g, _) => Applied(s.(queue := s.queue - multiset{g}), ClockEffect(cfg, s, l))
    case _ => Applied(s, ClockEffect(cfg, s, l))
  }

  const START := System(INITIAL, multiset{}, multiset{}, {})

  /** states[0] is a new clock, and each label leads from its state to the next one. */
  ghost predicate IsRun(cfg: Config, loopback: bool, states: seq<System>, labels: seq<Label>) {
    && |states| == |labels| + 1
    && states[0] == START
    && forall i :: 0 <= i < |labels| ==> IsStep(cfg, loopback, states, labels, i)
  }

  ghost predicate IsStep(cfg: Config, loopback: bool, states: seq<System>, labels: seq<Label>, i: nat)
    requires i < |labels| < |states|
  {
    Enabled(states[i], labels[i]) && states[i + 1] == Next(cfg, loopback, states[i], labels[i])
  }

  /** Expiries that may still reach the clock with a given generation. */
  function Pending(s: System, generation: nat): nat {
    s.timers[generation] + s.queue[generation]
  }

  ghost predicate Inv(loopback: bool, s: System) {
    && Valid(s.clock)
    && (s.clock.cancel.Some? ==> s.clock.cancel.value !in s.closed)
    && (forall g :: g in s.closed ==> g < s.clock.gen)
    && (forall g: nat :: Pending(s, g) <= 1)
    && (forall g: nat :: Pending(s, g) > 0 ==> g <= s.clock.gen)
    && (s.clock.sync != Holdover ==> Pending(s, s.clock.gen) == 0)
    && (s.clock.sync == Holdover && loopback ==> Pending(s, s.clock.gen) == 1)
  }

  /** The shape of every effect but that of an expiry: timers are started and cancelled in step with the generation. */
  ghost predicate MovesInStep(c: BcState, e: Effect) {
    && Valid(e.next)
    && (e.started.Some? ==> e.closed.None? && e.next.sync == Holdover && e.started.value.generation == e.next.gen > c.gen)
    && (e.closed.Some? ==> e.closed == c.cancel && e.next.sync != Holdover && e.next.gen > c.gen)
    && (e.started.None? && e.closed.None? ==> e.next.gen == c.gen && e.next.cancel == c.cancel)
  }

  lemma EffectKeepsInv(loopback: bool, s: System, e: Effect)
    requires Inv(loopback, s) && MovesInStep(s.clock, e)
    ensures Inv(loopback, Applied(s, e))
  {
    var t := Applied(s, e);
    assert forall g: nat :: Pending(t, g) == Pending(s, g) + if e.started.Some? && g == e.next.gen then 1 else 0;
    assert e.started.Some? ==> Pending(s, e.next.gen) == 0;
  }

  lemma TimerKeepsInv(cfg: Config, loopback: bool, s: System, l: Label)
    requires Inv(loopback, s) && Enabled(s, l) && (l.Fire? || l.Stop?)
    ensures Inv(loopback, Next(cfg, loopback, s, l))
  {
    var t := Next(cfg, loopback, s, l);
    assert forall g: nat :: Pending(t, g) == Pending(s, g) - if g == l.generation && (l.Stop? || !loopback) then 1 else 0;
  }

  lemma ExpiryKeepsInv(cfg: Config, loopback: bool, s: System, g: nat, os: PTPState)
    requires Inv(loopback, s) && Enabled(s, Expire(g, os))
    ensures Inv(loopback, Next(cfg, loopback, s, Expire(g, os)))
  {
    var t := Next(cfg, loopback, s, Expire(g, os));
    assert forall h: nat :: Pending(t, h) == Pending(s, h) - if h == g then 1 else 0;
  }

  lemma StepKeepsInv(cfg: Config, loopback: bool, s: System, l: Label)
    requires Inv(loopback, s) && Enabled(s, l)
    ensures Inv(loopback, Next(cfg, loopback, s, l))
  {
    match l
    case Deliver(ev, os) =>
      EventKeepsValid(cfg, s.clock, ev, os);
      EventMovesTimer(cfg, s.clock, ev, os);
      EventDecidesState(cfg, s.clock, ev, os);
      EffectKeepsInv(loopback, s, ClockEffect(cfg, s, l));
    case Fire(_) => TimerKeepsInv(cfg, loopback, s, l);
    case Stop(_) => TimerKeepsInv(cfg, loopback, s, l);
    case Expire(g, os) => ExpiryKeepsInv(cfg, loopback, s, g, os);
    case OsChange(_) => EffectKeepsInv(loopback, s, ClockEffect(cfg, s, l));
    case ResetClock => EffectKeepsInv(loopback, s, ClockEffect(cfg, s, l));
  }

  /** In every reachable state the invariant holds, however timers, expiries, events and resets interleave. */
  lemma {:induction false} RunKeepsInv(cfg: Config, loopback: bool, states: seq<System>, labels: seq<Label>, k: nat)
    requires IsRun(cfg, loopback, states, labels) && k < |states|
    ensures Inv(loopback, states[k])
  {
    if k > 0 {
      RunKeepsInv(cfg, loopback, states, labels, k - 1);
      assert IsStep(cfg, loopback, states, labels, k - 1);
      StepKeepsInv(cfg, loopback, states[k - 1], labels[k - 1]);
    }
  }

  /** No run closes a cancel channel twice, which in Go would panic. */
  lemma NoChannelClosedTwice(cfg: Config, loopback: bool, states: seq<System>, labels: seq<Label>, k: nat)
    requires IsRun(cfg, loopback, states, labels) && k < |labels|
    requires !labels[k].Fire? && !labels[k].Stop?
    ensures IsStep(cfg, loopback, states, labels, k)
    ensures var closed := ClockEffect(cfg, states[k], labels[k]).closed;
      closed.Some? ==> closed.value !in states[k].closed
  {
    RunKeepsInv(cfg, loopback, states, labels, k);
    assert IsStep(cfg, loopback, states, labels, k);
    match labels[k]
    case Deliver(ev, os) => EventMovesTimer(cfg, states[k].clock, ev, os);
    case Expire(g, os) => EventMovesTimer(cfg, states[k].clock, Expiry(g), os);
    case _ =>
  }

  /** The step that put the clock in its current holdover: a Locked clock lost its source and armed `generation`. */
  predicate Arms(cfg: Config, s: System, l: Label, generation: nat) {
    && l.Deliver? && Enabled(s, l)
    && s.clock.sync == Locked && SourceLost(l.ev) && !l.ev.fromPmc
    && ClockEffect(cfg, s, l).started.Some?
    && ClockEffect(cfg, s, l).started.value.generation == generation
  }

  /** A step that would end the episode: an offset sample or a reset. */
  predicate Ends(l: Label) {
    l.ResetClock? || (l.Deliver? && IsSample(l.ev))
  }

  ghost predicate Episode(cfg: Config, states: seq<System>, labels: seq<Label>, i: nat, k: nat)
    requires i < k < |states| <= |labels| + 1
  {
    && Arms(cfg, states[i], labels[i], states[k].clock.gen)
    && (forall j :: i < j <= k ==> states[j].clock.sync == Holdover && states[j].clock.gen == states[k].clock.gen)
    && (forall j :: i < j < k ==> !Ends(labels[j]))
  }

  /** Every holdover was entered by one lost source, and nothing has disturbed it since. */
  lemma {:induction false} HoldoverHasOneOrigin(cfg: Config, loopback: bool, states: seq<System>, labels: seq<Label>, k: nat)
    returns (i: nat)
    requires IsRun(cfg, loopback, states, labels) && k < |states|
    requires states[k].clock.sync == Holdover
    ensures i < k && Episode(cfg, states, labels, i, k)
  {
    StepInHoldover(cfg, loopback, states, labels, k);
    if states[k - 1].clock.sync == Holdover {
      i := HoldoverHasOneOrigin(cfg, loopback, states, labels, k - 1);
      EpisodeExtends(cfg, states, labels, i, k);
    } else {
      i := k - 1;
    }
  }

  lemma EpisodeExtends(cfg: Config, states: seq<System>, labels: seq<Label>, i: nat, k: nat)
    requires i < k - 1 && k < |states| <= |labels| + 1
    requires Episode(cfg, states, labels, i, k - 1)
    requires states[k].clock.sync == Holdover && states[k].clock.gen == states[k - 1].clock.gen && !Ends(labels[k - 1])
    ensures Episode(cfg, states, labels, i, k)
  {}

  lemma StepInHoldover(cfg: Config, loopback: bool, states: seq<System>, labels: seq<Label>, k: nat)
    requires IsRun(cfg, loopback, states, labels) && k < |states|
    requires states[k].clock.sync == Holdover
    ensures k > 0
    ensures if states[k - 1].clock.sync == Holdover then states[k].clock.gen == states[k - 1].clock.gen && !Ends(labels[k - 1])
            else Arms(cfg, states[k - 1], labels[k - 1], states[k].clock.gen)
  {
    RunKeepsInv(cfg, loopback, states, labels, k - 1);
    assert IsStep(cfg, loopback, states, labels, k - 1);
    LabelIntoHoldover(cfg, loopback, states[k - 1], labels[k - 1]);
  }

  lemma LabelIntoHoldover(cfg: Config, loopback: bool, s: System, l: Label)
    requires Valid(s.clock) && Enabled(s, l) && Next(cfg, loopback, s, l).clock.sync == Holdover
    ensures var t := Next(cfg, loopback, s, l).clock;
      if s.clock.sync == Holdover then t.gen == s.clock.gen && !Ends(l) else Arms(cfg, s, l, t.gen)
  {
    match l
    case Deliver(ev, os) =>
      EventMovesTimer(cfg, s.clock, ev, os);
      EventDecidesState(cfg, s.clock, ev, os);
    case Expire(g, os) =>
      EventMovesTimer(cfg, s.clock, Expiry(g), os);
      EventDecidesState(cfg, s.clock, Expiry(g), os);
    case _ =>
  }

  /**
    An expiry that drops the clock to Freerun was posted by the timer of the very holdover it ends:
    that timer was armed when the clock entered it, and no sample or reset came in between.
   */
  lemma ExpiryEndsItsOwnEpisode(cfg: Config, loopback: bool, states: seq<System>, labels: seq<Label>, k: nat)
    returns (i: nat)
    requires IsRun(cfg, loopback, states, labels) && k < |labels| && labels[k].Expire?
    requires states[k + 1].clock.sync != states[k].clock.sync
    ensures i < k && Episode(cfg, states, labels, i, k)
    ensures states[k].clock.gen == labels[k].generation
    ensures states[k].clock.sync == Holdover && states[k + 1].clock.sync == Freerun
  {
    RunKeepsInv(cfg, loopback, states, labels, k);
    assert IsStep(cfg, loopback, states, labels, k);
    EventDecidesState(cfg, states[k].clock, Expiry(labels[k].generation), labels[k].os);
    i := HoldoverHasOneOrigin(cfg, loopback, states, labels, k);
  }

  /** An expiry does something exactly when the clock is in Holdover and still at the expiry's generation. */
  lemma ExpiryTakesEffectExactly(cfg: Config, loopback: bool, s: System, g: nat, os: PTPState)
    requires Enabled(s, Expire(g, os))
    ensures Next(cfg, loopback, s, Expire(g, os)).clock != s.clock <==> s.clock.sync == Holdover && g == s.clock.gen
  {
    assert ClockEffect(cfg, s, Expire(g, os)) == OnExpired(cfg, s.clock, g, os);
  }

  /** A holdover always has its way out: exactly one expiry is under way that ends it when it arrives. */
  lemma HoldoverCanExpire(cfg: Config, states: seq<System>, labels: seq<Label>, k: nat, os: PTPState)
    requires IsRun(cfg, true, states, labels) && k < |states|
    requires states[k].clock.sync == Holdover
    ensures states[k].clock.gen in states[k].queue || states[k].clock.gen in states[k].timers
    ensures var s := states[k];
      var fired := if s.clock.gen in s.queue then s else Next(cfg, true, s, Fire(s.clock.gen));
      && Pending(s, s.clock.gen) == 1
      && Enabled(fired, Expire(s.clock.gen, os))
      && Next(cfg, true, fired, Expire(s.clock.gen, os)).clock.sync == Freerun
      && forall g :: g != s.clock.gen && g in fired.queue ==> Next(cfg, true, fired, Expire(g, os)).clock == s.clock
  {
    RunKeepsInv(cfg, true, states, labels, k);
    var s := states[k];
    assert Pending(s, s.clock.gen) == 1;
    assert s.clock.gen in s.queue || s.clock.gen in s.timers;
  }

  // ------------------------------------------------------------------ what a consumer hears over a run

  function SentBy(cfg: Config, s: System, l: Label): seq<Message>
    requires Enabled(s, l)
  {
    if l.Fire? || l.Stop? then [] else ClockEffect(cfg, s, l).sent
  }

  /** `sent` says of every step of a run what the clock sent. */
  ghost predicate AreSent(cfg: Config, states: seq<System>, labels: seq<Label>, sent: seq<seq<Message>>) {
    |sent| == |labels| < |states| && forall k :: 0 <= k < |labels| ==> IsSentAt(cfg, states, labels, sent, k)
  }

  ghost predicate IsSentAt(cfg: Config, states: seq<System>, labels: seq<Label>, sent: seq<seq<Message>>, k: nat)
    requires k < |sent| == |labels| < |states|
  {
    IsSent(cfg, states[k], labels[k], sent[k])
  }

  ghost predicate IsSent(cfg: Config, s: System, l: Label, ms: seq<Message>) {
    Enabled(s, l) && ms == SentBy(cfg, s, l)
  }

  /** What has been sent in the first k steps, after the last reset among them if there is one. */
  function SinceReset(labels: seq<Label>, sent: seq<seq<Message>>, k: nat): seq<Message>
    requires k <= |labels| == |sent|
  {
    if k == 0 || labels[k - 1].ResetClock? then [] else SinceReset(labels, sent, k - 1) + sent[k - 1]
  }

  /** What a clock is when it starts, and after a reset. */
  function StartView(labels: seq<Label>, k: nat): View
    requires k <= |labels|
  {
    if ResetClock in labels[..k] then View(Freerun, CLASS_UNINITIALIZED, Freerun)
    else View(NotSet, CLASS_UNINITIALIZED, NotSet)
  }

  lemma StartViewNext(labels: seq<Label>, k: nat)
    requires k < |labels|
    ensures StartView(labels, k + 1)
         == if labels[k].ResetClock? then View(Freerun, CLASS_UNINITIALIZED, Freerun) else StartView(labels, k)
  {
    assert labels[..k + 1] == labels[..k] + [labels[k]];
  }

  lemma StepIsHeard(cfg: Config, loopback: bool, s: System, l: Label, ms: seq<Message>, t: System)
    requires IsSent(cfg, s, l, ms) && t == Next(cfg, loopback, s, l)
    ensures if l.ResetClock? then ViewOf(t.clock) == View(Freerun, CLASS_UNINITIALIZED, Freerun)
            else Heard(ViewOf(s.clock), ms, cfg.name) == ViewOf(t.clock)
  {
    match l
    case Deliver(ev, os) => EventIsHeard(cfg, s.clock, ev, os);
    case Expire(g, os) => EventIsHeard(cfg, s.clock, Expiry(g), os);
    case OsChange(os) => OsChangeIsHeard(cfg, s.clock, os);
    case _ =>
  }

  lemma RunStepIsHeard(cfg: Config, loopback: bool, states: seq<System>, labels: seq<Label>, sent: seq<seq<Message>>, k: nat)
    requires IsRun(cfg, loopback, states, labels) && AreSent(cfg, states, labels, sent) && k < |labels|
    ensures if labels[k].ResetClock? then ViewOf(states[k + 1].clock) == View(Freerun, CLASS_UNINITIALIZED, Freerun)
            else
              && Heard(ViewOf(states[k].clock), sent[k], cfg.name) == ViewOf(states[k + 1].clock)
              && LeadTo(PortStates(sent[k]), cfg.name, states[k].clock.sync, states[k + 1].clock.sync)
  {
    assert IsStep(cfg, loopback, states, labels, k) && IsSentAt(cfg, states, labels, sent, k);
    StepIsHeard(cfg, loopback, states[k], labels[k], sent[k], states[k + 1]);
    if !labels[k].ResetClock? {
      StepSendsPortState(cfg, loopback, states[k], labels[k], sent[k], states[k + 1]);
    }
  }

  /**
    Over whole runs, however timers, expiries, events and resets interleave: who knew the clock at its start,
    or at its last reset, and listened since, knows its state, its class and its overall state.
   */
  lemma {:induction false} ConsumerKnowsClock(cfg: Config, loopback: bool, states: seq<System>, labels: seq<Label>,
                                              sent: seq<seq<Message>>, k: nat)
    requires IsRun(cfg, loopback, states, labels) && AreSent(cfg, states, labels, sent) && k < |states|
    ensures Heard(StartView(labels, k), SinceReset(labels, sent, k), cfg.name) == ViewOf(states[k].clock)
  {
    if k > 0 {
      ConsumerKnowsClock(cfg, loopback, states, labels, sent, k - 1);
      RunStepIsHeard(cfg, loopback, states, labels, sent, k - 1);
      StartViewNext(labels, k - 1);
      HeardAppend(StartView(labels, k), SinceReset(labels, sent, k - 1), sent[k - 1], cfg.name);
    }
  }

  /** `ps` are ptp_state messages that lead from one state to another, each telling a change. */
  ghost predicate LeadTo(ps: seq<Message>, profile: string, start: PTPState, end: PTPState) {
    && (forall k :: 0 <= k < |ps| ==> ps[k].PtpState? && ps[k].profile == profile)
    && (forall k :: 0 <= k < |ps| ==> StateAt(ps, start, k + 1) != StateAt(ps, start, k))
    && end == StateAt(ps, start, |ps|)
  }

  /** The state after k of the ptp_state messages. */
  function StateAt(ps: seq<Message>, start: PTPState, k: nat): PTPState
    requires k <= |ps| && (forall i :: 0 <= i < |ps| ==> ps[i].PtpState?)
  {
    if k == 0 then start else ps[k - 1].state
  }

  lemma ChangeLeads(profile: string, iface: string, s: PTPState, t: PTPState)
    ensures LeadTo(if t != s then [PtpState(profile, iface, t)] else [], profile, s, t)
  {}

  lemma EventLeads(cfg: Config, s: BcState, ev: Event, os: PTPState)
    requires HasNeededOffset(ev)
    ensures var e := OnEvent(cfg, s, ev, os); LeadTo(PortStates(e.sent), cfg.name, s.sync, e.next.sync)
  {
    EventSendsPortState(cfg, s, ev, os);
    ChangeLeads(cfg.name, if ev.data.HoldoverExpired? then s.iface else ev.iface, s.sync, OnEvent(cfg, s, ev, os).next.sync);
  }

  lemma StepSendsPortState(cfg: Config, loopback: bool, s: System, l: Label, ms: seq<Message>, t: System)
    requires IsSent(cfg, s, l, ms) && t == Next(cfg, loopback, s, l) && !l.ResetClock?
    ensures LeadTo(PortStates(ms), cfg.name, s.clock.sync, t.clock.sync)
  {
    match l
    case Deliver(ev, os) => EventLeads(cfg, s.clock, ev, os);
    case Expire(g, os) => EventLeads(cfg, s.clock, Expiry(g), os);
    case OsChange(os) =>
      AnnouncedSends(cfg, s.clock, s.clock, "", "", os);
      PortStatesOfChanges(ViewOf(s.clock), ViewOf(Settled(s.clock, os)), cfg.name, "", "");
    case _ =>
  }

  lemma LeadFurther(a: seq<Message>, b: seq<Message>, profile: string, start: PTPState, mid: PTPState, end: PTPState)
    requires LeadTo(a, profile, start, mid) && LeadTo(b, profile, mid, end)
    ensures LeadTo(a + b, profile, start, end)
  {
    var all := a + b;
    forall k | 0 <= k <= |all| ensures StateAt(all, start, k) == if k <= |a| then StateAt(a, start, k) else StateAt(b, mid, k - |a|) {}
    assert StateAt(a, start, |a|) == StateAt(b, mid, 0);
    forall k | 0 <= k < |all| ensures StateAt(all, start, k + 1) != StateAt(all, start, k) {
      if k < |a| {
        assert StateAt(a, start, k + 1) != StateAt(a, start, k);
      } else {
        assert StateAt(b, mid, k - |a| + 1) != StateAt(b, mid, k - |a|);
      }
    }
  }

  /** The last ptp_state a clock sent since its start or last reset is its state, and no two in a row are the same. */
  lemma {:induction false} LastPortStateIsState(cfg: Config, loopback: bool, states: seq<System>, labels: seq<Label>,
                                                sent: seq<seq<Message>>, k: nat)
    requires IsRun(cfg, loopback, states, labels) && AreSent(cfg, states, labels, sent) && k < |states|
    ensures LeadTo(PortStates(SinceReset(labels, sent, k)), cfg.name, StartView(labels, k).port, states[k].clock.sync)
  {
    if k > 0 {
      RunStepIsHeard(cfg, loopback, states, labels, sent, k - 1);
      StartViewNext(labels, k - 1);
      if !labels[k - 1].ResetClock? {
        var before := SinceReset(labels, sent, k - 1);
        LastPortStateIsState(cfg, loopback, states, labels, sent, k - 1);
        PortStatesAppend(before, sent[k - 1]);
        LeadFurther(PortStates(before), PortStates(sent[k - 1]), cfg.name, StartView(labels, k).port,
                    states[k - 1].clock.sync, states[k].clock.sync);
      }
    }
  }
}
