/**
  Boundary clocks that replace one another under one config name. Removing all clocks cancels no timer:
  the timers of a removed clock keep running, and what they post reaches whichever clock is registered
  under the name when it arrives.
 */
module ClockReplacement {
  import opened SyncStates
  import opened BoundaryClock
  import HT = HoldoverTimers

  /** A clock with its own timers and the expiries they have posted. */
  datatype Instance = Instance(cfg: Config, sys: HT.System)

  /** Every clock ever created under the name; the last one is the registered one, if one is registered. */
  datatype World = World(clocks: seq<Instance>, registered: bool)

  datatype Act =
    | Take(l: HT.Label)                           // an event, an OS clock change or a reset
    | Fire(inst: nat, generation: nat)            // the timeout of a timer passes
    | Stop(inst: nat, generation: nat)            // a timer goroutine sees its channel closed
    | Expire(inst: nat, generation: nat, os: PTPState) // an expiry posted by a timer of `inst` is delivered
    | Add(cfg: Config)
    | RemoveAll

  const START := World([], false)

  function Current(w: World): Instance
    requires w.clocks != []
  {
    w.clocks[|w.clocks| - 1]
  }

  function Clock(w: World): BcState
    requires w.clocks != []
  {
    Current(w).sys.clock
  }

  predicate HasClock(w: World) {
    w.registered && w.clocks != []
  }

  predicate Enabled(w: World, a: Act) {
    match a
    case Take(l) => HasClock(w) && (l.Deliver? || l.OsChange? || l.ResetClock?) && HT.Enabled(Current(w).sys, l)
    case Fire(i, g) => i < |w.clocks| && HT.Enabled(w.clocks[i].sys, HT.Fire(g))
    case Stop(i, g) => i < |w.clocks| && HT.Enabled(w.clocks[i].sys, HT.Stop(g))
    case Expire(i, g, os) => i < |w.clocks| && HT.Enabled(w.clocks[i].sys, HT.Expire(g, os))
    case Add(_) => true
    case RemoveAll => true
  }

  function With(w: World, i: nat, sys: HT.System): World
    requires i < |w.clocks|
  {
    w.(clocks := w.clocks[i := w.clocks[i].(sys := sys)])
  }

  function Unqueued(sys: HT.System, g: nat): HT.System {
    sys.(queue := sys.queue - multiset{g})
  }

  /** The clock manager hands an expiry to the registered clock, or drops it if there is none. */
  function Delivered(w: World, g: nat, os: PTPState): World {
    if !HasClock(w) then w
    else With(w, |w.clocks| - 1, HT.Applied(Current(w).sys, OnEvent(Current(w).cfg, Clock(w), HT.Expiry(g), os)))
  }

  function Next(w: World, a: Act): World
    requires Enabled(w, a)
  {
    match a
    case Take(l) => With(w, |w.clocks| - 1, HT.Next(Current(w).cfg, true, Current(w).sys, l))
    case Fire(i, g) => With(w, i, HT.Next(w.clocks[i].cfg, true, w.clocks[i].sys, HT.Fire(g)))
    case Stop(i, g) => With(w, i, HT.Next(w.clocks[i].cfg, true, w.clocks[i].sys, HT.Stop(g)))
    case Expire(i, g, os) => Delivered(With(w, i, Unqueued(w.clocks[i].sys, g)), g, os)
    case Add(cfg) => World(w.clocks + [Instance(cfg, HT.START)], true)
    case RemoveAll => w.(registered := false)
  }

  // ------------------------------------------------------------------ what every world keeps

  /** Every clock is valid between events, and no expiry has generation 0. */
  ghost predicate Inv(w: World) {
    forall i :: 0 <= i < |w.clocks| ==> InstanceOk(w.clocks[i])
  }

  ghost predicate InstanceOk(c: Instance) {
    Valid(c.sys.clock) && 0 !in c.sys.timers && 0 !in c.sys.queue
  }

  lemma OwnStepKeepsOk(c: Instance, l: HT.Label)
    requires InstanceOk(c) && HT.Enabled(c.sys, l) && !l.Expire?
    ensures InstanceOk(c.(sys := HT.Next(c.cfg, true, c.sys, l)))
  {
    if l.Deliver? {
      EventKeepsValid(c.cfg, c.sys.clock, l.ev, l.os);
      EventMovesTimer(c.cfg, c.sys.clock, l.ev, l.os);
    }
  }

  /** What an expiry does to the clock it is delivered to: an effect exactly in Holdover at its generation. */
  lemma ExpiryActsExactly(c: Instance, g: nat, os: PTPState)
    requires InstanceOk(c)
    ensures var e := OnEvent(c.cfg, c.sys.clock, HT.Expiry(g), os);
      && e.started.None? && e.closed.None? && e.next.gen == c.sys.clock.gen && Valid(e.next)
      && (e.next != c.sys.clock <==> c.sys.clock.sync == Holdover && g == c.sys.clock.gen)
      && (e.next != c.sys.clock ==> e.next.sync == Freerun)
      && (e.next.sync == Holdover ==> e.next == c.sys.clock)
  {
    EventKeepsValid(c.cfg, c.sys.clock, HT.Expiry(g), os);
    EventMovesTimer(c.cfg, c.sys.clock, HT.Expiry(g), os);
  }

  lemma DeliveredKeepsInv(w: World, g: nat, os: PTPState)
    requires Inv(w)
    ensures Inv(Delivered(w, g, os))
  {
    if HasClock(w) {
      assert InstanceOk(Current(w));
      ExpiryActsExactly(Current(w), g, os);
    }
  }

  lemma WithKeepsInv(w: World, i: nat, sys: HT.System)
    requires Inv(w) && i < |w.clocks| && InstanceOk(w.clocks[i].(sys := sys))
    ensures Inv(With(w, i, sys))
  {}

  lemma OwnKeepsInv(w: World, i: nat, l: HT.Label)
    requires Inv(w) && i < |w.clocks| && HT.Enabled(w.clocks[i].sys, l) && !l.Expire?
    ensures Inv(With(w, i, HT.Next(w.clocks[i].cfg, true, w.clocks[i].sys, l)))
  {
    OwnStepKeepsOk(w.clocks[i], l);
    WithKeepsInv(w, i, HT.Next(w.clocks[i].cfg, true, w.clocks[i].sys, l));
  }

  lemma StepKeepsInv(w: World, a: Act)
    requires Inv(w) && Enabled(w, a)
    ensures Inv(Next(w, a))
  {
    match a
    case Take(l) => OwnKeepsInv(w, |w.clocks| - 1, l);
    case Fire(i, g) => OwnKeepsInv(w, i, HT.Fire(g));
    case Stop(i, g) => OwnKeepsInv(w, i, HT.Stop(g));
    case Expire(i, g, os) => DeliveredKeepsInv(With(w, i, Unqueued(w.clocks[i].sys, g)), g, os);
    case Add(_) =>
    case RemoveAll =>
  }

  /** Each act leads from its world to the next one. */
  ghost predicate IsPath(ws: seq<World>, acts: seq<Act>) {
    && |ws| == |acts| + 1
    && forall k :: 0 <= k < |acts| ==> IsStep(ws, acts, k)
  }

  ghost predicate IsStep(ws: seq<World>, acts: seq<Act>, k: nat)
    requires k < |acts| < |ws|
  {
    Enabled(ws[k], acts[k]) && ws[k + 1] == Next(ws[k], acts[k])
  }

  ghost predicate IsRun(ws: seq<World>, acts: seq<Act>) {
    IsPath(ws, acts) && ws[0] == START
  }

  lemma {:induction false} PathKeepsInv(ws: seq<World>, acts: seq<Act>, k: nat)
    requires IsPath(ws, acts) && Inv(ws[0]) && k < |ws|
    ensures Inv(ws[k])
  {
    if k > 0 {
      PathKeepsInv(ws, acts, k - 1);
      assert IsStep(ws, acts, k - 1);
      StepKeepsInv(ws[k - 1], acts[k - 1]);
    }
  }

  // ------------------------------------------------------------------ whose holdover an expiry ends

  /** In `w` a clock is registered and in Holdover at this generation, and it is the n-th. */
  ghost predicate InHoldover(w: World, n: nat, g: nat) {
    HasClock(w) && |w.clocks| == n && Clock(w).sync == Holdover && Clock(w).gen == g
  }

  /** The delivery at `k` ends the holdover of the registered clock. */
  ghost predicate EndsHoldover(ws: seq<World>, acts: seq<Act>, k: nat) {
    && k < |acts| < |ws| && acts[k].Expire? && HasClock(ws[k]) && HasClock(ws[k + 1])
    && Clock(ws[k]).sync == Holdover && Clock(ws[k + 1]).sync != Holdover
  }

  ghost predicate ArmsAt(ws: seq<World>, acts: seq<Act>, j: nat, g: nat)
    requires j < |acts| < |ws|
  {
    acts[j].Take? && HasClock(ws[j]) && HT.Arms(Current(ws[j]).cfg, Current(ws[j]).sys, acts[j].l, g)
  }

  /** The n-th clock armed generation `g` at `j`, and has been in that holdover until `k`, without a sample or reset. */
  ghost predicate Episode(ws: seq<World>, acts: seq<Act>, j: nat, k: nat, n: nat, g: nat) {
    && j < k < |ws| && |ws| == |acts| + 1 && ArmsAt(ws, acts, j, g) && |ws[j].clocks| == n
    && (forall m :: j < m <= k ==> InHoldover(ws[m], n, g))
    && (forall m :: j < m < k ==> !(acts[m].Take? && HT.Ends(acts[m].l)))
  }

  /** The delivered expiry is of the very clock and holdover it ends. */
  ghost predicate EndsOwnEpisode(ws: seq<World>, acts: seq<Act>, k: nat) {
    && k < |acts| < |ws| && acts[k].Expire? && acts[k].inst + 1 == |ws[k].clocks|
    && exists j :: Episode(ws, acts, j, k, |ws[k].clocks|, acts[k].generation)
  }

  lemma TakenInHoldover(w: World, l: HT.Label)
    requires Inv(w) && Enabled(w, Take(l)) && Clock(Next(w, Take(l))).sync == Holdover
    ensures if Clock(w).sync == Holdover then Clock(Next(w, Take(l))).gen == Clock(w).gen && !HT.Ends(l)
            else HT.Arms(Current(w).cfg, Current(w).sys, l, Clock(Next(w, Take(l))).gen)
  {
    assert InstanceOk(Current(w));
    if l.Deliver? {
      EventMovesTimer(Current(w).cfg, Clock(w), l.ev, l.os);
      EventDecidesState(Current(w).cfg, Clock(w), l.ev, l.os);
    }
  }

  lemma TimerLeavesClock(w: World, a: Act)
    requires Enabled(w, a) && (a.Fire? || a.Stop?) && w.clocks != []
    ensures |Next(w, a).clocks| == |w.clocks| && Next(w, a).registered == w.registered && Clock(Next(w, a)) == Clock(w)
  {}

  lemma ExpiryStep(w: World, a: Act)
    requires Inv(w) && Enabled(w, a) && a.Expire? && HasClock(w)
    ensures var t := Next(w, a);
      && HasClock(t) && |t.clocks| == |w.clocks| && Clock(t).gen == Clock(w).gen
      && (Clock(t) != Clock(w) <==> Clock(w).sync == Holdover && a.generation == Clock(w).gen)
      && (Clock(t) != Clock(w) ==> Clock(t).sync == Freerun)
  {
    var u := With(w, a.inst, Unqueued(w.clocks[a.inst].sys, a.generation));
    assert InstanceOk(w.clocks[a.inst]) && InstanceOk(Current(w));
    assert Clock(u) == Clock(w) && Current(u).cfg == Current(w).cfg;
    ExpiryActsExactly(Current(u), a.generation, a.os);
  }

  /** How a clock can be in Holdover after a step: it was, undisturbed, or the step armed it. */
  lemma StepInHoldover(w: World, a: Act, n: nat, g: nat)
    requires Inv(w) && Enabled(w, a) && InHoldover(Next(w, a), n, g)
    ensures if InHoldover(w, n, g) then !(a.Take? && HT.Ends(a.l))
            else a.Take? && HasClock(w) && |w.clocks| == n && HT.Arms(Current(w).cfg, Current(w).sys, a.l, g)
  {
    match a
    case Take(l) => TakenInHoldover(w, l);
    case Fire(_, _) => TimerLeavesClock(w, a);
    case Stop(_, _) => TimerLeavesClock(w, a);
    case Expire(_, _, _) => ExpiryStep(w, a);
    case Add(_) =>
    case RemoveAll =>
  }

  /** Every holdover was entered by a lost source that armed it, and nothing has disturbed it since. */
  lemma {:induction false} HoldoverHasOneOrigin(ws: seq<World>, acts: seq<Act>, k: nat, n: nat, g: nat) returns (j: nat)
    requires IsPath(ws, acts) && Inv(ws[0]) && k < |ws|
    requires InHoldover(ws[k], n, g) && (HasClock(ws[0]) ==> Clock(ws[0]).sync != Holdover)
    ensures Episode(ws, acts, j, k, n, g)
  {
    EnteredOrKept(ws, acts, k, n, g);
    if InHoldover(ws[k - 1], n, g) {
      j := HoldoverHasOneOrigin(ws, acts, k - 1, n, g);
      EpisodeExtends(ws, acts, j, k, n, g);
    } else {
      j := k - 1;
    }
  }

  lemma EnteredOrKept(ws: seq<World>, acts: seq<Act>, k: nat, n: nat, g: nat)
    requires IsPath(ws, acts) && Inv(ws[0]) && k < |ws|
    requires InHoldover(ws[k], n, g) && (HasClock(ws[0]) ==> Clock(ws[0]).sync != Holdover)
    ensures k > 0
    ensures if InHoldover(ws[k - 1], n, g) then !(acts[k - 1].Take? && HT.Ends(acts[k - 1].l))
            else Episode(ws, acts, k - 1, k, n, g)
  {
    assert IsStep(ws, acts, k - 1);
    PathKeepsInv(ws, acts, k - 1);
    StepInHoldover(ws[k - 1], acts[k - 1], n, g);
  }

  lemma EpisodeExtends(ws: seq<World>, acts: seq<Act>, j: nat, k: nat, n: nat, g: nat)
    requires 0 < k < |ws| && Episode(ws, acts, j, k - 1, n, g)
    requires InHoldover(ws[k], n, g) && !(acts[k - 1].Take? && HT.Ends(acts[k - 1].l))
    ensures Episode(ws, acts, j, k, n, g)
  {}

  /**
    Over all paths with replacements: an expiry ends a holdover that it did not arm if and only if it comes
    from another clock and finds the registered one in Holdover at its own generation.
   */
  lemma EndsForeignHoldoverExactly(ws: seq<World>, acts: seq<Act>, k: nat)
    requires IsPath(ws, acts) && Inv(ws[0]) && (HasClock(ws[0]) ==> Clock(ws[0]).sync != Holdover)
    requires k < |acts| && acts[k].Expire? && HasClock(ws[k])
    ensures EndsHoldover(ws, acts, k) && !EndsOwnEpisode(ws, acts, k)
      <==> acts[k].inst + 1 != |ws[k].clocks| && InHoldover(ws[k], |ws[k].clocks|, acts[k].generation)
  {
    PathKeepsInv(ws, acts, k);
    assert IsStep(ws, acts, k);
    ExpiryStep(ws[k], acts[k]);
    if EndsHoldover(ws, acts, k) && acts[k].inst + 1 == |ws[k].clocks| {
      var j := HoldoverHasOneOrigin(ws, acts, k, |ws[k].clocks|, acts[k].generation);
    }
  }

  // ------------------------------------------------------------------ when a new clock is protected

  /** A path as long as the clock registered in `w` stays registered. */
  ghost predicate IsTenure(w: World, ws: seq<World>, acts: seq<Act>) {
    IsPath(ws, acts) && ws[0] == w && forall k :: 0 <= k < |acts| ==> !acts[k].Add? && !acts[k].RemoveAll?
  }

  /** Whatever comes, every expiry that ends a holdover of the clock registered in `w` is its own. */
  ghost predicate Protected(w: World) {
    forall ws, acts, k :: IsTenure(w, ws, acts) && EndsHoldover(ws, acts, k) ==> EndsOwnEpisode(ws, acts, k)
  }

  predicate IsIdle(c: Instance) {
    c.sys.timers == multiset{} && c.sys.queue == multiset{}
  }

  /** No timer of any of the first n clocks is running, and no expiry of theirs is on its way. */
  ghost predicate AreIdle(clocks: seq<Instance>, n: nat)
    requires n <= |clocks|
  {
    forall i :: 0 <= i < n ==> IsIdle(clocks[i])
  }

  /** Some offset is within the window in which the clock locks. */
  predicate CanLock(cfg: Config) {
    cfg.minOffset + 1 < cfg.maxOffset
  }

  /** A clock that has just been registered. */
  predicate IsNew(w: World) {
    HasClock(w) && Current(w).sys == HT.START
  }

  lemma {:induction false} TenureKeeps(w: World, ws: seq<World>, acts: seq<Act>, k: nat)
    requires IsTenure(w, ws, acts) && HasClock(w) && k < |ws|
    ensures HasClock(ws[k]) && |ws[k].clocks| == |w.clocks| && Current(ws[k]).cfg == Current(w).cfg
  {
    if k > 0 {
      TenureKeeps(w, ws, acts, k - 1);
      assert IsStep(ws, acts, k - 1);
    }
  }

  lemma {:induction false} IdleStaysIdle(w: World, ws: seq<World>, acts: seq<Act>, k: nat)
    requires IsTenure(w, ws, acts) && HasClock(w) && k < |ws| && AreIdle(w.clocks, |w.clocks| - 1)
    ensures |ws[k].clocks| == |w.clocks| && AreIdle(ws[k].clocks, |w.clocks| - 1)
  {
    TenureKeeps(w, ws, acts, k);
    if k > 0 {
      IdleStaysIdle(w, ws, acts, k - 1);
      TenureKeeps(w, ws, acts, k - 1);
      assert IsStep(ws, acts, k - 1);
      IdleStep(ws[k - 1], acts[k - 1]);
    }
  }

  lemma IdleStep(w: World, a: Act)
    requires Enabled(w, a) && HasClock(w) && !a.Add? && !a.RemoveAll? && AreIdle(w.clocks, |w.clocks| - 1)
    ensures |Next(w, a).clocks| == |w.clocks| && AreIdle(Next(w, a).clocks, |w.clocks| - 1)
    ensures a.Expire? ==> a.inst == |w.clocks| - 1
  {
    if a.Fire? || a.Stop? || a.Expire? {
      assert a.inst < |w.clocks| - 1 ==> IsIdle(w.clocks[a.inst]);
    }
  }

  lemma NothingLeftProtects(w: World)
    requires Inv(w) && IsNew(w) && AreIdle(w.clocks, |w.clocks| - 1)
    ensures Protected(w)
  {
    forall ws, acts, k | IsTenure(w, ws, acts) && EndsHoldover(ws, acts, k) ensures EndsOwnEpisode(ws, acts, k) {
      IdleStaysIdle(w, ws, acts, k);
      assert IsStep(ws, acts, k);
      IdleStep(ws[k], acts[k]);
      EndsForeignHoldoverExactly(ws, acts, k);
    }
  }

  /** A clock whose window is empty never leaves the states below Holdover. */
  lemma {:induction false} NeverLocks(w: World, ws: seq<World>, acts: seq<Act>, k: nat)
    requires IsTenure(w, ws, acts) && Inv(w) && IsNew(w) && !CanLock(Current(w).cfg) && k < |ws|
    ensures HasClock(ws[k]) && (Clock(ws[k]).sync == NotSet || Clock(ws[k]).sync == Freerun)
  {
    TenureKeeps(w, ws, acts, k);
    if k > 0 {
      NeverLocks(w, ws, acts, k - 1);
      TenureKeeps(w, ws, acts, k - 1);
      assert IsStep(ws, acts, k - 1);
      PathKeepsInv(ws, acts, k - 1);
      NeverLocksStep(ws[k - 1], acts[k - 1]);
    }
  }

  lemma NeverLocksStep(w: World, a: Act)
    requires Inv(w) && Enabled(w, a) && HasClock(w) && !a.Add? && !a.RemoveAll? && !CanLock(Current(w).cfg)
    requires Clock(w).sync == NotSet || Clock(w).sync == Freerun
    ensures Clock(Next(w, a)).sync == NotSet || Clock(Next(w, a)).sync == Freerun
  {
    match a
    case Take(l) =>
      assert InstanceOk(Current(w));
      if l.Deliver? {
        EventDecidesState(Current(w).cfg, Clock(w), l.ev, l.os);
      }
    case Fire(_, _) => TimerLeavesClock(w, a);
    case Stop(_, _) => TimerLeavesClock(w, a);
    case Expire(_, _, _) => ExpiryStep(w, a);
  }

  // ------------------------------------------------------------------ how an unprotected clock is hit

  function Last(ws: seq<World>): World
    requires ws != []
  {
    ws[|ws| - 1]
  }

  lemma Extended(w: World, ws: seq<World>, acts: seq<Act>, a: Act)
    requires IsTenure(w, ws, acts) && Enabled(Last(ws), a) && !a.Add? && !a.RemoveAll?
    ensures IsTenure(w, ws + [Next(Last(ws), a)], acts + [a])
  {
    var vs, bs := ws + [Next(Last(ws), a)], acts + [a];
    forall k | 0 <= k < |bs| ensures IsStep(vs, bs, k) {
      assert k < |acts| ==> IsStep(ws, acts, k);
    }
  }

  function Sample(cfg: Config): Act {
    Take(HT.Deliver(Event(false, "", Offset(cfg.minOffset + 1, false)), Freerun))
  }

  const LOST := Take(HT.Deliver(Event(false, "", StateChange(true)), Freerun))

  /** Nothing but the registered clock has changed, and not what it is configured with. */
  ghost predicate SameOthers(w: World, z: World) {
    && HasClock(w) && HasClock(z) && |z.clocks| == |w.clocks| && Current(z).cfg == Current(w).cfg
    && forall i :: 0 <= i < |w.clocks| - 1 ==> z.clocks[i] == w.clocks[i]
  }

  lemma Locks(w: World)
    requires Inv(w) && HasClock(w) && CanLock(Current(w).cfg) && Clock(w).sync != Holdover
    ensures Enabled(w, Sample(Current(w).cfg))
    ensures var z := Next(w, Sample(Current(w).cfg));
      SameOthers(w, z) && Inv(z) && Clock(z).sync == Locked && Clock(z).gen == Clock(w).gen
  {
    assert InstanceOk(Current(w));
    StepKeepsInv(w, Sample(Current(w).cfg));
  }

  lemma Loses(w: World)
    requires Inv(w) && HasClock(w) && Clock(w).sync == Locked
    ensures Enabled(w, LOST)
    ensures var z := Next(w, LOST);
      SameOthers(w, z) && InHoldover(z, |w.clocks|, Clock(w).gen + 1) && Clock(w).gen + 1 in Current(z).sys.timers
  {
    assert InstanceOk(Current(w));
  }

  /** An in-range sample and a lost source put a clock that is not in Holdover into its next holdover. */
  lemma LockAndLose(w: World)
    requires Inv(w) && HasClock(w) && CanLock(Current(w).cfg) && Clock(w).sync != Holdover
    ensures Enabled(w, Sample(Current(w).cfg)) && Enabled(Next(w, Sample(Current(w).cfg)), LOST)
    ensures var z := Next(Next(w, Sample(Current(w).cfg)), LOST);
      SameOthers(w, z) && InHoldover(z, |w.clocks|, Clock(w).gen + 1) && Clock(w).gen + 1 in Current(z).sys.timers
  {
    Locks(w);
    Loses(Next(w, Sample(Current(w).cfg)));
  }

  lemma FireOwn(w: World, g: nat) returns (z: World)
    requires Inv(w) && InHoldover(w, |w.clocks|, g) && g in Current(w).sys.timers
    ensures Enabled(w, Fire(|w.clocks| - 1, g)) && z == Next(w, Fire(|w.clocks| - 1, g))
    ensures Inv(z) && SameOthers(w, z) && InHoldover(z, |w.clocks|, g) && g in Current(z).sys.queue
  {
    z := Next(w, Fire(|w.clocks| - 1, g));
    StepKeepsInv(w, Fire(|w.clocks| - 1, g));
  }

  lemma DeliverOwn(w: World, g: nat) returns (z: World)
    requires Inv(w) && InHoldover(w, |w.clocks|, g) && g in Current(w).sys.queue
    ensures Enabled(w, Expire(|w.clocks| - 1, g, Freerun)) && z == Next(w, Expire(|w.clocks| - 1, g, Freerun))
    ensures SameOthers(w, z) && Clock(z).sync == Freerun && Clock(z).gen == g
  {
    z := Next(w, Expire(|w.clocks| - 1, g, Freerun));
    assert InstanceOk(Current(w));
  }

  /** The timer's timeout and the delivery of its expiry end the holdover and leave the generation. */
  lemma ExpireOwn(w: World, g: nat)
    requires Inv(w) && InHoldover(w, |w.clocks|, g) && g in Current(w).sys.timers
    ensures var fire, expire := Fire(|w.clocks| - 1, g), Expire(|w.clocks| - 1, g, Freerun);
      && Enabled(w, fire) && Enabled(Next(w, fire), expire)
      && var z := Next(Next(w, fire), expire);
      SameOthers(w, z) && Clock(z).sync == Freerun && Clock(z).gen == g
  {
    var fired := FireOwn(w, g);
    var z := DeliverOwn(fired, g);
  }

  lemma ExtendTwice(w: World, ws: seq<World>, acts: seq<Act>, a: Act, b: Act) returns (vs: seq<World>, bs: seq<Act>)
    requires IsTenure(w, ws, acts) && Inv(Last(ws)) && !a.Add? && !a.RemoveAll? && !b.Add? && !b.RemoveAll?
    requires Enabled(Last(ws), a) && Enabled(Next(Last(ws), a), b)
    ensures IsTenure(w, vs, bs) && Last(vs) == Next(Next(Last(ws), a), b) && Inv(Last(vs)) && |vs| == |ws| + 2
  {
    Extended(w, ws, acts, a);
    Extended(w, ws + [Next(Last(ws), a)], acts + [a], b);
    vs, bs := ws + [Next(Last(ws), a)] + [Next(Next(Last(ws), a), b)], acts + [a] + [b];
    StepKeepsInv(Last(ws), a);
    StepKeepsInv(Next(Last(ws), a), b);
  }

  /** The registered clock of w, later on: in Holdover with its own timer running ... */
  ghost predicate IsHeld(w: World, z: World, g: nat) {
    Inv(z) && SameOthers(w, z) && InHoldover(z, |w.clocks|, g) && g in Current(z).sys.timers
  }

  /** ... or out of Holdover, with a generation. */
  ghost predicate IsOut(w: World, z: World, g: nat) {
    Inv(z) && SameOthers(w, z) && Clock(z).sync != Holdover && Clock(z).gen == g
  }

  lemma EntersHoldover(w: World, ws: seq<World>, acts: seq<Act>, g: nat) returns (vs: seq<World>, bs: seq<Act>)
    requires IsTenure(w, ws, acts) && IsOut(w, Last(ws), g) && CanLock(Current(w).cfg)
    ensures IsTenure(w, vs, bs) && IsHeld(w, Last(vs), g + 1)
  {
    LockAndLose(Last(ws));
    vs, bs := ExtendTwice(w, ws, acts, Sample(Current(w).cfg), LOST);
  }

  lemma LeavesHoldover(w: World, ws: seq<World>, acts: seq<Act>, g: nat) returns (vs: seq<World>, bs: seq<Act>)
    requires IsTenure(w, ws, acts) && IsHeld(w, Last(ws), g)
    ensures IsTenure(w, vs, bs) && IsOut(w, Last(vs), g)
  {
    var n := |w.clocks| - 1;
    ExpireOwn(Last(ws), g);
    vs, bs := ExtendTwice(w, ws, acts, Fire(n, g), Expire(n, g, Freerun));
  }

  /** Every generation but 0 is the generation of some holdover of a new clock, its own timer still running. */
  lemma {:induction false} ReachesHoldover(w: World, g: nat) returns (ws: seq<World>, acts: seq<Act>)
    requires Inv(w) && IsNew(w) && CanLock(Current(w).cfg) && g > 0
    ensures IsTenure(w, ws, acts) && IsHeld(w, Last(ws), g)
  {
    if g == 1 {
      ws, acts := [w], [];
    } else {
      ws, acts := ReachesHoldover(w, g - 1);
      ws, acts := LeavesHoldover(w, ws, acts, g - 1);
    }
    ws, acts := EntersHoldover(w, ws, acts, g - 1);
  }

  /**
    The predecessor's expiry arrives in the new clock's holdover of the same generation and ends it, while
    the new clock's own timer is still running.
   */
  lemma LeftoverEndsHoldover(w: World, i: nat, g: nat) returns (ws: seq<World>, acts: seq<Act>)
    requires Inv(w) && IsNew(w) && CanLock(Current(w).cfg) && i < |w.clocks| - 1
    requires g in w.clocks[i].sys.timers || g in w.clocks[i].sys.queue
    ensures IsTenure(w, ws, acts) && acts != [] && EndsHoldover(ws, acts, |acts| - 1) && !EndsOwnEpisode(ws, acts, |acts| - 1)
    ensures g in Current(Last(ws)).sys.timers && Clock(Last(ws)).sync == Freerun
  {
    assert InstanceOk(w.clocks[i]);
    ws, acts := ReachesHoldover(w, g);
    assert Last(ws).clocks[i] == w.clocks[i];
    if g !in w.clocks[i].sys.queue {
      ws, acts := LeftoverFires(w, ws, acts, i, g);
    }
    LeftoverArrives(w, ws, acts, i, g);
    ws, acts := ws + [Next(Last(ws), Expire(i, g, Freerun))], acts + [Expire(i, g, Freerun)];
  }

  lemma LeftoverFires(w: World, ws: seq<World>, acts: seq<Act>, i: nat, g: nat) returns (vs: seq<World>, bs: seq<Act>)
    requires IsTenure(w, ws, acts) && Inv(Last(ws)) && i < |w.clocks| - 1
    requires InHoldover(Last(ws), |w.clocks|, g) && g in Current(Last(ws)).sys.timers && g in Last(ws).clocks[i].sys.timers
    ensures IsTenure(w, vs, bs) && Inv(Last(vs))
    ensures InHoldover(Last(vs), |w.clocks|, g) && g in Current(Last(vs)).sys.timers && g in Last(vs).clocks[i].sys.queue
  {
    Extended(w, ws, acts, Fire(i, g));
    StepKeepsInv(Last(ws), Fire(i, g));
    vs, bs := ws + [Next(Last(ws), Fire(i, g))], acts + [Fire(i, g)];
  }

  lemma LeftoverArrives(w: World, ws: seq<World>, acts: seq<Act>, i: nat, g: nat)
    requires IsTenure(w, ws, acts) && Inv(Last(ws)) && i < |w.clocks| - 1
    requires InHoldover(Last(ws), |w.clocks|, g) && g in Current(Last(ws)).sys.timers && g in Last(ws).clocks[i].sys.queue
    ensures Enabled(Last(ws), Expire(i, g, Freerun))
    ensures var vs, bs := ws + [Next(Last(ws), Expire(i, g, Freerun))], acts + [Expire(i, g, Freerun)];
      && IsTenure(w, vs, bs) && EndsHoldover(vs, bs, |acts|) && !EndsOwnEpisode(vs, bs, |acts|)
      && g in Current(Last(vs)).sys.timers && Clock(Last(vs)).sync == Freerun
  {
    var a := Expire(i, g, Freerun);
    Extended(w, ws, acts, a);
    ExpiryStep(Last(ws), a);
  }

  /**
    A newly registered clock is protected, whatever comes, if and only if nothing of the clocks before it
    is left, or no offset can lock it.
   */
  lemma ProtectedExactly(w: World)
    requires Inv(w) && IsNew(w)
    ensures Protected(w) <==> AreIdle(w.clocks, |w.clocks| - 1) || !CanLock(Current(w).cfg)
  {
    if AreIdle(w.clocks, |w.clocks| - 1) {
      NothingLeftProtects(w);
    } else if !CanLock(Current(w).cfg) {
      forall ws, acts, k: nat | IsTenure(w, ws, acts) && k < |ws| ensures !EndsHoldover(ws, acts, k) {
        NeverLocks(w, ws, acts, k);
      }
    } else {
      var i :| 0 <= i < |w.clocks| - 1 && !IsIdle(w.clocks[i]);
      var g :| g in w.clocks[i].sys.timers || g in w.clocks[i].sys.queue;
      var ws, acts := LeftoverEndsHoldover(w, i, g);
    }
  }

  /** For every run, and what can be checked before a clock is added: no timer running, no expiry on its way. */
  lemma AddedIsProtectedExactly(ws: seq<World>, acts: seq<Act>, k: nat)
    requires IsRun(ws, acts) && k < |acts| && acts[k].Add?
    ensures Protected(ws[k + 1]) <==> AreIdle(ws[k].clocks, |ws[k].clocks|) || !CanLock(acts[k].cfg)
  {
    PathKeepsInv(ws, acts, k + 1);
    assert IsStep(ws, acts, k);
    var before, after := ws[k].clocks, ws[k + 1].clocks;
    assert after == before + [Instance(acts[k].cfg, HT.START)];
    assert forall i :: 0 <= i < |before| ==> after[i] == before[i];
    assert AreIdle(after, |before|) <==> AreIdle(before, |before|);
    ProtectedExactly(ws[k + 1]);
  }

  lemma Concatenated(ws: seq<World>, acts: seq<Act>, vs: seq<World>, bs: seq<Act>)
    requires IsRun(ws, acts) && IsPath(vs, bs) && vs[0] == Last(ws)
    ensures IsRun(ws + vs[1..], acts + bs)
  {
    var us, cs := ws + vs[1..], acts + bs;
    forall k | 0 <= k < |cs| ensures IsStep(us, cs, k) {
      if k < |acts| {
        assert IsStep(ws, acts, k);
      } else {
        assert IsStep(vs, bs, k - |acts|);
      }
    }
  }

  lemma RunExtended(ws: seq<World>, acts: seq<Act>, a: Act)
    requires IsRun(ws, acts) && Enabled(Last(ws), a)
    ensures IsRun(ws + [Next(Last(ws), a)], acts + [a])
  {
    var vs, bs := ws + [Next(Last(ws), a)], acts + [a];
    forall k | 0 <= k < |bs| ensures IsStep(vs, bs, k) {
      assert k < |acts| ==> IsStep(ws, acts, k);
    }
  }

  /** The first clock locks and loses its source. */
  lemma FirstHoldover(cfg: Config) returns (ws: seq<World>, acts: seq<Act>)
    requires CanLock(cfg)
    ensures IsRun(ws, acts) && InHoldover(Last(ws), 1, 1) && 1 in Current(Last(ws)).sys.timers
  {
    var added := Next(START, Add(cfg));
    var vs, bs := EntersHoldover(added, [added], [], 0);
    Concatenated([START, added], [Add(cfg)], vs, bs);
    ws, acts := [START, added] + vs[1..], [Add(cfg)] + bs;
  }

  /** It is removed with its timer running, and another is added in its place. */
  lemma ReplacedInHoldover(cfg: Config) returns (ws: seq<World>, acts: seq<Act>)
    requires CanLock(cfg)
    ensures IsRun(ws, acts) && RemoveAll in acts
    ensures var w := Last(ws); |w.clocks| == 2 && IsNew(w) && Current(w).cfg == cfg && 1 in w.clocks[0].sys.timers
  {
    var rs, cs := FirstHoldover(cfg);
    RunExtended(rs, cs, RemoveAll);
    var removed := Next(Last(rs), RemoveAll);
    RunExtended(rs + [removed], cs + [RemoveAll], Add(cfg));
    ws, acts := rs + [removed] + [Next(removed, Add(cfg))], cs + [RemoveAll] + [Add(cfg)];
    assert acts[|cs|] == RemoveAll;
  }

  /** A run from the start in which the expiry of a removed clock ends the holdover of its successor. */
  lemma PredecessorEndsHoldover(cfg: Config) returns (ws: seq<World>, acts: seq<Act>)
    requires CanLock(cfg)
    ensures IsRun(ws, acts) && acts != [] && RemoveAll in acts
    ensures EndsHoldover(ws, acts, |acts| - 1) && !EndsOwnEpisode(ws, acts, |acts| - 1)
    ensures Last(ws).clocks != [] && 1 in Current(Last(ws)).sys.timers && Clock(Last(ws)).sync == Freerun
  {
    var rs, cs := ReplacedInHoldover(cfg);
    PathKeepsInv(rs, cs, |cs|);
    var vs, bs := LeftoverEndsHoldover(Last(rs), 0, 1);
    Concatenated(rs, cs, vs, bs);
    ws, acts := rs + vs[1..], cs + bs;
    var r :| 0 <= r < |cs| && cs[r] == RemoveAll;
    assert acts[r] == RemoveAll;
    EndsForeignHoldoverExactly(vs, bs, |bs| - 1);
    EndsForeignHoldoverExactly(ws, acts, |acts| - 1);
    assert ws[|acts| - 1] == vs[|bs| - 1] && ws[|acts|] == vs[|bs|];
  }
}
