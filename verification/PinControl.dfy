/**
  PinControl: the commands that configure DPLL pins, of
  pkg/linuxptp-daemon/addons/intel/clock-chain.go and dpllPins.go.

  A pin is passed by value, but the slice of its parent devices is shared with the pin inventory: the
  directions that a command changes are changed in the inventory, too.
 */
module PinControl {
  import opened Options
  import opened Sequences

  const EEC_INDEX := 0
  const PPS_INDEX := 1
  const DIRECTION_INPUT := 1
  const STATE_SELECTABLE := 3

  datatype Caps = Caps(direction: bool, priority: bool, state: bool)

  datatype Parent = Parent(id: nat, direction: nat, prio: Option<nat>)

  datatype PinInfo = PinInfo(id: nat, clockId: nat, boardLabel: string, caps: Caps, parents: seq<Parent>)

  datatype Control = Control(
    eecPriority: nat, ppsPriority: nat, eecOutputState: nat, ppsOutputState: nat,
    eecDirection: Option<nat>, ppsDirection: Option<nat>)

  datatype Entry = Entry(parentId: nat, direction: Option<nat>, prio: Option<nat>, state: Option<nat>)

  datatype Command = Command(pinId: nat, entries: seq<Entry>)

  // ------------------------------------------------------------------ the commands for one pin

  function DirectionFor(c: Control, i: nat): Option<nat> {
    if i == EEC_INDEX then c.eecDirection else if i == PPS_INDEX then c.ppsDirection else None
  }

  function PrioFor(c: Control, i: nat): nat {
    if i == EEC_INDEX then c.eecPriority else if i == PPS_INDEX then c.ppsPriority else 0
  }

  function OutputStateFor(c: Control, i: nat): nat {
    if i == EEC_INDEX then c.eecOutputState else if i == PPS_INDEX then c.ppsOutputState else 0
  }

  /** The direction of parent i has to change. */
  predicate Turns(p: Parent, caps: Caps, c: Control, i: nat) {
    DirectionFor(c, i).Some? && DirectionFor(c, i).value != p.direction && caps.direction
  }

  function Redirected(p: Parent, caps: Caps, c: Control, i: nat): Parent {
    if Turns(p, caps, c, i) then p.(direction := DirectionFor(c, i).value) else p
  }

  function AllRedirected(parents: seq<Parent>, caps: Caps, c: Control): (r: seq<Parent>)
    ensures |r| == |parents| && forall i :: 0 <= i < |r| ==> r[i] == Redirected(parents[i], caps, c, i)
  {
    seq(|parents|, i requires 0 <= i < |parents| => Redirected(parents[i], caps, c, i))
  }

  /** The direction changes of the first n parents. */
  function DirectionEntries(parents: seq<Parent>, caps: Caps, c: Control, n: nat): seq<Entry>
    requires n <= |parents|
  {
    if n == 0 then []
    else
      DirectionEntries(parents, caps, c, n - 1)
      + if Turns(parents[n - 1], caps, c, n - 1) then [Entry(parents[n - 1].id, DirectionFor(c, n - 1), None, None)] else []
  }

  /** Priority and state of parent i, by the direction it has now. */
  function SettingFor(p: Parent, caps: Caps, c: Control, i: nat): Entry {
    if p.direction == DIRECTION_INPUT then
      Entry(p.id, None, if p.prio.Some? && caps.priority then Some(PrioFor(c, i)) else None,
            if caps.state then Some(STATE_SELECTABLE) else None)
    else
      Entry(p.id, None, None, if caps.state then Some(OutputStateFor(c, i)) else None)
  }

  function Settings(parents: seq<Parent>, caps: Caps, c: Control): (r: seq<Entry>)
    ensures |r| == |parents| && forall i :: 0 <= i < |r| ==> r[i] == SettingFor(parents[i], caps, c, i)
  {
    seq(|parents|, i requires 0 <= i < |parents| => SettingFor(parents[i], caps, c, i))
  }

  function AfterControl(pin: PinInfo, c: Control): PinInfo {
    pin.(parents := AllRedirected(pin.parents, pin.caps, c))
  }

  function DirectionCommand(pin: PinInfo, c: Control): seq<Command> {
    var entries := DirectionEntries(pin.parents, pin.caps, c, |pin.parents|);
    if entries == [] then [] else [Command(pin.id, entries)]
  }

  function Commands(pin: PinInfo, c: Control): seq<Command> {
    DirectionCommand(pin, c) + [Command(pin.id, Settings(AfterControl(pin, c).parents, pin.caps, c))]
  }

  lemma {:induction false} DirectionEntriesOnlyTurn(parents: seq<Parent>, caps: Caps, c: Control, n: nat)
    requires n <= |parents|
    ensures forall e :: e in DirectionEntries(parents, caps, c, n) ==> e.direction.Some? && e.prio.None? && e.state.None?
    ensures DirectionEntries(parents, caps, c, n) == [] <==> forall i :: 0 <= i < n ==> !Turns(parents[i], caps, c, i)
  {
    if n > 0 {
      DirectionEntriesOnlyTurn(parents, caps, c, n - 1);
    }
  }

  /**
    At most one command of directions alone, exactly if a direction changes, and then one command that
    covers every parent once, in order, without directions.
   */
  lemma CommandsAreSeparate(pin: PinInfo, c: Control)
    ensures var all := Commands(pin, c);
            var last := all[|all| - 1];
            && 1 <= |all| <= 2 && (forall k :: 0 <= k < |all| ==> all[k].pinId == pin.id)
            && (|all| == 2 <==> exists i :: 0 <= i < |pin.parents| && Turns(pin.parents[i], pin.caps, c, i))
            && (|all| == 2 ==> forall e :: e in all[0].entries ==> e.direction.Some? && e.prio.None? && e.state.None?)
            && |last.entries| == |pin.parents|
            && forall i :: 0 <= i < |pin.parents| ==> last.entries[i].parentId == pin.parents[i].id && last.entries[i].direction.None?
  {
    var entries := DirectionEntries(pin.parents, pin.caps, c, |pin.parents|);
    DirectionEntriesOnlyTurn(pin.parents, pin.caps, c, |pin.parents|);
    var last := Command(pin.id, Settings(AfterControl(pin, c).parents, pin.caps, c));
    if entries == [] {
      assert Commands(pin, c) == [last];
    } else {
      assert Commands(pin, c) == [Command(pin.id, entries), last];
    }
  }

  /** The same control again: the inventory knows the directions, so none is sent, and it stays as it is. */
  lemma SecondCallSendsNoDirection(pin: PinInfo, c: Control)
    ensures AfterControl(AfterControl(pin, c), c) == AfterControl(pin, c)
    ensures Commands(AfterControl(pin, c), c) == [Commands(pin, c)[|Commands(pin, c)| - 1]]
  {
    var after := AfterControl(pin, c);
    DirectionEntriesOnlyTurn(after.parents, pin.caps, c, |after.parents|);
    assert forall i :: 0 <= i < |after.parents| ==> !Turns(after.parents[i], pin.caps, c, i);
    assert AfterControl(after, c).parents == after.parents;
  }

  // ------------------------------------------------------------------ what the kernel does with them

  /** A parent of a pin as the kernel has it. */
  datatype Port = Port(id: nat, direction: nat, prio: Option<nat>, state: nat)

  datatype KernelPin = KernelPin(caps: Caps, ports: seq<Port>)

  function FindPort(ports: seq<Port>, id: nat): (k: nat)
    ensures k <= |ports|
    ensures k < |ports| ==> ports[k].id == id
    ensures forall j :: 0 <= j < k ==> ports[j].id != id
  {
    First(ports, (p: Port) => p.id == id)
  }

  /** The kernel rejects a change that mixes direction with priority or state, or that the pin is not capable of. */
  predicate Accepts(k: KernelPin, e: Entry) {
    && FindPort(k.ports, e.parentId) < |k.ports|
    && !(e.direction.Some? && (e.prio.Some? || e.state.Some?))
    && (e.direction.Some? ==> k.caps.direction)
    && (e.prio.Some? ==> k.caps.priority && k.ports[FindPort(k.ports, e.parentId)].prio.Some?)
    && (e.state.Some? ==> k.caps.state)
  }

  function SetPort(p: Port, e: Entry): Port {
    Port(p.id, if e.direction.Some? then e.direction.value else p.direction,
         if e.prio.Some? then e.prio else p.prio, if e.state.Some? then e.state.value else p.state)
  }

  function RunEntry(k: KernelPin, e: Entry): Option<KernelPin> {
    if !Accepts(k, e) then None
    else
      var at := FindPort(k.ports, e.parentId);
      Some(k.(ports := k.ports[at := SetPort(k.ports[at], e)]))
  }

  function RunEntries(k: KernelPin, entries: seq<Entry>): Option<KernelPin> {
    if entries == [] then Some(k)
    else
      var before := RunEntries(k, entries[..|entries| - 1]);
      if before.None? then None else RunEntry(before.value, entries[|entries| - 1])
  }

  /** The commands for one pin, one after the other. */
  function RunCommands(k: KernelPin, commands: seq<Command>): Option<KernelPin>
    decreases |commands|
  {
    if commands == [] then Some(k)
    else
      var next := RunEntries(k, commands[0].entries);
      if next.None? then None else RunCommands(next.value, commands[1..])
  }

  ghost predicate DistinctPorts(ports: seq<Port>) {
    forall i, j :: 0 <= i < j < |ports| ==> ports[i].id != ports[j].id
  }

  predicate SamePort(p: Parent, q: Port) {
    p.id == q.id && p.direction == q.direction && p.prio.Some? == q.prio.Some?
  }

  /** The inventory knows the pin as it is. */
  ghost predicate Mirrors(pin: PinInfo, k: KernelPin) {
    && pin.caps == k.caps && |pin.parents| == |k.ports| && DistinctPorts(k.ports)
    && forall i :: 0 <= i < |k.ports| ==> SamePort(pin.parents[i], k.ports[i])
  }

  /** What a control asks for port i, as far as the pin is capable of it. */
  function Asked(q: Port, caps: Caps, c: Control, i: nat): Port {
    var direction := if caps.direction && DirectionFor(c, i).Some? then DirectionFor(c, i).value else q.direction;
    if direction == DIRECTION_INPUT then
      Port(q.id, direction, if caps.priority && q.prio.Some? then Some(PrioFor(c, i)) else q.prio,
           if caps.state then STATE_SELECTABLE else q.state)
    else
      Port(q.id, direction, q.prio, if caps.state then OutputStateFor(c, i) else q.state)
  }

  /** Port `after` is `before` with a direction, a priority and a state, as far as the pin is capable of each. */
  predicate IsSet(before: Port, after: Port, caps: Caps, direction: Option<nat>, prio: nat, state: nat) {
    && after.id == before.id
    && after.direction == (if caps.direction && direction.Some? then direction.value else before.direction)
    && after.prio == (if after.direction == DIRECTION_INPUT && caps.priority && before.prio.Some? then Some(prio) else before.prio)
    && after.state == (if !caps.state then before.state else if after.direction == DIRECTION_INPUT then STATE_SELECTABLE else state)
  }

  /**
    The first port is as the EEC fields of the control say and the second as the PPS fields say. The others
    keep their direction and get priority and state 0.
   */
  ghost predicate AsControlled(before: seq<Port>, after: seq<Port>, caps: Caps, c: Control) {
    && |after| == |before|
    && (|before| > 0 ==> IsSet(before[0], after[0], caps, c.eecDirection, c.eecPriority, c.eecOutputState))
    && (|before| > 1 ==> IsSet(before[1], after[1], caps, c.ppsDirection, c.ppsPriority, c.ppsOutputState))
    && (forall i :: 2 <= i < |before| ==> IsSet(before[i], after[i], caps, None, 0, 0))
  }

  lemma AskedIsControlled(before: seq<Port>, after: seq<Port>, caps: Caps, c: Control)
    ensures AsControlled(before, after, caps, c)
      <==> |after| == |before| && forall i :: 0 <= i < |after| ==> after[i] == Asked(before[i], caps, c, i)
  {
    if AsControlled(before, after, caps, c) {
      forall i | 0 <= i < |after| ensures after[i] == Asked(before[i], caps, c, i) {}
    }
  }

  lemma FindPortAt(ports: seq<Port>, i: nat)
    requires DistinctPorts(ports) && i < |ports|
    ensures FindPort(ports, ports[i].id) == i
  {}

  lemma {:induction false} RunSnoc(k: KernelPin, entries: seq<Entry>, e: Entry)
    ensures RunEntries(k, entries + [e])
         == if RunEntries(k, entries).None? then None else RunEntry(RunEntries(k, entries).value, e)
  {
    assert (entries + [e])[..|entries|] == entries;
  }

  /** Turned: the ports below n have the direction asked for, nothing else has changed. */
  ghost predicate Turned(before: seq<Port>, after: seq<Port>, caps: Caps, c: Control, n: nat) {
    && |after| == |before|
    && forall i :: 0 <= i < |after| ==>
         after[i] == if i < n && caps.direction && DirectionFor(c, i).Some?
                     then before[i].(direction := DirectionFor(c, i).value) else before[i]
  }

  lemma TurnOne(before: seq<Port>, q: KernelPin, p: Parent, c: Control, i: nat)
    requires DistinctPorts(before) && i < |before| && SamePort(p, before[i])
    requires Turned(before, q.ports, q.caps, c, i)
    ensures Turns(p, q.caps, c, i) ==>
      var r := RunEntry(q, Entry(p.id, DirectionFor(c, i), None, None));
      r.Some? && r.value.caps == q.caps && Turned(before, r.value.ports, q.caps, c, i + 1)
    ensures !Turns(p, q.caps, c, i) ==> Turned(before, q.ports, q.caps, c, i + 1)
  {
    assert q.ports[i].id == p.id;
    FindPortAt(q.ports, i);
  }

  lemma {:induction false} DirectionsRun(pin: PinInfo, k: KernelPin, c: Control, n: nat)
    requires Mirrors(pin, k) && n <= |pin.parents|
    ensures var r := RunEntries(k, DirectionEntries(pin.parents, pin.caps, c, n));
            r.Some? && r.value.caps == k.caps && Turned(k.ports, r.value.ports, k.caps, c, n)
  {
    if n > 0 {
      DirectionsRun(pin, k, c, n - 1);
      var p := pin.parents[n - 1];
      assert SamePort(p, k.ports[n - 1]);
      var before := DirectionEntries(pin.parents, pin.caps, c, n - 1);
      TurnOne(k.ports, RunEntries(k, before).value, p, c, n - 1);
      if Turns(p, pin.caps, c, n - 1) {
        RunSnoc(k, before, Entry(p.id, DirectionFor(c, n - 1), None, None));
      } else {
        assert before + [] == before;
      }
    }
  }

  /** The ports below n have the priority and state asked for by their direction, nothing else has changed. */
  ghost predicate Configured(before: seq<Port>, after: seq<Port>, entries: seq<Entry>, n: nat)
    requires n <= |entries| == |before|
  {
    |after| == |before| && forall i :: 0 <= i < |after| ==> after[i] == if i < n then SetPort(before[i], entries[i]) else before[i]
  }

  lemma ConfigureOne(before: seq<Port>, q: KernelPin, entries: seq<Entry>, p: Parent, c: Control, i: nat)
    requires DistinctPorts(before) && i < |before| == |entries| && SamePort(p, before[i])
    requires Configured(before, q.ports, entries, i)
    requires entries[i] == SettingFor(p, q.caps, c, i)
    ensures var r := RunEntry(q, entries[i]); r.Some? && r.value.caps == q.caps && Configured(before, r.value.ports, entries, i + 1)
  {
    assert q.ports[i].id == p.id;
    FindPortAt(q.ports, i);
  }

  lemma {:induction false} SettingsRun(pin: PinInfo, k: KernelPin, entries: seq<Entry>, c: Control, n: nat)
    requires Mirrors(pin, k) && n <= |pin.parents|
    requires entries == Settings(pin.parents, pin.caps, c)
    ensures var r := RunEntries(k, entries[..n]);
            r.Some? && r.value.caps == k.caps && Configured(k.ports, r.value.ports, entries, n)
  {
    if n > 0 {
      SettingsRun(pin, k, entries, c, n - 1);
      assert SamePort(pin.parents[n - 1], k.ports[n - 1]);
      ConfigureOne(k.ports, RunEntries(k, entries[..n - 1]).value, entries, pin.parents[n - 1], c, n - 1);
      TakeNext(entries, n);
      RunSnoc(k, entries[..n - 1], entries[n - 1]);
    }
  }

  lemma TakeNext(entries: seq<Entry>, n: nat)
    requires 0 < n <= |entries|
    ensures entries[..n] == entries[..n - 1] + [entries[n - 1]]
  {}

  lemma TurnedIsMirrored(pin: PinInfo, k: KernelPin, q: KernelPin, c: Control)
    requires Mirrors(pin, k) && q.caps == k.caps && Turned(k.ports, q.ports, k.caps, c, |k.ports|)
    ensures Mirrors(AfterControl(pin, c), q)
  {
    forall i | 0 <= i < |q.ports| ensures SamePort(AfterControl(pin, c).parents[i], q.ports[i]) {
      assert SamePort(pin.parents[i], k.ports[i]);
    }
  }

  lemma ConfiguredIsAsked(pin: PinInfo, before: seq<Port>, q: KernelPin, after: seq<Port>, c: Control)
    requires Mirrors(pin, q) && Turned(before, q.ports, q.caps, c, |before|)
    requires Configured(q.ports, after, Settings(pin.parents, pin.caps, c), |q.ports|)
    ensures AsControlled(before, after, q.caps, c)
    ensures Mirrors(pin, q.(ports := after))
  {
    forall i | 0 <= i < |after|
      ensures after[i] == Asked(before[i], q.caps, c, i) && SamePort(pin.parents[i], after[i])
    {
      assert SamePort(pin.parents[i], q.ports[i]);
    }
    AskedIsControlled(before, after, q.caps, c);
  }

  /**
    The kernel accepts every command for a pin that the inventory knows as it is; afterwards its ports are as
    the control says, and the inventory knows the pin again.
   */
  lemma CommandsTakeEffect(pin: PinInfo, k: KernelPin, c: Control)
    requires Mirrors(pin, k)
    ensures var r := RunCommands(k, Commands(pin, c));
            r.Some? && r.value.caps == k.caps && AsControlled(k.ports, r.value.ports, k.caps, c) && Mirrors(AfterControl(pin, c), r.value)
  {
    var turns := DirectionEntries(pin.parents, pin.caps, c, |pin.parents|);
    var after := AfterControl(pin, c);
    var settings := Settings(after.parents, pin.caps, c);
    DirectionsRun(pin, k, c, |pin.parents|);
    var q := RunEntries(k, turns).value;
    TurnedIsMirrored(pin, k, q, c);
    SettingsRun(after, q, settings, c, |after.parents|);
    assert settings[..|after.parents|] == settings;
    ConfiguredIsAsked(after, k.ports, q, RunEntries(q, settings).value.ports, c);
    TwoCommands(k, pin.id, turns, settings);
  }

  lemma OneCommand(k: KernelPin, command: Command)
    ensures RunCommands(k, [command]) == RunEntries(k, command.entries)
  {
    assert [command][1..] == [];
  }

  lemma TwoCommands(k: KernelPin, id: nat, turns: seq<Entry>, settings: seq<Entry>)
    requires RunEntries(k, turns).Some?
    ensures RunCommands(k, (if turns == [] then [] else [Command(id, turns)]) + [Command(id, settings)])
         == RunEntries(RunEntries(k, turns).value, settings)
  {
    var last := [Command(id, settings)];
    OneCommand(RunEntries(k, turns).value, last[0]);
    if turns == [] {
      assert [] + last == last;
    } else {
      var both := [Command(id, turns)] + last;
      assert both[1..] == last && both[0].entries == turns;
    }
  }

  // ------------------------------------------------------------------ the pins of a clock chain

  datatype LabelledControl = LabelledControl(boardLabel: string, control: Control)

  /** A control for one pin of the inventory. */
  datatype Job = Job(pin: nat, control: Control)

  datatype Batch = Batch(commands: seq<Command>, pins: seq<PinInfo>)

  function RunJobs(pins: seq<PinInfo>, jobs: seq<Job>): Batch
    requires forall i :: 0 <= i < |jobs| ==> jobs[i].pin < |pins|
    decreases |jobs|
  {
    if jobs == [] then Batch([], pins)
    else
      var at := jobs[0].pin;
      var rest := RunJobs(pins[at := AfterControl(pins[at], jobs[0].control)], jobs[1..]);
      rest.(commands := Commands(pins[at], jobs[0].control) + rest.commands)
  }

  function FindByLabel(pins: seq<PinInfo>, boardLabel: string, clockId: nat): (k: nat)
    ensures k <= |pins|
    ensures k < |pins| ==> pins[k].boardLabel == boardLabel && pins[k].clockId == clockId
    ensures forall j :: 0 <= j < k ==> !(pins[j].boardLabel == boardLabel && pins[j].clockId == clockId)
  {
    First(pins, (p: PinInfo) => p.boardLabel == boardLabel && p.clockId == clockId)
  }

  /** One pin per label, on the leading card; a label that is not there is skipped. The first n controls. */
  function JobsOnLeading(pins: seq<PinInfo>, clockId: nat, controls: seq<LabelledControl>, n: nat): (jobs: seq<Job>)
    requires n <= |controls|
    ensures forall i :: 0 <= i < |jobs| ==> jobs[i].pin < |pins|
    decreases n
  {
    if n == 0 then []
    else
      var k := FindByLabel(pins, controls[n - 1].boardLabel, clockId);
      var before := JobsOnLeading(pins, clockId, controls, n - 1);
      if k < |pins| then before + [Job(k, controls[n - 1].control)] else before
  }

  /** The pins with this label among the first n, in order. */
  function AllByLabel(pins: seq<PinInfo>, boardLabel: string, n: nat): seq<nat>
    requires n <= |pins|
  {
    if n == 0 then []
    else AllByLabel(pins, boardLabel, n - 1) + if pins[n - 1].boardLabel == boardLabel then [n - 1] else []
  }

  /** They are all there, each once. */
  lemma {:induction false} AllByLabelExactly(pins: seq<PinInfo>, boardLabel: string, n: nat)
    requires n <= |pins|
    ensures forall k: nat :: k in AllByLabel(pins, boardLabel, n) <==> k < n && pins[k].boardLabel == boardLabel
    ensures NoneTwice(AllByLabel(pins, boardLabel, n))
  {
    if n > 0 {
      AllByLabelExactly(pins, boardLabel, n - 1);
    }
  }

  ghost predicate NoneTwice(found: seq<nat>) {
    forall j, k :: 0 <= j < k < |found| ==> found[j] != found[k]
  }

  const SMA2_INPUT := "SMA2/U.FL2"
  const SMA2 := "SMA2"

  /** The pins a label stands for: some cards call the second SMA connector differently. */
  function PinsFor(pins: seq<PinInfo>, boardLabel: string): (found: seq<nat>)
    ensures forall i :: 0 <= i < |found| ==> found[i] < |pins|
  {
    var own := AllByLabel(pins, boardLabel, |pins|);
    AllByLabelExactly(pins, boardLabel, |pins|);
    AllByLabelExactly(pins, SMA2, |pins|);
    var found := if own == [] && boardLabel == SMA2_INPUT then AllByLabel(pins, SMA2, |pins|) else own;
    assert forall i :: 0 <= i < |found| ==> found[i] in found;
    found
  }

  function JobsFor(found: seq<nat>, c: Control): (jobs: seq<Job>)
    ensures |jobs| == |found| && forall i :: 0 <= i < |jobs| ==> jobs[i] == Job(found[i], c)
  {
    seq(|found|, i requires 0 <= i < |found| => Job(found[i], c))
  }

  /** Every pin of a label, on all cards. The first n controls. */
  function JobsOnAll(pins: seq<PinInfo>, controls: seq<LabelledControl>, n: nat): (jobs: seq<Job>)
    requires n <= |controls|
    ensures forall i :: 0 <= i < |jobs| ==> jobs[i].pin < |pins|
    decreases n
  {
    if n == 0 then []
    else JobsOnAll(pins, controls, n - 1) + JobsFor(PinsFor(pins, controls[n - 1].boardLabel), controls[n - 1].control)
  }

  /** The label under which a pin that is not there is reported: the one tried last. */
  function TriedLabel(boardLabel: string): string {
    if boardLabel == SMA2_INPUT then SMA2 else boardLabel
  }

  /** What is reported of the first n controls: those that stand for no pin at all. */
  function Missing(pins: seq<PinInfo>, controls: seq<LabelledControl>, n: nat): seq<string>
    requires n <= |controls|
    decreases n
  {
    if n == 0 then []
    else if PinsFor(pins, controls[n - 1].boardLabel) == [] then Missing(pins, controls, n - 1) + [TriedLabel(controls[n - 1].boardLabel)]
    else Missing(pins, controls, n - 1)
  }

  /** The controls that some jobs apply to pin `i`, in order. */
  function ControlsOf(jobs: seq<Job>, i: nat): seq<Control> {
    if jobs == [] then []
    else (if jobs[0].pin == i then [jobs[0].control] else []) + ControlsOf(jobs[1..], i)
  }

  lemma {:induction false} ControlsOfAppend(a: seq<Job>, b: seq<Job>, i: nat)
    ensures ControlsOf(a + b, i) == ControlsOf(a, i) + ControlsOf(b, i)
  {
    if a == [] {
      assert a + b == b;
    } else {
      assert (a + b)[1..] == a[1..] + b && (a + b)[0] == a[0];
      ControlsOfAppend(a[1..], b, i);
      Regrouped(if a[0].pin == i then [a[0].control] else [], ControlsOf(a[1..], i), ControlsOf(b, i));
    }
  }

  lemma {:induction false} ControlsOfAll(found: seq<nat>, c: Control, i: nat)
    requires NoneTwice(found)
    ensures ControlsOf(JobsFor(found, c), i) == if i in found then [c] else []
  {
    if found != [] {
      assert NoneTwice(found[1..]) by {
        assert forall k :: 0 <= k < |found| - 1 ==> found[1..][k] == found[k + 1];
      }
      ControlsOfAll(found[1..], c, i);
      assert JobsFor(found, c)[1..] == JobsFor(found[1..], c);
      assert found == [found[0]] + found[1..];
    }
  }

  /** On the leading card a label is that of the first pin that has it. */
  predicate IsLeadingPin(pins: seq<PinInfo>, clockId: nat, i: nat, boardLabel: string)
    requires i < |pins|
  {
    && pins[i].boardLabel == boardLabel && pins[i].clockId == clockId
    && forall j :: 0 <= j < i ==> !(pins[j].boardLabel == boardLabel && pins[j].clockId == clockId)
  }

  /** On all cards a label is that of every pin that has it; the input name of SMA2, if no pin has it, that of every SMA2. */
  predicate IsPinOf(pins: seq<PinInfo>, i: nat, boardLabel: string)
    requires i < |pins|
  {
    || pins[i].boardLabel == boardLabel
    || (boardLabel == "SMA2/U.FL2" && pins[i].boardLabel == "SMA2" && forall j :: 0 <= j < |pins| ==> pins[j].boardLabel != boardLabel)
  }

  function OnlyIf(cond: bool, c: Control): seq<Control> {
    if cond then [c] else []
  }

  /** Control n - 1 goes to a pin, after those before it, if and only if it is the pin of its label on the leading card. */
  lemma LeadingPinGetsItsControls(pins: seq<PinInfo>, clockId: nat, controls: seq<LabelledControl>, n: nat, i: nat)
    requires 0 < n <= |controls| && i < |pins|
    ensures ControlsOf(JobsOnLeading(pins, clockId, controls, n), i)
         == ControlsOf(JobsOnLeading(pins, clockId, controls, n - 1), i)
            + OnlyIf(IsLeadingPin(pins, clockId, i, controls[n - 1].boardLabel), controls[n - 1].control)
  {
    var before, more, jobs := OneMoreOnLeading(pins, clockId, controls, n, i);
    ControlsOfAppend(before, more, i);
  }

  lemma OneMoreOnLeading(pins: seq<PinInfo>, clockId: nat, controls: seq<LabelledControl>, n: nat, i: nat)
    returns (before: seq<Job>, more: seq<Job>, jobs: seq<Job>)
    requires 0 < n <= |controls| && i < |pins|
    ensures before == JobsOnLeading(pins, clockId, controls, n - 1) && jobs == JobsOnLeading(pins, clockId, controls, n)
    ensures jobs == before + more
    ensures ControlsOf(more, i) == OnlyIf(IsLeadingPin(pins, clockId, i, controls[n - 1].boardLabel), controls[n - 1].control)
  {
    var k := FindByLabel(pins, controls[n - 1].boardLabel, clockId);
    LeadingPinExactly(pins, clockId, i, controls[n - 1].boardLabel);
    before := JobsOnLeading(pins, clockId, controls, n - 1);
    more := if k < |pins| then [Job(k, controls[n - 1].control)] else [];
    OneControlOf(more, i);
    jobs := before + more;
  }

  lemma LeadingPinExactly(pins: seq<PinInfo>, clockId: nat, i: nat, boardLabel: string)
    requires i < |pins|
    ensures IsLeadingPin(pins, clockId, i, boardLabel) <==> FindByLabel(pins, boardLabel, clockId) == i
  {}

  lemma OneControlOf(jobs: seq<Job>, i: nat)
    requires |jobs| <= 1
    ensures ControlsOf(jobs, i) == if jobs != [] && jobs[0].pin == i then [jobs[0].control] else []
  {
    if jobs != [] {
      assert jobs[1..] == [];
    }
  }

  lemma PinsForExactly(pins: seq<PinInfo>, boardLabel: string, i: nat)
    requires i < |pins|
    ensures NoneTwice(PinsFor(pins, boardLabel)) && (i in PinsFor(pins, boardLabel) <==> IsPinOf(pins, i, boardLabel))
  {
    AllByLabelExactly(pins, boardLabel, |pins|);
    AllByLabelExactly(pins, SMA2, |pins|);
    var found := AllByLabel(pins, boardLabel, |pins|);
    if found != [] {
      assert found[0] in found && pins[found[0]].boardLabel == boardLabel;
    }
  }

  lemma OneControlOnAll(pins: seq<PinInfo>, control: LabelledControl, i: nat) returns (jobs: seq<Job>, one: seq<Control>)
    requires i < |pins|
    ensures jobs == JobsFor(PinsFor(pins, control.boardLabel), control.control)
    ensures one == OnlyIf(IsPinOf(pins, i, control.boardLabel), control.control)
    ensures ControlsOf(jobs, i) == one
  {
    var found := PinsFor(pins, control.boardLabel);
    PinsForExactly(pins, control.boardLabel, i);
    ControlsOfAll(found, control.control, i);
    jobs, one := JobsFor(found, control.control), OnlyIf(IsPinOf(pins, i, control.boardLabel), control.control);
  }

  /** The same for the pins of a label on all cards. */
  lemma PinGetsItsControls(pins: seq<PinInfo>, controls: seq<LabelledControl>, n: nat, i: nat)
    requires 0 < n <= |controls| && i < |pins|
    ensures ControlsOf(JobsOnAll(pins, controls, n), i)
         == ControlsOf(JobsOnAll(pins, controls, n - 1), i)
            + OnlyIf(IsPinOf(pins, i, controls[n - 1].boardLabel), controls[n - 1].control)
  {
    var more, one := OneControlOnAll(pins, controls[n - 1], i);
    var before, jobs := OneMoreOnAll(pins, controls, n, more);
    ControlsOfAppend(before, more, i);
  }

  lemma OneMoreOnAll(pins: seq<PinInfo>, controls: seq<LabelledControl>, n: nat, more: seq<Job>)
    returns (before: seq<Job>, jobs: seq<Job>)
    requires 0 < n <= |controls|
    requires more == JobsFor(PinsFor(pins, controls[n - 1].boardLabel), controls[n - 1].control)
    ensures before == JobsOnAll(pins, controls, n - 1) && jobs == JobsOnAll(pins, controls, n)
    ensures jobs == before + more
  {
    before := JobsOnAll(pins, controls, n - 1);
    jobs := before + more;
  }

  ghost predicate MeansNoPin(pins: seq<PinInfo>, boardLabel: string) {
    forall i :: 0 <= i < |pins| ==> !IsPinOf(pins, i, boardLabel)
  }

  /** A label is reported if and only if it is that of no pin, after those before it; the input name of SMA2 as SMA2. */
  lemma MissingIsReported(pins: seq<PinInfo>, controls: seq<LabelledControl>, n: nat)
    requires 0 < n <= |controls|
    ensures var boardLabel := controls[n - 1].boardLabel;
      Missing(pins, controls, n)
        == if MeansNoPin(pins, boardLabel) then
             Missing(pins, controls, n - 1) + [if boardLabel == "SMA2/U.FL2" then "SMA2" else boardLabel]
           else Missing(pins, controls, n - 1)
  {
    NoPinsExactly(pins, controls[n - 1].boardLabel);
  }

  lemma NoPinsExactly(pins: seq<PinInfo>, boardLabel: string)
    ensures PinsFor(pins, boardLabel) == [] <==> MeansNoPin(pins, boardLabel)
  {
    forall i | 0 <= i < |pins| ensures i in PinsFor(pins, boardLabel) <==> IsPinOf(pins, i, boardLabel) {
      PinsForExactly(pins, boardLabel, i);
    }
    var found := PinsFor(pins, boardLabel);
    if found != [] {
      assert found[0] in found;
    }
  }

  // ------------------------------------------------------------------ all pins of the machine

  type Machine = map<nat, KernelPin>

  function RunBatch(m: Machine, commands: seq<Command>): Option<Machine>
    decreases |commands|
  {
    if commands == [] then Some(m)
    else if commands[0].pinId !in m then None
    else
      var next := RunEntries(m[commands[0].pinId], commands[0].entries);
      if next.None? then None else RunBatch(m[commands[0].pinId := next.value], commands[1..])
  }

  ghost predicate Known(pins: seq<PinInfo>, m: Machine, i: nat)
    requires i < |pins|
  {
    pins[i].id in m && Mirrors(pins[i], m[pins[i].id])
  }

  /** The inventory knows every one of its pins as it is. */
  ghost predicate AllKnown(pins: seq<PinInfo>, m: Machine) {
    && (forall i, j :: 0 <= i < j < |pins| ==> pins[i].id != pins[j].id)
    && forall i :: 0 <= i < |pins| ==> Known(pins, m, i)
  }

  /** Commands for one pin leave the other pins alone. */
  lemma {:induction false} OnePinOfBatch(m: Machine, id: nat, commands: seq<Command>, rest: seq<Command>)
    requires id in m && RunCommands(m[id], commands).Some?
    requires forall i :: 0 <= i < |commands| ==> commands[i].pinId == id
    ensures RunBatch(m, commands + rest) == RunBatch(m[id := RunCommands(m[id], commands).value], rest)
    decreases |commands|
  {
    if commands == [] {
      assert commands + rest == rest && m[id := m[id]] == m;
    } else {
      assert (commands + rest)[1..] == commands[1..] + rest;
      var next := RunEntries(m[id], commands[0].entries).value;
      var n := m[id := next];
      OnePinOfBatch(n, id, commands[1..], rest);
      assert n[id := RunCommands(next, commands[1..]).value] == m[id := RunCommands(next, commands[1..]).value];
    }
  }

  lemma OneJobKeepsKnown(pins: seq<PinInfo>, m: Machine, at: nat, after: PinInfo, k: KernelPin)
    requires AllKnown(pins, m) && at < |pins| && after.id == pins[at].id && Mirrors(after, k)
    ensures AllKnown(pins[at := after], m[after.id := k])
  {
    var next, n := pins[at := after], m[after.id := k];
    forall i | 0 <= i < |next| ensures Known(next, n, i) {
      assert Known(pins, m, i);
    }
  }

  /** The ports of pin `i` as the controls for it, one after the other, ask. */
  function AskedBy(ports: seq<Port>, caps: Caps, jobs: seq<Job>, i: nat): seq<Port>
    decreases |jobs|
  {
    if jobs == [] then ports
    else AskedBy(if jobs[0].pin == i then AllAskedOf(ports, caps, jobs[0].control) else ports, caps, jobs[1..], i)
  }

  function AllAskedOf(ports: seq<Port>, caps: Caps, c: Control): (r: seq<Port>)
    ensures AsControlled(ports, r, caps, c)
  {
    seq(|ports|, i requires 0 <= i < |ports| => Asked(ports[i], caps, c, i))
  }

  /** Pin `i` is in both machines, with the ports its controls ask for; another job's pin is as before. */
  ghost predicate EndsAsAsked(pins: seq<PinInfo>, m: Machine, n: Machine, jobs: seq<Job>, i: nat)
    requires i < |pins|
  {
    && pins[i].id in m && pins[i].id in n && n[pins[i].id].caps == m[pins[i].id].caps
    && n[pins[i].id].ports == AskedBy(m[pins[i].id].ports, m[pins[i].id].caps, jobs, i)
  }

  lemma OneJobAsks(pins: seq<PinInfo>, m: Machine, at: nat, after: PinInfo, k: KernelPin, n: Machine, jobs: seq<Job>, i: nat)
    requires AllKnown(pins, m) && at < |pins| && i < |pins| && jobs != [] && jobs[0].pin == at
    requires after.id == pins[at].id && pins[at].id in m && k.caps == m[pins[at].id].caps
    requires AsControlled(m[pins[at].id].ports, k.ports, k.caps, jobs[0].control)
    requires EndsAsAsked(pins[at := after], m[after.id := k], n, jobs[1..], i)
    ensures EndsAsAsked(pins, m, n, jobs, i)
  {
    if i == at {
      AskedIsControlled(m[pins[at].id].ports, k.ports, k.caps, jobs[0].control);
      assert k.ports == AllAskedOf(m[pins[at].id].ports, k.caps, jobs[0].control);
    } else {
      assert pins[i].id != pins[at].id;
      assert Known(pins, m, i);
    }
  }

  /**
    Whatever the controls, the kernel accepts the whole batch; afterwards every pin is as its controls,
    one after the other, ask, and the inventory knows the pins.
   */
  lemma {:induction false} BatchTakesEffect(pins: seq<PinInfo>, m: Machine, jobs: seq<Job>)
    requires AllKnown(pins, m) && forall i :: 0 <= i < |jobs| ==> jobs[i].pin < |pins|
    ensures var b := RunJobs(pins, jobs);
            && RunBatch(m, b.commands).Some? && AllKnown(b.pins, RunBatch(m, b.commands).value)
            && forall i :: 0 <= i < |pins| ==> EndsAsAsked(pins, m, RunBatch(m, b.commands).value, jobs, i)
    decreases |jobs|
  {
    if jobs == [] {
      forall i | 0 <= i < |pins| ensures EndsAsAsked(pins, m, m, jobs, i) {
        assert Known(pins, m, i);
      }
    } else {
      var at, c := jobs[0].pin, jobs[0].control;
      assert Known(pins, m, at);
      var id, after := pins[at].id, AfterControl(pins[at], c);
      CommandsTakeEffect(pins[at], m[id], c);
      CommandsAreSeparate(pins[at], c);
      var k := RunCommands(m[id], Commands(pins[at], c)).value;
      OneJobKeepsKnown(pins, m, at, after, k);
      OnePinOfBatch(m, id, Commands(pins[at], c), RunJobs(pins[at := after], jobs[1..]).commands);
      BatchTakesEffect(pins[at := after], m[id := k], jobs[1..]);
      AllJobsAsk(pins, m, at, pins[at := after], m[id := k], RunBatch(m, RunJobs(pins, jobs).commands).value, jobs, jobs[1..]);
    }
  }

  lemma AllJobsAsk(pins: seq<PinInfo>, m: Machine, at: nat, nextPins: seq<PinInfo>, next: Machine, n: Machine,
                   jobs: seq<Job>, rest: seq<Job>)
    requires AllKnown(pins, m) && at < |pins| && jobs != [] && jobs[0].pin == at && rest == jobs[1..]
    requires |nextPins| == |pins| && nextPins == pins[at := nextPins[at]] && nextPins[at].id == pins[at].id
    requires pins[at].id in m && pins[at].id in next && next == m[pins[at].id := next[pins[at].id]]
    requires next[pins[at].id].caps == m[pins[at].id].caps
    requires AsControlled(m[pins[at].id].ports, next[pins[at].id].ports, m[pins[at].id].caps, jobs[0].control)
    requires forall i :: 0 <= i < |pins| ==> EndsAsAsked(nextPins, next, n, rest, i)
    ensures forall i :: 0 <= i < |pins| ==> EndsAsAsked(pins, m, n, jobs, i)
  {
    forall i | 0 <= i < |pins| ensures EndsAsAsked(pins, m, n, jobs, i) {
      assert EndsAsAsked(nextPins, next, n, rest, i);
      OneJobAsks(pins, m, at, nextPins[at], next[pins[at].id], n, jobs, i);
    }
  }

  lemma {:induction false} JobsInTurn(pins: seq<PinInfo>, a: seq<Job>, b: seq<Job>)
    requires forall i :: 0 <= i < |a| ==> a[i].pin < |pins|
    requires forall i :: 0 <= i < |b| ==> b[i].pin < |pins|
    ensures |RunJobs(pins, a).pins| == |pins|
    ensures RunJobs(pins, a + b).pins == RunJobs(RunJobs(pins, a).pins, b).pins
    ensures RunJobs(pins, a + b).commands == RunJobs(pins, a).commands + RunJobs(RunJobs(pins, a).pins, b).commands
    decreases |a|
  {
    if a == [] {
      assert a + b == b;
    } else {
      var job, rest := a[0], a[1..];
      var next := pins[job.pin := AfterControl(pins[job.pin], job.control)];
      assert a == [job] + rest && a + b == [job] + (rest + b);
      FirstJob(pins, job, rest);
      FirstJob(pins, job, rest + b);
      JobsInTurn(next, rest, b);
      Regrouped(Commands(pins[job.pin], job.control), RunJobs(next, rest).commands, RunJobs(RunJobs(next, rest).pins, b).commands);
    }
  }

  lemma FirstJob(pins: seq<PinInfo>, job: Job, rest: seq<Job>)
    requires job.pin < |pins| && forall i :: 0 <= i < |rest| ==> rest[i].pin < |pins|
    ensures var next := pins[job.pin := AfterControl(pins[job.pin], job.control)];
      && RunJobs(pins, [job] + rest).pins == RunJobs(next, rest).pins
      && RunJobs(pins, [job] + rest).commands == Commands(pins[job.pin], job.control) + RunJobs(next, rest).commands
  {
    assert ([job] + rest)[1..] == rest;
  }

  // ------------------------------------------------------------------ the inventory in place

  /** A pin; a copy of it shares the array of its parents. */
  class Pin {
    const id: nat
    const clockId: nat
    const boardLabel: string
    const caps: Caps
    const parents: array<Parent>

    constructor (id: nat, clockId: nat, boardLabel: string, caps: Caps, parents: array<Parent>)
      ensures this.parents == parents && Info() == PinInfo(id, clockId, boardLabel, caps, parents[..])
    {
      this.id, this.clockId, this.boardLabel, this.caps, this.parents := id, clockId, boardLabel, caps, parents;
    }

    function Info(): PinInfo
      reads parents
    {
      PinInfo(id, clockId, boardLabel, caps, parents[..])
    }

    /** The direction changes, made in the shared array. */
    method BuildDirectionEntries(c: Control) returns (entries: seq<Entry>)
      modifies parents
      ensures entries == DirectionEntries(old(parents[..]), caps, c, parents.Length)
      ensures parents[..] == AllRedirected(old(parents[..]), caps, c)
    {
      entries := [];
      ghost var before := parents[..];
      for i := 0 to parents.Length
        invariant entries == DirectionEntries(before, caps, c, i)
        invariant forall j :: 0 <= j < parents.Length ==> parents[j] == if j < i then Redirected(before[j], caps, c, j) else before[j]
      {
        var direction := DirectionFor(c, i);
        if direction.Some? && direction.value != parents[i].direction && caps.direction {
          entries := entries + [Entry(parents[i].id, direction, None, None)];
          parents[i] := parents[i].(direction := direction.value);
        }
      }
    }

    method SetPinControlData(c: Control) returns (commands: seq<Command>)
      modifies parents
      ensures commands == Commands(old(Info()), c)
      ensures Info() == AfterControl(old(Info()), c)
    {
      var turns := BuildDirectionEntries(c);
      var settings := [];
      for i := 0 to parents.Length
        invariant parents[..] == AllRedirected(old(parents[..]), caps, c)
        invariant |settings| == i && forall j :: 0 <= j < i ==> settings[j] == SettingFor(parents[j], caps, c, j)
      {
        settings := settings + [SettingFor(parents[i], caps, c, i)];
      }
      assert settings == Settings(parents[..], caps, c);
      commands := (if turns != [] then [Command(id, turns)] else []) + [Command(id, settings)];
    }
  }

  class ClockChain {
    const leadingClockId: nat
    const pins: seq<Pin>

    constructor (leadingClockId: nat, pins: seq<Pin>)
      ensures this.leadingClockId == leadingClockId && this.pins == pins
    {
      this.leadingClockId, this.pins := leadingClockId, pins;
    }

    ghost function Repr(): set<object> {
      set i | 0 <= i < |pins| :: pins[i].parents
    }

    /** Every pin has parents of its own. */
    ghost predicate Valid() {
      forall i, j :: 0 <= i < j < |pins| ==> pins[i].parents != pins[j].parents
    }

    function Inventory(): (r: seq<PinInfo>)
      reads Repr()
      ensures |r| == |pins|
      ensures forall i :: 0 <= i < |r| ==> r[i] == pins[i].Info()
    {
      seq(|pins|, i requires 0 <= i < |pins| reads Repr() => pins[i].Info())
    }

    /** The inventory before any control of this call: it tells where the labels are. */
    ghost predicate LabelsAs(inventory: seq<PinInfo>) {
      |inventory| == |pins|
      && forall i :: 0 <= i < |pins| ==> inventory[i].boardLabel == pins[i].boardLabel && inventory[i].clockId == pins[i].clockId
    }

    /** These commands, and the inventory as it is, are what the jobs so far give. */
    ghost predicate HasDone(inventory: seq<PinInfo>, done: seq<Job>, commands: seq<Command>)
      reads Repr()
    {
      && |inventory| == |pins| && (forall i :: 0 <= i < |done| ==> done[i].pin < |inventory|)
      && Batch(commands, Inventory()) == RunJobs(inventory, done)
    }

    method GetByLabel(boardLabel: string, clockId: nat, ghost inventory: seq<PinInfo>) returns (k: nat)
      requires LabelsAs(inventory)
      ensures k == FindByLabel(inventory, boardLabel, clockId)
    {
      k := 0;
      while k < |pins|
        invariant k <= |pins|
        invariant forall j :: 0 <= j < k ==> !(pins[j].boardLabel == boardLabel && pins[j].clockId == clockId)
      {
        if pins[k].boardLabel == boardLabel && pins[k].clockId == clockId {
          return;
        }
        k := k + 1;
      }
    }

    method GetAllPinsByLabel(boardLabel: string, ghost inventory: seq<PinInfo>) returns (found: seq<nat>)
      requires LabelsAs(inventory)
      ensures found == AllByLabel(inventory, boardLabel, |inventory|)
    {
      found := [];
      for k := 0 to |pins|
        invariant found == AllByLabel(inventory, boardLabel, k)
      {
        if pins[k].boardLabel == boardLabel {
          found := found + [k];
        }
      }
    }

    /** One job: the pin at this place, and no other. */
    method Control(k: nat, c: Control) returns (commands: seq<Command>)
      requires Valid() && k < |pins|
      modifies Repr()
      ensures commands == Commands(old(Inventory())[k], c)
      ensures Inventory() == old(Inventory())[k := AfterControl(old(Inventory())[k], c)]
    {
      commands := pins[k].SetPinControlData(c);
      forall i | 0 <= i < |pins| && i != k ensures pins[i].Info() == old(pins[i].Info()) {
        assert pins[i].parents != pins[k].parents;
      }
    }

    method SetPinsControl(controls: seq<LabelledControl>) returns (commands: seq<Command>)
      requires Valid()
      modifies Repr()
      ensures Batch(commands, Inventory())
           == RunJobs(old(Inventory()), JobsOnLeading(old(Inventory()), leadingClockId, controls, |controls|))
    {
      ghost var inventory := Inventory();
      NothingDone(inventory, controls, leadingClockId);
      commands := [];
      for i := 0 to |controls|
        invariant LabelsAs(inventory)
        invariant HasDone(inventory, JobsOnLeading(inventory, leadingClockId, controls, i), commands)
      {
        commands := ControlLeading(inventory, controls, i, commands);
      }
    }

    method ControlLeading(ghost inventory: seq<PinInfo>, controls: seq<LabelledControl>, i: nat, commands: seq<Command>)
      returns (more: seq<Command>)
      requires Valid() && LabelsAs(inventory) && i < |controls|
      requires HasDone(inventory, JobsOnLeading(inventory, leadingClockId, controls, i), commands)
      modifies Repr()
      ensures HasDone(inventory, JobsOnLeading(inventory, leadingClockId, controls, i + 1), more)
    {
      var k := GetByLabel(controls[i].boardLabel, leadingClockId, inventory);
      more := commands;
      if k < |pins| {
        ghost var done := JobsOnLeading(inventory, leadingClockId, controls, i);
        more := AddJob(inventory, done, commands, k, controls[i].control);
      }
    }

    method AddJob(ghost inventory: seq<PinInfo>, ghost done: seq<Job>, commands: seq<Command>, k: nat, c: Control)
      returns (more: seq<Command>)
      requires Valid() && k < |pins| && HasDone(inventory, done, commands)
      modifies Repr()
      ensures HasDone(inventory, done + [Job(k, c)], more)
    {
      JobsInTurn(inventory, done, [Job(k, c)]);
      OneJob(Inventory(), Job(k, c));
      var next := Control(k, c);
      more := commands + next;
    }

    /** The labels that stand for no pin at all are reported; the other controls are carried out. */
    method SetPinsControlForAllNICs(controls: seq<LabelledControl>) returns (commands: seq<Command>, missing: seq<string>)
      requires Valid()
      modifies Repr()
      ensures Batch(commands, Inventory()) == RunJobs(old(Inventory()), JobsOnAll(old(Inventory()), controls, |controls|))
      ensures missing == Missing(old(Inventory()), controls, |controls|)
    {
      ghost var inventory := Inventory();
      NothingDone(inventory, controls, leadingClockId);
      commands, missing := [], [];
      for i := 0 to |controls|
        invariant LabelsAs(inventory)
        invariant HasDone(inventory, JobsOnAll(inventory, controls, i), commands)
        invariant missing == Missing(inventory, controls, i)
      {
        commands, missing := ControlLabel(inventory, controls, i, commands, missing);
      }
    }

    method ControlLabel(ghost inventory: seq<PinInfo>, controls: seq<LabelledControl>, i: nat,
                        commands: seq<Command>, missing: seq<string>)
      returns (more: seq<Command>, moreMissing: seq<string>)
      requires Valid() && LabelsAs(inventory) && i < |controls|
      requires HasDone(inventory, JobsOnAll(inventory, controls, i), commands)
      requires missing == Missing(inventory, controls, i)
      modifies Repr()
      ensures HasDone(inventory, JobsOnAll(inventory, controls, i + 1), more)
      ensures moreMissing == Missing(inventory, controls, i + 1)
    {
      var found, tried := Find(controls[i].boardLabel, inventory);
      moreMissing := if |found| == 0 then missing + [tried] else missing;
      ghost var done := JobsOnAll(inventory, controls, i);
      more := ControlAll(inventory, done, commands, found, controls[i].control);
    }

    method Find(boardLabel: string, ghost inventory: seq<PinInfo>) returns (found: seq<nat>, tried: string)
      requires LabelsAs(inventory)
      ensures found == PinsFor(inventory, boardLabel)
      ensures found == [] ==> tried == TriedLabel(boardLabel)
    {
      tried := boardLabel;
      found := GetAllPinsByLabel(tried, inventory);
      if |found| == 0 && tried == SMA2_INPUT {
        tried := SMA2;
        found := GetAllPinsByLabel(tried, inventory);
      }
    }

    method ControlAll(ghost inventory: seq<PinInfo>, ghost done: seq<Job>, commands: seq<Command>, found: seq<nat>, c: Control)
      returns (more: seq<Command>)
      requires Valid() && HasDone(inventory, done, commands)
      requires forall i :: 0 <= i < |found| ==> found[i] < |pins|
      modifies Repr()
      ensures HasDone(inventory, done + JobsFor(found, c), more)
    {
      more := commands;
      ghost var jobs := JobsFor(found, c);
      NoJobYet(done, jobs);
      for i := 0 to |found|
        invariant HasDone(inventory, done + jobs[..i], more)
      {
        OneMoreJob(done, jobs, i);
        more := AddJob(inventory, done + jobs[..i], more, found[i], c);
      }
      AllJobsDone(done, jobs);
    }
  }

  lemma NothingDone(pins: seq<PinInfo>, controls: seq<LabelledControl>, clockId: nat)
    ensures RunJobs(pins, JobsOnLeading(pins, clockId, controls, 0)) == RunJobs(pins, JobsOnAll(pins, controls, 0)) == Batch([], pins)
  {}

  lemma NoJobYet(done: seq<Job>, jobs: seq<Job>)
    ensures done + jobs[..0] == done
  {}

  lemma OneMoreJob(done: seq<Job>, jobs: seq<Job>, i: nat)
    requires i < |jobs|
    ensures done + jobs[..i + 1] == done + jobs[..i] + [jobs[i]]
  {}

  lemma AllJobsDone(done: seq<Job>, jobs: seq<Job>)
    ensures done + jobs[..|jobs|] == done + jobs
  {}

  lemma OneJob(pins: seq<PinInfo>, job: Job)
    requires job.pin < |pins|
    ensures RunJobs(pins, [job]).commands == Commands(pins[job.pin], job.control)
    ensures RunJobs(pins, [job]).pins == pins[job.pin := AfterControl(pins[job.pin], job.control)]
  {
    assert [job][1..] == [];
    assert Commands(pins[job.pin], job.control) + [] == Commands(pins[job.pin], job.control);
  }
}
