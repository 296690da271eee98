/**
  EventCache: the latest cloud event per message type, of pkg/linuxptp-daemon/pkg/cep/event_cache.go,
  with the message handling of cep.go around it.

  Resource addresses are cleaned paths, as lists of segments. The literal parts of an address are clean
  segments already; the node and interface names need not be.
 */
module EventCache {
  import opened Options
  import opened Sequences
  import opened Texts

  type Path = seq<string>

  /** Lexical cleaning of a rooted path, from the cleaned path `at` on. */
  function Cleaned(at: Path, parts: seq<string>): Path
    decreases |parts|
  {
    if parts == [] then at
    else if parts[0] == "" || parts[0] == "." then Cleaned(at, parts[1..])
    else if parts[0] == ".." then Cleaned(if at == [] then [] else at[..|at| - 1], parts[1..])
    else Cleaned(at + [parts[0]], parts[1..])
  }

  function Join(at: Path, element: string): Path {
    Cleaned(at, Split(element, '/'))
  }

  /** An element of a path that cleaning leaves alone. */
  predicate IsSegment(element: string) {
    element != "" && element != "." && element != ".." && '/' !in element
  }

  lemma {:induction false} CleanedInTurn(at: Path, a: seq<string>, b: seq<string>)
    ensures Cleaned(at, a + b) == Cleaned(Cleaned(at, a), b)
    decreases |a|
  {
    if a == [] {
      assert a + b == b;
    } else {
      assert (a + b)[1..] == a[1..] + b;
      CleanedInTurn(if a[0] == "" || a[0] == "." then at else if a[0] == ".." then (if at == [] then [] else at[..|at| - 1]) else at + [a[0]],
                    a[1..], b);
    }
  }

  lemma {:induction false} SegmentsStay(at: Path, parts: seq<string>)
    requires forall i :: 0 <= i < |parts| ==> IsSegment(parts[i])
    ensures Cleaned(at, parts) == at + parts
    decreases |parts|
  {
    if parts == [] {
      assert at + parts == at;
    } else {
      SegmentsStay(at + [parts[0]], parts[1..]);
      MoveOne(at, parts);
    }
  }

  /** Segments are appended as they are; ".." takes the last one away, and "" and "." nothing. */
  lemma CleaningSteps(at: Path, segments: seq<string>, last: string)
    requires forall i :: 0 <= i < |segments| ==> IsSegment(segments[i])
    requires IsSegment(last)
    ensures Cleaned(at, segments + [last]) == at + segments + [last]
    ensures Cleaned(at, segments + [last] + [".."]) == at + segments
    ensures Cleaned(at, segments + [last] + ["."]) == Cleaned(at, segments + [last] + [""]) == at + segments + [last]
    ensures Cleaned([], [".."]) == []
  {
    var all := segments + [last];
    SegmentsStay(at, all);
    CleanedInTurn(at, all, [".."]);
    CleanedInTurn(at, all, ["."]);
    CleanedInTurn(at, all, [""]);
    assert at + all == at + segments + [last];
  }

  datatype MessageType =
    | PtpState | OsClockState | ClockClass | GnssState | SyncEState | SyncEClockQuality | SyncState
    | CacheClear | StatusRequest | Other(name: string)

  datatype Payload =
    | StateValue(state: string, offset: int)
    | GnssStateValue(state: string)
    | SyncStateValue(state: string)
    | SyncEStateValue(state: string)
    | ClockClassValue(clockClass: nat)
    | SyncEClockQualityValue(ql: int, extendedQl: int)
    | NoValue

  datatype Message = Message(kind: MessageType, timestamp: string, iface: string, payload: Payload)

  datatype Value = Text(text: string) | Int64(n: int) | Float64(x: int)

  datatype Key = Notification(resource: Path) | Metric(resource: Path)

  /** A data value; its value type is ENUMERATION for a notification and DECIMAL for a metric. */
  datatype DataValue = DataValue(key: Key, value: Value)

  datatype Event = Event(kind: MessageType, source: Path, values: seq<DataValue>, id: nat, time: string)

  type Entries = map<MessageType, Event>

  // ------------------------------------------------------------------ addresses and values

  function NodePath(node: string): Path {
    Join(["cluster", "node"], node)
  }

  function OranSource(kind: MessageType): Option<Path> {
    match kind
    case PtpState => Some(["sync", "ptp-status", "lock-state"])
    case OsClockState => Some(["sync", "sync-status", "os-clock-sync-state"])
    case ClockClass => Some(["sync", "ptp-status", "clock-class"])
    case GnssState => Some(["sync", "gnss-status", "gnss-sync-status"])
    case SyncEState => Some(["sync", "synce-status", "lock-state"])
    case SyncEClockQuality => Some(["sync", "synce-status", "clock-quality"])
    case SyncState => Some(["sync", "sync-status", "sync-state"])
    case CacheClear => None
    case StatusRequest => None
    case Other(_) => None
  }

  function ResourceAddress(node: string, kind: MessageType, iface: string): Path {
    match kind
    case PtpState => Join(NodePath(node), iface) + ["master"]
    case GnssState => Join(NodePath(node), iface) + ["master"]
    case ClockClass => Join(NodePath(node), iface) + ["master", "clock-class"]
    case OsClockState => NodePath(node) + ["CLOCK_REALTIME"]
    case SyncEState => Join(NodePath(node), iface)
    case SyncEClockQuality => Join(NodePath(node), iface)
    case SyncState => NodePath(node) + ["sync", "sync-status", "sync-state"]
    case CacheClear => NodePath(node)
    case StatusRequest => NodePath(node)
    case Other(_) => NodePath(node)
  }

  const PLACEHOLDER_OFFSET := 0

  function BuildDataValues(at: Path, payload: Payload): seq<DataValue> {
    match payload
    case StateValue(state, offset) => [DataValue(Notification(at), Text(state)), DataValue(Metric(at), Int64(offset))]
    case GnssStateValue(state) =>
      [DataValue(Notification(at), Text(state)),
       DataValue(Metric(at), Int64(PLACEHOLDER_OFFSET)),
       DataValue(Metric(at + ["gpsFix"]), Int64(PLACEHOLDER_OFFSET))]
    case SyncStateValue(state) => [DataValue(Notification(at), Text(state))]
    case SyncEStateValue(state) => [DataValue(Metric(at), Text(state))]
    case ClockClassValue(clockClass) => [DataValue(Metric(at), Int64(clockClass))]
    case SyncEClockQualityValue(ql, extendedQl) =>
      [DataValue(Metric(at + ["Ql"]), Float64(ql)), DataValue(Metric(at + ["extQl"]), Float64(extendedQl))]
    case NoValue => []
  }

  function DataValuesOf(node: string, msg: Message): seq<DataValue> {
    BuildDataValues(ResourceAddress(node, msg.kind, msg.iface), msg.payload)
  }

  ghost predicate UniqueKeys(values: seq<DataValue>) {
    forall i, j :: 0 <= i < j < |values| ==> values[i].key != values[j].key
  }

  /** No message carries two values for one key. */
  lemma BuiltKeysAreUnique(at: Path, payload: Payload)
    ensures UniqueKeys(BuildDataValues(at, payload))
  {
    assert |at| != |at + ["gpsFix"]|;
    assert (at + ["Ql"])[|at|] == "Ql" && (at + ["extQl"])[|at|] == "extQl";
    assert |"Ql"| != |"extQl"|;
  }

  // ------------------------------------------------------------------ updating a list of values

  function FindKey(values: seq<DataValue>, key: Key): (k: nat)
    ensures k <= |values|
    ensures k < |values| ==> values[k].key == key
    ensures forall j :: 0 <= j < k ==> values[j].key != key
  {
    First(values, (dv: DataValue) => dv.key == key)
  }

  function SetDataValue(values: seq<DataValue>, dv: DataValue): seq<DataValue> {
    var k := FindKey(values, dv.key);
    if k == |values| then values + [dv] else values[k := dv]
  }

  function SetAll(values: seq<DataValue>, dvs: seq<DataValue>): seq<DataValue> {
    if dvs == [] then values else SetDataValue(SetAll(values, dvs[..|dvs| - 1]), dvs[|dvs| - 1])
  }

  /** What a list of values says, whatever its order. */
  function AsMap(values: seq<DataValue>): map<Key, Value> {
    if values == [] then map[]
    else
      var last := values[|values| - 1];
      AsMap(values[..|values| - 1])[last.key := last.value]
  }

  /** The map has what is in the list, and nothing else. */
  ghost predicate Describes(m: map<Key, Value>, values: seq<DataValue>) {
    && (forall i :: 0 <= i < |values| ==> values[i].key in m && m[values[i].key] == values[i].value)
    && (forall key :: key in m ==> exists i :: 0 <= i < |values| && values[i].key == key)
  }

  lemma DescribesMore(m: map<Key, Value>, values: seq<DataValue>, dv: DataValue)
    requires Describes(m, values) && forall i :: 0 <= i < |values| ==> values[i].key != dv.key
    ensures Describes(m[dv.key := dv.value], values + [dv])
  {
    var more, next := values + [dv], m[dv.key := dv.value];
    forall key | key in next ensures exists i :: 0 <= i < |more| && more[i].key == key {
      if key == dv.key {
        assert more[|values|].key == key;
      } else {
        var i :| 0 <= i < |values| && values[i].key == key;
        assert more[i].key == key;
      }
    }
  }

  lemma {:induction false} AsMapHas(values: seq<DataValue>)
    requires UniqueKeys(values)
    ensures Describes(AsMap(values), values)
  {
    if values != [] {
      var last := |values| - 1;
      AsMapHas(values[..last]);
      DescribesMore(AsMap(values[..last]), values[..last], values[last]);
      assert values == values[..last] + [values[last]];
    }
  }

  lemma SetDataValueIsUpdate(values: seq<DataValue>, dv: DataValue)
    requires UniqueKeys(values)
    ensures UniqueKeys(SetDataValue(values, dv))
    ensures AsMap(SetDataValue(values, dv)) == AsMap(values)[dv.key := dv.value]
    ensures SetDataValue(values, dv) == values <==> dv.key in AsMap(values) && AsMap(values)[dv.key] == dv.value
  {
    var k := FindKey(values, dv.key);
    if k == |values| {
      AppendedValue(values, dv);
    } else {
      ReplacedValue(values, k, dv);
    }
  }

  lemma AppendedValue(values: seq<DataValue>, dv: DataValue)
    requires UniqueKeys(values) && forall i :: 0 <= i < |values| ==> values[i].key != dv.key
    ensures UniqueKeys(values + [dv]) && dv.key !in AsMap(values)
    ensures AsMap(values + [dv]) == AsMap(values)[dv.key := dv.value]
  {
    AsMapHas(values);
    assert (values + [dv])[..|values|] == values;
  }

  lemma ReplacedValue(values: seq<DataValue>, k: nat, dv: DataValue)
    requires UniqueKeys(values) && k < |values| && values[k].key == dv.key
    ensures UniqueKeys(values[k := dv]) && dv.key in AsMap(values)
    ensures AsMap(values[k := dv]) == AsMap(values)[dv.key := dv.value]
    ensures values[k := dv] == values <==> AsMap(values)[dv.key] == dv.value
  {
    AsMapHas(values);
    AsMapHas(values[k := dv]);
    ReplacedDescribes(AsMap(values), AsMap(values[k := dv]), values, k, dv);
  }

  lemma ReplacedDescribes(m: map<Key, Value>, n: map<Key, Value>, values: seq<DataValue>, k: nat, dv: DataValue)
    requires k < |values| && values[k].key == dv.key
    requires Describes(m, values) && Describes(n, values[k := dv])
    ensures n == m[dv.key := dv.value] && (values[k := dv] == values <==> m[dv.key] == dv.value)
  {
    var next, wanted := values[k := dv], m[dv.key := dv.value];
    forall key | key in wanted ensures key in n && n[key] == wanted[key] {
      if key != dv.key {
        var i :| 0 <= i < |values| && values[i].key == key;
        assert next[i] == values[i];
      } else {
        assert next[k] == dv;
      }
    }
    forall key | key in n ensures key in wanted {
      var i :| 0 <= i < |next| && next[i].key == key;
      assert i != k ==> next[i] == values[i];
    }
  }

  /** Updating with a list of values is the union of what the two lists say. */
  lemma {:induction false} SetAllIsUnion(values: seq<DataValue>, dvs: seq<DataValue>)
    requires UniqueKeys(values)
    ensures UniqueKeys(SetAll(values, dvs))
    ensures AsMap(SetAll(values, dvs)) == AsMap(values) + AsMap(dvs)
  {
    if dvs != [] {
      var before, last := dvs[..|dvs| - 1], dvs[|dvs| - 1];
      SetAllIsUnion(values, before);
      SetDataValueIsUpdate(SetAll(values, before), last);
      UnionUpdate(AsMap(values), AsMap(before), last.key, last.value);
    }
  }

  lemma UnionUpdate(a: map<Key, Value>, b: map<Key, Value>, key: Key, value: Value)
    ensures (a + b)[key := value] == a + b[key := value]
  {}

  ghost predicate Says(values: seq<DataValue>, dv: DataValue) {
    dv.key in AsMap(values) && AsMap(values)[dv.key] == dv.value
  }

  /** The next value of a message changes the list exactly if the list before the message did not say it. */
  lemma NextValueChanges(values: seq<DataValue>, dvs: seq<DataValue>, n: nat)
    requires UniqueKeys(values) && UniqueKeys(dvs) && n < |dvs|
    ensures SetAll(values, dvs[..n + 1]) == SetAll(values, dvs[..n]) <==> Says(values, dvs[n])
  {
    var before := dvs[..n];
    assert dvs[..n + 1][..n] == before;
    SetAllIsUnion(values, before);
    SetDataValueIsUpdate(SetAll(values, before), dvs[n]);
    NewKey(dvs, n);
    assert AsMap(SetAll(values, before)) == AsMap(values) + AsMap(before);
  }

  lemma NewKey(dvs: seq<DataValue>, n: nat)
    requires UniqueKeys(dvs) && n < |dvs|
    ensures dvs[n].key !in AsMap(dvs[..n])
  {
    AsMapHas(dvs[..n]);
  }

  /** A list is unchanged by a message exactly if it said everything in it already: no change hides another. */
  lemma {:induction false} UnchangedMeansSaid(values: seq<DataValue>, dvs: seq<DataValue>, n: nat)
    requires UniqueKeys(values) && UniqueKeys(dvs) && n <= |dvs|
    ensures SetAll(values, dvs[..n]) == values <==> forall i :: 0 <= i < n ==> Says(values, dvs[i])
  {
    if n > 0 {
      UnchangedMeansSaid(values, dvs, n - 1);
      NextValueChanges(values, dvs, n - 1);
      if !Says(values, dvs[n - 1]) {
        SetAllIsUnion(values, dvs[..n]);
        assert Says(SetAll(values, dvs[..n]), dvs[n - 1]);
      }
    }
  }

  // ------------------------------------------------------------------ one message

  datatype Outcome = Outcome(entries: Entries, published: Option<Event>)

  function ValuesAt(entries: Entries, kind: MessageType): seq<DataValue> {
    if kind in entries then entries[kind].values else []
  }

  function ValuesAfter(before: seq<DataValue>, iface: string, dvs: seq<DataValue>): seq<DataValue> {
    if iface == "" then dvs else SetAll(before, dvs)
  }

  predicate IsCached(node: string, msg: Message) {
    OranSource(msg.kind).Some? && DataValuesOf(node, msg) != []
  }

  /** `id` is the identifier drawn for an event if one is published. */
  function Updated(entries: Entries, node: string, msg: Message, id: nat): Outcome {
    if !IsCached(node, msg) then Outcome(entries, None)
    else
      var before := ValuesAt(entries, msg.kind);
      var after := ValuesAfter(before, msg.iface, DataValuesOf(node, msg));
      if msg.kind in entries && after == before then Outcome(entries, None)
      else
        var e := Event(msg.kind, NodePath(node) + OranSource(msg.kind).value, after, id, msg.timestamp);
        Outcome(entries[msg.kind := e], Some(e))
  }

  ghost predicate Good(entries: Entries, node: string) {
    forall kind :: kind in entries ==>
      && OranSource(kind).Some? && entries[kind].kind == kind
      && entries[kind].source == NodePath(node) + OranSource(kind).value
      && UniqueKeys(entries[kind].values)
  }

  lemma UpdateKeepsGood(entries: Entries, node: string, msg: Message, id: nat)
    requires Good(entries, node)
    ensures Good(Updated(entries, node, msg, id).entries, node)
  {
    BuiltKeysAreUnique(ResourceAddress(node, msg.kind, msg.iface), msg.payload);
    SetAllIsUnion(ValuesAt(entries, msg.kind), DataValuesOf(node, msg));
  }

  /** Repeating a message at once publishes nothing and changes nothing. */
  lemma RepeatIsSilent(entries: Entries, node: string, msg: Message, id: nat, again: nat)
    requires Good(entries, node)
    ensures var once := Updated(entries, node, msg, id).entries;
            Updated(once, node, msg, again) == Outcome(once, None)
  {
    if IsCached(node, msg) && msg.iface != "" {
      var dvs, after := DataValuesOf(node, msg), Updated(entries, node, msg, id).entries[msg.kind].values;
      BuiltKeysAreUnique(ResourceAddress(node, msg.kind, msg.iface), msg.payload);
      UpdateKeepsGood(entries, node, msg, id);
      UpdateSays(entries, node, msg, id);
      SaidChangesNothing(after, dvs);
    }
  }

  lemma SaidChangesNothing(values: seq<DataValue>, dvs: seq<DataValue>)
    requires UniqueKeys(values) && UniqueKeys(dvs) && forall i :: 0 <= i < |dvs| ==> Says(values, dvs[i])
    ensures SetAll(values, dvs) == values
  {
    UnchangedMeansSaid(values, dvs, |dvs|);
    assert dvs[..|dvs|] == dvs;
  }

  /** An event is published exactly if the message is the first of its type or says something new. */
  lemma PublishesExactlyNews(entries: Entries, node: string, msg: Message, id: nat)
    requires Good(entries, node) && IsCached(node, msg) && msg.iface != ""
    ensures Updated(entries, node, msg, id).published.Some?
      <==> msg.kind !in entries
           || exists i :: 0 <= i < |DataValuesOf(node, msg)| && !Says(entries[msg.kind].values, DataValuesOf(node, msg)[i])
  {
    var dvs := DataValuesOf(node, msg);
    BuiltKeysAreUnique(ResourceAddress(node, msg.kind, msg.iface), msg.payload);
    UnchangedMeansSaid(ValuesAt(entries, msg.kind), dvs, |dvs|);
    assert dvs[..|dvs|] == dvs;
  }

  // ------------------------------------------------------------------ what a message is shown as

  predicate HasSource(kind: MessageType) {
    !kind.CacheClear? && !kind.StatusRequest? && !kind.Other?
  }

  predicate IsSource(source: Path, node: string, kind: MessageType) {
    && (kind.PtpState? ==> source == ["cluster", "node", node, "sync", "ptp-status", "lock-state"])
    && (kind.OsClockState? ==> source == ["cluster", "node", node, "sync", "sync-status", "os-clock-sync-state"])
    && (kind.ClockClass? ==> source == ["cluster", "node", node, "sync", "ptp-status", "clock-class"])
    && (kind.GnssState? ==> source == ["cluster", "node", node, "sync", "gnss-status", "gnss-sync-status"])
    && (kind.SyncEState? ==> source == ["cluster", "node", node, "sync", "synce-status", "lock-state"])
    && (kind.SyncEClockQuality? ==> source == ["cluster", "node", node, "sync", "synce-status", "clock-quality"])
    && (kind.SyncState? ==> source == ["cluster", "node", node, "sync", "sync-status", "sync-state"])
  }

  /** Where the values of a message are: below the node, for most types below the interface if the message has one. */
  predicate IsAddress(at: Path, node: string, kind: MessageType, iface: string) {
    var below := if iface == "" then ["cluster", "node", node] else ["cluster", "node", node, iface];
    && (kind.PtpState? || kind.GnssState? ==> at == below + ["master"])
    && (kind.ClockClass? ==> at == below + ["master", "clock-class"])
    && (kind.SyncEState? || kind.SyncEClockQuality? ==> at == below)
    && (kind.OsClockState? ==> at == ["cluster", "node", node, "CLOCK_REALTIME"])
    && (kind.SyncState? ==> at == ["cluster", "node", node, "sync", "sync-status", "sync-state"])
  }

  ghost predicate SaysValue(m: map<Key, Value>, key: Key, value: Value) {
    key in m && m[key] == value
  }

  /** Every value of a payload is there, under its key. */
  ghost predicate ShowsPayload(m: map<Key, Value>, at: Path, payload: Payload) {
    match payload
    case StateValue(state, offset) => SaysValue(m, Notification(at), Text(state)) && SaysValue(m, Metric(at), Int64(offset))
    case GnssStateValue(state) =>
      && SaysValue(m, Notification(at), Text(state)) && SaysValue(m, Metric(at), Int64(0))
      && SaysValue(m, Metric(at + ["gpsFix"]), Int64(0))
    case SyncStateValue(state) => SaysValue(m, Notification(at), Text(state))
    case SyncEStateValue(state) => SaysValue(m, Metric(at), Text(state))
    case ClockClassValue(clockClass) => SaysValue(m, Metric(at), Int64(clockClass))
    case SyncEClockQualityValue(ql, extendedQl) =>
      SaysValue(m, Metric(at + ["Ql"]), Float64(ql)) && SaysValue(m, Metric(at + ["extQl"]), Float64(extendedQl))
    case NoValue => true
  }

  predicate IsNamed(node: string, iface: string) {
    IsSegment(node) && (iface == "" || IsSegment(iface))
  }

  lemma JoinOne(at: Path, element: string)
    requires element == "" || IsSegment(element)
    ensures Join(at, element) == if element == "" then at else at + [element]
  {
    SplitWhole(element, '/');
    if element == "" {
      assert Cleaned(at, [""]) == Cleaned(at, []);
    } else {
      SegmentsStay(at, [element]);
    }
  }

  lemma AddressIs(node: string, kind: MessageType, iface: string)
    requires IsNamed(node, iface)
    ensures NodePath(node) == ["cluster", "node", node] && IsAddress(ResourceAddress(node, kind, iface), node, kind, iface)
  {
    JoinOne(["cluster", "node"], node);
    JoinOne(NodePath(node), iface);
  }

  lemma SourceIs(node: string, kind: MessageType)
    requires IsSegment(node)
    ensures OranSource(kind).Some? <==> HasSource(kind)
    ensures HasSource(kind) ==> IsSource(NodePath(node) + OranSource(kind).value, node, kind)
  {
    AddressIs(node, kind, "");
  }

  /** A list says all the values of a payload if and only if it shows the payload. */
  lemma ShownExactly(values: seq<DataValue>, at: Path, payload: Payload)
    ensures ShowsPayload(AsMap(values), at, payload)
      <==> forall i :: 0 <= i < |BuildDataValues(at, payload)| ==> Says(values, BuildDataValues(at, payload)[i])
    ensures BuildDataValues(at, payload) == [] <==> payload.NoValue?
  {
    var dvs := BuildDataValues(at, payload);
    if forall i :: 0 <= i < |dvs| ==> Says(values, dvs[i]) {
      if |dvs| > 0 { assert Says(values, dvs[0]); }
      if |dvs| > 1 { assert Says(values, dvs[1]); }
      if |dvs| > 2 { assert Says(values, dvs[2]); }
    }
  }

  lemma CachedExactly(node: string, msg: Message)
    requires IsNamed(node, msg.iface)
    ensures IsCached(node, msg) <==> HasSource(msg.kind) && !msg.payload.NoValue?
  {
    SourceIs(node, msg.kind);
    ShownExactly([], ResourceAddress(node, msg.kind, msg.iface), msg.payload);
  }

  /** What the cache holds after a message it takes: everything the message says, where it belongs. */
  lemma MessageIsShown(entries: Entries, node: string, msg: Message, id: nat) returns (at: Path)
    requires Good(entries, node) && IsNamed(node, msg.iface) && HasSource(msg.kind) && !msg.payload.NoValue?
    ensures var t := Updated(entries, node, msg, id).entries;
      && msg.kind in t && IsAddress(at, node, msg.kind, msg.iface) && ShowsPayload(AsMap(t[msg.kind].values), at, msg.payload)
      && t[msg.kind].kind == msg.kind && IsSource(t[msg.kind].source, node, msg.kind)
      && (forall kind :: kind != msg.kind ==> (kind in t <==> kind in entries) && (kind in t ==> t[kind] == entries[kind]))
  {
    at := ResourceAddress(node, msg.kind, msg.iface);
    AddressIs(node, msg.kind, msg.iface);
    CachedExactly(node, msg);
    SourceIs(node, msg.kind);
    UpdateKeepsGood(entries, node, msg, id);
    UpdateSays(entries, node, msg, id);
    ShownExactly(Updated(entries, node, msg, id).entries[msg.kind].values, at, msg.payload);
  }

  lemma UpdateSays(entries: Entries, node: string, msg: Message, id: nat)
    requires Good(entries, node) && IsCached(node, msg)
    ensures var t := Updated(entries, node, msg, id).entries;
      msg.kind in t && forall i :: 0 <= i < |DataValuesOf(node, msg)| ==> Says(t[msg.kind].values, DataValuesOf(node, msg)[i])
  {
    var dvs, t := DataValuesOf(node, msg), Updated(entries, node, msg, id).entries;
    BuiltKeysAreUnique(ResourceAddress(node, msg.kind, msg.iface), msg.payload);
    UpdateAgrees(entries, node, msg, id);
    AsMapHas(dvs);
    assert KnowledgeOf(t)[msg.kind] == AsMap(t[msg.kind].values);
  }

  /**
    When an event is published, and what it is: for a message of an interface if and only if its type is new or does
    not show the message yet. The event is the new entry, with the identifier drawn and the time of the message.
   */
  lemma PublishedExactly(entries: Entries, node: string, msg: Message, id: nat) returns (at: Path)
    requires Good(entries, node) && IsNamed(node, msg.iface)
    ensures IsAddress(at, node, msg.kind, msg.iface)
    ensures var o := Updated(entries, node, msg, id);
      && (o.published.Some? ==>
            && msg.kind in o.entries && o.published.value == o.entries[msg.kind]
            && o.published.value.id == id && o.published.value.time == msg.timestamp)
      && (o.published.None? ==> o.entries == entries)
      && (msg.iface != "" ==> (o.published.Some? <==>
            && HasSource(msg.kind) && !msg.payload.NoValue?
            && (msg.kind !in entries || !ShowsPayload(AsMap(entries[msg.kind].values), at, msg.payload))))
  {
    at := ResourceAddress(node, msg.kind, msg.iface);
    AddressIs(node, msg.kind, msg.iface);
    CachedExactly(node, msg);
    if msg.iface != "" && IsCached(node, msg) {
      PublishesExactlyNews(entries, node, msg, id);
      ShownExactly(ValuesAt(entries, msg.kind), at, msg.payload);
    }
  }

  /** Distinct types have distinct sources on every node, so a lookup by source has at most one answer. */
  lemma SourcesAreDistinct(node: string, a: MessageType, b: MessageType)
    requires OranSource(a).Some? && OranSource(b).Some?
    requires NodePath(node) + OranSource(a).value == NodePath(node) + OranSource(b).value
    ensures a == b
  {
    var at := NodePath(node);
    assert (at + OranSource(a).value)[|at|..] == OranSource(a).value;
    assert (at + OranSource(b).value)[|at|..] == OranSource(b).value;
    assert OranSource(a).value[1] == OranSource(b).value[1] && OranSource(a).value[2] == OranSource(b).value[2];
  }

  // ------------------------------------------------------------------ a stream of lines

  const IPC_VERSION := 1

  /** A line of the stream: empty or undecodable, or a message with its version. */
  datatype Line = Unreadable | Decoded(version: int, msg: Message, id: nat)

  datatype Output = Sent(event: Event) | Cleared

  datatype Session = Session(entries: Entries, log: seq<Output>)

  function Handled(s: Session, node: string, line: Line): Session {
    if line.Unreadable? || line.version != IPC_VERSION then s
    else if line.msg.kind.CacheClear? then Session(map[], s.log + [Cleared])
    else if line.msg.kind.StatusRequest? then s
    else
      var o := Updated(s.entries, node, line.msg, line.id);
      Session(o.entries, if o.published.Some? then s.log + [Sent(o.published.value)] else s.log)
  }

  function Listened(s: Session, node: string, lines: seq<Line>): Session {
    if lines == [] then s else Handled(Listened(s, node, lines[..|lines| - 1]), node, lines[|lines| - 1])
  }

  /** The fold a reader of the stream would compute: what each type says, by key. */
  type Knowledge = map<MessageType, map<Key, Value>>

  function Learned(k: Knowledge, node: string, line: Line): Knowledge {
    if line.Unreadable? || line.version != IPC_VERSION || line.msg.kind.StatusRequest? then k
    else if line.msg.kind.CacheClear? then map[]
    else if !IsCached(node, line.msg) then k
    else Told(k, line.msg.kind, line.msg.iface, AsMap(DataValuesOf(node, line.msg)))
  }

  /** A message with an interface adds to what its type says; one without replaces it. */
  function Told(k: Knowledge, kind: MessageType, iface: string, news: map<Key, Value>): Knowledge {
    k[kind := if iface != "" && kind in k then k[kind] + news else news]
  }

  function Fold(node: string, lines: seq<Line>): Knowledge {
    if lines == [] then map[] else Learned(Fold(node, lines[..|lines| - 1]), node, lines[|lines| - 1])
  }

  function KnowledgeOf(entries: Entries): Knowledge {
    map kind | kind in entries :: AsMap(entries[kind].values)
  }

  /** What the values of a cached message leave a type saying. */
  lemma ValuesAgree(before: seq<DataValue>, iface: string, dvs: seq<DataValue>)
    requires UniqueKeys(before) && UniqueKeys(dvs)
    ensures UniqueKeys(ValuesAfter(before, iface, dvs))
    ensures AsMap(ValuesAfter(before, iface, dvs)) == if iface == "" then AsMap(dvs) else AsMap(before) + AsMap(dvs)
  {
    SetAllIsUnion(before, dvs);
  }

  /** One entry replaced, or left as it is when its values would not change. */
  lemma EntryAgrees(entries: Entries, kind: MessageType, iface: string, dvs: seq<DataValue>, e: Event)
    requires UniqueKeys(ValuesAt(entries, kind)) && UniqueKeys(dvs)
    requires e.values == ValuesAfter(ValuesAt(entries, kind), iface, dvs)
    ensures KnowledgeOf(entries[kind := e]) == Told(KnowledgeOf(entries), kind, iface, AsMap(dvs))
    ensures kind in entries && e.values == ValuesAt(entries, kind) ==>
      KnowledgeOf(entries) == Told(KnowledgeOf(entries), kind, iface, AsMap(dvs))
  {
    ValuesAgree(ValuesAt(entries, kind), iface, dvs);
    SaysNothing(AsMap(dvs));
    ReplacedEntry(entries, kind, e);
  }

  lemma SaysNothing(news: map<Key, Value>)
    ensures map[] + news == news
  {}

  lemma ReplacedEntry(entries: Entries, kind: MessageType, e: Event)
    ensures KnowledgeOf(entries[kind := e]) == KnowledgeOf(entries)[kind := AsMap(e.values)]
    ensures kind in entries ==> kind in KnowledgeOf(entries) && KnowledgeOf(entries)[kind] == AsMap(entries[kind].values)
    ensures kind in entries && e.values == entries[kind].values ==>
      KnowledgeOf(entries)[kind := AsMap(e.values)] == KnowledgeOf(entries)
    ensures kind !in entries ==> kind !in KnowledgeOf(entries)
  {}

  lemma UpdateAgrees(entries: Entries, node: string, msg: Message, id: nat)
    requires Good(entries, node) && IsCached(node, msg)
    ensures KnowledgeOf(Updated(entries, node, msg, id).entries)
         == Told(KnowledgeOf(entries), msg.kind, msg.iface, AsMap(DataValuesOf(node, msg)))
  {
    var after := ValuesAfter(ValuesAt(entries, msg.kind), msg.iface, DataValuesOf(node, msg));
    BuiltKeysAreUnique(ResourceAddress(node, msg.kind, msg.iface), msg.payload);
    EntryAgrees(entries, msg.kind, msg.iface, DataValuesOf(node, msg),
                Event(msg.kind, NodePath(node) + OranSource(msg.kind).value, after, id, msg.timestamp));
  }

  lemma LineAgrees(s: Session, node: string, line: Line)
    requires Good(s.entries, node)
    ensures Good(Handled(s, node, line).entries, node)
    ensures KnowledgeOf(Handled(s, node, line).entries) == Learned(KnowledgeOf(s.entries), node, line)
  {
    if line.Decoded? && line.version == IPC_VERSION && !line.msg.kind.CacheClear? && !line.msg.kind.StatusRequest? {
      MessageAgrees(s.entries, node, line.msg, line.id);
    } else {
      assert KnowledgeOf(map[]) == map[];
    }
  }

  lemma MessageAgrees(entries: Entries, node: string, msg: Message, id: nat)
    requires Good(entries, node)
    ensures Good(Updated(entries, node, msg, id).entries, node)
    ensures KnowledgeOf(Updated(entries, node, msg, id).entries)
         == if IsCached(node, msg) then Told(KnowledgeOf(entries), msg.kind, msg.iface, AsMap(DataValuesOf(node, msg)))
            else KnowledgeOf(entries)
  {
    UpdateKeepsGood(entries, node, msg, id);
    if IsCached(node, msg) {
      UpdateAgrees(entries, node, msg, id);
    }
  }

  /** The cache after any stream agrees with the fold of the stream, and no entry carries a key twice. */
  lemma {:induction false} CacheAgreesWithFold(node: string, lines: seq<Line>)
    ensures var s := Listened(Session(map[], []), node, lines);
            Good(s.entries, node) && KnowledgeOf(s.entries) == Fold(node, lines)
  {
    if lines != [] {
      CacheAgreesWithFold(node, lines[..|lines| - 1]);
      LineAgrees(Listened(Session(map[], []), node, lines[..|lines| - 1]), node, lines[|lines| - 1]);
    }
  }

  /** After any stream, the last message that the cache takes is shown; what a line adds to the log is the event it publishes. */
  lemma LastMessageIsShown(node: string, lines: seq<Line>, msg: Message, id: nat) returns (at: Path)
    requires IsNamed(node, msg.iface) && HasSource(msg.kind) && !msg.payload.NoValue?
    ensures var before := Listened(Session(map[], []), node, lines);
      var after := Listened(Session(map[], []), node, lines + [Decoded(1, msg, id)]);
      && msg.kind in after.entries && IsAddress(at, node, msg.kind, msg.iface)
      && ShowsPayload(AsMap(after.entries[msg.kind].values), at, msg.payload)
      && IsSource(after.entries[msg.kind].source, node, msg.kind)
      && (after.log == before.log || after.log == before.log + [Sent(after.entries[msg.kind])])
      && (msg.iface != "" ==> (after.log == before.log <==>
            msg.kind in before.entries && ShowsPayload(AsMap(before.entries[msg.kind].values), at, msg.payload)))
  {
    var before := Listened(Session(map[], []), node, lines);
    CacheAgreesWithFold(node, lines);
    assert (lines + [Decoded(1, msg, id)])[..|lines|] == lines;
    at := MessageIsShown(before.entries, node, msg, id);
    var same := PublishedExactly(before.entries, node, msg, id);
    assert same == at;
  }

  /** A line that cannot be read, has another version or asks for the status changes nothing; a clear empties the cache. */
  lemma OtherLines(s: Session, node: string, line: Line)
    ensures line.Unreadable? || line.version != 1 || line.msg.kind.StatusRequest? || line.msg.kind.Other? ==> Handled(s, node, line) == s
    ensures line.Decoded? && line.version == 1 && line.msg.kind.CacheClear? ==>
      Handled(s, node, line).entries == map[] && Handled(s, node, line).log == s.log + [Cleared]
  {}

  /** The last event of a type since the last clear. */
  function LastSent(log: seq<Output>, kind: MessageType): Option<Event> {
    if log == [] then None
    else
      match log[|log| - 1]
      case Cleared => None
      case Sent(e) => if e.kind == kind then Some(e) else LastSent(log[..|log| - 1], kind)
  }

  ghost predicate ShowsLastSent(s: Session) {
    forall kind :: LastSent(s.log, kind) == if kind in s.entries then Some(s.entries[kind]) else None
  }

  lemma LineShowsLastSent(s: Session, node: string, line: Line)
    requires ShowsLastSent(s)
    ensures ShowsLastSent(Handled(s, node, line))
  {
    var t := Handled(s, node, line);
    if |t.log| > |s.log| {
      assert t.log[..|t.log| - 1] == s.log;
    }
  }

  /** What the cache shows for a type is always the last event published for it since the last clear. */
  lemma {:induction false} CacheShowsLastSent(node: string, lines: seq<Line>)
    ensures ShowsLastSent(Listened(Session(map[], []), node, lines))
  {
    if lines != [] {
      CacheShowsLastSent(node, lines[..|lines| - 1]);
      LineShowsLastSent(Listened(Session(map[], []), node, lines[..|lines| - 1]), node, lines[|lines| - 1]);
    }
  }

  // ------------------------------------------------------------------ the cache in place

  class EventCache {
    const node: string
    var entries: Entries

    constructor (node: string)
      ensures entries == map[] && this.node == node
    {
      this.node, entries := node, map[];
    }

    method Update(msg: Message, id: nat) returns (published: Option<Event>)
      requires Good(entries, node)
      modifies this
      ensures Outcome(entries, published) == Updated(old(entries), node, msg, id)
      ensures Good(entries, node)
    {
      UpdateKeepsGood(entries, node, msg, id);
      var source := OranSource(msg.kind);
      if source.None? {
        return None;
      }
      var dvs := DataValuesOf(node, msg);
      if |dvs| == 0 {
        return None;
      }
      BuiltKeysAreUnique(ResourceAddress(node, msg.kind, msg.iface), msg.payload);
      var cached := msg.kind in entries;
      var values, changed := ValuesAt(entries, msg.kind), false;
      if msg.iface == "" {
        if !cached || values != dvs {
          values, changed := dvs, true;
        }
      } else {
        values, changed := SetDataValues(values, dvs);
      }
      if !changed {
        return None;
      }
      var e := Event(msg.kind, NodePath(node) + source.value, values, id, msg.timestamp);
      entries := entries[msg.kind := e];
      return Some(e);
    }

    static method SetDataValues(before: seq<DataValue>, dvs: seq<DataValue>) returns (values: seq<DataValue>, changed: bool)
      requires UniqueKeys(before) && UniqueKeys(dvs)
      ensures values == SetAll(before, dvs)
      ensures changed == (values != before)
    {
      values, changed := before, false;
      for i := 0 to |dvs|
        invariant values == SetAll(before, dvs[..i])
        invariant changed == exists j :: 0 <= j < i && !Says(before, dvs[j])
      {
        NextValueChanges(before, dvs, i);
        assert dvs[..i + 1][..i] == dvs[..i];
        var isNews;
        values, isNews := SetValue(values, dvs[i]);
        changed := changed || isNews;
      }
      UnchangedMeansSaid(before, dvs, |dvs|);
      assert dvs[..|dvs|] == dvs;
    }

    static method SetValue(values: seq<DataValue>, dv: DataValue) returns (next: seq<DataValue>, changed: bool)
      ensures next == SetDataValue(values, dv)
      ensures changed == (next != values)
    {
      for i := 0 to |values|
        invariant forall j :: 0 <= j < i ==> values[j].key != dv.key
      {
        if values[i].key == dv.key {
          if values[i].value == dv.value {
            return values, false;
          }
          return values[i := dv], true;
        }
      }
      return values + [dv], true;
    }

    method Clear()
      modifies this
      ensures entries == map[]
    {
      entries := map[];
    }

    /** A lookup in the arbitrary order of map iteration finds the one entry of this source. */
    method GetBySource(source: Path) returns (e: Option<Event>)
      requires Good(entries, node)
      ensures e.Some? ==> e.value in entries.Values && e.value.source == source
      ensures forall kind :: kind in entries && entries[kind].source == source ==> e == Some(entries[kind])
    {
      var left := entries.Keys;
      while left != {}
        invariant left <= entries.Keys
        invariant forall kind :: kind in entries && entries[kind].source == source ==> kind in left
        decreases left
      {
        var kind :| kind in left;
        if entries[kind].source == source {
          forall other | other in entries && entries[other].source == source ensures other == kind {
            SourcesAreDistinct(node, other, kind);
          }
          return Some(entries[kind]);
        }
        left := left - {kind};
      }
      return None;
    }

    method Listen(lines: seq<Line>) returns (log: seq<Output>)
      requires Good(entries, node)
      modifies this
      ensures Session(entries, log) == Listened(Session(old(entries), []), node, lines)
    {
      log := [];
      for i := 0 to |lines|
        invariant Good(entries, node)
        invariant Session(entries, log) == Listened(Session(old(entries), []), node, lines[..i])
      {
        assert lines[..i + 1][..i] == lines[..i];
        log := Handle(lines[i], log);
      }
      assert lines[..|lines|] == lines;
    }

    method Handle(line: Line, log: seq<Output>) returns (next: seq<Output>)
      requires Good(entries, node)
      modifies this
      ensures Good(entries, node)
      ensures Session(entries, next) == Handled(Session(old(entries), log), node, line)
    {
      next := log;
      if line.Unreadable? || line.version != IPC_VERSION {
        return;
      }
      match line.msg.kind {
        case CacheClear =>
          Clear();
          next := log + [Cleared];
        case StatusRequest =>
        case _ =>
          var published := Update(line.msg, line.id);
          if published.Some? {
            next := log + [Sent(published.value)];
          }
      }
    }
  }
}
