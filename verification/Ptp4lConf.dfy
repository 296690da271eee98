/**
  Ptp4lConf: the ptp4l configuration of pkg/linuxptp-daemon/pkg/daemon/config.go, read from a text into
  a list of sections and written back as a text.
 */
module Ptp4lConf {
  import opened Sequences
  import opened Texts

  datatype Entry = Entry(key: string, value: string)

  datatype Section = Section(name: string, options: seq<Entry>)

  datatype ClockType = GM | BC | OC

  const GLOBAL := "[global]"
  const NMEA := "[nmea]"
  const UNICAST := "[unicast_master_table]"

  predicate IsInterface(name: string) {
    name != GLOBAL && name != NMEA && name != UNICAST
  }

  // ------------------------------------------------------------------ one option

  /** The last section of this name, or -1. */
  function FindSection(sections: seq<Section>, name: string): (i: int)
    ensures -1 <= i < |sections|
    ensures i >= 0 ==> sections[i].name == name
    ensures forall j :: i < j < |sections| ==> sections[j].name != name
  {
    if sections == [] then -1
    else if sections[|sections| - 1].name == name then |sections| - 1
    else FindSection(sections[..|sections| - 1], name)
  }

  function Overwritten(options: seq<Entry>, key: string, value: string): (r: seq<Entry>)
    ensures |r| == |options|
    ensures forall i :: 0 <= i < |r| ==> r[i] == if options[i].key == key then Entry(key, value) else options[i]
  {
    if options == [] then []
    else [if options[0].key == key then Entry(key, value) else options[0]] + Overwritten(options[1..], key, value)
  }

  predicate HasKey(options: seq<Entry>, key: string) {
    exists i :: 0 <= i < |options| && options[i].key == key
  }

  function SetEntry(options: seq<Entry>, key: string, value: string, overwrite: bool): seq<Entry> {
    if overwrite && HasKey(options, key) then Overwritten(options, key, value) else options + [Entry(key, value)]
  }

  /** An empty key only makes sure that the section is there. */
  function WithOption(sections: seq<Section>, name: string, key: string, value: string, overwrite: bool): seq<Section> {
    var i := FindSection(sections, name);
    var all := if i < 0 then sections + [Section(name, [])] else sections;
    var at := if i < 0 then |sections| else i;
    if key == "" then all
    else all[at := Section(name, SetEntry(all[at].options, key, value, overwrite))]
  }

  /** The options of the section of this name, if there is one. */
  function OptionsIn(sections: seq<Section>, name: string): seq<Entry> {
    var i := FindSection(sections, name);
    if i < 0 then [] else sections[i].options
  }

  ghost predicate HasSection(sections: seq<Section>, name: string) {
    exists i :: 0 <= i < |sections| && sections[i].name == name
  }

  ghost predicate UniqueNames(sections: seq<Section>) {
    forall i, j :: 0 <= i < j < |sections| ==> sections[i].name != sections[j].name
  }

  lemma FoundAt(sections: seq<Section>, name: string, i: nat)
    requires i < |sections| && sections[i].name == name && forall j :: i < j < |sections| ==> sections[j].name != name
    ensures FindSection(sections, name) == i
  {}

  lemma FoundWhereNamed(a: seq<Section>, b: seq<Section>, name: string)
    requires |a| <= |b| && (forall i :: 0 <= i < |a| ==> b[i].name == a[i].name) && forall i :: |a| <= i < |b| ==> b[i].name != name
    ensures FindSection(b, name) == FindSection(a, name)
    ensures HasSection(b, name) <==> HasSection(a, name)
  {
    var i := FindSection(a, name);
    if i >= 0 {
      FoundAt(b, name, i);
      assert b[i].name == name;
    }
  }

  /** The options after one is set: each option of the key with the new value, or one more at the end. */
  ghost predicate IsSetIn(before: seq<Entry>, after: seq<Entry>, key: string, value: string, overwrite: bool) {
    if overwrite && exists j :: 0 <= j < |before| && before[j].key == key then
      && |after| == |before|
      && forall j :: 0 <= j < |after| ==> after[j] == if before[j].key == key then Entry(key, value) else before[j]
    else
      after == before + [Entry(key, value)]
  }

  /** The sections after one is wanted: it is there, new at the end if it was not, and the order stays. */
  ghost predicate HasOneMore(before: seq<Section>, after: seq<Section>, name: string) {
    && |before| <= |after| <= |before| + 1 && HasSection(after, name) && (|after| > |before| <==> !HasSection(before, name))
    && forall i :: 0 <= i < |after| ==> after[i].name == if i < |before| then before[i].name else name
  }

  lemma SectionIsThere(sections: seq<Section>, name: string, key: string, value: string, overwrite: bool)
    ensures HasOneMore(sections, WithOption(sections, name, key, value, overwrite), name)
  {
    var i := FindSection(sections, name);
    assert WithOption(sections, name, key, value, overwrite)[if i < 0 then |sections| else i].name == name;
  }

  lemma OneMoreStaysUnique(before: seq<Section>, after: seq<Section>, name: string)
    requires HasOneMore(before, after, name) && UniqueNames(before)
    ensures UniqueNames(after)
  {}

  lemma OthersStay(sections: seq<Section>, name: string, key: string, value: string, overwrite: bool, other: string)
    requires other != name
    ensures OptionsIn(WithOption(sections, name, key, value, overwrite), other) == OptionsIn(sections, other)
  {
    SectionIsThere(sections, name, key, value, overwrite);
    FoundWhereNamed(sections, WithOption(sections, name, key, value, overwrite), other);
  }

  /**
    What setting an option changes: the section is there afterwards, and its options are set if a key was given; every
    other section stays.
   */
  lemma OptionIsSet(sections: seq<Section>, name: string, key: string, value: string, overwrite: bool, other: string)
    ensures var t := WithOption(sections, name, key, value, overwrite);
      && HasOneMore(sections, t, name) && (UniqueNames(sections) ==> UniqueNames(t))
      && (key == "" ==> OptionsIn(t, name) == OptionsIn(sections, name))
      && (key != "" ==> IsSetIn(OptionsIn(sections, name), OptionsIn(t, name), key, value, overwrite))
      && (other != name ==> OptionsIn(t, other) == OptionsIn(sections, other))
  {
    SectionIsThere(sections, name, key, value, overwrite);
    if UniqueNames(sections) {
      OneMoreStaysUnique(sections, WithOption(sections, name, key, value, overwrite), name);
    }
    OptionsAreSet(sections, name, key, value, overwrite);
    if other != name {
      OthersStay(sections, name, key, value, overwrite, other);
    }
  }

  lemma OptionsAreSet(sections: seq<Section>, name: string, key: string, value: string, overwrite: bool)
    ensures var t := WithOption(sections, name, key, value, overwrite);
      if key == "" then OptionsIn(t, name) == OptionsIn(sections, name)
      else IsSetIn(OptionsIn(sections, name), OptionsIn(t, name), key, value, overwrite)
  {
    var i := FindSection(sections, name);
    FoundAt(WithOption(sections, name, key, value, overwrite), name, if i < 0 then |sections| else i);
  }

  // ------------------------------------------------------------------ one line

  datatype Line = Ignored | Unclosed | Header(name: string) | Setting(key: string, value: string)

  function Classify(raw: string): Line {
    var line := Trim(raw);
    if line == "" || line[0] == '#' then Ignored
    else if line[0] == '[' then
      if |Split(line, ']')| < 2 then Unclosed else Header(Split(line, ']')[0] + "]")
    else
      var space := IndexOf(line, ' ');
      if space == 0 || space == |line| then Ignored
      else Setting(line[..space], Trim(line[space..]))
  }

  /** A setting that makes an interface, or the whole configuration, a receiver of time. */
  predicate MarksSlave(section: string, key: string, value: string) {
    || (key == "masterOnly" && value == "0" && section != GLOBAL)
    || (key == "serverOnly" && value == "0")
    || (key == "slaveOnly" && value == "1")
    || (key == "clientOnly" && value == "1")
  }

  datatype Parse = Parse(sections: seq<Section>, current: string, headers: nat, slave: bool)

  datatype Result = Ok(p: Parse) | Err(p: Parse)

  function ParseLine(p: Parse, raw: string): Result {
    Applied(p, Classify(raw))
  }

  function Applied(p: Parse, line: Line): Result {
    match line
    case Ignored => Ok(p)
    case Unclosed => Err(p)
    case Header(name) =>
      Ok(Parse(WithOption(p.sections, name, "", "", false), name,
               if IsInterface(name) then p.headers + 1 else p.headers, p.slave))
    case Setting(key, value) =>
      Ok(p.(sections := WithOption(p.sections, p.current, key, value, false),
            slave := p.slave || MarksSlave(p.current, key, value)))
  }

  function ParseLines(p: Parse, lines: seq<string>): Result
    decreases |lines|
  {
    if lines == [] then Ok(p)
    else
      match ParseLine(p, lines[0])
      case Err(q) => Err(q)
      case Ok(q) => ParseLines(q, lines[1..])
  }

  function Start(cliSlave: bool): Parse {
    Parse([], "", 0, cliSlave)
  }

  /** `cliSlave`: the command line asks for slave mode. */
  function ParseText(text: string, cliSlave: bool): Result {
    ParseLines(Start(cliSlave), Split(text, '\n'))
  }

  function TypeOf(slave: bool, interfaces: nat): ClockType {
    if !slave then GM else if interfaces > 1 then BC else OC
  }

  // ------------------------------------------------------------------ rendering

  function RenderedOptions(options: seq<Entry>): seq<string> {
    if options == [] then []
    else [options[0].key + " " + options[0].value] + RenderedOptions(options[1..])
  }

  function SectionLines(s: Section): seq<string> {
    [s.name] + RenderedOptions(s.options)
  }

  function RenderedSections(sections: seq<Section>): seq<string> {
    if sections == [] then []
    else SectionLines(sections[0]) + RenderedSections(sections[1..])
  }

  /** Every piece on a line of its own. */
  function Lined(text: string, pieces: seq<string>): string
    decreases |pieces|
  {
    if pieces == [] then text else Lined(text + "\n" + pieces[0], pieces[1..])
  }

  const PROFILE_TAG := "#profile: "

  function Rendered(profile: string, sections: seq<Section>): string {
    Lined(PROFILE_TAG + profile + "\n", RenderedSections(sections))
  }

  // ------------------------------------------------------------------ the normal form

  predicate IsHeaderName(name: string) {
    && |name| >= 2 && name[0] == '[' && name[|name| - 1] == ']'
    && ']' !in name[..|name| - 1] && '\n' !in name
  }

  predicate IsEntry(e: Entry) {
    && e.key != "" && ' ' !in e.key && '\n' !in e.key
    && e.key[0] != '#' && e.key[0] != '[' && !IsSpace(e.key[0])
    && e.value != "" && '\n' !in e.value
    && !IsSpace(e.value[0]) && !IsSpace(e.value[|e.value| - 1])
  }

  predicate AreEntries(options: seq<Entry>) {
    forall i :: 0 <= i < |options| ==> IsEntry(options[i])
  }

  /** Only the first section may be unnamed, and then it has options. */
  predicate IsNamed(sections: seq<Section>, i: nat)
    requires i < |sections|
  {
    IsHeaderName(sections[i].name) || (i == 0 && sections[0].name == "" && sections[0].options != [])
  }

  ghost predicate Normal(sections: seq<Section>) {
    && UniqueNames(sections)
    && (forall i :: 0 <= i < |sections| ==> IsNamed(sections, i))
    && (forall i :: 0 <= i < |sections| ==> AreEntries(sections[i].options))
  }

  // ------------------------------------------------------------------ parsing gives a normal form

  lemma HeadersAreNames(raw: string)
    requires Classify(raw).Header? && '\n' !in raw
    ensures IsHeaderName(Classify(raw).name)
  {
    TrimAddsNothing(raw, '\n');
    LineIs(raw);
  }

  lemma SettingsAreEntries(raw: string)
    requires Classify(raw).Setting? && '\n' !in raw
    ensures IsEntry(Entry(Classify(raw).key, Classify(raw).value))
  {
    TrimAddsNothing(raw, '\n');
    LineIs(raw);
    KeyAndValueAreEntry(Trim(raw), Classify(raw).key, Classify(raw).value);
  }

  lemma KeyAndValueAreEntry(line: string, key: string, value: string)
    requires IsSetting(line, key, value) && IsTrimmed(line) && '\n' !in line
    ensures IsEntry(Entry(key, value))
  {
    var rest := line[|key|..];
    TrimKeepsEnd(rest);
    TrimAddsNothing(rest, '\n');
    assert key[0] == line[0] && rest[|rest| - 1] == line[|line| - 1];
  }

  lemma TrimKeepsEnd(text: string)
    requires text != "" && !IsSpace(text[|text| - 1])
    ensures Trim(text) != ""
  {
    TrimLeftKeeps(text);
    assert TrimRight(TrimLeft(text)) == TrimLeft(text);
  }

  /** What holds between two lines. */
  ghost predicate Between(p: Parse) {
    && Normal(p.sections)
    && (p.current == "" ==> forall i :: 0 <= i < |p.sections| ==> p.sections[i].name == "")
    && (p.current != "" ==> IsHeaderName(p.current) && HasSection(p.sections, p.current))
  }

  lemma HeaderKeepsNormal(sections: seq<Section>, name: string)
    requires Normal(sections) && IsHeaderName(name)
    ensures Normal(WithOption(sections, name, "", "", false))
    ensures HasSection(WithOption(sections, name, "", "", false), name)
  {
    var t := WithOption(sections, name, "", "", false);
    if FindSection(sections, name) < 0 {
      assert t[|sections|].name == name;
      forall i: nat | i < |t| ensures IsNamed(t, i) {
        if i < |sections| {
          assert IsNamed(sections, i);
        }
      }
    }
  }

  lemma EntryKeepsNormal(sections: seq<Section>, name: string, e: Entry)
    requires Normal(sections) && IsEntry(e)
    requires HasSection(sections, name) || (sections == [] && name == "")
    ensures Normal(WithOption(sections, name, e.key, e.value, false))
    ensures HasSection(WithOption(sections, name, e.key, e.value, false), name)
  {
    var t, at := WithOption(sections, name, e.key, e.value, false), FindSection(sections, name);
    if at < 0 {
      assert sections == [];
      assert t[0] == Section(name, [e]);
    } else {
      assert t == sections[at := Section(name, sections[at].options + [e])];
      assert t[at].name == name;
      forall i: nat | i < |t| ensures IsNamed(t, i) {
        assert IsNamed(sections, i);
      }
    }
  }

  lemma LineKeepsBetween(p: Parse, raw: string)
    requires Between(p) && '\n' !in raw
    ensures ParseLine(p, raw).Ok? ==> Between(ParseLine(p, raw).p)
  {
    match Classify(raw)
    case Ignored =>
    case Unclosed =>
    case Header(name) =>
      HeadersAreNames(raw);
      HeaderKeepsNormal(p.sections, name);
    case Setting(key, value) =>
      SettingsAreEntries(raw);
      SettingKeepsBetween(p, Entry(key, value));
  }

  lemma SettingKeepsBetween(p: Parse, e: Entry)
    requires Between(p) && IsEntry(e)
    ensures Between(Applied(p, Setting(e.key, e.value)).p)
  {
    assert HasSection(p.sections, p.current) || (p.sections == [] && p.current == "") by {
      if p.current == "" && p.sections != [] {
        assert p.sections[0].name == "";
      }
    }
    EntryKeepsNormal(p.sections, p.current, e);
    NamesAfterEntry(p.sections, p.current, e);
  }

  lemma NamesAfterEntry(sections: seq<Section>, name: string, e: Entry)
    requires IsEntry(e)
    ensures var t := WithOption(sections, name, e.key, e.value, false);
            |t| >= |sections| && forall i :: 0 <= i < |t| ==> t[i].name == if i < |sections| then sections[i].name else name
  {}

  lemma {:induction false} LinesKeepBetween(p: Parse, lines: seq<string>)
    requires Between(p) && forall i :: 0 <= i < |lines| ==> '\n' !in lines[i]
    ensures ParseLines(p, lines).Ok? ==> Between(ParseLines(p, lines).p)
    decreases |lines|
  {
    if lines != [] {
      LineKeepsBetween(p, lines[0]);
      if ParseLine(p, lines[0]).Ok? {
        LinesKeepBetween(ParseLine(p, lines[0]).p, lines[1..]);
      }
    }
  }

  /**
    Every text that parses gives a normal form: section names are unique, and an unnamed section can
    only be the first.
   */
  lemma ParseGivesNormal(text: string, cliSlave: bool)
    requires ParseText(text, cliSlave).Ok?
    ensures Normal(ParseText(text, cliSlave).p.sections)
  {
    LinesKeepBetween(Start(cliSlave), Split(text, '\n'));
  }

  // ------------------------------------------------------------------ what a text says

  /** A line with a header that is not closed. */
  predicate IsUnclosed(raw: string) {
    Trim(raw) != "" && Trim(raw)[0] == '[' && ']' !in Trim(raw)
  }

  /** A line, without the white space around it, is a header up to its first bracket; what follows is ignored. */
  predicate IsHeader(line: string, name: string) {
    && 1 < |name| <= |line| && line[0] == '[' && name == line[..|name|]
    && name[|name| - 1] == ']' && ']' !in name[..|name| - 1]
  }

  /** A key up to the first blank, and the rest as its value, again without the white space around it. */
  predicate IsSetting(line: string, key: string, value: string) {
    && 0 < |key| < |line| && line[0] != '#' && line[0] != '[' && key == line[..|key|]
    && line[|key|] == ' ' && ' ' !in key && value == Trim(line[|key|..])
  }

  /** Exactly what a line is: a comment, an empty line and a key alone are ignored. */
  lemma LineIs(raw: string)
    ensures var line := Trim(raw);
      match Classify(raw)
      case Ignored => line == "" || line[0] == '#' || (line[0] != '[' && ' ' !in line)
      case Unclosed => IsUnclosed(raw)
      case Header(name) => IsHeader(line, name)
      case Setting(key, value) => IsSetting(line, key, value)
  {
    var line := Trim(raw);
    if line != "" && line[0] == '[' {
      SplitAtFirst(line, ']');
    } else if line != "" && line[0] != '#' {
      var space := IndexOf(line, ' ');
      assert space == |line| ==> line[..space] == line;
    }
  }

  /** What is before the first separator is the first part, which is all of a text without one. */
  lemma {:induction false} SplitAtFirst(text: string, sep: char)
    ensures |Split(text, sep)| < 2 <==> sep !in text
    ensures var first := Split(text, sep)[0];
      if sep in text then |first| < |text| && text[..|first|] == first && text[|first|] == sep else first == text
  {
    var k := IndexOf(text, sep);
    if k == |text| {
      assert text[..k] == text;
      SplitWhole(text, sep);
    } else {
      assert text == text[..k] + [sep] + text[k + 1..];
      SplitJoined(text[..k], text[k + 1..], sep);
      SplitWhole(text[..k], sep);
    }
  }

  lemma UnclosedExactly(raw: string)
    ensures Classify(raw).Unclosed? <==> IsUnclosed(raw)
  {
    LineIs(raw);
  }

  ghost predicate HasUnclosed(lines: seq<string>) {
    exists i :: 0 <= i < |lines| && IsUnclosed(lines[i])
  }

  /** A text is refused if and only if a header is not closed ... */
  lemma {:induction false} LinesFailExactly(p: Parse, lines: seq<string>)
    ensures ParseLines(p, lines).Err? <==> HasUnclosed(lines)
    decreases |lines|
  {
    if lines != [] {
      UnclosedExactly(lines[0]);
      LinesFailExactly(ParseLine(p, lines[0]).p, lines[1..]);
      if !IsUnclosed(lines[0]) {
        LaterFails(lines);
      }
    }
  }

  lemma LaterFails(lines: seq<string>)
    requires lines != [] && !IsUnclosed(lines[0])
    ensures HasUnclosed(lines) <==> HasUnclosed(lines[1..])
  {
    if HasUnclosed(lines) {
      var i :| 0 <= i < |lines| && IsUnclosed(lines[i]);
      assert lines[1..][i - 1] == lines[i];
    }
    if HasUnclosed(lines[1..]) {
      var i :| 0 <= i < |lines[1..]| && IsUnclosed(lines[1..][i]);
      assert lines[i + 1] == lines[1..][i];
    }
  }

  /** ... and what the lines before the first such say is kept. */
  lemma FirstUnclosedStops(p: Parse, before: seq<string>, rest: seq<string>)
    requires !HasUnclosed(before) && rest != [] && IsUnclosed(rest[0])
    ensures ParseLines(p, before).Ok? && ParseLines(p, before + rest) == Err(ParseLines(p, before).p)
  {
    LinesFailExactly(p, before);
    ParseAppended(p, before, rest);
    FirstIsUnclosed(ParseLines(p, before).p, rest);
  }

  lemma FirstIsUnclosed(p: Parse, lines: seq<string>)
    requires lines != [] && IsUnclosed(lines[0])
    ensures ParseLines(p, lines) == Err(p)
  {
    UnclosedExactly(lines[0]);
  }

  /** The settings on the lines below the headers of this name, in order; `current` is the header before the lines. */
  function SettingsBelow(lines: seq<string>, current: string, name: string): seq<Entry>
    decreases |lines|
  {
    if lines == [] then []
    else
      match Classify(lines[0])
      case Header(header) => SettingsBelow(lines[1..], header, name)
      case Setting(key, value) => (if current == name then [Entry(key, value)] else []) + SettingsBelow(lines[1..], current, name)
      case _ => SettingsBelow(lines[1..], current, name)
  }

  lemma OptionIsAdded(p: Parse, e: Entry, name: string)
    requires e.key != ""
    ensures OptionsIn(Applied(p, Setting(e.key, e.value)).p.sections, name)
         == OptionsIn(p.sections, name) + if p.current == name then [e] else []
  {
    OptionIsSet(p.sections, p.current, e.key, e.value, false, name);
    assert OptionsIn(p.sections, name) + [] == OptionsIn(p.sections, name);
  }

  lemma HeaderAddsNone(p: Parse, header: string, name: string)
    ensures OptionsIn(Applied(p, Header(header)).p.sections, name) == OptionsIn(p.sections, name)
  {
    OptionIsSet(p.sections, header, "", "", false, name);
  }

  lemma {:induction false} LinesAreGathered(p: Parse, lines: seq<string>, name: string)
    requires ParseLines(p, lines).Ok?
    ensures OptionsIn(ParseLines(p, lines).p.sections, name) == OptionsIn(p.sections, name) + SettingsBelow(lines, p.current, name)
    decreases |lines|
  {
    if lines == [] {
      assert OptionsIn(p.sections, name) + [] == OptionsIn(p.sections, name);
    } else {
      var q := ParseLine(p, lines[0]).p;
      LinesAreGathered(q, lines[1..], name);
      LineIs(lines[0]);
      match Classify(lines[0])
      case Header(header) => HeaderAddsNone(p, header, name);
      case Setting(key, value) =>
        OptionIsAdded(p, Entry(key, value), name);
        Regrouped(OptionsIn(p.sections, name), if p.current == name then [Entry(key, value)] else [], SettingsBelow(lines[1..], p.current, name));
      case _ =>
    }
  }

  /**
    What a text that parses says: the options of a section are the settings below the headers of its name, wherever
    and as often as they are written, in order; those before any header are in the section without a name.
   */
  lemma SettingsAreWhereTheyBelong(text: string, cliSlave: bool, name: string)
    requires ParseText(text, cliSlave).Ok?
    ensures OptionsIn(ParseText(text, cliSlave).p.sections, name) == SettingsBelow(Split(text, '\n'), "", name)
  {
    LinesAreGathered(Start(cliSlave), Split(text, '\n'), name);
    assert [] + SettingsBelow(Split(text, '\n'), "", name) == SettingsBelow(Split(text, '\n'), "", name);
  }

  // ------------------------------------------------------------------ rendering and parsing again

  lemma HeaderReparses(name: string)
    requires IsHeaderName(name)
    ensures Classify(name) == Header(name)
  {
    var body := name[..|name| - 1];
    assert name == body + "]" + "";
    SplitJoined(body, "", ']');
    SplitWhole(body, ']');
    SplitWhole("", ']');
    TrimNothing(name);
    HeaderClassified(name, Split(name, ']'));
  }

  lemma HeaderClassified(line: string, parts: seq<string>)
    requires line != "" && line[0] == '[' && Trim(line) == line
    requires Split(line, ']') == parts && |parts| == 2 && parts[0] + "]" == line
    ensures Classify(line) == Header(line)
  {}

  lemma EntryReparses(e: Entry)
    requires IsEntry(e)
    ensures Classify(e.key + " " + e.value) == Setting(e.key, e.value)
  {
    var line := e.key + " " + e.value;
    assert line[0] == e.key[0] && line[|line| - 1] == e.value[|e.value| - 1];
    IndexOfFirst(e.key, e.value, ' ');
    assert line[..|e.key|] == e.key && line[|e.key|..] == " " + e.value;
    SpaceThenValue(e.value);
    SettingClassified(line, |e.key|);
  }

  lemma SettingClassified(line: string, k: nat)
    requires 0 < k < |line| && IsTrimmed(line) && line[0] != '#' && line[0] != '[' && IndexOf(line, ' ') == k
    ensures Classify(line) == Setting(line[..k], Trim(line[k..]))
  {
    TrimNothing(line);
  }

  lemma SpaceThenValue(value: string)
    requires value != "" && !IsSpace(value[0]) && !IsSpace(value[|value| - 1])
    ensures Trim(" " + value) == value
  {
    TrimAfterSpace(" " + value);
    assert (" " + value)[1..] == value;
    TrimNothing(value);
  }

  lemma {:induction false} ParseAppended(p: Parse, a: seq<string>, b: seq<string>)
    ensures ParseLines(p, a + b) == if ParseLines(p, a).Ok? then ParseLines(ParseLines(p, a).p, b) else ParseLines(p, a)
    decreases |a|
  {
    if a == [] {
      assert a + b == b;
    } else {
      assert (a + b)[1..] == a[1..] + b;
      if ParseLine(p, a[0]).Ok? {
        ParseAppended(ParseLine(p, a[0]).p, a[1..], b);
      }
    }
  }

  lemma {:induction false} LinedSplits(text: string, pieces: seq<string>)
    requires forall i :: 0 <= i < |pieces| ==> '\n' !in pieces[i]
    ensures Split(Lined(text, pieces), '\n') == Split(text, '\n') + pieces
    decreases |pieces|
  {
    if pieces != [] {
      LinedSplits(text + "\n" + pieces[0], pieces[1..]);
      SplitJoined(text, pieces[0], '\n');
      SplitWhole(pieces[0], '\n');
    }
  }

  lemma {:induction false} OptionLinesAreLines(options: seq<Entry>)
    requires AreEntries(options)
    ensures forall i :: 0 <= i < |RenderedOptions(options)| ==> '\n' !in RenderedOptions(options)[i]
  {
    if options != [] {
      OptionLinesAreLines(options[1..]);
    }
  }

  lemma {:induction false} RenderedAreLines(sections: seq<Section>)
    requires forall i :: 0 <= i < |sections| ==> '\n' !in sections[i].name && AreEntries(sections[i].options)
    ensures forall i :: 0 <= i < |RenderedSections(sections)| ==> '\n' !in RenderedSections(sections)[i]
  {
    if sections != [] {
      OptionLinesAreLines(sections[0].options);
      RenderedAreLines(sections[1..]);
    }
  }

  /** The interface sections, each counted once. */
  function InterfaceCount(sections: seq<Section>): nat {
    if sections == [] then 0
    else
      InterfaceCount(sections[..|sections| - 1])
      + if IsInterface(sections[|sections| - 1].name) && sections[|sections| - 1].name != "" then 1 else 0
  }

  /** The state after reading back some sections: they are there, and the last of them is current. */
  ghost predicate ReadBack(p: Parse, sections: seq<Section>) {
    && p.sections == sections
    && p.current == (if sections == [] then "" else sections[|sections| - 1].name)
    && p.headers == InterfaceCount(sections)
  }

  /** Where lines that parse have led. */
  ghost predicate Reached(r: Result, sections: seq<Section>, current: string, headers: nat) {
    r.Ok? && r.p.sections == sections && r.p.current == current && r.p.headers == headers
  }

  /** One more option of the current section; `name` is new, or the section is the last. */
  lemma OptionReadsBack(p: Parse, before: seq<Section>, name: string, options: seq<Entry>, e: Entry)
    requires IsEntry(e) && p.current == name
    requires p.sections == before + [Section(name, options)] || (p.sections == [] == before && name == "" && options == [])
    ensures Reached(ParseLine(p, e.key + " " + e.value), before + [Section(name, options + [e])], name, p.headers)
  {
    EntryReparses(e);
    SettingIsAppended(p, before, name, options, e);
  }

  lemma SettingIsAppended(p: Parse, before: seq<Section>, name: string, options: seq<Entry>, e: Entry)
    requires e.key != "" && p.current == name
    requires p.sections == before + [Section(name, options)] || (p.sections == [] == before && name == "" && options == [])
    ensures Applied(p, Setting(e.key, e.value)).Ok?
    ensures Applied(p, Setting(e.key, e.value)).p.sections == before + [Section(name, options + [e])]
    ensures Applied(p, Setting(e.key, e.value)).p.current == name
  {
    if p.sections != [] {
      assert FindSection(p.sections, name) == |before|;
    }
  }

  lemma OptionIsRead(p: Parse, before: seq<Section>, name: string, options: seq<Entry>, more: seq<Entry>) returns (q: Parse)
    requires more != [] && IsEntry(more[0]) && p.current == name
    requires p.sections == before + [Section(name, options)] || (p.sections == [] == before && name == "" && options == [])
    ensures q.sections == before + [Section(name, options + [more[0]])] && q.current == name && q.headers == p.headers
    ensures ParseLines(p, RenderedOptions(more)) == ParseLines(q, RenderedOptions(more[1..]))
  {
    var line := more[0].key + " " + more[0].value;
    OptionReadsBack(p, before, name, options, more[0]);
    ParseFirst(p, line, RenderedOptions(more[1..]));
    q := ParseLine(p, line).p;
  }

  lemma {:induction false} OptionsReadBack(p: Parse, before: seq<Section>, name: string, options: seq<Entry>, more: seq<Entry>)
    returns (q: Parse)
    requires AreEntries(more) && p.current == name
    requires p.sections == before + [Section(name, options)] || (p.sections == [] == before && name == "" && options == [] && more != [])
    ensures ParseLines(p, RenderedOptions(more)) == Ok(q)
    ensures q.sections == before + [Section(name, options + more)] && q.current == name && q.headers == p.headers
    decreases |more|
  {
    if more == [] {
      q := p;
      assert options + more == options;
    } else {
      MoveOne(options, more);
      var next := OptionIsRead(p, before, name, options, more);
      q := OptionsReadBack(next, before, name, options + [more[0]], more[1..]);
    }
  }

  /** The line of a section's name, empty for the unnamed section. */
  lemma NameReadsBack(p: Parse, before: seq<Section>, name: string)
    requires ReadBack(p, before)
    requires forall i :: 0 <= i < |before| ==> before[i].name != name
    requires IsHeaderName(name) || (before == [] && name == "")
    ensures ParseLine(p, name).Ok? && ParseLine(p, name).p.current == name
    ensures ParseLine(p, name).p.sections == if name == "" then [] else before + [Section(name, [])]
    ensures ParseLine(p, name).p.headers == p.headers + if IsInterface(name) && name != "" then 1 else 0
  {
    if name == "" {
      BlankIsIgnored();
    } else {
      HeaderReparses(name);
      assert FindSection(p.sections, name) == -1;
    }
  }

  lemma ParseFirst(p: Parse, line: string, rest: seq<string>)
    requires ParseLine(p, line).Ok?
    ensures ParseLines(p, [line] + rest) == ParseLines(ParseLine(p, line).p, rest)
  {
    assert ([line] + rest)[1..] == rest;
  }

  ghost predicate CanFollow(before: seq<Section>, next: Section) {
    && AreEntries(next.options)
    && (forall i :: 0 <= i < |before| ==> before[i].name != next.name)
    && (IsHeaderName(next.name) || (before == [] && next.name == "" && next.options != []))
  }

  lemma SectionReadsBack(p: Parse, before: seq<Section>, next: Section) returns (r: Parse)
    requires ReadBack(p, before) && CanFollow(before, next)
    ensures ParseLines(p, SectionLines(next)) == Ok(r) && ReadBack(r, before + [next])
  {
    NameReadsBack(p, before, next.name);
    var q := ParseLine(p, next.name).p;
    ParseFirst(p, next.name, RenderedOptions(next.options));
    r := OptionsReadBack(q, before, next.name, [], next.options);
    NextIsReadBack(before, next, r, p.headers);
  }

  lemma NextIsReadBack(before: seq<Section>, next: Section, r: Parse, headers: nat)
    requires r.sections == before + [Section(next.name, [] + next.options)] && r.current == next.name
    requires headers == InterfaceCount(before)
    requires r.headers == headers + if IsInterface(next.name) && next.name != "" then 1 else 0
    ensures ReadBack(r, before + [next])
  {
    assert [] + next.options == next.options;
    assert (before + [next])[..|before|] == before;
  }

  lemma SectionIsRead(p: Parse, before: seq<Section>, next: Section, tail: seq<string>) returns (q: Parse)
    requires ReadBack(p, before) && CanFollow(before, next)
    ensures ReadBack(q, before + [next]) && ParseLines(p, SectionLines(next) + tail) == ParseLines(q, tail)
  {
    q := SectionReadsBack(p, before, next);
    ParseAppended(p, SectionLines(next), tail);
  }

  lemma {:induction false} SectionsReadBack(p: Parse, before: seq<Section>, rest: seq<Section>)
    requires Normal(before + rest) && ReadBack(p, before)
    ensures ParseLines(p, RenderedSections(rest)).Ok?
    ensures ParseLines(p, RenderedSections(rest)).p.sections == before + rest
    ensures ParseLines(p, RenderedSections(rest)).p.headers == InterfaceCount(before + rest)
    decreases |rest|
  {
    if rest == [] {
      assert before + rest == before;
    } else {
      NextIsNamed(before, rest);
      var q := SectionIsRead(p, before, rest[0], RenderedSections(rest[1..]));
      MoveOne(before, rest);
      SectionsReadBack(q, before + [rest[0]], rest[1..]);
    }
  }

  lemma NextIsNamed(before: seq<Section>, rest: seq<Section>)
    requires Normal(before + rest) && rest != []
    ensures CanFollow(before, rest[0])
  {
    var all := before + rest;
    assert all[|before|] == rest[0] && IsNamed(all, |before|);
    assert forall i :: 0 <= i < |before| ==> all[i] == before[i];
  }

  predicate AreIgnored(lines: seq<string>) {
    forall i :: 0 <= i < |lines| ==> Classify(lines[i]) == Ignored
  }

  lemma {:induction false} IgnoredChangeNothing(p: Parse, lines: seq<string>)
    requires AreIgnored(lines)
    ensures ParseLines(p, lines) == Ok(p)
    decreases |lines|
  {
    if lines != [] {
      IgnoredChangeNothing(p, lines[1..]);
    }
  }

  lemma AppliedKeepsSome(p: Parse, line: Line)
    requires p.sections != []
    ensures Applied(p, line).p.sections != []
  {}

  lemma {:induction false} SectionsNeverVanish(p: Parse, lines: seq<string>)
    requires p.sections != []
    ensures ParseLines(p, lines).p.sections != []
    decreases |lines|
  {
    if lines != [] {
      AppliedKeepsSome(p, Classify(lines[0]));
      if ParseLine(p, lines[0]).Ok? {
        SectionsNeverVanish(ParseLine(p, lines[0]).p, lines[1..]);
      }
    }
  }

  lemma {:induction false} NoSectionsMeansIgnored(p: Parse, lines: seq<string>)
    requires ParseLines(p, lines).Ok? && ParseLines(p, lines).p.sections == []
    ensures AreIgnored(lines)
    decreases |lines|
  {
    if lines != [] {
      var q := ParseLine(p, lines[0]).p;
      if q.sections != [] {
        SectionsNeverVanish(q, lines[1..]);
      } else {
        NoSectionsMeansIgnored(q, lines[1..]);
        SomethingIsAdded(p, Classify(lines[0]));
      }
    }
  }

  lemma SomethingIsAdded(p: Parse, line: Line)
    requires Applied(p, line).Ok? && Applied(p, line).p.sections == []
    ensures line == Ignored
  {}

  /** The name of a profile is one comment: whatever follows a line break in it is skipped when it is read. */
  predicate IsOneComment(profile: string) {
    AreIgnored(Split(profile, '\n')[1..])
  }

  lemma ProfileLineIsIgnored(first: string)
    ensures Classify(PROFILE_TAG + first) == Ignored
  {
    TrimKeepsFirst(PROFILE_TAG + first);
  }

  function RenderedHead(profile: string): seq<string> {
    ["#profile: " + Split(profile, '\n')[0]] + Split(profile, '\n')[1..] + [""]
  }

  lemma RenderedLines(profile: string, sections: seq<Section>)
    requires Normal(sections)
    ensures Split(Rendered(profile, sections), '\n')
         == RenderedHead(profile) + RenderedSections(sections)
  {
    var head := PROFILE_TAG + profile;
    forall i | 0 <= i < |sections| ensures '\n' !in sections[i].name && AreEntries(sections[i].options) {
      assert IsNamed(sections, i);
    }
    RenderedAreLines(sections);
    LinedSplits(head + "\n", RenderedSections(sections));
    assert head + "\n" == head + "\n" + "";
    SplitJoined(head, "", '\n');
    SplitPrefixed(PROFILE_TAG, profile, '\n');
  }

  ghost predicate ReadsAs(text: string, cliSlave: bool, sections: seq<Section>) {
    ParseText(text, cliSlave).Ok? && ParseText(text, cliSlave).p.sections == sections
  }

  lemma BlankIsIgnored()
    ensures Classify("") == Ignored
  {
    TrimNothing("");
  }

  lemma IgnoredTogether(first: string, rest: seq<string>, last: string)
    requires Classify(first) == Ignored && AreIgnored(rest) && Classify(last) == Ignored
    ensures AreIgnored([first] + rest + [last])
  {
    IgnoredAppended([first], rest);
    IgnoredAppended([first] + rest, [last]);
  }

  lemma IgnoredAppended(a: seq<string>, b: seq<string>)
    requires AreIgnored(a) && AreIgnored(b)
    ensures AreIgnored(a + b)
  {
    var all := a + b;
    forall i | 0 <= i < |all| ensures Classify(all[i]) == Ignored {
      assert all[i] == if i < |a| then a[i] else b[i - |a|];
    }
  }

  lemma HeadIsIgnored(profile: string)
    requires IsOneComment(profile)
    ensures AreIgnored(RenderedHead(profile))
  {
    ProfileLineIsIgnored(Split(profile, '\n')[0]);
    BlankIsIgnored();
    IgnoredTogether(PROFILE_TAG + Split(profile, '\n')[0], Split(profile, '\n')[1..], "");
  }

  lemma ParseAfterIgnored(p: Parse, head: seq<string>, lines: seq<string>)
    requires AreIgnored(head)
    ensures ParseLines(p, head + lines) == ParseLines(p, lines)
  {
    ParseAppended(p, head, lines);
    IgnoredChangeNothing(p, head);
  }

  lemma RenderThenParse(profile: string, sections: seq<Section>, cliSlave: bool)
    requires Normal(sections) && IsOneComment(profile)
    ensures ReadsAs(Rendered(profile, sections), cliSlave, sections)
    ensures ParseText(Rendered(profile, sections), cliSlave).p.headers == InterfaceCount(sections)
  {
    RenderedLines(profile, sections);
    HeadIsIgnored(profile);
    ParseAfterIgnored(Start(cliSlave), RenderedHead(profile), RenderedSections(sections));
    FromTheStart(sections, cliSlave);
  }

  lemma FromTheStart(sections: seq<Section>, cliSlave: bool)
    requires Normal(sections)
    ensures ParseLines(Start(cliSlave), RenderedSections(sections)).Ok?
    ensures ParseLines(Start(cliSlave), RenderedSections(sections)).p.sections == sections
    ensures ParseLines(Start(cliSlave), RenderedSections(sections)).p.headers == InterfaceCount(sections)
  {
    assert [] + sections == sections;
    SectionsReadBack(Start(cliSlave), [], sections);
  }

  /** Reading back what was written gives the same sections, for every text that parses. */
  lemma ParseRenderParse(text: string, profile: string, cliSlave: bool)
    requires ParseText(text, cliSlave).Ok? && IsOneComment(profile)
    ensures ReadsAs(Rendered(profile, ParseText(text, cliSlave).p.sections), cliSlave, ParseText(text, cliSlave).p.sections)
  {
    ParseGivesNormal(text, cliSlave);
    RenderThenParse(profile, ParseText(text, cliSlave).p.sections, cliSlave);
  }

  /** The name of the profile is written unchecked: reading back is exact if and only if it is one comment. */
  lemma RoundTripsExactly(profile: string, cliSlave: bool)
    ensures IsOneComment(profile)
      <==> forall sections :: Normal(sections) ==> ReadsAs(Rendered(profile, sections), cliSlave, sections)
  {
    if IsOneComment(profile) {
      forall sections | Normal(sections) ensures ReadsAs(Rendered(profile, sections), cliSlave, sections) {
        RenderThenParse(profile, sections, cliSlave);
      }
    } else {
      assert Normal([]);
      if ReadsAs(Rendered(profile, []), cliSlave, []) {
        EmptyReadsBack(profile, cliSlave);
      }
    }
  }

  lemma EmptyReadsBack(profile: string, cliSlave: bool)
    requires ReadsAs(Rendered(profile, []), cliSlave, [])
    ensures IsOneComment(profile)
  {
    RenderedLines(profile, []);
    NoSectionsMeansIgnored(Start(cliSlave), Split(Rendered(profile, []), '\n'));
    EmptyReadsAsComment(profile);
  }

  lemma EmptyReadsAsComment(profile: string)
    requires AreIgnored(RenderedHead(profile) + RenderedSections([]))
    ensures IsOneComment(profile)
  {
    var tail := Split(profile, '\n')[1..];
    var all := RenderedHead(profile) + RenderedSections([]);
    forall i | 0 <= i < |tail| ensures Classify(tail[i]) == Ignored {
      assert all[i + 1] == tail[i];
    }
  }

  /** A profile name with a section header after a line break adds a section when it is read back. */
  lemma ProfileNameCanAddSection(first: string, header: string)
    requires '\n' !in first && IsHeaderName(header)
    ensures !IsOneComment(first + "\n" + header)
  {
    SplitJoined(first, header, '\n');
    SplitWhole(first, '\n');
    SplitWhole(header, '\n');
    HeaderReparses(header);
    var parts := Split(first + "\n" + header, '\n');
    assert parts[1..][0] == header;
  }

  // ------------------------------------------------------------------ the inferred clock type

  /** An option of a section marks a receiver of time. */
  ghost predicate HasSlaveMark(sections: seq<Section>) {
    exists i, j :: 0 <= i < |sections| && 0 <= j < |sections[i].options| && MarkedAt(sections, i, j)
  }

  predicate MarkedAt(sections: seq<Section>, i: nat, j: nat)
    requires i < |sections| && j < |sections[i].options|
  {
    MarksSlave(sections[i].name, sections[i].options[j].key, sections[i].options[j].value)
  }

  /** What the parser has gathered besides the sections. */
  ghost predicate Gathered(p: Parse, cliSlave: bool) {
    && (p.slave <==> cliSlave || HasSlaveMark(p.sections))
    && p.headers >= InterfaceCount(p.sections)
    && (p.headers > 0 ==> InterfaceCount(p.sections) > 0)
  }

  lemma {:induction false} CountDependsOnNames(a: seq<Section>, b: seq<Section>)
    requires |a| == |b| && forall i :: 0 <= i < |a| ==> a[i].name == b[i].name
    ensures InterfaceCount(a) == InterfaceCount(b)
  {
    if a != [] {
      CountDependsOnNames(a[..|a| - 1], b[..|b| - 1]);
    }
  }

  lemma {:induction false} CountIsPositive(sections: seq<Section>, i: nat)
    requires i < |sections| && IsInterface(sections[i].name) && sections[i].name != ""
    ensures InterfaceCount(sections) > 0
  {
    if i < |sections| - 1 {
      CountIsPositive(sections[..|sections| - 1], i);
    }
  }

  lemma HeaderGathers(p: Parse, name: string, cliSlave: bool)
    requires Gathered(p, cliSlave) && IsHeaderName(name)
    ensures Gathered(Applied(p, Header(name)).p, cliSlave)
  {
    var at, q := FindSection(p.sections, name), Applied(p, Header(name)).p;
    if at < 0 {
      assert q.sections[..|p.sections|] == p.sections;
      forall i: nat, j: nat | i < |p.sections| && j < |p.sections[i].options|
        ensures MarkedAt(q.sections, i, j) == MarkedAt(p.sections, i, j)
      {
        assert q.sections[i] == p.sections[i];
      }
      assert q.sections[|p.sections|].options == [];
    } else if IsInterface(name) {
      CountIsPositive(p.sections, at);
    }
  }

  lemma MarkAfterEntry(before: seq<Section>, after: seq<Section>, at: nat, e: Entry)
    requires at < |after| && |before| <= |after|
    requires forall i :: 0 <= i < |after| && i != at ==> i < |before| && after[i] == before[i]
    requires after[at].options == (if at < |before| then before[at].options else []) + [e]
    requires at < |before| ==> after[at].name == before[at].name
    ensures HasSlaveMark(after) <==> HasSlaveMark(before) || MarksSlave(after[at].name, e.key, e.value)
  {
    if HasSlaveMark(before) {
      var i: nat, j: nat :| i < |before| && j < |before[i].options| && MarkedAt(before, i, j);
      assert MarkedAt(after, i, j);
    }
    if MarksSlave(after[at].name, e.key, e.value) {
      assert MarkedAt(after, at, |after[at].options| - 1);
    }
    if HasSlaveMark(after) {
      var i: nat, j: nat :| i < |after| && j < |after[i].options| && MarkedAt(after, i, j);
      if i != at || j < |after[at].options| - 1 {
        assert MarkedAt(before, i, j);
      }
    }
  }

  lemma SettingGathers(p: Parse, key: string, value: string, cliSlave: bool)
    requires Gathered(p, cliSlave) && Between(p) && IsEntry(Entry(key, value))
    ensures Gathered(Applied(p, Setting(key, value)).p, cliSlave)
  {
    var at, q := FindSection(p.sections, p.current), Applied(p, Setting(key, value)).p;
    if at < 0 {
      assert p.sections == [] && p.current == "";
      assert p.sections + [Section("", [])] == [Section("", [])];
      assert q.sections[0].options == [] + [Entry(key, value)];
      assert q.sections[..0] == [];
      MarkAfterEntry(p.sections, q.sections, 0, Entry(key, value));
    } else {
      CountDependsOnNames(p.sections, q.sections);
      MarkAfterEntry(p.sections, q.sections, at, Entry(key, value));
    }
  }

  lemma {:induction false} LinesGather(p: Parse, lines: seq<string>, cliSlave: bool)
    requires Between(p) && Gathered(p, cliSlave) && forall i :: 0 <= i < |lines| ==> '\n' !in lines[i]
    ensures ParseLines(p, lines).Ok? ==> Gathered(ParseLines(p, lines).p, cliSlave)
    decreases |lines|
  {
    if lines != [] {
      LineKeepsBetween(p, lines[0]);
      LineGathers(p, lines[0], cliSlave);
      if ParseLine(p, lines[0]).Ok? {
        LinesGather(ParseLine(p, lines[0]).p, lines[1..], cliSlave);
      }
    }
  }

  lemma LineGathers(p: Parse, raw: string, cliSlave: bool)
    requires Between(p) && Gathered(p, cliSlave) && '\n' !in raw
    ensures Gathered(ParseLine(p, raw).p, cliSlave)
  {
    match Classify(raw)
    case Ignored =>
    case Unclosed =>
    case Header(name) =>
      HeadersAreNames(raw);
      HeaderGathers(p, name, cliSlave);
    case Setting(key, value) =>
      SettingsAreEntries(raw);
      SettingGathers(p, key, value, cliSlave);
  }

  lemma ParseGathers(text: string, cliSlave: bool)
    requires ParseText(text, cliSlave).Ok?
    ensures Gathered(ParseText(text, cliSlave).p, cliSlave)
  {
    LinesGather(Start(cliSlave), Split(text, '\n'), cliSlave);
  }

  /** The options that make an interface, or the whole configuration, a receiver of time. */
  predicate MakesReceiver(section: string, e: Entry) {
    || e == Entry("serverOnly", "0") || e == Entry("slaveOnly", "1") || e == Entry("clientOnly", "1")
    || (e == Entry("masterOnly", "0") && section != "[global]")
  }

  ghost predicate HasReceiver(sections: seq<Section>) {
    exists i, j :: 0 <= i < |sections| && 0 <= j < |sections[i].options| && MakesReceiver(sections[i].name, sections[i].options[j])
  }

  lemma MarkExactly(sections: seq<Section>)
    ensures HasSlaveMark(sections) <==> HasReceiver(sections)
  {
    if HasSlaveMark(sections) {
      var i: nat, j: nat :| i < |sections| && j < |sections[i].options| && MarkedAt(sections, i, j);
      assert MakesReceiver(sections[i].name, sections[i].options[j]);
    }
    if HasReceiver(sections) {
      var i: nat, j: nat :| i < |sections| && j < |sections[i].options| && MakesReceiver(sections[i].name, sections[i].options[j]);
      assert MarkedAt(sections, i, j);
    }
  }

  predicate IsInterfaceHeader(line: Line) {
    line.Header? && line.name != "[global]" && line.name != "[nmea]" && line.name != "[unicast_master_table]"
  }

  /** How many lines are the header of an interface. */
  function InterfaceHeaders(lines: seq<string>): nat {
    if lines == [] then 0 else (if IsInterfaceHeader(Classify(lines[0])) then 1 else 0) + InterfaceHeaders(lines[1..])
  }

  lemma {:induction false} HeadersAreCounted(p: Parse, lines: seq<string>)
    requires ParseLines(p, lines).Ok?
    ensures ParseLines(p, lines).p.headers == p.headers + InterfaceHeaders(lines)
    decreases |lines|
  {
    if lines != [] {
      HeadersAreCounted(ParseLine(p, lines[0]).p, lines[1..]);
    }
  }

  /**
    The clock type of a text that parses: a grandmaster unless the command line or an option makes it a receiver of
    time, and then a boundary clock if more than one line is the header of an interface, else an ordinary clock.
   */
  lemma TypeIsInferred(text: string, cliSlave: bool)
    requires ParseText(text, cliSlave).Ok?
    ensures var p := ParseText(text, cliSlave).p;
      TypeOf(p.slave, p.headers)
        == if !cliSlave && !HasReceiver(p.sections) then GM
           else if InterfaceHeaders(Split(text, '\n')) > 1 then BC
           else OC
  {
    ParseGathers(text, cliSlave);
    MarkExactly(ParseText(text, cliSlave).p.sections);
    HeadersAreCounted(Start(cliSlave), Split(text, '\n'));
  }

  /**
    The clock type is inferred from the headers as often as they are written. After one round trip it is
    the same, unless the text repeats the header of its only interface and has a receiver of time.
   */
  lemma ClockTypeSurvivesExactly(text: string, profile: string, cliSlave: bool)
    requires ParseText(text, cliSlave).Ok? && IsOneComment(profile)
    ensures var p := ParseText(text, cliSlave).p;
            var q := ParseText(Rendered(profile, p.sections), cliSlave).p;
            TypeOf(q.slave, q.headers) == TypeOf(p.slave, p.headers)
            <==> !(p.slave && p.headers > 1 && InterfaceCount(p.sections) == 1)
  {
    var p := ParseText(text, cliSlave).p;
    ParseGivesNormal(text, cliSlave);
    RenderThenParse(profile, p.sections, cliSlave);
    ParseGathers(text, cliSlave);
    ParseGathers(Rendered(profile, p.sections), cliSlave);
  }

  const SLAVE_ONLY := Entry("slaveOnly", "1")

  /** The header of one interface, an option that makes it a receiver of time, and the header again. */
  function RepeatedHeader(header: string): string {
    header + "\n" + (SLAVE_ONLY.key + " " + SLAVE_ONLY.value) + "\n" + header
  }

  lemma SplitThree(a: string, b: string, c: string)
    requires '\n' !in a && '\n' !in b && '\n' !in c
    ensures Split(a + "\n" + b + "\n" + c, '\n') == [a, b, c]
  {
    SplitJoined(a + "\n" + b, c, '\n');
    SplitJoined(a, b, '\n');
    SplitWhole(a, '\n');
    SplitWhole(b, '\n');
    SplitWhole(c, '\n');
  }

  lemma RepeatedHeaderParse(header: string)
    requires IsHeaderName(header) && IsInterface(header)
    ensures ParseText(RepeatedHeader(header), false) == Ok(Parse([Section(header, [SLAVE_ONLY])], header, 2, true))
  {
    var line := SLAVE_ONLY.key + " " + SLAVE_ONLY.value;
    var named, full := [Section(header, [])], [Section(header, [SLAVE_ONLY])];
    SplitThree(header, line, header);
    NewHeaderLine(header);
    SlaveLine(header);
    SameHeaderLine(header);
    ThreeLines(Start(false), Parse(named, header, 1, false), Parse(full, header, 1, true), Parse(full, header, 2, true),
               header, line, header);
  }

  lemma NewHeaderLine(header: string)
    requires IsHeaderName(header) && IsInterface(header)
    ensures ParseLine(Start(false), header) == Ok(Parse([Section(header, [])], header, 1, false))
  {
    HeaderReparses(header);
    HeaderApplied(Start(false), header, [Section(header, [])]);
  }

  lemma SlaveOnlyReparses()
    ensures Classify(SLAVE_ONLY.key + " " + SLAVE_ONLY.value) == Setting(SLAVE_ONLY.key, SLAVE_ONLY.value)
  {
    EntryReparses(SLAVE_ONLY);
  }

  lemma SlaveLine(header: string)
    requires IsInterface(header)
    ensures ParseLine(Parse([Section(header, [])], header, 1, false), SLAVE_ONLY.key + " " + SLAVE_ONLY.value)
         == Ok(Parse([Section(header, [SLAVE_ONLY])], header, 1, true))
  {
    var named := [Section(header, [])];
    SlaveOnlyReparses();
    assert named == [] + named && [] + [SLAVE_ONLY] == [SLAVE_ONLY];
    SettingIsAppended(Parse(named, header, 1, false), [], header, [], SLAVE_ONLY);
  }

  lemma SameHeaderLine(header: string)
    requires IsHeaderName(header) && IsInterface(header)
    ensures var full := [Section(header, [SLAVE_ONLY])];
      ParseLine(Parse(full, header, 1, true), header) == Ok(Parse(full, header, 2, true))
  {
    HeaderReparses(header);
    assert FindSection([Section(header, [SLAVE_ONLY])], header) == 0;
  }

  lemma HeaderApplied(p: Parse, header: string, named: seq<Section>)
    requires p.sections == [] && named == [Section(header, [])] && IsInterface(header)
    ensures Applied(p, Header(header)) == Ok(Parse(named, header, p.headers + 1, p.slave))
  {
    assert FindSection([], header) == -1;
  }

  lemma ThreeLines(p: Parse, q: Parse, r: Parse, s: Parse, a: string, b: string, c: string)
    requires ParseLine(p, a) == Ok(q) && ParseLine(q, b) == Ok(r) && ParseLine(r, c) == Ok(s)
    ensures ParseLines(p, [a, b, c]) == Ok(s)
  {
    TwoLines(q, r, s, b, c);
    ParseFirst(p, a, [b, c]);
    assert [a] + [b, c] == [a, b, c];
  }

  lemma TwoLines(q: Parse, r: Parse, s: Parse, b: string, c: string)
    requires ParseLine(q, b) == Ok(r) && ParseLine(r, c) == Ok(s)
    ensures ParseLines(q, [b, c]) == Ok(s)
  {
    OneLine(r, s, c);
    ParseFirst(q, b, [c]);
    assert [b] + [c] == [b, c];
  }

  lemma OneLine(r: Parse, s: Parse, c: string)
    requires ParseLine(r, c) == Ok(s)
    ensures ParseLines(r, [c]) == Ok(s)
  {
    assert [c][1..] == [];
  }

  /** Such a text is read as a boundary clock and, once written, as an ordinary clock. */
  lemma RepeatedHeaderChangesType(header: string, profile: string)
    requires IsHeaderName(header) && IsInterface(header) && IsOneComment(profile)
    ensures ParseText(RepeatedHeader(header), false).Ok?
    ensures var p := ParseText(RepeatedHeader(header), false).p;
            var q := ParseText(Rendered(profile, p.sections), false).p;
            TypeOf(p.slave, p.headers) == BC && TypeOf(q.slave, q.headers) == OC
  {
    RepeatedHeaderParse(header);
    var sections := [Section(header, [SLAVE_ONLY])];
    assert sections[..0] == [];
    ClockTypeSurvivesExactly(RepeatedHeader(header), profile, false);
    ParseGivesNormal(RepeatedHeader(header), false);
    RenderThenParse(profile, sections, false);
    ParseGathers(Rendered(profile, sections), false);
    assert MarkedAt(sections, 0, 0);
  }

  // ------------------------------------------------------------------ the configuration in place

  /** The first option of this key in a section of this name. */
  ghost predicate IsFirst(sections: seq<Section>, name: string, key: string, i: nat, j: nat) {
    && i < |sections| && j < |sections[i].options| && sections[i].name == name && sections[i].options[j].key == key
    && (forall k :: 0 <= k < j ==> sections[i].options[k].key != key)
    && (forall k :: 0 <= k < i && sections[k].name == name ==> !HasKey(sections[k].options, key))
  }

  class Ptp4lConf {
    var sections: seq<Section>
    var profileName: string
    var clockType: ClockType

    constructor ()
      ensures sections == [] && profileName == ""
    {
      sections, profileName, clockType := [], "", GM;
    }

    method GetOption(name: string, key: string) returns (value: string, found: bool)
      ensures found <==> exists i :: 0 <= i < |sections| && sections[i].name == name && HasKey(sections[i].options, key)
      ensures found ==> exists i: nat, j: nat :: IsFirst(sections, name, key, i, j) && sections[i].options[j].value == value
      ensures !found ==> value == ""
    {
      for i := 0 to |sections|
        invariant forall k :: 0 <= k < i && sections[k].name == name ==> !HasKey(sections[k].options, key)
      {
        if sections[i].name == name {
          for j := 0 to |sections[i].options|
            invariant forall k :: 0 <= k < j ==> sections[i].options[k].key != key
          {
            if sections[i].options[j].key == key {
              assert IsFirst(sections, name, key, i, j);
              return sections[i].options[j].value, true;
            }
          }
        }
      }
      return "", false;
    }

    method SetOption(name: string, key: string, value: string, overwrite: bool)
      modifies this`sections
      ensures sections == WithOption(old(sections), name, key, value, overwrite)
    {
      var index := Find(name);
      if index < 0 {
        index := |sections|;
        sections := sections + [Section(name, [])];
      }
      if key == "" {
        return;
      }
      var options := Set(sections[index].options, key, value, overwrite);
      sections := sections[index := Section(name, options)];
    }

    method Find(name: string) returns (index: int)
      ensures index == FindSection(sections, name)
    {
      index := -1;
      for i := 0 to |sections|
        invariant -1 <= index < i
        invariant index >= 0 ==> sections[index].name == name
        invariant forall j :: index < j < i ==> sections[j].name != name
      {
        if sections[i].name == name {
          index := i;
        }
      }
    }

    static method Set(options: seq<Entry>, key: string, value: string, overwrite: bool) returns (r: seq<Entry>)
      ensures r == SetEntry(options, key, value, overwrite)
    {
      r := options;
      var found := false;
      if overwrite {
        for i := 0 to |options|
          invariant |r| == |options|
          invariant found == exists j :: 0 <= j < i && options[j].key == key
          invariant forall j :: 0 <= j < |r| ==> r[j] == if j < i && options[j].key == key then Entry(key, value) else options[j]
        {
          if options[i].key == key {
            r := r[i := Entry(key, value)];
            found := true;
          }
        }
      }
      if !found {
        r := r + [Entry(key, value)];
      }
    }

    /** Whatever was read before an error stays; the clock type is then left alone. */
    method Populate(text: string, cliSlave: bool) returns (ok: bool)
      modifies this`sections, this`clockType
      ensures ok == ParseText(text, cliSlave).Ok?
      ensures sections == ParseText(text, cliSlave).p.sections
      ensures var p := ParseText(text, cliSlave).p; clockType == if ok then TypeOf(p.slave, p.headers) else old(clockType)
    {
      var current, headers, slave := "", 0, cliSlave;
      sections := [];
      var lines := Split(text, '\n');
      for i := 0 to |lines|
        invariant clockType == old(clockType)
        invariant ParseLines(Start(cliSlave), lines) == ParseLines(Parse(sections, current, headers, slave), lines[i..])
      {
        assert lines[i..][1..] == lines[i + 1..];
        var closed;
        closed, current, headers, slave := Take(Classify(lines[i]), current, headers, slave);
        if !closed {
          return false;
        }
      }
      clockType := TypeOf(slave, headers);
      return true;
    }

    method Take(line: Line, current: string, headers: nat, slave: bool)
      returns (closed: bool, newCurrent: string, newHeaders: nat, newSlave: bool)
      modifies this`sections
      ensures var p := Parse(sections, newCurrent, newHeaders, newSlave);
              Applied(Parse(old(sections), current, headers, slave), line) == if closed then Ok(p) else Err(p)
    {
      closed, newCurrent, newHeaders, newSlave := true, current, headers, slave;
      match line {
        case Ignored =>
        case Unclosed => closed := false;
        case Header(name) =>
          newCurrent := name;
          if IsInterface(name) {
            newHeaders := newHeaders + 1;
          }
          SetOption(name, "", "", false);
        case Setting(key, value) =>
          SetOption(current, key, value, false);
          if MarksSlave(current, key, value) {
            newSlave := true;
          }
      }
    }

    method Render() returns (text: string)
      ensures text == Rendered(profileName, sections)
    {
      text := PROFILE_TAG + profileName + "\n";
      for i := 0 to |sections|
        invariant Lined(text, RenderedSections(sections[i..])) == Rendered(profileName, sections)
      {
        assert sections[i..][1..] == sections[i + 1..];
        LinedAppended(text, SectionLines(sections[i]), RenderedSections(sections[i + 1..]));
        text := RenderSection(text, sections[i]);
      }
    }

    static method RenderSection(before: string, section: Section) returns (text: string)
      ensures text == Lined(before, SectionLines(section))
    {
      text := before + "\n" + section.name;
      for j := 0 to |section.options|
        invariant Lined(text, RenderedOptions(section.options[j..])) == Lined(before, SectionLines(section))
      {
        assert section.options[j..][1..] == section.options[j + 1..];
        text := text + "\n" + (section.options[j].key + " " + section.options[j].value);
      }
    }
  }

  lemma {:induction false} LinedAppended(text: string, a: seq<string>, b: seq<string>)
    ensures Lined(text, a + b) == Lined(Lined(text, a), b)
    decreases |a|
  {
    if a == [] {
      assert a + b == b;
    } else {
      assert (a + b)[1..] == a[1..] + b;
      LinedAppended(text + "\n" + a[0], a[1..], b);
    }
  }
}
