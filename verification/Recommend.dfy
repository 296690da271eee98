/**
  Recommend: which profiles of the PtpConfig resources a node gets, and how their names are made unique,
  of controllers/recommend.go.
 */
module Recommend {
  import opened Options
  import opened Texts

  datatype MatchRule = MatchRule(nodeName: Option<string>, nodeLabel: Option<string>)

  datatype Recommendation = Recommendation(profile: Option<string>, priority: Option<int>, rules: seq<MatchRule>)

  type Settings = map<string, string>

  datatype Profile = Profile(name: Option<string>, settings: Option<Settings>, body: string)

  datatype Config = Config(name: string, profiles: seq<Profile>, recommend: seq<Recommendation>)

  datatype Node = Node(name: string, labels: set<string>)

  // ------------------------------------------------------------------ selection

  predicate RuleMatches(node: Node, m: MatchRule) {
    m.nodeName == Some(node.name) || (m.nodeLabel.Some? && m.nodeLabel.value in node.labels)
  }

  /** The node has this name, or a label with this key, whatever its value. */
  predicate IsFor(node: Node, nodeName: Option<string>, nodeLabel: Option<string>) {
    nodeName == Some(node.name) || exists key :: key in node.labels && nodeLabel == Some(key)
  }

  predicate NodeMatches(node: Node, rules: seq<MatchRule>) {
    exists i :: 0 <= i < |rules| && RuleMatches(node, rules[i])
  }

  predicate IsEligible(r: Recommendation, node: Node) {
    r.profile.Some? && r.rules != [] && NodeMatches(node, r.rules)
  }

  /** The outcome of the selection; reading a priority that is not there is a panic. */
  datatype Outcome = Panicked | Names(names: set<string>)

  /** Of all the eligible recommendations this one has the least priority number. */
  ghost predicate IsLeast(r: Recommendation, all: seq<Recommendation>, node: Node) {
    && r in all && IsEligible(r, node) && r.priority.Some?
    && forall q :: q in all && IsEligible(q, node) ==> q.priority.Some? && r.priority.value <= q.priority.value
  }

  ghost predicate LacksPriority(all: seq<Recommendation>, node: Node) {
    exists r :: r in all && IsEligible(r, node) && r.priority.None?
  }

  ghost function Selected(all: seq<Recommendation>, node: Node): Outcome {
    if LacksPriority(all, node) then Panicked
    else Names(set r | r in all && IsLeast(r, all, node) :: r.profile.value)
  }

  predicate Less(a: Recommendation, b: Recommendation) {
    if a.priority.Some? && b.priority.Some? then a.priority.value < b.priority.value else a.priority.Some?
  }

  /** What any sort by priority may give; recommendations of one priority come in any order. */
  ghost predicate IsSortOf(sorted: seq<Recommendation>, all: seq<Recommendation>) {
    && multiset(sorted) == multiset(all)
    && forall i, j :: 0 <= i < j < |sorted| ==> !Less(sorted[j], sorted[i])
  }

  function AllRecommendations(configs: seq<Config>): seq<Recommendation> {
    if configs == [] then [] else configs[0].recommend + AllRecommendations(configs[1..])
  }

  lemma SelectedDependsOnMembers(a: seq<Recommendation>, b: seq<Recommendation>, node: Node)
    requires forall r :: r in a <==> r in b
    ensures Selected(a, node) == Selected(b, node)
  {
    assert forall r :: IsLeast(r, a, node) <==> IsLeast(r, b, node);
    if !LacksPriority(a, node) {
      assert (set r | r in a && IsLeast(r, a, node) :: r.profile.value) == (set r | r in b && IsLeast(r, b, node) :: r.profile.value);
    }
  }

  lemma {:induction false} InAll(configs: seq<Config>, r: Recommendation)
    ensures r in AllRecommendations(configs) <==> exists i :: 0 <= i < |configs| && r in configs[i].recommend
  {
    if configs != [] {
      InAll(configs[1..], r);
      if exists i :: 0 <= i < |configs| && r in configs[i].recommend {
        var i :| 0 <= i < |configs| && r in configs[i].recommend;
        if i > 0 {
          assert configs[1..][i - 1] == configs[i];
        }
      }
    }
  }

  ghost predicate Recommends(configs: seq<Config>, r: Recommendation) {
    exists i :: 0 <= i < |configs| && r in configs[i].recommend
  }

  /** Reordering the resources, and the recommendations within them, does not change what is selected. */
  lemma SelectionIgnoresOrder(a: seq<Config>, b: seq<Config>, node: Node)
    requires forall r :: Recommends(a, r) <==> Recommends(b, r)
    ensures Selected(AllRecommendations(a), node) == Selected(AllRecommendations(b), node)
  {
    forall r ensures r in AllRecommendations(a) <==> r in AllRecommendations(b) {
      InAll(a, r);
      InAll(b, r);
      assert Recommends(a, r) <==> Recommends(b, r);
    }
    SelectedDependsOnMembers(AllRecommendations(a), AllRecommendations(b), node);
  }

  method MatchNode(node: Node, rules: seq<MatchRule>) returns (found: bool)
    ensures found <==> exists i :: 0 <= i < |rules| && IsFor(node, rules[i].nodeName, rules[i].nodeLabel)
    ensures found == NodeMatches(node, rules)
  {
    for i := 0 to |rules|
      invariant forall j :: 0 <= j < i ==> !RuleMatches(node, rules[j])
    {
      if rules[i].nodeName == Some(node.name) {
        return true;
      }
      var left := node.labels;
      while left != {}
        invariant left <= node.labels
        invariant rules[i].nodeLabel.Some? && rules[i].nodeLabel.value in node.labels ==> rules[i].nodeLabel.value in left
        decreases left
      {
        var k :| k in left;
        if rules[i].nodeLabel == Some(k) {
          return true;
        }
        left := left - {k};
      }
    }
    return false;
  }

  ghost function NamesAt(all: seq<Recommendation>, node: Node, priority: Option<int>): set<string> {
    set r | r in all && IsEligible(r, node) && r.priority == priority :: r.profile.value
  }

  /** Where the loop over the sorted recommendations stands: the priority found, and the names of that priority. */
  ghost predicate Scanned(done: seq<Recommendation>, node: Node, names: set<string>, priority: Option<int>) {
    && (priority.None? ==> names == {} && forall r :: r in done ==> !IsEligible(r, node))
    && (priority.Some? ==> names == NamesAt(done, node, priority) && exists r :: r in done && IsEligible(r, node) && r.priority == priority)
    && (forall r :: r in done && IsEligible(r, node) ==> r.priority.Some? && priority.Some? && priority.value <= r.priority.value)
  }

  lemma ScannedAll(sorted: seq<Recommendation>, node: Node, names: set<string>, priority: Option<int>)
    requires Scanned(sorted, node, names, priority)
    ensures Selected(sorted, node) == Names(names)
  {
    if priority.Some? {
      var least :| least in sorted && IsEligible(least, node) && least.priority == priority;
      assert forall r :: IsLeast(r, sorted, node) <==> r in sorted && IsEligible(r, node) && r.priority == priority;
      assert (set r | r in sorted && IsLeast(r, sorted, node) :: r.profile.value) == names;
    }
  }

  lemma ScannedMore(done: seq<Recommendation>, r: Recommendation, node: Node, names: set<string>, priority: Option<int>)
    requires Scanned(done, node, names, priority)
    requires IsEligible(r, node) ==> r.priority.Some? && (priority.Some? ==> priority.value <= r.priority.value)
    ensures !IsEligible(r, node) || (priority.Some? && priority != r.priority) ==> Scanned(done + [r], node, names, priority)
    ensures IsEligible(r, node) && (priority.None? || priority == r.priority) ==>
      Scanned(done + [r], node, names + {r.profile.value}, r.priority)
  {
    if IsEligible(r, node) && (priority.None? || priority == r.priority) {
      AddName(done, r, node);
      assert r in done + [r];
    } else if priority.Some? {
      var least :| least in done && IsEligible(least, node) && least.priority == priority;
      assert least in done + [r];
      SkipName(done, r, node, priority);
    }
  }

  lemma AddName(done: seq<Recommendation>, r: Recommendation, node: Node)
    requires IsEligible(r, node)
    ensures NamesAt(done + [r], node, r.priority) == NamesAt(done, node, r.priority) + {r.profile.value}
  {
    assert r in done + [r];
    assert forall q :: q in done ==> q in done + [r];
  }

  lemma SkipName(done: seq<Recommendation>, r: Recommendation, node: Node, priority: Option<int>)
    requires !IsEligible(r, node) || r.priority != priority
    ensures NamesAt(done + [r], node, priority) == NamesAt(done, node, priority)
  {
    assert forall q :: q in done ==> q in done + [r];
  }

  /**
    The selection, over any sorting of the recommendations: the profiles of the eligible recommendations of
    the least priority number, however the sort orders equal priorities. It panics exactly if an eligible
    recommendation has no priority.
   */
  method GetRecommendProfilesNames(all: seq<Recommendation>, sorted: seq<Recommendation>, node: Node) returns (o: Outcome)
    requires IsSortOf(sorted, all)
    ensures o == Selected(all, node)
  {
    SameMembers(sorted, all);
    SelectedDependsOnMembers(sorted, all, node);
    var names, priority: Option<int> := {}, None;
    for i := 0 to |sorted|
      invariant Scanned(sorted[..i], node, names, priority)
    {
      var r := sorted[i];
      assert r in sorted && sorted[..i + 1] == sorted[..i] + [r];
      if r.profile.None? || |r.rules| == 0 {
        ScannedMore(sorted[..i], r, node, names, priority);
        continue;
      }
      var matched := MatchNode(node, r.rules);
      if !matched {
        ScannedMore(sorted[..i], r, node, names, priority);
        continue;
      }
      if r.priority.None? {
        return Panicked;
      }
      SortedPriorities(sorted, i, node, priority, names);
      ScannedMore(sorted[..i], r, node, names, priority);
      if priority.None? || r.priority == priority {
        names, priority := names + {r.profile.value}, r.priority;
      }
    }
    assert sorted[..|sorted|] == sorted;
    ScannedAll(sorted, node, names, priority);
    return Names(names);
  }

  lemma SameMembers(a: seq<Recommendation>, b: seq<Recommendation>)
    requires multiset(a) == multiset(b)
    ensures forall r :: r in a <==> r in b
  {
    forall r ensures r in a <==> r in b {
      assert r in multiset(a) <==> r in multiset(b);
    }
  }

  lemma SortedPriorities(sorted: seq<Recommendation>, i: nat, node: Node, priority: Option<int>, names: set<string>)
    requires i < |sorted| && forall j, k :: 0 <= j < k < |sorted| ==> !Less(sorted[k], sorted[j])
    requires Scanned(sorted[..i], node, names, priority) && sorted[i].priority.Some?
    ensures priority.Some? ==> priority.value <= sorted[i].priority.value
  {
    if priority.Some? {
      var least :| least in sorted[..i] && IsEligible(least, node) && least.priority == priority;
      var k :| 0 <= k < i && sorted[..i][k] == least;
      assert !Less(sorted[i], sorted[k]);
    }
  }

  // ------------------------------------------------------------------ names

  const SEPARATOR := '_'

  function QualifyProfileName(config: string, profile: string): string {
    config + [SEPARATOR] + profile
  }

  /** The daemon's way back from a qualified name; `found` if there is a separator. */
  function FindPtpConfigByProfileName(name: string): (string, string, bool) {
    var i := IndexOf(name, SEPARATOR);
    if i == |name| then ("", name, false) else (name[..i], name[i + 1..], true)
  }

  /** Names of resources are DNS names: lower-case letters, digits, '-' and '.', and not empty. */
  predicate IsResourceName(name: string) {
    name != "" && forall i :: 0 <= i < |name| ==> 'a' <= name[i] <= 'z' || '0' <= name[i] <= '9' || name[i] == '-' || name[i] == '.'
  }

  lemma QualifiedIsUndone(config: string, profile: string)
    requires SEPARATOR !in config
    ensures FindPtpConfigByProfileName(QualifyProfileName(config, profile)) == (config, profile, true)
  {
    IndexOfFirst(config, profile, SEPARATOR);
    var q := QualifyProfileName(config, profile);
    assert q[..|config|] == config && q[|config| + 1..] == profile;
  }

  lemma QualifyIsInjective(a: string, p: string, b: string, q: string)
    requires SEPARATOR !in a && SEPARATOR !in b && QualifyProfileName(a, p) == QualifyProfileName(b, q)
    ensures a == b && p == q
  {
    QualifiedIsUndone(a, p);
    QualifiedIsUndone(b, q);
  }

  /** With the separator in the name of a resource the same name can be qualified in two ways. */
  lemma SeparatorInConfigNameIsAmbiguous()
    ensures QualifyProfileName("a_b", "c") == QualifyProfileName("a", "b_c")
  {
    assert QualifyProfileName("a_b", "c") == "a_b_c";
  }

  predicate HasProfile(c: Config, profile: string) {
    exists i :: 0 <= i < |c.profiles| && c.profiles[i].name == Some(profile)
  }

  predicate ProfileExistsInCR(configs: seq<Config>, config: string, profile: string) {
    exists i :: 0 <= i < |configs| && configs[i].name == config && HasProfile(configs[i], profile)
  }

  /** The first resource with a profile of this name, or "". */
  function OwningConfigName(configs: seq<Config>, profile: string): string {
    if configs == [] then ""
    else if HasProfile(configs[0], profile) then configs[0].name
    else OwningConfigName(configs[1..], profile)
  }

  lemma {:induction false} OwnerHasProfile(configs: seq<Config>, profile: string)
    ensures var owner := OwningConfigName(configs, profile); owner != "" ==> ProfileExistsInCR(configs, owner, profile)
  {
    if configs != [] && !HasProfile(configs[0], profile) {
      var owner := OwningConfigName(configs[1..], profile);
      OwnerHasProfile(configs[1..], profile);
      if owner != "" {
        var i :| 0 <= i < |configs[1..]| && configs[1..][i].name == owner && HasProfile(configs[1..][i], profile);
        assert configs[i + 1].name == owner && HasProfile(configs[i + 1], profile);
      }
    }
  }

  function ResolveProfileReference(configs: seq<Config>, value: string): string {
    var parts := FindPtpConfigByProfileName(value);
    if parts.2 && ProfileExistsInCR(configs, parts.0, parts.1) then value
    else
      var owner := OwningConfigName(configs, value);
      if owner != "" then QualifyProfileName(owner, value) else value
  }

  predicate ProfileReferenceExists(configs: seq<Config>, value: string) {
    var parts := FindPtpConfigByProfileName(value);
    value != "" && ((parts.2 && ProfileExistsInCR(configs, parts.0, parts.1)) || OwningConfigName(configs, value) != "")
  }

  ghost predicate AreNamed(configs: seq<Config>) {
    forall i :: 0 <= i < |configs| ==> IsResourceName(configs[i].name)
  }

  ghost predicate NamesExistingProfile(configs: seq<Config>, name: string) {
    exists c: string, p: string :: ProfileExistsInCR(configs, c, p) && name == QualifyProfileName(c, p)
  }

  lemma SplitIsQualified(value: string)
    requires FindPtpConfigByProfileName(value).2
    ensures QualifyProfileName(FindPtpConfigByProfileName(value).0, FindPtpConfigByProfileName(value).1) == value
  {}

  /** A reference resolves to the qualified name of a profile that exists exactly if it refers to one. */
  lemma ResolvesExactly(configs: seq<Config>, value: string)
    requires AreNamed(configs) && value != ""
    ensures NamesExistingProfile(configs, ResolveProfileReference(configs, value)) <==> ProfileReferenceExists(configs, value)
  {
    var parts := FindPtpConfigByProfileName(value);
    if ProfileReferenceExists(configs, value) {
      if parts.2 && ProfileExistsInCR(configs, parts.0, parts.1) {
        SplitIsQualified(value);
      } else {
        OwnerHasProfile(configs, value);
      }
    } else if NamesExistingProfile(configs, value) {
      var c: string, p: string :| ProfileExistsInCR(configs, c, p) && value == QualifyProfileName(c, p);
      assert SEPARATOR !in c by {
        var i :| 0 <= i < |configs| && configs[i].name == c && HasProfile(configs[i], p);
      }
      QualifiedIsUndone(c, p);
    }
  }

  ghost predicate IsFirstWith(configs: seq<Config>, profile: string, i: nat) {
    i < |configs| && HasProfile(configs[i], profile) && forall j :: 0 <= j < i ==> !HasProfile(configs[j], profile)
  }

  lemma {:induction false} OwnerIsFirst(configs: seq<Config>, profile: string)
    ensures forall i: nat :: IsFirstWith(configs, profile, i) ==> OwningConfigName(configs, profile) == configs[i].name
    ensures (forall i :: 0 <= i < |configs| ==> !HasProfile(configs[i], profile)) ==> OwningConfigName(configs, profile) == ""
  {
    if configs != [] {
      OwnerIsFirst(configs[1..], profile);
      forall i: nat | IsFirstWith(configs, profile, i) ensures OwningConfigName(configs, profile) == configs[i].name {
        if i > 0 {
          assert !HasProfile(configs[0], profile);
          assert IsFirstWith(configs[1..], profile, i - 1);
        }
      }
    }
  }

  /**
    What a reference resolves to: the name of a resource, the separator and the name of one of its profiles to itself;
    the name of a profile to that of the first resource that has it; anything else to itself.
   */
  lemma ResolvesTo(configs: seq<Config>, value: string)
    requires AreNamed(configs)
    ensures NamesExistingProfile(configs, value) ==> ResolveProfileReference(configs, value) == value
    ensures !NamesExistingProfile(configs, value) ==>
      && (forall i: nat :: IsFirstWith(configs, value, i) ==>
            ResolveProfileReference(configs, value) == configs[i].name + "_" + value)
      && ((forall i :: 0 <= i < |configs| ==> !HasProfile(configs[i], value)) ==> ResolveProfileReference(configs, value) == value)
  {
    OwnerIsFirst(configs, value);
    if NamesExistingProfile(configs, value) {
      var c: string, p: string :| ProfileExistsInCR(configs, c, p) && value == QualifyProfileName(c, p);
      assert SEPARATOR !in c by {
        var i :| 0 <= i < |configs| && configs[i].name == c && HasProfile(configs[i], p);
      }
      QualifiedIsUndone(c, p);
    } else {
      NotQualified(configs, value);
    }
  }

  lemma NotQualified(configs: seq<Config>, value: string)
    requires !NamesExistingProfile(configs, value)
    ensures var parts := FindPtpConfigByProfileName(value); !(parts.2 && ProfileExistsInCR(configs, parts.0, parts.1))
  {
    if FindPtpConfigByProfileName(value).2 {
      SplitIsQualified(value);
    }
  }

  lemma ResolveTwice(configs: seq<Config>, value: string)
    requires AreNamed(configs)
    ensures var once := ResolveProfileReference(configs, value); ResolveProfileReference(configs, once) == once
  {
    var parts, owner := FindPtpConfigByProfileName(value), OwningConfigName(configs, value);
    OwnerHasProfile(configs, value);
    if !(parts.2 && ProfileExistsInCR(configs, parts.0, parts.1)) && owner != "" {
      assert SEPARATOR !in owner by {
        var i :| 0 <= i < |configs| && configs[i].name == owner && HasProfile(configs[i], value);
      }
      QualifiedIsUndone(owner, value);
    }
  }

  // ------------------------------------------------------------------ references in settings

  const CONTROLLING_PROFILE := "controllingProfile"
  const HA_PROFILES := "haProfiles"

  function ResolvedParts(configs: seq<Config>, parts: seq<string>): (r: seq<string>)
    ensures |r| == |parts| && forall i :: 0 <= i < |r| ==> r[i] == ResolveProfileReference(configs, Trim(parts[i]))
  {
    seq(|parts|, i requires 0 <= i < |parts| => ResolveProfileReference(configs, Trim(parts[i])))
  }

  function ResolvedList(configs: seq<Config>, list: string): string {
    Join(ResolvedParts(configs, Split(list, ',')), ',')
  }

  function QualifiedValue(configs: seq<Config>, key: string, value: string): string {
    if value == "" then value
    else if key == CONTROLLING_PROFILE then ResolveProfileReference(configs, value)
    else if key == HA_PROFILES then ResolvedList(configs, value)
    else value
  }

  function Qualified(configs: seq<Config>, settings: Settings): Settings {
    map k | k in settings :: QualifiedValue(configs, k, settings[k])
  }

  lemma ResolvedIsPlain(configs: seq<Config>, value: string)
    requires AreNamed(configs) && ',' !in value && IsTrimmed(value)
    ensures var r := ResolveProfileReference(configs, value); ',' !in r && IsTrimmed(r)
  {
    var owner, r := OwningConfigName(configs, value), ResolveProfileReference(configs, value);
    OwnerHasProfile(configs, value);
    if r != value {
      var i :| 0 <= i < |configs| && configs[i].name == owner && HasProfile(configs[i], value);
      assert IsResourceName(owner);
      QualifiedIsPlain(owner, value);
    }
  }

  predicate IsNameChar(c: char) {
    'a' <= c <= 'z' || '0' <= c <= '9' || c == '-' || c == '.' || c == SEPARATOR
  }

  lemma NameCharsArePlain(c: char)
    requires IsNameChar(c)
    ensures !IsSpace(c) && c != ','
  {}

  lemma NoCommaInName(name: string)
    requires IsResourceName(name)
    ensures ',' !in name && IsNameChar(name[0])
  {}

  lemma QualifiedIsPlain(owner: string, value: string)
    requires IsResourceName(owner) && ',' !in value && IsTrimmed(value)
    ensures var r := QualifyProfileName(owner, value); ',' !in r && IsTrimmed(r)
  {
    NoCommaInName(owner);
    NameCharsArePlain(owner[0]);
    NameCharsArePlain(SEPARATOR);
    var r := QualifyProfileName(owner, value);
    assert r[0] == owner[0] && r[|r| - 1] == if value == "" then SEPARATOR else value[|value| - 1];
  }

  lemma ResolveListTwice(configs: seq<Config>, list: string)
    requires AreNamed(configs)
    ensures ResolvedList(configs, ResolvedList(configs, list)) == ResolvedList(configs, list)
  {
    var parts := Split(list, ',');
    var once := ResolvedParts(configs, parts);
    forall i | 0 <= i < |once|
      ensures ',' !in once[i] && Trim(once[i]) == once[i] && ResolveProfileReference(configs, once[i]) == once[i]
    {
      var value := Trim(parts[i]);
      assert IsTrimmed(value);
      ResolvedIsPlain(configs, value);
      TrimNothing(once[i]);
      ResolveTwice(configs, value);
    }
    SplitOfJoin(once, ',');
    assert ResolvedParts(configs, once) == once;
  }

  /** In a list every part is resolved on its own, without the white space around it, and stays in its place. */
  lemma ListIsResolved(configs: seq<Config>, list: string)
    requires AreNamed(configs)
    ensures var parts, resolved := Split(list, ','), Split(ResolvedList(configs, list), ',');
      |resolved| == |parts| && forall i :: 0 <= i < |parts| ==> resolved[i] == ResolveProfileReference(configs, Trim(parts[i]))
  {
    var parts := Split(list, ',');
    var once := ResolvedParts(configs, parts);
    forall i | 0 <= i < |once| ensures ',' !in once[i] {
      TrimAddsNothing(parts[i], ',');
      ResolvedIsPlain(configs, Trim(parts[i]));
    }
    SplitOfJoin(once, ',');
  }

  /** Two settings refer to profiles, if they are not empty; all others, and which there are, stay. */
  lemma OnlyReferencesChange(configs: seq<Config>, settings: Settings)
    ensures var q := Qualified(configs, settings);
      && q.Keys == settings.Keys
      && ("controllingProfile" in settings && settings["controllingProfile"] != "" ==>
            q["controllingProfile"] == ResolveProfileReference(configs, settings["controllingProfile"]))
      && ("haProfiles" in settings && settings["haProfiles"] != "" ==> q["haProfiles"] == ResolvedList(configs, settings["haProfiles"]))
      && forall key :: key in settings && (settings[key] == "" || (key != "controllingProfile" && key != "haProfiles")) ==>
           q[key] == settings[key]
  {
    assert |HA_PROFILES| != |CONTROLLING_PROFILE|;
  }

  /** Qualifying the references of a profile twice is qualifying them once. */
  lemma QualifyTwice(configs: seq<Config>, settings: Settings)
    requires AreNamed(configs)
    ensures Qualified(configs, Qualified(configs, settings)) == Qualified(configs, settings)
  {
    var once := Qualified(configs, settings);
    forall k | k in settings ensures Qualified(configs, once)[k] == once[k] {
      if k == CONTROLLING_PROFILE && settings[k] != "" {
        ResolveTwice(configs, settings[k]);
      } else if k == HA_PROFILES && settings[k] != "" {
        ResolveListTwice(configs, settings[k]);
      }
    }
  }

  /** One setting qualified. */
  function QualifiedAt(configs: seq<Config>, settings: Settings, key: string): Settings {
    if key in settings then settings[key := QualifiedValue(configs, key, settings[key])] else settings
  }

  lemma QualifiedInTwo(configs: seq<Config>, settings: Settings)
    ensures QualifiedAt(configs, QualifiedAt(configs, settings, CONTROLLING_PROFILE), HA_PROFILES) == Qualified(configs, settings)
  {
    assert |HA_PROFILES| != |CONTROLLING_PROFILE|;
  }

  method QualifyCrossProfileReferences(configs: seq<Config>, settings: Settings) returns (r: Settings)
    ensures r == Qualified(configs, settings)
  {
    QualifiedInTwo(configs, settings);
    r := QualifyControlling(configs, settings);
    r := QualifyHa(configs, r);
  }

  method QualifyControlling(configs: seq<Config>, settings: Settings) returns (r: Settings)
    ensures r == QualifiedAt(configs, settings, CONTROLLING_PROFILE)
  {
    r := settings;
    if CONTROLLING_PROFILE in r && r[CONTROLLING_PROFILE] != "" {
      r := r[CONTROLLING_PROFILE := ResolveProfileReference(configs, r[CONTROLLING_PROFILE])];
    }
  }

  method QualifyHa(configs: seq<Config>, settings: Settings) returns (r: Settings)
    ensures r == QualifiedAt(configs, settings, HA_PROFILES)
  {
    r := settings;
    assert |HA_PROFILES| != |CONTROLLING_PROFILE|;
    if HA_PROFILES in r && r[HA_PROFILES] != "" {
      var list := ResolveList(configs, r[HA_PROFILES]);
      r := r[HA_PROFILES := list];
    }
  }

  method ResolveList(configs: seq<Config>, list: string) returns (r: string)
    ensures r == ResolvedList(configs, list)
  {
    var parts := ResolveParts(configs, Split(list, ','));
    return Join(parts, ',');
  }

  method ResolveParts(configs: seq<Config>, all: seq<string>) returns (parts: seq<string>)
    ensures parts == ResolvedParts(configs, all)
  {
    parts := all;
    for i := 0 to |parts|
      invariant |parts| == |all|
      invariant forall j :: 0 <= j < |parts| ==> parts[j] == if j < i then ResolvedParts(configs, all)[j] else all[j]
    {
      parts := parts[i := ResolveProfileReference(configs, Trim(parts[i]))];
    }
  }

  // ------------------------------------------------------------------ the profiles of a node

  function Renamed(configs: seq<Config>, c: Config, p: Profile): Profile
    requires p.name.Some?
  {
    p.(name := Some(QualifyProfileName(c.name, p.name.value)),
       settings := if p.settings.Some? then Some(Qualified(configs, p.settings.value)) else None)
  }

  predicate IsChosen(p: Profile, names: set<string>) {
    p.name.Some? && p.name.value in names
  }

  /** The profiles of one resource that are among the names. */
  function ChosenOf(configs: seq<Config>, c: Config, profiles: seq<Profile>, names: set<string>): seq<Profile> {
    if profiles == [] then []
    else (if IsChosen(profiles[0], names) then [Renamed(configs, c, profiles[0])] else []) + ChosenOf(configs, c, profiles[1..], names)
  }

  /** The profiles of all resources that are among the names, before they are sorted by name. */
  function Chosen(configs: seq<Config>, from: seq<Config>, names: set<string>): seq<Profile> {
    if from == [] then [] else ChosenOf(configs, from[0], from[0].profiles, names) + Chosen(configs, from[1..], names)
  }

  /** A profile of a resource as the node gets it: under its qualified name, with its references qualified. */
  ghost predicate IsCopy(configs: seq<Config>, q: Profile, c: Config, p: Profile) {
    && p.name.Some? && q.name == Some(c.name + "_" + p.name.value) && q.body == p.body
    && q.settings.Some? == p.settings.Some?
    && (p.settings.Some? ==> q.settings.value == Qualified(configs, p.settings.value))
  }

  ghost predicate IsCopyFrom(configs: seq<Config>, q: Profile, c: Config, profiles: seq<Profile>, names: set<string>) {
    exists k :: 0 <= k < |profiles| && profiles[k].name.Some? && profiles[k].name.value in names && IsCopy(configs, q, c, profiles[k])
  }

  lemma {:induction false} ChosenOfExactly(configs: seq<Config>, c: Config, profiles: seq<Profile>, names: set<string>, q: Profile)
    ensures q in ChosenOf(configs, c, profiles, names) <==> IsCopyFrom(configs, q, c, profiles, names)
  {
    if profiles != [] {
      ChosenOfExactly(configs, c, profiles[1..], names, q);
      CopyFromFirst(configs, q, c, profiles, names);
    }
  }

  lemma CopyFromFirst(configs: seq<Config>, q: Profile, c: Config, profiles: seq<Profile>, names: set<string>)
    requires profiles != []
    ensures IsCopyFrom(configs, q, c, profiles, names)
      <==> IsCopyFrom(configs, q, c, profiles[1..], names) || (IsChosen(profiles[0], names) && q == Renamed(configs, c, profiles[0]))
  {
    var p := profiles[0];
    assert IsChosen(p, names) ==> (IsCopy(configs, q, c, p) <==> q == Renamed(configs, c, p));
    if IsCopyFrom(configs, q, c, profiles[1..], names) {
      var k :| 0 <= k < |profiles| - 1 && profiles[1..][k].name.Some? && profiles[1..][k].name.value in names && IsCopy(configs, q, c, profiles[1..][k]);
      assert profiles[k + 1] == profiles[1..][k];
    }
    if IsCopyFrom(configs, q, c, profiles, names) {
      var k :| 0 <= k < |profiles| && profiles[k].name.Some? && profiles[k].name.value in names && IsCopy(configs, q, c, profiles[k]);
      assert k > 0 ==> profiles[1..][k - 1] == profiles[k];
    }
  }

  /** A node gets exactly the copies of the profiles, of any resource, whose names are among those recommended. */
  lemma {:induction false} ChosenExactly(configs: seq<Config>, from: seq<Config>, names: set<string>, q: Profile)
    ensures q in Chosen(configs, from, names)
      <==> exists i :: 0 <= i < |from| && IsCopyFrom(configs, q, from[i], from[i].profiles, names)
  {
    if from != [] {
      ChosenExactly(configs, from[1..], names, q);
      ChosenOfExactly(configs, from[0], from[0].profiles, names, q);
      if exists i :: 0 <= i < |from| && IsCopyFrom(configs, q, from[i], from[i].profiles, names) {
        var i :| 0 <= i < |from| && IsCopyFrom(configs, q, from[i], from[i].profiles, names);
        assert i > 0 ==> from[1..][i - 1] == from[i];
      }
    }
  }

  ghost predicate UniqueProfiles(profiles: seq<Profile>) {
    forall i, j :: 0 <= i < j < |profiles| && profiles[i].name.Some? ==> profiles[i].name != profiles[j].name
  }

  ghost predicate UniqueConfigs(configs: seq<Config>) {
    forall i, j :: 0 <= i < j < |configs| ==> configs[i].name != configs[j].name
  }

  ghost predicate IsNameOf(name: Option<string>, c: Config, profiles: seq<Profile>, k: nat) {
    k < |profiles| && profiles[k].name.Some? && name == Some(QualifyProfileName(c.name, profiles[k].name.value))
  }

  ghost predicate IsNameFrom(name: Option<string>, c: Config, profiles: seq<Profile>) {
    exists k: nat :: IsNameOf(name, c, profiles, k)
  }

  lemma NameFromRest(name: Option<string>, c: Config, profiles: seq<Profile>)
    requires profiles != [] && IsNameFrom(name, c, profiles[1..])
    ensures IsNameFrom(name, c, profiles)
  {
    var k: nat :| IsNameOf(name, c, profiles[1..], k);
    assert IsNameOf(name, c, profiles, k + 1);
  }

  lemma {:induction false} ChosenOfNames(configs: seq<Config>, c: Config, profiles: seq<Profile>, names: set<string>)
    ensures forall i :: 0 <= i < |ChosenOf(configs, c, profiles, names)| ==> IsNameFrom(ChosenOf(configs, c, profiles, names)[i].name, c, profiles)
  {
    if profiles != [] {
      ChosenOfNames(configs, c, profiles[1..], names);
      var rest, all := ChosenOf(configs, c, profiles[1..], names), ChosenOf(configs, c, profiles, names);
      forall i | 0 <= i < |all| ensures IsNameFrom(all[i].name, c, profiles) {
        if |all| == |rest| || i > 0 {
          assert all[i] == rest[if |all| == |rest| then i else i - 1];
          NameFromRest(all[i].name, c, profiles);
        } else {
          assert IsNameOf(all[0].name, c, profiles, 0);
        }
      }
    }
  }

  lemma FirstNameIsNew(name: Option<string>, c: Config, profiles: seq<Profile>)
    requires SEPARATOR !in c.name && UniqueProfiles(profiles) && profiles != [] && profiles[0].name.Some?
    requires IsNameFrom(name, c, profiles[1..])
    ensures name != Some(QualifyProfileName(c.name, profiles[0].name.value))
  {
    var k: nat :| IsNameOf(name, c, profiles[1..], k);
    assert profiles[1..][k] == profiles[k + 1];
    if name == Some(QualifyProfileName(c.name, profiles[0].name.value)) {
      QualifyIsInjective(c.name, profiles[0].name.value, c.name, profiles[k + 1].name.value);
    }
  }

  lemma NameLeadsBack(name: Option<string>, c: Config, profiles: seq<Profile>)
    requires SEPARATOR !in c.name && IsNameFrom(name, c, profiles)
    ensures name.Some? && FindPtpConfigByProfileName(name.value).0 == c.name
  {
    var k: nat :| IsNameOf(name, c, profiles, k);
    QualifiedIsUndone(c.name, profiles[k].name.value);
  }

  lemma {:induction false} ChosenOfIsUnique(configs: seq<Config>, c: Config, profiles: seq<Profile>, names: set<string>)
    requires SEPARATOR !in c.name && UniqueProfiles(profiles)
    ensures UniqueProfiles(ChosenOf(configs, c, profiles, names))
  {
    if profiles != [] {
      assert forall i :: 0 <= i < |profiles| - 1 ==> profiles[1..][i] == profiles[i + 1];
      ChosenOfIsUnique(configs, c, profiles[1..], names);
      if IsChosen(profiles[0], names) {
        var rest := ChosenOf(configs, c, profiles[1..], names);
        ChosenOfNames(configs, c, profiles[1..], names);
        forall i | 0 <= i < |rest| ensures rest[i].name != Renamed(configs, c, profiles[0]).name {
          FirstNameIsNew(rest[i].name, c, profiles);
        }
      }
    }
  }

  /** A qualified name leads back to one of these resources. */
  ghost predicate ComesFrom(name: Option<string>, from: seq<Config>) {
    name.Some? && exists i :: 0 <= i < |from| && FindPtpConfigByProfileName(name.value).0 == from[i].name
  }

  ghost predicate AllComeFrom(profiles: seq<Profile>, from: seq<Config>) {
    forall i :: 0 <= i < |profiles| ==> ComesFrom(profiles[i].name, from)
  }

  lemma JoinUnique(a: seq<Profile>, b: seq<Profile>, c: Config, from: seq<Config>)
    requires UniqueProfiles(a) && UniqueProfiles(b) && AllComeFrom(a, [c]) && AllComeFrom(b, from)
    requires forall i :: 0 <= i < |from| ==> from[i].name != c.name
    ensures UniqueProfiles(a + b) && AllComeFrom(a + b, [c] + from)
  {
    forall i | 0 <= i < |a + b| ensures ComesFrom((a + b)[i].name, [c] + from) {
      if i < |a| {
        assert ComesFrom(a[i].name, [c]);
        assert ([c] + from)[0] == c;
      } else {
        assert ComesFrom(b[i - |a|].name, from);
        var k :| 0 <= k < |from| && FindPtpConfigByProfileName(b[i - |a|].name.value).0 == from[k].name;
        assert ([c] + from)[k + 1] == from[k];
      }
    }
    forall i, j | 0 <= i < j < |a + b| ensures (a + b)[i].name != (a + b)[j].name {
      if i < |a| <= j {
        assert ComesFrom(a[i].name, [c]) && ComesFrom(b[j - |a|].name, from);
      }
    }
  }

  /** The names a node gets are unique across resources, though profile names are unique only within one. */
  lemma {:induction false} ChosenAreUnique(configs: seq<Config>, from: seq<Config>, names: set<string>)
    requires AreNamed(from) && UniqueConfigs(from) && forall i :: 0 <= i < |from| ==> UniqueProfiles(from[i].profiles)
    ensures UniqueProfiles(Chosen(configs, from, names)) && AllComeFrom(Chosen(configs, from, names), from)
  {
    if from != [] {
      var c, rest := from[0], from[1..];
      assert forall i :: 0 <= i < |rest| ==> rest[i] == from[i + 1];
      ChosenAreUnique(configs, rest, names);
      var first := ChosenOf(configs, c, c.profiles, names);
      ChosenOfIsUnique(configs, c, c.profiles, names);
      ChosenOfNames(configs, c, c.profiles, names);
      forall i | 0 <= i < |first| ensures ComesFrom(first[i].name, [c]) {
        NameLeadsBack(first[i].name, c, c.profiles);
        assert [c][0] == c;
      }
      JoinUnique(first, Chosen(configs, rest, names), c, rest);
      assert [c] + rest == from;
    }
  }

  // ------------------------------------------------------------------ the final sort by name

  /** The order of texts in Go. */
  predicate TextLess(a: string, b: string) {
    b != "" && (a == "" || a[0] < b[0] || (a[0] == b[0] && TextLess(a[1..], b[1..])))
  }

  lemma {:induction false} TextLessIsTotal(a: string, b: string)
    ensures a == b <==> !TextLess(a, b) && !TextLess(b, a)
    ensures !(TextLess(a, b) && TextLess(b, a))
  {
    if a != "" && b != "" && a[0] == b[0] {
      TextLessIsTotal(a[1..], b[1..]);
      assert a == [a[0]] + a[1..] && b == [b[0]] + b[1..];
    }
  }

  lemma {:induction false} TextLessIsTransitive(a: string, b: string, c: string)
    requires TextLess(a, b) && TextLess(b, c)
    ensures TextLess(a, c)
  {
    if a != "" && a[0] == b[0] == c[0] {
      TextLessIsTransitive(a[1..], b[1..], c[1..]);
    }
  }

  function Key(p: Profile): string {
    if p.name.Some? then p.name.value else ""
  }

  function Inserted(p: Profile, sorted: seq<Profile>): seq<Profile> {
    if sorted == [] || !TextLess(Key(sorted[0]), Key(p)) then [p] + sorted
    else [sorted[0]] + Inserted(p, sorted[1..])
  }

  function SortedByName(profiles: seq<Profile>): seq<Profile> {
    if profiles == [] then [] else Inserted(profiles[0], SortedByName(profiles[1..]))
  }

  ghost predicate Ascends(profiles: seq<Profile>) {
    forall i, j :: 0 <= i < j < |profiles| ==> !TextLess(Key(profiles[j]), Key(profiles[i]))
  }

  /** The profiles of one name, in their order. */
  function WithKey(profiles: seq<Profile>, name: string): seq<Profile> {
    if profiles == [] then []
    else (if Key(profiles[0]) == name then [profiles[0]] else []) + WithKey(profiles[1..], name)
  }

  /** What sort.SliceStable promises: ascending, and profiles of one name are the same ones in the same order. */
  ghost predicate IsStableSort(sorted: seq<Profile>, profiles: seq<Profile>) {
    Ascends(sorted) && forall name :: WithKey(sorted, name) == WithKey(profiles, name)
  }

  lemma {:induction false} InsertedIsStable(p: Profile, sorted: seq<Profile>, name: string)
    ensures WithKey(Inserted(p, sorted), name) == (if Key(p) == name then [p] else []) + WithKey(sorted, name)
  {
    if sorted == [] || !TextLess(Key(sorted[0]), Key(p)) {
      WithKeyMore(p, sorted, name);
    } else {
      InsertedIsStable(p, sorted[1..], name);
      WithKeyMore(sorted[0], Inserted(p, sorted[1..]), name);
      TextLessIsTotal(Key(sorted[0]), Key(p));
    }
  }

  lemma WithKeyMore(p: Profile, profiles: seq<Profile>, name: string)
    ensures WithKey([p] + profiles, name) == (if Key(p) == name then [p] else []) + WithKey(profiles, name)
  {
    assert ([p] + profiles)[1..] == profiles;
  }

  lemma {:induction false} InsertedHas(p: Profile, sorted: seq<Profile>)
    ensures multiset(Inserted(p, sorted)) == multiset{p} + multiset(sorted)
  {
    if sorted == [] || !TextLess(Key(sorted[0]), Key(p)) {
    } else {
      InsertedHas(p, sorted[1..]);
      assert sorted == [sorted[0]] + sorted[1..];
    }
  }

  lemma {:induction false} InsertedAscends(p: Profile, sorted: seq<Profile>)
    requires Ascends(sorted)
    ensures Ascends(Inserted(p, sorted))
  {
    if sorted == [] {
    } else if !TextLess(Key(sorted[0]), Key(p)) {
      forall j | 0 <= j < |sorted| ensures !TextLess(Key(sorted[j]), Key(p)) {
        if j > 0 {
          NotLessThrough(Key(sorted[j]), Key(sorted[0]), Key(p));
        }
      }
    } else {
      var rest := sorted[1..];
      assert forall i, j :: 0 <= i < j < |rest| ==> rest[i] == sorted[i + 1] && rest[j] == sorted[j + 1];
      InsertedAscends(p, rest);
      InsertedHas(p, rest);
      LeastFirst(sorted[0], Inserted(p, rest), p, rest);
    }
  }

  lemma NotLessThrough(c: string, b: string, a: string)
    requires !TextLess(c, b) && !TextLess(b, a)
    ensures !TextLess(c, a)
  {
    TextLessIsTotal(b, c);
    TextLessIsTotal(a, b);
    if TextLess(c, a) {
      if a != b {
        TextLessIsTransitive(c, a, b);
      }
    }
  }

  lemma LeastFirst(first: Profile, inserted: seq<Profile>, p: Profile, rest: seq<Profile>)
    requires Ascends(inserted) && multiset(inserted) == multiset{p} + multiset(rest)
    requires TextLess(Key(first), Key(p)) && forall j :: 0 <= j < |rest| ==> !TextLess(Key(rest[j]), Key(first))
    ensures Ascends([first] + inserted)
  {
    TextLessIsTotal(Key(first), Key(p));
    forall j | 0 <= j < |inserted| ensures !TextLess(Key(inserted[j]), Key(first)) {
      assert inserted[j] in multiset(inserted);
      if inserted[j] != p {
        assert inserted[j] in rest;
      }
    }
  }

  /** The sort of the model is a stable sort of the profiles, and loses none. */
  lemma {:induction false} SortedByNameIsStable(profiles: seq<Profile>)
    ensures IsStableSort(SortedByName(profiles), profiles)
    ensures multiset(SortedByName(profiles)) == multiset(profiles)
  {
    if profiles == [] {
    } else {
      var p, rest := profiles[0], SortedByName(profiles[1..]);
      SortedByNameIsStable(profiles[1..]);
      InsertedAscends(p, rest);
      InsertedHas(p, rest);
      forall name ensures WithKey(Inserted(p, rest), name) == WithKey(profiles, name) {
        InsertedIsStable(p, rest, name);
      }
      assert profiles == [p] + profiles[1..];
    }
  }

  /** There is only one stable sort, so the model of the library sort is no choice. */
  lemma {:induction false} StableSortIsUnique(a: seq<Profile>, b: seq<Profile>)
    requires Ascends(a) && Ascends(b) && forall name :: WithKey(a, name) == WithKey(b, name)
    ensures a == b
    decreases |a|
  {
    if a == [] || b == [] {
      HasSomeKey(a);
      HasSomeKey(b);
    } else {
      LeastKey(a, b);
      LeastKey(b, a);
      TextLessIsTotal(Key(a[0]), Key(b[0]));
      assert a[0] == WithKey(a, Key(a[0]))[0] == WithKey(b, Key(a[0]))[0] == b[0];
      forall name ensures WithKey(a[1..], name) == WithKey(b[1..], name) {
        assert WithKey(a, name) == WithKey(b, name);
        assert WithKey(a[1..], name) == WithKey(a, name)[if Key(a[0]) == name then 1 else 0..];
        assert WithKey(b[1..], name) == WithKey(b, name)[if Key(b[0]) == name then 1 else 0..];
      }
      assert Ascends(a[1..]) by { AscendsRest(a); }
      assert Ascends(b[1..]) by { AscendsRest(b); }
      StableSortIsUnique(a[1..], b[1..]);
      assert a == [a[0]] + a[1..] && b == [b[0]] + b[1..];
    }
  }

  lemma HasSomeKey(a: seq<Profile>)
    ensures a != [] ==> exists name :: WithKey(a, name) != []
  {
    if a != [] {
      assert WithKey(a, Key(a[0])) != [];
    }
  }

  lemma AscendsRest(a: seq<Profile>)
    requires Ascends(a) && a != []
    ensures Ascends(a[1..])
  {
    assert forall i :: 0 <= i < |a| - 1 ==> a[1..][i] == a[i + 1];
  }

  /** Nothing in b comes before the first of a. */
  lemma LeastKey(a: seq<Profile>, b: seq<Profile>)
    requires a != [] && b != [] && Ascends(a) && forall name :: WithKey(a, name) == WithKey(b, name)
    ensures !TextLess(Key(b[0]), Key(a[0]))
  {
    assert WithKey(b, Key(b[0])) != [];
    assert WithKey(a, Key(b[0])) != [];
    WithKeyIsThere(a, Key(b[0]));
    var k :| 0 <= k < |a| && Key(a[k]) == Key(b[0]);
    TextLessIsTotal(Key(a[0]), Key(a[0]));
  }

  lemma {:induction false} WithKeyIsThere(a: seq<Profile>, name: string)
    requires WithKey(a, name) != []
    ensures exists k :: 0 <= k < |a| && Key(a[k]) == name
  {
    if Key(a[0]) != name {
      WithKeyIsThere(a[1..], name);
      var k :| 0 <= k < |a[1..]| && Key(a[1..][k]) == name;
      assert a[k + 1] == a[1..][k];
    }
  }

  /** Unique names end up strictly ascending. */
  lemma SortedNamesAscend(profiles: seq<Profile>)
    requires UniqueProfiles(profiles) && forall p :: p in profiles ==> p.name.Some?
    ensures var sorted := SortedByName(profiles);
      forall i, j :: 0 <= i < j < |sorted| ==> TextLess(Key(sorted[i]), Key(sorted[j]))
  {
    var sorted := SortedByName(profiles);
    SortedByNameIsStable(profiles);
    forall i, j | 0 <= i < j < |sorted| ensures TextLess(Key(sorted[i]), Key(sorted[j])) {
      TextLessIsTotal(Key(sorted[i]), Key(sorted[j]));
      if Key(sorted[i]) == Key(sorted[j]) {
        TwoWithKey(sorted, i, j);
        OneWithKey(profiles, Key(sorted[i]));
      }
    }
  }

  lemma {:induction false} TwoWithKey(a: seq<Profile>, i: nat, j: nat)
    requires i < j < |a| && Key(a[i]) == Key(a[j])
    ensures |WithKey(a, Key(a[i]))| >= 2
  {
    if i > 0 {
      TwoWithKey(a[1..], i - 1, j - 1);
    } else {
      HasWithKey(a[1..], j - 1);
    }
  }

  lemma {:induction false} HasWithKey(a: seq<Profile>, j: nat)
    requires j < |a|
    ensures |WithKey(a, Key(a[j]))| >= 1
  {
    if j > 0 {
      HasWithKey(a[1..], j - 1);
    }
  }

  lemma {:induction false} OneWithKey(a: seq<Profile>, name: string)
    requires UniqueProfiles(a) && forall p :: p in a ==> p.name.Some?
    ensures |WithKey(a, name)| <= 1
  {
    if a != [] {
      assert forall i :: 0 <= i < |a| - 1 ==> a[1..][i] == a[i + 1];
      OneWithKey(a[1..], name);
      if WithKey(a[1..], name) != [] && Key(a[0]) == name {
        WithKeyIsThere(a[1..], name);
      }
    }
  }

  /** The names of what a node gets are strictly ascending: unique within a resource, they are unique for the node. */
  lemma NodeNamesAscend(configs: seq<Config>, names: set<string>)
    requires AreNamed(configs) && UniqueConfigs(configs)
    requires forall i :: 0 <= i < |configs| ==> UniqueProfiles(configs[i].profiles)
    ensures var sorted := SortedByName(Chosen(configs, configs, names));
      forall i, j :: 0 <= i < j < |sorted| ==> TextLess(Key(sorted[i]), Key(sorted[j]))
  {
    ChosenAreUnique(configs, configs, names);
    var chosen := Chosen(configs, configs, names);
    forall p | p in chosen ensures p.name.Some? {
      var i :| 0 <= i < |chosen| && chosen[i] == p;
      assert ComesFrom(chosen[i].name, configs);
    }
    SortedNamesAscend(chosen);
  }

  predicate HasAnywhere(configs: seq<Config>, profile: string) {
    exists i :: 0 <= i < |configs| && HasProfile(configs[i], profile)
  }

  /** All chosen profiles sorted by name, or none if a recommended profile is in no resource. */
  method GetRecommendProfiles(configs: seq<Config>, names: set<string>) returns (profiles: Option<seq<Profile>>)
    ensures profiles.Some? <==> forall name :: name in names ==> HasAnywhere(configs, name)
    ensures profiles.Some? ==> profiles.value == SortedByName(Chosen(configs, configs, names))
  {
    var chosen, found: set<string> := [], {};
    for i := 0 to |configs|
      invariant chosen + Chosen(configs, configs[i..], names) == Chosen(configs, configs, names)
      invariant found <= names
      invariant forall name :: name in names ==> (name in found <==> HasAnywhere(configs[..i], name))
    {
      var more, seen := ChooseFrom(configs, configs[i], names);
      assert configs[i..][1..] == configs[i + 1..];
      FoundMore(configs, i, names, found, seen);
      chosen, found := chosen + more, found + seen;
    }
    assert configs[..|configs|] == configs && chosen == Chosen(configs, configs, names);
    if found != names {
      return None;
    }
    return Some(SortedByName(chosen));
  }

  lemma FoundMore(configs: seq<Config>, i: nat, names: set<string>, found: set<string>, seen: set<string>)
    requires i < |configs|
    requires forall name :: name in names ==> (name in found <==> HasAnywhere(configs[..i], name))
    requires forall name :: name in names ==> (name in seen <==> HasProfile(configs[i], name))
    ensures forall name :: name in names ==> (name in found + seen <==> HasAnywhere(configs[..i + 1], name))
  {
    forall name | name in names ensures name in found + seen <==> HasAnywhere(configs[..i + 1], name) {
      if HasAnywhere(configs[..i], name) {
        var k :| 0 <= k < i && HasProfile(configs[..i][k], name);
        assert configs[..i + 1][k] == configs[k];
      }
      if HasProfile(configs[i], name) {
        assert configs[..i + 1][i] == configs[i];
      }
      if HasAnywhere(configs[..i + 1], name) {
        var k :| 0 <= k < i + 1 && HasProfile(configs[..i + 1][k], name);
        if k < i {
          assert configs[..i][k] == configs[k];
        }
      }
    }
  }

  lemma ChosenNext(configs: seq<Config>, c: Config, profiles: seq<Profile>, names: set<string>, j: nat)
    requires j < |profiles|
    ensures ChosenOf(configs, c, profiles[j..], names)
         == (if IsChosen(profiles[j], names) then [Renamed(configs, c, profiles[j])] else []) + ChosenOf(configs, c, profiles[j + 1..], names)
  {
    assert profiles[j..][1..] == profiles[j + 1..];
  }

  method ChooseFrom(configs: seq<Config>, c: Config, names: set<string>) returns (chosen: seq<Profile>, seen: set<string>)
    ensures chosen == ChosenOf(configs, c, c.profiles, names)
    ensures seen <= names && forall name :: name in names ==> (name in seen <==> HasProfile(c, name))
  {
    chosen, seen := [], {};
    for j := 0 to |c.profiles|
      invariant chosen + ChosenOf(configs, c, c.profiles[j..], names) == ChosenOf(configs, c, c.profiles, names)
      invariant seen <= names
      invariant forall name :: name in names ==> (name in seen <==> exists k :: 0 <= k < j && c.profiles[k].name == Some(name))
    {
      ChosenNext(configs, c, c.profiles, names, j);
      var p := c.profiles[j];
      if p.name.None? || p.name.value !in names {
        continue;
      }
      seen := seen + {p.name.value};
      var copy := QualifiedCopy(configs, c, p);
      chosen := chosen + [copy];
    }
  }

  method QualifiedCopy(configs: seq<Config>, c: Config, p: Profile) returns (copy: Profile)
    requires p.name.Some?
    ensures copy == Renamed(configs, c, p)
  {
    copy := p.(name := Some(QualifyProfileName(c.name, p.name.value)));
    if p.settings.Some? {
      var settings := QualifyCrossProfileReferences(configs, p.settings.value);
      copy := copy.(settings := Some(settings));
    }
  }
}
