/**
  DaemonSetMerge: the pod template of the linuxptp-daemon DaemonSet and its two writers, of
  pkg/apply/merge.go and controllers/ptpconfig_controller.go. The PtpOperatorConfig controller writes the
  template, the PtpConfig controller the volumes and mounts of the secrets.
 */
module DaemonSetMerge {
  import opened Options
  import opened Sequences

  /** A volume or a mount; one without a name in the form of a string is never a security item. */
  datatype Item = Item(name: Option<string>, body: string)

  /** A field of an unstructured object. */
  datatype Field<T> = Absent | Malformed | Present(value: T)

  datatype Container = Container(name: Option<string>, mounts: Field<seq<Item>>, rest: string)

  type Annotations = map<string, string>

  datatype DaemonSet = DaemonSet(
    volumes: Field<seq<Item>>, annotations: Field<Annotations>, containers: Field<seq<Container>>)

  const TLV_AUTH_SUFFIX := "-tlv-auth"
  const HASH_PREFIX := "ptp.openshift.io/secret-hash-"
  const MOUNT_FOLDER := "/etc/ptp-secret-mount/"
  const DAEMON_CONTAINER := "linuxptp-daemon-container"

  predicate IsSecurityItem(name: string) {
    |name| >= 9 && name[|name| - 9..] == TLV_AUTH_SUFFIX
  }

  predicate IsSecurity(item: Item) {
    item.name.Some? && IsSecurityItem(item.name.value)
  }

  predicate IsSecurityAnnotation(key: string) {
    |key| > |HASH_PREFIX| && key[..|HASH_PREFIX|] == HASH_PREFIX
  }

  // ------------------------------------------------------------------ filter and extract

  function NonSecurity(items: seq<Item>): seq<Item> {
    if items == [] then []
    else (if IsSecurity(items[0]) then [] else [items[0]]) + NonSecurity(items[1..])
  }

  function Security(items: seq<Item>): seq<Item> {
    if items == [] then []
    else (if IsSecurity(items[0]) then [items[0]] else []) + Security(items[1..])
  }

  /** Exactly the names of the secrets' volumes, and the keys that hold the hash of a secret. */
  lemma SecurityExactly(text: string)
    ensures IsSecurityItem(text) <==> exists secret: string :: text == secret + "-tlv-auth"
    ensures IsSecurityAnnotation(text) <==> exists secret: string :: secret != "" && text == "ptp.openshift.io/secret-hash-" + secret
  {
    if IsSecurityItem(text) {
      assert text == text[..|text| - 9] + "-tlv-auth";
    }
    if IsSecurityAnnotation(text) {
      assert text == "ptp.openshift.io/secret-hash-" + text[|HASH_PREFIX|..];
    }
  }

  function NonSecurityAnnotations(m: Annotations): Annotations {
    map k | k in m && !IsSecurityAnnotation(k) :: m[k]
  }

  function SecurityAnnotations(m: Annotations): Annotations {
    map k | k in m && IsSecurityAnnotation(k) :: m[k]
  }

  /** Nothing is lost and nothing is doubled: the two lists are a partition. */
  lemma {:induction false} PartitionKeepsItems(items: seq<Item>)
    ensures multiset(NonSecurity(items) + Security(items)) == multiset(items)
  {
    if items != [] {
      PartitionKeepsItems(items[1..]);
      assert items == [items[0]] + items[1..];
    }
  }

  lemma {:induction false} PartitionIsBySecurity(items: seq<Item>)
    ensures forall i :: 0 <= i < |NonSecurity(items)| ==> !IsSecurity(NonSecurity(items)[i])
    ensures forall i :: 0 <= i < |Security(items)| ==> IsSecurity(Security(items)[i])
  {
    if items != [] {
      PartitionIsBySecurity(items[1..]);
    }
  }

  lemma {:induction false} PartitionOfAppend(a: seq<Item>, b: seq<Item>)
    ensures NonSecurity(a + b) == NonSecurity(a) + NonSecurity(b)
    ensures Security(a + b) == Security(a) + Security(b)
  {
    if a == [] {
      assert a + b == b;
    } else {
      var x, rest := a[0], a[1..];
      assert a == [x] + rest && a + b == [x] + (rest + b);
      FirstSplits(x, rest);
      FirstSplits(x, rest + b);
      PartitionOfAppend(rest, b);
      Regrouped(if IsSecurity(x) then [] else [x], NonSecurity(rest), NonSecurity(b));
      Regrouped(if IsSecurity(x) then [x] else [], Security(rest), Security(b));
    }
  }

  lemma FirstSplits(x: Item, rest: seq<Item>)
    ensures NonSecurity([x] + rest) == (if IsSecurity(x) then [] else [x]) + NonSecurity(rest)
    ensures Security([x] + rest) == (if IsSecurity(x) then [x] else []) + Security(rest)
  {
    assert ([x] + rest)[1..] == rest;
  }

  lemma {:induction false} PartitionOfNonSecurity(items: seq<Item>)
    requires forall i :: 0 <= i < |items| ==> !IsSecurity(items[i])
    ensures NonSecurity(items) == items && Security(items) == []
  {
    if items != [] {
      PartitionOfNonSecurity(items[1..]);
    }
  }

  lemma {:induction false} PartitionOfSecurity(items: seq<Item>)
    requires forall i :: 0 <= i < |items| ==> IsSecurity(items[i])
    ensures NonSecurity(items) == [] && Security(items) == items
  {
    if items != [] {
      PartitionOfSecurity(items[1..]);
    }
  }

  function MergedItems(current: seq<Item>, updated: seq<Item>, preserve: bool): seq<Item> {
    NonSecurity(updated) + Security(if preserve then current else updated)
  }

  /** A merged list is the non-security items of the update, in order, then the security items of whom they come from. */
  lemma MergedSplits(current: seq<Item>, updated: seq<Item>, preserve: bool)
    ensures NonSecurity(MergedItems(current, updated, preserve)) == NonSecurity(updated)
    ensures Security(MergedItems(current, updated, preserve)) == Security(if preserve then current else updated)
  {
    var from := if preserve then current else updated;
    PartitionIsBySecurity(updated);
    PartitionIsBySecurity(from);
    JoinedSplits(NonSecurity(updated), Security(from));
  }

  lemma JoinedSplits(a: seq<Item>, b: seq<Item>)
    requires forall i :: 0 <= i < |a| ==> !IsSecurity(a[i])
    requires forall i :: 0 <= i < |b| ==> IsSecurity(b[i])
    ensures NonSecurity(a + b) == a && Security(a + b) == b
  {
    PartitionOfNonSecurity(a);
    PartitionOfSecurity(b);
    PartitionOfAppend(a, b);
  }

  function MergedAnnotations(current: Annotations, updated: Annotations, preserve: bool): Annotations {
    NonSecurityAnnotations(updated) + SecurityAnnotations(if preserve then current else updated)
  }

  lemma MergedAnnotationsSplit(current: Annotations, updated: Annotations, preserve: bool)
    ensures NonSecurityAnnotations(MergedAnnotations(current, updated, preserve)) == NonSecurityAnnotations(updated)
    ensures SecurityAnnotations(MergedAnnotations(current, updated, preserve))
         == SecurityAnnotations(if preserve then current else updated)
  {
    var from := if preserve then current else updated;
    JoinedAnnotationsSplit(NonSecurityAnnotations(updated), SecurityAnnotations(from));
  }

  lemma JoinedAnnotationsSplit(a: Annotations, b: Annotations)
    requires NonSecurityAnnotations(a) == a && SecurityAnnotations(b) == b
    ensures NonSecurityAnnotations(a + b) == a && SecurityAnnotations(a + b) == b
  {
    assert forall k :: k in a ==> k in NonSecurityAnnotations(a);
    assert forall k :: k in b ==> k in SecurityAnnotations(b);
  }

  // ------------------------------------------------------------------ the containers

  predicate IsDaemon(c: Container) {
    c.name == Some(DAEMON_CONTAINER)
  }

  /** The first container of the daemon; the number of containers if there is none. */
  function FindDaemon(containers: seq<Container>): (k: nat)
    ensures k <= |containers|
    ensures k < |containers| ==> IsDaemon(containers[k])
    ensures forall j :: 0 <= j < k ==> !IsDaemon(containers[j])
  {
    First(containers, IsDaemon)
  }

  function ItemsOf(f: Field<seq<Item>>): seq<Item> {
    if f.Present? then f.value else []
  }

  function ContainersOf(f: Field<seq<Container>>): seq<Container> {
    if f.Present? then f.value else []
  }

  function AnnotationsOf(f: Field<Annotations>): Annotations {
    if f.Present? then f.value else map[]
  }

  function MountsIn(containers: seq<Container>): seq<Item> {
    var k := FindDaemon(containers);
    if k < |containers| then ItemsOf(containers[k].mounts) else []
  }

  function WithMounts(containers: seq<Container>, mounts: seq<Item>): seq<Container> {
    var k := FindDaemon(containers);
    if k < |containers| then containers[k := containers[k].(mounts := Present(mounts))] else containers
  }

  function Volumes(ds: DaemonSet): seq<Item> {
    ItemsOf(ds.volumes)
  }

  function Mounts(ds: DaemonSet): seq<Item> {
    MountsIn(ContainersOf(ds.containers))
  }

  predicate HasDaemon(ds: DaemonSet) {
    FindDaemon(ContainersOf(ds.containers)) < |ContainersOf(ds.containers)|
  }

  /** Everything about the containers but the mounts of the daemon. */
  function Others(ds: DaemonSet): seq<Container> {
    WithoutMounts(ContainersOf(ds.containers))
  }

  function WithoutMounts(containers: seq<Container>): seq<Container> {
    var k := FindDaemon(containers);
    if k == |containers| then containers
    else containers[k := Container(containers[k].name, Absent, containers[k].rest)]
  }

  lemma StillTheDaemon(containers: seq<Container>, next: seq<Container>, k: nat)
    requires k == FindDaemon(containers) < |containers| == |next| && IsDaemon(next[k])
    requires forall j :: 0 <= j < k ==> next[j] == containers[j]
    ensures FindDaemon(next) == k
  {}

  lemma WithMountsHas(containers: seq<Container>, mounts: seq<Item>)
    ensures FindDaemon(WithMounts(containers, mounts)) == FindDaemon(containers)
    ensures MountsIn(WithMounts(containers, mounts)) == if FindDaemon(containers) < |containers| then mounts else []
  {
    var k := FindDaemon(containers);
    if k < |containers| {
      StillTheDaemon(containers, WithMounts(containers, mounts), k);
    }
  }

  /** Only the mounts of the daemon are replaced; setting them again replaces them again. */
  lemma MountsReplaced(containers: seq<Container>, a: seq<Item>, b: seq<Item>)
    ensures WithMounts(WithMounts(containers, a), b) == WithMounts(containers, b)
    ensures WithoutMounts(WithMounts(containers, a)) == WithoutMounts(containers)
    ensures FindDaemon(containers) == |containers| ==> WithMounts(containers, a) == containers
  {
    WithMountsHas(containers, a);
    var k := FindDaemon(containers);
    if k < |containers| {
      assert containers[k := containers[k].(mounts := Present(a))][k := containers[k].(mounts := Present(b))]
          == containers[k := containers[k].(mounts := Present(b))];
    }
  }

  // ------------------------------------------------------------------ the merge

  datatype Merge = Merge(ds: DaemonSet, ok: bool)

  /** A field of the update that is malformed stops the merge; one of the current object counts as empty. */
  function Merged(current: DaemonSet, updated: DaemonSet, preserve: bool): Merge {
    if updated.volumes.Malformed? then Merge(updated, false)
    else
      var volumes := updated.(volumes := Present(MergedItems(Volumes(current), Volumes(updated), preserve)));
      if updated.annotations.Malformed? then Merge(volumes, false)
      else
        var annotated := volumes.(annotations :=
          Present(MergedAnnotations(AnnotationsOf(current.annotations), AnnotationsOf(updated.annotations), preserve)));
        if updated.containers.Malformed? then Merge(annotated, false)
        else
          Merge(annotated.(containers := Present(
            WithMounts(ContainersOf(updated.containers), MergedItems(Mounts(current), Mounts(updated), preserve)))), true)
  }

  /**
    A merge fails if and only if a list or the annotations of the update are malformed; the fields before the first
    such are merged then, and the others are as they were.
   */
  lemma MergeFailsExactly(current: DaemonSet, updated: DaemonSet, preserve: bool)
    ensures var m := Merged(current, updated, preserve);
      && (m.ok <==> !updated.volumes.Malformed? && !updated.annotations.Malformed? && !updated.containers.Malformed?)
      && (updated.volumes.Malformed? ==> m.ds == updated)
      && (!m.ok && !updated.volumes.Malformed? ==> m.ds.volumes.Present? && m.ds.containers == updated.containers)
      && (updated.annotations.Malformed? && !updated.volumes.Malformed? ==> m.ds == updated.(volumes := m.ds.volumes))
      && (m.ok ==> m.ds.volumes.Present? && m.ds.annotations.Present? && m.ds.containers.Present?)
  {}

  /** What a merge does to the volumes: non-security from the update, security from whom they come from. */
  lemma MergeSplitsVolumes(current: DaemonSet, updated: DaemonSet, preserve: bool)
    requires Merged(current, updated, preserve).ok
    ensures var r := Volumes(Merged(current, updated, preserve).ds);
            NonSecurity(r) == NonSecurity(Volumes(updated)) && Security(r) == Security(Volumes(if preserve then current else updated))
  {
    MergedSplits(Volumes(current), Volumes(updated), preserve);
  }

  lemma MergeSplitsMounts(current: DaemonSet, updated: DaemonSet, preserve: bool)
    requires Merged(current, updated, preserve).ok
    ensures var r := Merged(current, updated, preserve).ds;
            && HasDaemon(r) == HasDaemon(updated) && Others(r) == Others(updated)
            && (HasDaemon(r) ==> NonSecurity(Mounts(r)) == NonSecurity(Mounts(updated))
                                 && Security(Mounts(r)) == Security(Mounts(if preserve then current else updated)))
  {
    var items := MergedItems(Mounts(current), Mounts(updated), preserve);
    MergedSplits(Mounts(current), Mounts(updated), preserve);
    ContainersSet(updated, Merged(current, updated, preserve).ds, items);
  }

  /** Only the mounts of the daemon are replaced, if there is a daemon. */
  lemma ContainersSet(updated: DaemonSet, r: DaemonSet, items: seq<Item>)
    requires r.containers == Present(WithMounts(ContainersOf(updated.containers), items))
    ensures HasDaemon(r) == HasDaemon(updated) && Others(r) == Others(updated)
    ensures HasDaemon(r) ==> Mounts(r) == items
  {
    WithMountsHas(ContainersOf(updated.containers), items);
    MountsReplaced(ContainersOf(updated.containers), items, []);
  }

  lemma MergeSplitsAnnotations(current: DaemonSet, updated: DaemonSet, preserve: bool)
    requires Merged(current, updated, preserve).ok
    ensures var r, from := AnnotationsOf(Merged(current, updated, preserve).ds.annotations), if preserve then current else updated;
            && NonSecurityAnnotations(r) == NonSecurityAnnotations(AnnotationsOf(updated.annotations))
            && SecurityAnnotations(r) == SecurityAnnotations(AnnotationsOf(from.annotations))
  {
    MergedAnnotationsSplit(AnnotationsOf(current.annotations), AnnotationsOf(updated.annotations), preserve);
  }

  lemma ItemsMergeTwice(current: seq<Item>, updated: seq<Item>, preserve: bool)
    ensures var r := MergedItems(current, updated, preserve); MergedItems(current, r, preserve) == MergedItems(r, r, true) == r
  {
    MergedSplits(current, updated, preserve);
  }

  lemma AnnotationsMergeTwice(current: Annotations, updated: Annotations, preserve: bool)
    ensures var r := MergedAnnotations(current, updated, preserve);
            MergedAnnotations(current, r, preserve) == MergedAnnotations(r, r, true) == r
  {
    MergedAnnotationsSplit(current, updated, preserve);
  }

  /** Merging a merged object again changes nothing, whether with the same current object or with the result itself. */
  lemma MergeTwice(current: DaemonSet, updated: DaemonSet, preserve: bool)
    requires Merged(current, updated, preserve).ok
    ensures var r := Merged(current, updated, preserve).ds;
            Merged(current, r, preserve) == Merged(r, r, true) == Merge(r, true)
  {
    var r := Merged(current, updated, preserve).ds;
    var mounts := MergedItems(Mounts(current), Mounts(updated), preserve);
    ItemsMergeTwice(Volumes(current), Volumes(updated), preserve);
    AnnotationsMergeTwice(AnnotationsOf(current.annotations), AnnotationsOf(updated.annotations), preserve);
    ItemsMergeTwice(Mounts(current), Mounts(updated), preserve);
    WithMountsHas(ContainersOf(updated.containers), mounts);
    MountsReplaced(ContainersOf(updated.containers), mounts, mounts);
  }

  // ------------------------------------------------------------------ the writer of the secrets

  function VolumeFor(secret: string): (item: Item)
    ensures IsSecurity(item)
  {
    Item(Some(secret + TLV_AUTH_SUFFIX), secret)
  }

  function MountFor(secret: string): (item: Item)
    ensures IsSecurity(item)
  {
    Item(Some(secret + TLV_AUTH_SUFFIX), MOUNT_FOLDER + secret)
  }

  function VolumesFor(secrets: seq<string>): (r: seq<Item>)
    ensures |r| == |secrets| && forall i :: 0 <= i < |r| ==> r[i] == VolumeFor(secrets[i])
  {
    seq(|secrets|, i requires 0 <= i < |secrets| => VolumeFor(secrets[i]))
  }

  function MountsFor(secrets: seq<string>): (r: seq<Item>)
    ensures |r| == |secrets| && forall i :: 0 <= i < |r| ==> r[i] == MountFor(secrets[i])
  {
    seq(|secrets|, i requires 0 <= i < |secrets| => MountFor(secrets[i]))
  }

  /** The current object without its security items, then with those of the secrets, in the order of the map of secrets. */
  function WithSecrets(ds: DaemonSet, secrets: seq<string>): DaemonSet {
    DaemonSet(Present(NonSecurity(Volumes(ds)) + VolumesFor(secrets)), Present(AnnotationsOf(ds.annotations)),
              Present(WithMounts(ContainersOf(ds.containers), NonSecurity(Mounts(ds)) + MountsFor(secrets))))
  }

  lemma WithSecretsVolumes(ds: DaemonSet, secrets: seq<string>)
    ensures var u := Volumes(WithSecrets(ds, secrets));
            NonSecurity(u) == NonSecurity(Volumes(ds)) && Security(u) == VolumesFor(secrets)
  {
    PartitionIsBySecurity(Volumes(ds));
    JoinedSplits(NonSecurity(Volumes(ds)), VolumesFor(secrets));
  }

  lemma WithSecretsMounts(ds: DaemonSet, secrets: seq<string>)
    ensures var u := WithSecrets(ds, secrets);
            && HasDaemon(u) == HasDaemon(ds) && Others(u) == Others(ds)
            && (HasDaemon(ds) ==> NonSecurity(Mounts(u)) == NonSecurity(Mounts(ds)) && Security(Mounts(u)) == MountsFor(secrets))
  {
    PartitionIsBySecurity(Mounts(ds));
    JoinedSplits(NonSecurity(Mounts(ds)), MountsFor(secrets));
    WithMountsHas(ContainersOf(ds.containers), NonSecurity(Mounts(ds)) + MountsFor(secrets));
    MountsReplaced(ContainersOf(ds.containers), NonSecurity(Mounts(ds)) + MountsFor(secrets), []);
  }

  // ------------------------------------------------------------------ two writers

  /** A write, taken as one atomic read-merge-write; or the object is deleted. */
  datatype Write =
    | OperatorWrite(template: DaemonSet)
    | ConfigWrite(secrets: seq<string>)   // fails while there is no object
    | Delete

  function Written(cluster: Option<DaemonSet>, w: Write): Option<DaemonSet> {
    match w
    case OperatorWrite(template) =>
      if cluster.None? then Some(template)
      else
        var m := Merged(cluster.value, template, true);
        if m.ok then Some(m.ds) else cluster
    case ConfigWrite(secrets) =>
      if cluster.None? then None
      else
        var m := Merged(cluster.value, WithSecrets(cluster.value, secrets), false);
        if m.ok then Some(m.ds) else cluster
    case Delete => None
  }

  function Run(writes: seq<Write>): Option<DaemonSet> {
    if writes == [] then None else Written(Run(writes[..|writes| - 1]), writes[|writes| - 1])
  }

  predicate IsWellFormed(ds: DaemonSet) {
    !ds.volumes.Malformed? && !ds.annotations.Malformed? && !ds.containers.Malformed? && HasDaemon(ds)
  }

  /** What the two writers wanted last: the template, and the security items since the object was created. */
  datatype Wanted = Wanted(template: DaemonSet, volumes: seq<Item>, mounts: seq<Item>, annotations: Annotations)

  function WantedAfter(before: Option<Wanted>, w: Write): Option<Wanted> {
    match w
    case OperatorWrite(template) =>
      if before.None? then
        Some(Wanted(template, Security(Volumes(template)), Security(Mounts(template)),
                    SecurityAnnotations(AnnotationsOf(template.annotations))))
      else Some(before.value.(template := template))
    case ConfigWrite(secrets) =>
      if before.None? then None
      else Some(before.value.(volumes := VolumesFor(secrets), mounts := MountsFor(secrets)))
    case Delete => None
  }

  function WantedBy(writes: seq<Write>): Option<Wanted> {
    if writes == [] then None else WantedAfter(WantedBy(writes[..|writes| - 1]), writes[|writes| - 1])
  }

  /** The object is as the last template says but for the security items, and those are as wanted. */
  ghost predicate IsAsWanted(ds: DaemonSet, w: Wanted) {
    && HasDaemon(ds) && IsWellFormed(w.template) && Others(ds) == Others(w.template)
    && NonSecurity(Volumes(ds)) == NonSecurity(Volumes(w.template)) && Security(Volumes(ds)) == w.volumes
    && NonSecurity(Mounts(ds)) == NonSecurity(Mounts(w.template)) && Security(Mounts(ds)) == w.mounts
    && NonSecurityAnnotations(AnnotationsOf(ds.annotations)) == NonSecurityAnnotations(AnnotationsOf(w.template.annotations))
    && SecurityAnnotations(AnnotationsOf(ds.annotations)) == w.annotations
  }

  ghost predicate BothAgree(cluster: Option<DaemonSet>, wanted: Option<Wanted>) {
    cluster.Some? == wanted.Some? && (cluster.Some? ==> IsAsWanted(cluster.value, wanted.value))
  }

  lemma OperatorWriteAgrees(ds: DaemonSet, w: Wanted, template: DaemonSet)
    requires IsAsWanted(ds, w) && IsWellFormed(template)
    ensures var m := Merged(ds, template, true); m.ok && IsAsWanted(m.ds, w.(template := template))
  {
    MergeSplitsVolumes(ds, template, true);
    MergeSplitsMounts(ds, template, true);
    MergeSplitsAnnotations(ds, template, true);
  }

  lemma ConfigWriteAgrees(ds: DaemonSet, w: Wanted, secrets: seq<string>)
    requires IsAsWanted(ds, w)
    ensures var m := Merged(ds, WithSecrets(ds, secrets), false);
            m.ok && IsAsWanted(m.ds, w.(volumes := VolumesFor(secrets), mounts := MountsFor(secrets)))
  {
    var u := WithSecrets(ds, secrets);
    WithSecretsVolumes(ds, secrets);
    WithSecretsMounts(ds, secrets);
    MergeSplitsVolumes(ds, u, false);
    MergeSplitsMounts(ds, u, false);
    MergeSplitsAnnotations(ds, u, false);
  }

  lemma WriteAgrees(cluster: Option<DaemonSet>, wanted: Option<Wanted>, w: Write)
    requires BothAgree(cluster, wanted) && (w.OperatorWrite? ==> IsWellFormed(w.template))
    ensures BothAgree(Written(cluster, w), WantedAfter(wanted, w))
  {
    if cluster.Some? {
      match w
      case OperatorWrite(template) => OperatorWriteAgrees(cluster.value, wanted.value, template);
      case ConfigWrite(secrets) => ConfigWriteAgrees(cluster.value, wanted.value, secrets);
      case Delete =>
    }
  }

  /**
    Over any interleaving of the two writers: all but the security items are those of the last template,
    the security volumes and mounts are those of the last secrets, and the security annotations are those
    the object was created with, since neither writer sets any.
   */
  lemma {:induction false} WritersDoNotInterfere(writes: seq<Write>)
    requires forall i :: 0 <= i < |writes| && writes[i].OperatorWrite? ==> IsWellFormed(writes[i].template)
    ensures BothAgree(Run(writes), WantedBy(writes))
  {
    if writes != [] {
      var before, w := writes[..|writes| - 1], writes[|writes| - 1];
      WritersDoNotInterfere(before);
      WriteAgrees(Run(before), WantedBy(before), w);
    }
  }

  /** A write of a malformed template is given up: the object stays as it is. */
  lemma MalformedTemplateIsRefused(ds: DaemonSet, template: DaemonSet)
    requires template.volumes.Malformed? || template.annotations.Malformed? || template.containers.Malformed?
    ensures Written(Some(ds), OperatorWrite(template)) == Some(ds)
  {
    MergeFailsExactly(ds, template, true);
  }

  /** One volume and one mount for each secret, in order, and no other security item. */
  ghost predicate AreMounted(ds: DaemonSet, secrets: seq<string>) {
    var volumes, mounts := Security(Volumes(ds)), Security(Mounts(ds));
    && |volumes| == |mounts| == |secrets|
    && forall i :: 0 <= i < |secrets| ==>
         && volumes[i] == Item(Some(secrets[i] + "-tlv-auth"), secrets[i])
         && mounts[i] == Item(Some(secrets[i] + "-tlv-auth"), "/etc/ptp-secret-mount/" + secrets[i])
  }

  ghost predicate DifferInSecrets(a: DaemonSet, b: DaemonSet) {
    && NonSecurity(Volumes(a)) == NonSecurity(Volumes(b)) && NonSecurity(Mounts(a)) == NonSecurity(Mounts(b))
    && Others(a) == Others(b) && AnnotationsOf(a.annotations) == AnnotationsOf(b.annotations)
  }

  /**
    After the secrets are written, at any time, there is one volume and one mount for each of them, in order, and no
    other security item; nothing else of the object has changed.
   */
  lemma SecretsAreMounted(writes: seq<Write>, secrets: seq<string>) returns (before: DaemonSet, after: DaemonSet)
    requires forall i :: 0 <= i < |writes| && writes[i].OperatorWrite? ==> IsWellFormed(writes[i].template)
    requires Run(writes).Some?
    ensures Run(writes) == Some(before) && Run(writes + [ConfigWrite(secrets)]) == Some(after)
    ensures AreMounted(after, secrets) && DifferInSecrets(after, before)
  {
    WritersDoNotInterfere(writes);
    before := Run(writes).value;
    after := SecretsWritten(before, WantedBy(writes).value, secrets);
    RunNext(writes, ConfigWrite(secrets));
  }

  lemma RunNext(writes: seq<Write>, w: Write)
    ensures Run(writes + [w]) == Written(Run(writes), w)
  {
    assert (writes + [w])[..|writes|] == writes;
  }

  lemma SecretsWritten(ds: DaemonSet, w: Wanted, secrets: seq<string>) returns (r: DaemonSet)
    requires IsAsWanted(ds, w)
    ensures Written(Some(ds), ConfigWrite(secrets)) == Some(r)
    ensures AreMounted(r, secrets) && DifferInSecrets(r, ds)
  {
    r := Merged(ds, WithSecrets(ds, secrets), false).ds;
    ConfigWriteAgrees(ds, w, secrets);
    AnnotationsSplit(AnnotationsOf(ds.annotations));
  }

  lemma AnnotationsSplit(m: Annotations)
    ensures NonSecurityAnnotations(m) + SecurityAnnotations(m) == m
  {}

  predicate SameNames(a: seq<Item>, b: seq<Item>) {
    |a| == |b| && forall i :: 0 <= i < |a| ==> a[i].name == b[i].name
  }

  lemma {:induction false} WantedNamesMatch(writes: seq<Write>)
    requires forall i :: 0 <= i < |writes| && writes[i].OperatorWrite? ==>
      SameNames(Security(Volumes(writes[i].template)), Security(Mounts(writes[i].template)))
    ensures WantedBy(writes).Some? ==> SameNames(WantedBy(writes).value.volumes, WantedBy(writes).value.mounts)
  {
    if writes != [] {
      WantedNamesMatch(writes[..|writes| - 1]);
    }
  }

  /** Every security volume is mounted under its name, if the templates bring no unmatched security items. */
  lemma SecurityNamesMatch(writes: seq<Write>)
    requires forall i :: 0 <= i < |writes| && writes[i].OperatorWrite? ==>
      IsWellFormed(writes[i].template) && SameNames(Security(Volumes(writes[i].template)), Security(Mounts(writes[i].template)))
    ensures Run(writes).Some? ==> SameNames(Security(Volumes(Run(writes).value)), Security(Mounts(Run(writes).value)))
  {
    WritersDoNotInterfere(writes);
    WantedNamesMatch(writes);
  }

  // ------------------------------------------------------------------ the objects in place

  lemma NonSecurityNext(items: seq<Item>, i: nat)
    requires i < |items|
    ensures NonSecurity(items[i..]) == (if IsSecurity(items[i]) then [] else [items[i]]) + NonSecurity(items[i + 1..])
  {
    assert items[i..][1..] == items[i + 1..];
  }

  lemma SecurityNext(items: seq<Item>, i: nat)
    requires i < |items|
    ensures Security(items[i..]) == (if IsSecurity(items[i]) then [items[i]] else []) + Security(items[i + 1..])
  {
    assert items[i..][1..] == items[i + 1..];
  }

  method FilterNonSecurity(items: seq<Item>) returns (r: seq<Item>)
    ensures r == NonSecurity(items)
  {
    r := [];
    for i := 0 to |items|
      invariant r + NonSecurity(items[i..]) == NonSecurity(items)
    {
      NonSecurityNext(items, i);
      if items[i].name.None? {
        r := r + [items[i]];
        continue;
      }
      if !IsSecurityItem(items[i].name.value) {
        r := r + [items[i]];
      }
    }
  }

  method ExtractSecurity(items: seq<Item>) returns (r: seq<Item>)
    ensures r == Security(items)
  {
    r := [];
    for i := 0 to |items|
      invariant r + Security(items[i..]) == Security(items)
    {
      SecurityNext(items, i);
      if items[i].name.None? {
        continue;
      }
      if IsSecurityItem(items[i].name.value) {
        r := r + [items[i]];
      }
    }
  }

  const LINUXPTP_DAEMON := "linuxptp-daemon"

  class Object {
    const name: string
    var volumes: Field<seq<Item>>
    var annotations: Field<Annotations>
    var containers: Field<seq<Container>>

    constructor (name: string, ds: DaemonSet)
      ensures this.name == name && State() == ds
    {
      this.name, volumes, annotations, containers := name, ds.volumes, ds.annotations, ds.containers;
    }

    function State(): DaemonSet
      reads this
    {
      DaemonSet(volumes, annotations, containers)
    }

    /** This object is the update; what it was is lost even if the merge fails. */
    method MergeDaemonSetForUpdate(current: Object, preserve: bool) returns (ok: bool)
      requires current != this
      modifies this
      ensures Merge(State(), ok)
           == if name == LINUXPTP_DAEMON then Merged(current.State(), old(State()), preserve) else Merge(old(State()), true)
    {
      if name != LINUXPTP_DAEMON {
        return true;
      }
      if volumes.Malformed? {
        return false;
      }
      MergeSecurityVolumes(current, preserve);
      if annotations.Malformed? {
        return false;
      }
      MergeSecurityAnnotations(current, preserve);
      if containers.Malformed? {
        return false;
      }
      MergeSecurityVolumeMounts(current, preserve);
      return true;
    }

    method MergeSecurityVolumes(current: Object, preserve: bool)
      requires current != this
      modifies this`volumes
      ensures volumes == Present(MergedItems(Volumes(current.State()), Volumes(old(State())), preserve))
    {
      var currentVolumes, updatedVolumes := ItemsOf(current.volumes), ItemsOf(volumes);
      var merged := FilterNonSecurity(updatedVolumes);
      var security := ExtractSecurity(if preserve then currentVolumes else updatedVolumes);
      volumes := Present(merged + security);
    }

    method MergeSecurityAnnotations(current: Object, preserve: bool)
      requires current != this
      modifies this`annotations
      ensures annotations
           == Present(MergedAnnotations(AnnotationsOf(current.annotations), AnnotationsOf(old(annotations)), preserve))
    {
      var from := if preserve then AnnotationsOf(current.annotations) else AnnotationsOf(annotations);
      var merged := NonSecurityAnnotations(AnnotationsOf(annotations));
      var left := SecurityAnnotations(from).Keys;
      ghost var base := merged;
      while left != {}
        invariant left <= SecurityAnnotations(from).Keys
        invariant merged == base + (SecurityAnnotations(from) - left)
        decreases left
      {
        var k :| k in left;
        left, merged := left - {k}, merged[k := from[k]];
      }
      assert SecurityAnnotations(from) - {} == SecurityAnnotations(from);
      annotations := Present(merged);
    }

    method FindContainer() returns (k: nat)
      ensures k == FindDaemon(ContainersOf(containers))
    {
      var all := ContainersOf(containers);
      k := 0;
      while k < |all|
        invariant k <= |all|
        invariant forall j :: 0 <= j < k ==> !IsDaemon(all[j])
      {
        if all[k].name == Some(DAEMON_CONTAINER) {
          return;
        }
        k := k + 1;
      }
    }

    method MountsOfDaemon() returns (mounts: seq<Item>)
      ensures mounts == Mounts(State())
    {
      var k := FindContainer();
      var all := ContainersOf(containers);
      return if k < |all| then ItemsOf(all[k].mounts) else [];
    }

    method SetMounts(mounts: seq<Item>)
      modifies this`containers
      ensures containers == Present(WithMounts(ContainersOf(old(containers)), mounts))
    {
      var k := FindContainer();
      var all := ContainersOf(containers);
      if k < |all| {
        all := all[k := all[k].(mounts := Present(mounts))];
      }
      containers := Present(all);
    }

    method MergeSecurityVolumeMounts(current: Object, preserve: bool)
      requires current != this
      modifies this`containers
      ensures containers == Present(WithMounts(ContainersOf(old(containers)),
                                               MergedItems(Mounts(current.State()), Mounts(old(State())), preserve)))
    {
      var currentMounts := current.MountsOfDaemon();
      var updatedMounts := MountsOfDaemon();
      var merged := FilterNonSecurity(updatedMounts);
      var security := ExtractSecurity(if preserve then currentMounts else updatedMounts);
      SetMounts(merged + security);
    }

    method RemoveSecurityVolumes()
      modifies this`volumes, this`containers
      ensures volumes == Present(NonSecurity(Volumes(old(State()))))
      ensures containers == Present(WithMounts(ContainersOf(old(containers)), NonSecurity(Mounts(old(State())))))
    {
      var kept := FilterNonSecurity(ItemsOf(volumes));
      volumes := Present(kept);
      var mounts := MountsOfDaemon();
      mounts := FilterNonSecurity(mounts);
      SetMounts(mounts);
    }

    method InjectPtpSecurityVolume(secret: string)
      modifies this`volumes, this`containers
      ensures volumes == Present(Volumes(old(State())) + [VolumeFor(secret)])
      ensures containers == Present(WithMounts(ContainersOf(old(containers)), Mounts(old(State())) + [MountFor(secret)]))
    {
      volumes := Present(ItemsOf(volumes) + [VolumeFor(secret)]);
      var mounts := MountsOfDaemon();
      SetMounts(mounts + [MountFor(secret)]);
    }

    /** Removes the old secrets and injects the existing ones, in the order in which the map of secrets is walked. */
    method SyncSecrets(secrets: seq<string>)
      modifies this
      ensures State() == WithSecrets(old(State()), secrets)
    {
      annotations := Present(AnnotationsOf(annotations));
      RemoveSecurityVolumes();
      ghost var before := old(State());
      assert NonSecurity(Volumes(before)) + VolumesFor(secrets[..0]) == NonSecurity(Volumes(before));
      assert NonSecurity(Mounts(before)) + MountsFor(secrets[..0]) == NonSecurity(Mounts(before));
      for i := 0 to |secrets|
        invariant annotations == Present(AnnotationsOf(before.annotations))
        invariant volumes == Present(NonSecurity(Volumes(before)) + VolumesFor(secrets[..i]))
        invariant containers == Present(WithMounts(ContainersOf(before.containers), NonSecurity(Mounts(before)) + MountsFor(secrets[..i])))
      {
        OneMoreVolume(NonSecurity(Volumes(before)), secrets, i);
        OneMoreMount(ContainersOf(before.containers), NonSecurity(Mounts(before)), secrets, i);
        InjectPtpSecurityVolume(secrets[i]);
      }
      assert secrets[..|secrets|] == secrets;
    }
  }

  lemma OneMoreVolume(volumes: seq<Item>, secrets: seq<string>, i: nat)
    requires i < |secrets|
    ensures volumes + VolumesFor(secrets[..i]) + [VolumeFor(secrets[i])] == volumes + VolumesFor(secrets[..i + 1])
  {}

  lemma OneMoreMount(containers: seq<Container>, mounts: seq<Item>, secrets: seq<string>, i: nat)
    requires i < |secrets|
    ensures var some := WithMounts(containers, mounts + MountsFor(secrets[..i]));
            WithMounts(some, MountsIn(some) + [MountFor(secrets[i])]) == WithMounts(containers, mounts + MountsFor(secrets[..i + 1]))
  {
    var before, after := mounts + MountsFor(secrets[..i]), mounts + MountsFor(secrets[..i + 1]);
    assert before + [MountFor(secrets[i])] == after;
    Remounted(containers, before, [MountFor(secrets[i])]);
  }

  lemma Remounted(containers: seq<Container>, mounts: seq<Item>, more: seq<Item>)
    ensures var some := WithMounts(containers, mounts);
            WithMounts(some, MountsIn(some) + more) == WithMounts(containers, mounts + more)
  {
    var some := WithMounts(containers, mounts);
    WithMountsHas(containers, mounts);
    MountsReplaced(containers, mounts, MountsIn(some) + more);
    MountsReplaced(containers, [], mounts + more);
    MountsReplaced(containers, [], MountsIn(some) + more);
  }
}
