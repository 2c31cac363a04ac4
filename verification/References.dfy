/**
 Which revision a namespace or a pod refers to, and the scans that decide whether a revision or a
 tag is in use. The lists come from the API; any of them may fail.
 */
module References {
  import opened Wrappers

  type StringMap = map<string, string>

  datatype Namespace = Namespace(name: string, labels: StringMap)

  datatype Pod = Pod(namespace: string, labels: StringMap, annotations: StringMap, phase: string)

  /** A tag, with the revision that its status names; "" if none yet. */
  datatype Tag = Tag(name: string, revision: string)

  /** What the check needs of a revision: its name, and whether it injects every namespace. */
  datatype Subject = Subject(name: string, enableNamespacesByDefault: bool)

  datatype ListError = TagsNotListed | NamespacesNotListed | PodsNotListed | TargetNotFound

  datatype Listing = Listing(
    tags: Option<seq<Tag>>, namespaces: Option<seq<Namespace>>, pods: Option<seq<Pod>>)

  const DEFAULT_REVISION := "default"
  const REV_LABEL := "istio.io/rev"
  const INJECTION_LABEL := "istio-injection"
  const SIDECAR_INJECT_LABEL := "sidecar.istio.io/inject"
  const POD_SUCCEEDED := "Succeeded"

  function Lookup(m: StringMap, k: string): string {
    if k in m then m[k] else ""
  }

  function RevisionOfNamespace(labels: StringMap): string {
    if Lookup(labels, INJECTION_LABEL) == "enabled" then DEFAULT_REVISION else Lookup(labels, REV_LABEL)
  }

  function RevisionOfPodLabels(labels: StringMap): string {
    if Lookup(labels, SIDECAR_INJECT_LABEL) == "false" then ""
    else if Lookup(labels, REV_LABEL) != "" then Lookup(labels, REV_LABEL)
    else if Lookup(labels, SIDECAR_INJECT_LABEL) == "true" then DEFAULT_REVISION
    else ""
  }

  predicate NamespaceReferences(ns: Namespace, name: string) {
    name == RevisionOfNamespace(ns.labels)
  }

  predicate PodReferencesRevision(pod: Pod, ns: Namespace, name: string) {
    || name == Lookup(pod.annotations, REV_LABEL)
    || (RevisionOfNamespace(ns.labels) == "" && name == RevisionOfPodLabels(pod.labels))
  }

  predicate PodReferencesTag(pod: Pod, ns: Namespace, name: string) {
    RevisionOfNamespace(ns.labels) == "" && name == RevisionOfPodLabels(pod.labels)
  }

  /** All the ways in which a namespace can refer to a revision, spelled out. */
  lemma WhenNamespaceReferences(ns: Namespace, name: string)
    requires name != ""
    ensures NamespaceReferences(ns, name) <==>
            if "istio-injection" in ns.labels && ns.labels["istio-injection"] == "enabled" then name == "default"
            else "istio.io/rev" in ns.labels && ns.labels["istio.io/rev"] == name
  {
  }

  /** The same for a pod. */
  lemma WhenPodReferences(pod: Pod, ns: Namespace, name: string)
    requires name != ""
    ensures PodReferencesRevision(pod, ns, name) <==>
            || ("istio.io/rev" in pod.annotations && pod.annotations["istio.io/rev"] == name)
            || (&& !("istio-injection" in ns.labels && ns.labels["istio-injection"] == "enabled")
                && !("istio.io/rev" in ns.labels && ns.labels["istio.io/rev"] != "")
                && !("sidecar.istio.io/inject" in pod.labels && pod.labels["sidecar.istio.io/inject"] == "false")
                && if "istio.io/rev" in pod.labels && pod.labels["istio.io/rev"] != "" then
                     pod.labels["istio.io/rev"] == name
                   else
                     && "sidecar.istio.io/inject" in pod.labels && pod.labels["sidecar.istio.io/inject"] == "true"
                     && name == "default")
  {
  }

  // ----- What the scans look for -----

  predicate TagPins(tags: seq<Tag>, name: string) {
    exists t | t in tags :: t.revision == name
  }

  predicate SomeNamespaceReferences(namespaces: seq<Namespace>, name: string) {
    exists ns | ns in namespaces :: NamespaceReferences(ns, name)
  }

  /** The entry that the index by name ends up with for the `i`-th namespace is that namespace. */
  predicate Indexed(namespaces: seq<Namespace>, i: nat)
    requires i < |namespaces|
  {
    forall j | i < j < |namespaces| :: namespaces[j].name != namespaces[i].name
  }

  predicate Counts(pod: Pod, ns: Namespace, name: string, asTag: bool) {
    && pod.phase != POD_SUCCEEDED
    && pod.namespace == ns.name
    && (if asTag then PodReferencesTag(pod, ns, name) else PodReferencesRevision(pod, ns, name))
  }

  predicate PodCounts(namespaces: seq<Namespace>, pod: Pod, name: string, asTag: bool) {
    exists i | 0 <= i < |namespaces| :: Indexed(namespaces, i) && Counts(pod, namespaces[i], name, asTag)
  }

  predicate SomePodReferences(namespaces: seq<Namespace>, pods: seq<Pod>, name: string, asTag: bool) {
    exists pod | pod in pods :: PodCounts(namespaces, pod, name, asTag)
  }

  predicate InjectsByDefault(rev: Subject) {
    rev.name == DEFAULT_REVISION && rev.enableNamespacesByDefault
  }

  /** The outcome of the check, failed lists included: a list that is not reached cannot fail it. */
  function Verdict(l: Listing, rev: Subject): Result<bool, ListError> {
    if l.tags.None? then Err(TagsNotListed)
    else if TagPins(l.tags.value, rev.name) then Ok(true)
    else if l.namespaces.None? then Err(NamespacesNotListed)
    else if SomeNamespaceReferences(l.namespaces.value, rev.name) then Ok(true)
    else if l.pods.None? then Err(PodsNotListed)
    else Ok(SomePodReferences(l.namespaces.value, l.pods.value, rev.name, false) || InjectsByDefault(rev))
  }

  /** The index that the scan over namespaces builds. */
  ghost predicate IsIndex(index: map<string, Namespace>, namespaces: seq<Namespace>) {
    && (forall n | n in index :: LastNamed(namespaces, n, index[n]))
    && (forall ns | ns in namespaces :: ns.name in index)
  }

  ghost predicate LastNamed(namespaces: seq<Namespace>, n: string, ns: Namespace) {
    ns.name == n && exists i | 0 <= i < |namespaces| :: Indexed(namespaces, i) && namespaces[i] == ns
  }

  lemma IndexOneMore(index: map<string, Namespace>, namespaces: seq<Namespace>, ns: Namespace)
    requires IsIndex(index, namespaces)
    ensures IsIndex(index[ns.name := ns], namespaces + [ns])
  {
    var all, next := namespaces + [ns], index[ns.name := ns];
    forall n | n in next
      ensures LastNamed(all, n, next[n])
    {
      if n == ns.name {
        assert Indexed(all, |namespaces|);
      } else {
        assert LastNamed(namespaces, n, index[n]);
        var i :| 0 <= i < |namespaces| && Indexed(namespaces, i) && namespaces[i] == index[n];
        assert Indexed(all, i);
      }
    }
  }

  lemma IndexFinds(index: map<string, Namespace>, namespaces: seq<Namespace>, pod: Pod, name: string, asTag: bool)
    requires IsIndex(index, namespaces)
    ensures PodCounts(namespaces, pod, name, asTag) <==>
            pod.namespace in index && Counts(pod, index[pod.namespace], name, asTag)
  {
  }

  lemma NamespacesStep(namespaces: seq<Namespace>, i: nat, name: string, index: map<string, Namespace>)
    requires i < |namespaces| && IsIndex(index, namespaces[..i])
    ensures SomeNamespaceReferences(namespaces[..i + 1], name) <==>
            SomeNamespaceReferences(namespaces[..i], name) || NamespaceReferences(namespaces[i], name)
    ensures IsIndex(index[namespaces[i].name := namespaces[i]], namespaces[..i + 1])
    ensures NamespaceReferences(namespaces[i], name) ==> SomeNamespaceReferences(namespaces, name)
  {
    assert namespaces[..i + 1] == namespaces[..i] + [namespaces[i]];
    assert namespaces[i] in namespaces;
    IndexOneMore(index, namespaces[..i], namespaces[i]);
  }

  /** Scans the namespaces, building the index until one of them refers to the name. */
  method ScanNamespaces(namespaces: seq<Namespace>, name: string) returns (found: bool, index: map<string, Namespace>)
    ensures found == SomeNamespaceReferences(namespaces, name)
    ensures !found ==> IsIndex(index, namespaces)
  {
    index := map[];
    for i := 0 to |namespaces|
      invariant IsIndex(index, namespaces[..i])
      invariant !SomeNamespaceReferences(namespaces[..i], name)
    {
      NamespacesStep(namespaces, i, name, index);
      var ns := namespaces[i];
      if NamespaceReferences(ns, name) {
        return true, index;
      }
      index := index[ns.name := ns];
    }
    assert namespaces[..|namespaces|] == namespaces;
    found := false;
  }

  method ScanPods(
      ghost namespaces: seq<Namespace>, index: map<string, Namespace>, pods: seq<Pod>, name: string, asTag: bool)
    returns (found: bool)
    requires IsIndex(index, namespaces)
    ensures found == SomePodReferences(namespaces, pods, name, asTag)
  {
    for i := 0 to |pods|
      invariant forall j | 0 <= j < i :: !PodCounts(namespaces, pods[j], name, asTag)
    {
      var pod := pods[i];
      IndexFinds(index, namespaces, pod, name, asTag);
      if pod.phase == POD_SUCCEEDED {
        continue;
      }
      if pod.namespace in index {
        var ns := index[pod.namespace];
        if (if asTag then PodReferencesTag(pod, ns, name) else PodReferencesRevision(pod, ns, name)) {
          assert LastNamed(namespaces, pod.namespace, ns);
          return true;
        }
      }
    }
    found := false;
  }

  /** `isRevisionReferenced`, with the lists that the API returns when they are asked for. */
  method IsRevisionReferenced(l: Listing, rev: Subject) returns (r: Result<bool, ListError>)
    ensures r == Verdict(l, rev)
  {
    if l.tags.None? {
      return Err(TagsNotListed);
    }
    var tags := l.tags.value;
    for i := 0 to |tags|
      invariant forall j | 0 <= j < i :: tags[j].revision != rev.name
    {
      if tags[i].revision == rev.name {
        return Ok(true);
      }
    }
    if l.namespaces.None? {
      return Err(NamespacesNotListed);
    }
    var found, index := ScanNamespaces(l.namespaces.value, rev.name);
    if found {
      return Ok(true);
    }
    if l.pods.None? {
      return Err(PodsNotListed);
    }
    found := ScanPods(l.namespaces.value, index, l.pods.value, rev.name, false);
    r := Ok(found || InjectsByDefault(rev));
  }

  /** The outcome of the check for a tag, given the revision that its target resolves to, if any. */
  function TagVerdict(l: Listing, name: string, target: Option<Subject>): Result<bool, ListError> {
    if l.namespaces.None? then Err(NamespacesNotListed)
    else if SomeNamespaceReferences(l.namespaces.value, name) then Ok(true)
    else if l.pods.None? then Err(PodsNotListed)
    else if SomePodReferences(l.namespaces.value, l.pods.value, name, true) then Ok(true)
    else if target.None? then Err(TargetNotFound)
    else Ok(name == DEFAULT_REVISION && target.value.enableNamespacesByDefault)
  }

  /** `isRevisionTagReferencedByWorkloads`. */
  method IsTagReferencedByWorkloads(l: Listing, name: string, target: Option<Subject>)
    returns (r: Result<bool, ListError>)
    ensures r == TagVerdict(l, name, target)
  {
    if l.namespaces.None? {
      return Err(NamespacesNotListed);
    }
    var found, index := ScanNamespaces(l.namespaces.value, name);
    if found {
      return Ok(true);
    }
    if l.pods.None? {
      return Err(PodsNotListed);
    }
    found := ScanPods(l.namespaces.value, index, l.pods.value, name, true);
    if found {
      return Ok(true);
    }
    if target.None? {
      return Err(TargetNotFound);
    }
    r := Ok(name == DEFAULT_REVISION && target.value.enableNamespacesByDefault);
  }

  // ----- What the verdict means -----

  ghost predicate UniqueNames(namespaces: seq<Namespace>) {
    forall i, j | 0 <= i < j < |namespaces| :: namespaces[i].name != namespaces[j].name
  }

  /** An absent label or annotation counts as the empty one. */
  ghost predicate LabelIs(labels: StringMap, k: string, v: string) {
    if k in labels then labels[k] == v else v == ""
  }

  ghost predicate NamespaceUses(ns: Namespace, name: string) {
    if LabelIs(ns.labels, "istio-injection", "enabled") then name == "default"
    else LabelIs(ns.labels, "istio.io/rev", name)
  }

  ghost predicate ChoosesNone(ns: Namespace) {
    !LabelIs(ns.labels, "istio-injection", "enabled") && LabelIs(ns.labels, "istio.io/rev", "")
  }

  /** The labels of a pod ask for injection by the revision; the empty name stands for none. */
  ghost predicate PodAsksFor(pod: Pod, name: string) {
    if LabelIs(pod.labels, "sidecar.istio.io/inject", "false") then name == ""
    else if !LabelIs(pod.labels, "istio.io/rev", "") then LabelIs(pod.labels, "istio.io/rev", name)
    else if LabelIs(pod.labels, "sidecar.istio.io/inject", "true") then name == "default"
    else name == ""
  }

  ghost predicate PodUses(pod: Pod, ns: Namespace, name: string, asTag: bool) {
    && pod.phase != "Succeeded" && pod.namespace == ns.name
    && (|| (!asTag && LabelIs(pod.annotations, "istio.io/rev", name))
        || (ChoosesNone(ns) && PodAsksFor(pod, name)))
  }

  /** A namespace or a pod refers to the revision or the tag of that name. */
  ghost predicate WorkloadsUse(namespaces: set<Namespace>, pods: set<Pod>, name: string, asTag: bool) {
    || (exists ns | ns in namespaces :: NamespaceUses(ns, name))
    || (exists pod, ns | pod in pods && ns in namespaces :: PodUses(pod, ns, name, asTag))
  }

  /** Something in the cluster refers to the revision. */
  ghost predicate InUse(tags: set<Tag>, namespaces: set<Namespace>, pods: set<Pod>, rev: Subject) {
    || (exists t | t in tags :: t.revision == rev.name)
    || WorkloadsUse(namespaces, pods, rev.name, false)
    || (rev.name == "default" && rev.enableNamespacesByDefault)
  }

  function Elements<T>(s: seq<T>): set<T> {
    set x | x in s
  }

  lemma ReferencesAreUses(ns: Namespace, pod: Pod, name: string, asTag: bool)
    ensures NamespaceReferences(ns, name) <==> NamespaceUses(ns, name)
    ensures Counts(pod, ns, name, asTag) <==> PodUses(pod, ns, name, asTag)
  {
  }

  lemma NamespaceScanFindsUses(namespaces: seq<Namespace>, name: string)
    ensures SomeNamespaceReferences(namespaces, name) <==> exists ns | ns in namespaces :: NamespaceUses(ns, name)
  {
    forall ns
      ensures NamespaceReferences(ns, name) <==> NamespaceUses(ns, name)
    {
      ReferencesAreUses(ns, Pod("", map[], map[], ""), name, true);
    }
  }

  lemma PodScanFindsUses(namespaces: seq<Namespace>, pods: seq<Pod>, name: string, asTag: bool)
    requires UniqueNames(namespaces)
    ensures SomePodReferences(namespaces, pods, name, asTag) <==>
            exists pod, ns | pod in pods && ns in namespaces :: PodUses(pod, ns, name, asTag)
  {
    if pod, ns :| pod in pods && ns in namespaces && PodUses(pod, ns, name, asTag) {
      ReferencesAreUses(ns, pod, name, asTag);
      var i :| 0 <= i < |namespaces| && namespaces[i] == ns;
      assert Indexed(namespaces, i);
      assert PodCounts(namespaces, pod, name, asTag);
    }
    if pod :| pod in pods && PodCounts(namespaces, pod, name, asTag) {
      var i :| 0 <= i < |namespaces| && Counts(pod, namespaces[i], name, asTag);
      ReferencesAreUses(namespaces[i], pod, name, asTag);
    }
  }

  /** What the two scans look for, in whatever order the lists are. */
  lemma ScansFindUses(namespaces: seq<Namespace>, pods: seq<Pod>, name: string, asTag: bool)
    requires UniqueNames(namespaces)
    ensures SomeNamespaceReferences(namespaces, name) || SomePodReferences(namespaces, pods, name, asTag) <==>
            WorkloadsUse(Elements(namespaces), Elements(pods), name, asTag)
  {
    NamespaceScanFindsUses(namespaces, name);
    PodScanFindsUses(namespaces, pods, name, asTag);
  }

  /** With all lists at hand the check says exactly whether the revision is in use, in whatever order they are. */
  lemma VerdictIsInUse(l: Listing, rev: Subject)
    requires l.tags.Some? && l.namespaces.Some? && l.pods.Some?
    requires UniqueNames(l.namespaces.value)
    ensures Verdict(l, rev) ==
            Ok(InUse(Elements(l.tags.value), Elements(l.namespaces.value), Elements(l.pods.value), rev))
  {
    ScansFindUses(l.namespaces.value, l.pods.value, rev.name, false);
  }

  /** A list that fails fails the check, unless an earlier list has already decided it. */
  lemma VerdictFailsIff(l: Listing, rev: Subject)
    ensures var pinned := l.tags.Some? && exists t | t in l.tags.value :: t.revision == rev.name;
            var chosen := l.namespaces.Some? && exists ns | ns in l.namespaces.value :: NamespaceUses(ns, rev.name);
            && (Verdict(l, rev) == Err(TagsNotListed) <==> l.tags.None?)
            && (Verdict(l, rev) == Err(NamespacesNotListed) <==> l.tags.Some? && !pinned && l.namespaces.None?)
            && (Verdict(l, rev) == Err(PodsNotListed) <==>
                  l.tags.Some? && !pinned && l.namespaces.Some? && !chosen && l.pods.None?)
            && (l.tags.Some? && (pinned || chosen) ==> Verdict(l, rev) == Ok(true))
            && Verdict(l, rev) != Err(TargetNotFound)
  {
    if l.namespaces.Some? {
      NamespaceScanFindsUses(l.namespaces.value, rev.name);
    }
  }

  /** Whatever lists fail, a false verdict is never given to a revision in use. */
  lemma FalseVerdictIsSound(l: Listing, rev: Subject)
    requires Verdict(l, rev) == Ok(false)
    ensures l.tags.Some? && l.namespaces.Some? && l.pods.Some?
    ensures UniqueNames(l.namespaces.value) ==>
              !InUse(Elements(l.tags.value), Elements(l.namespaces.value), Elements(l.pods.value), rev)
  {
    if UniqueNames(l.namespaces.value) {
      VerdictIsInUse(l, rev);
    }
  }

  /** The check for a tag, with both lists at hand: the target matters only if no workload uses the tag. */
  lemma TagVerdictIsUse(l: Listing, name: string, target: Option<Subject>)
    requires l.namespaces.Some? && l.pods.Some? && UniqueNames(l.namespaces.value)
    ensures TagVerdict(l, name, target) ==
            if WorkloadsUse(Elements(l.namespaces.value), Elements(l.pods.value), name, true) then Ok(true)
            else if target.None? then Err(TargetNotFound)
            else Ok(name == "default" && target.value.enableNamespacesByDefault)
  {
    ScansFindUses(l.namespaces.value, l.pods.value, name, true);
  }

  lemma TagVerdictFailsIff(l: Listing, name: string, target: Option<Subject>)
    ensures var chosen := l.namespaces.Some? && exists ns | ns in l.namespaces.value :: NamespaceUses(ns, name);
            && (TagVerdict(l, name, target) == Err(NamespacesNotListed) <==> l.namespaces.None?)
            && (TagVerdict(l, name, target) == Err(PodsNotListed) <==>
                  l.namespaces.Some? && !chosen && l.pods.None?)
            && (chosen ==> TagVerdict(l, name, target) == Ok(true))
            && TagVerdict(l, name, target) != Err(TagsNotListed)
  {
    if l.namespaces.Some? {
      NamespaceScanFindsUses(l.namespaces.value, name);
    }
  }

  /** The workload part of the tag check: a pod's injection annotation does not count for a tag. */
  lemma TagWorkloadsCountForRevision(l: Listing, rev: Subject)
    requires l.tags.Some? && l.namespaces.Some? && l.pods.Some?
    requires TagVerdict(l, rev.name, Some(rev)) == Ok(true)
    ensures Verdict(l, rev) == Ok(true)
  {
  }
}
