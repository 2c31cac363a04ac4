# Verified model of the Sail operator's core

The Sail operator runs Istio control planes. An `Istio` resource owns `IstioRevision` resources, each a
control plane installed with Helm; `IstioRevisionTag` resources give revisions stable names; pods and
namespaces choose a revision by labels and annotations. This project models the parts of the operator
that decide something and proves what they promise:

- **Life of revisions** (`Lifecycle.dfy`, `PruningSafety.dfy`, `TagPinning.dfy`, `LifecycleExample.dfy`, over
  `Conditions.dfy`, `References.dfy`, `Prune.dfy`, `StatusUpdate.dfy`, `ActiveRevision.dfy`). A state machine in
  which users, workloads, tags, two controllers, failing API calls and crashes interleave. In every run, a
  revision is deleted only in a pass that listed it when it was owned and not the active one, and when every
  usage check that the server had for it, from one on that was taken a grace period minus one second before the
  deletion, had found nothing that refers to it. The second is the price of truncating transition times, and a
  concrete run shows that it is really lost. Between the listing and the deletion this can change: it is still
  true of the object that is deleted, and of everything recorded for it by then, if and only if the revision was
  not finalized in between and no check with another result was recorded. Two concrete runs show what happens
  otherwise: a revision is deleted that has just been recorded as in use, and another object that has taken the
  name is deleted in place of the one that was listed.
- **Finalizers** (`FinalizerProtocol.dfy`, `StandardReconciler.dfy`). The protocol between a controller with a
  lagging cache and an API server with version checks, with updates that arrive late and crashes anywhere.
- **Values** (`JsonTree.dfy`, `Schema.dfy`, `NestedFields.dfy`, `IstioValues.dfy`, `RevisionValues.dfy`,
  `ValueSources.dfy` on pure trees; `MergeHeap.dfy`, `ValuesHeap.dfy`, `ValuesPipeline.dfy` on mutable maps). The
  pipeline that computes Helm values from digests, vendor defaults, profiles and overrides: it is idempotent,
  keeps every leaf the user set, takes every other leaf from the highest source that says something about its
  path, and as run in memory never changes the vendor defaults although it shares sub-maps.
- **Helm releases, versions, post-rendering** (`ChartReleases.dfy`, `SemVer.dfy`, `IstioVersions.dfy`,
  `PostRenderer.dfy`).

Code that the source writes as loops or in-place updates is written as methods of classes and loops here,
and each such method is proved equal to a function of its inputs or of the old state; the properties are
then lemmas about these functions and about whole runs.

The API server, the clock, Helm, files and the environment appear as parameters (answers, readings,
outcomes), over all of which the results quantify.

Conventions: times are natural numbers of nanoseconds since the zero time; a Go error is `Err` of a
datatype; a typed `*v1.Values` is represented by its JSON encoding, so encoding it is the identity and
decoding is the projection `Schema.Decode`.

Where comments in the source and the code disagree, the model follows the code:

- `pkg/istiovalues/vendor_defaults.go:95` calls the user's values the base and the vendor defaults the
  overrides; the code merges the user's values over the defaults (line 118).
- `pkg/revision/prune.go:81-83` says the request is queued again so that the next revision is pruned at the
  right time; if its deadline is reached during the loop, in particular if it is now, the delay is not
  positive and nothing is queued (`Prune.RequeuedIffNothingDue`, `Prune.DeadlineNowIsMissed`).
- The grace period in seconds is multiplied into an int64 number of nanoseconds and wraps above 9223372036
  seconds (`Prune.GraceIsExactIff`, `Prune.OverflowedGraceIsNone`).

The assumptions of the theorems about runs are stated where the steps are defined. For pruning, two reads are
of the present: a controller reads the status it last wrote (`PruningSafety.StaleReadBringsBackOldTime` shows
what happens otherwise), and the list of revisions that is pruned shows the server at the moment of listing,
from which on the exact condition above counts. All other reads may be late. The bound is measured from the
moment at which the usage check took its time stamp. Measured from the moment at which the result reached the
server it is less by that delay (`PruningSafety.PrunedAfterWrite`), and a concrete run has a revision deleted as
soon as a late result arrives. For finalizers: one worker per object, a cache that does not go back
(`FinalizerProtocol.CacheMustNotGoBack`), and no one else takes the controller's finalizer away.

The theorems about values assume of the values type that the fields which the pipeline touches are optional
strings, or a map of strings, inside structs of optional fields (`IstioValues.IsValuesType`). This is how
`api/v1/values_types.gen.go` declares `Values`, `GlobalConfig`, `PilotConfig`, `ProxyConfig` and
`ProxyInitConfig` (lines 954, 261, 502, 716 and 812).

## Model

| member | source | states |
|---|---|---|
| `PruningSafety.PrunedOnlyAfterGracePeriod` | pkg/revision/prune.go:32-68 | In every run, each deletion belongs to a pass that listed exactly what the server then had under the name: owned, not the active revision, of an Istio that manages no external control plane, and found unused by every check the server had from one on that was taken at least the grace period minus one second plus two nanoseconds before the deletion. Until the deletion the object is the same and everything recorded for it found it unused if and only if it was not finalized and no other result was written in between |
| `PruningSafety.PrunedOnlyAfterConfiguredSeconds` | controllers/istio/istio_controller.go:149-159 | The same with the configured number of seconds, for every period up to 9223372036 |
| `PruningSafety.PrunedAfterWrite` | controllers/istiorevision/istiorevision_controller.go:363-377 | The same measured from the write of the check's result, less the delay between time stamp and write |
| `PruningSafety.StillUnusedIff` | pkg/revision/prune.go:43-68 | From any moment at which all checks from some on found a revision unused: at a later moment the server has the same object and all its checks so far found it unused if and only if it was not finalized and no other result was written in between |
| `LifecycleExample.UsedObjectIsDeleted` | pkg/revision/prune.go:34-66 | A run in which the listed object is recorded as in use before the pruner gets to it, and is deleted |
| `LifecycleExample.AnotherObjectIsDeleted` | pkg/revision/prune.go:64-66 | A run in which the listed object has gone and another one with its name, for which nothing was ever recorded, is deleted |
| `Lifecycle.StepKeepsInv` | controllers/istiorevision/istiorevision_controller.go:342-377 | Every step keeps: recorded checks are what the lists then showed, the InUse condition tells since when they agree, and no one but the worker changes the status it works on |
| `Lifecycle.SetStaysExplained` | api/v1/istiorevision_types.go:90-104 | Setting InUse keeps the transition time the truncated time of the first check of the current status |
| `PruningSafety.StaleReadBringsBackOldTime` | pkg/kube/status_patch.go:39-52 | Replacing the whole status from an old read makes a revision that was in use a moment ago expire at once |
| `TagPinning.PinnedIsNeverFoundUnused` | controllers/istiorevision/istiorevision_controller.go:519-533 | A usage check that reads the tags at a moment when a tag's status names the revision records that it is in use |
| `TagPinning.PinnedIsPrunedOnOldChecksOnly` | controllers/istiorevision/istiorevision_controller.go:519-533 | If tags have named a revision ever since some moment, a deletion rests only on checks that read the tags before it |
| `TagPinning.TagNamesOldOrTarget` | controllers/istiorevisiontag/istiorevisiontag_controller.go:294-299 | At every moment of a run while a tag exists its status names exactly one revision: the one it named at an earlier moment, or the target of a successful reconciliation since; so it never ceases to name one |
| `LifecycleExample.PruningCanHappen` | pkg/revision/prune.go:64-68 | A run exists in which a revision is deleted the grace period minus one second plus two nanoseconds after its check, so the bound is tight, and at the very time at which the result of the check is written |
| `Conditions.Status.SetCondition` | api/v1/istiorevision_types.go:76-105 | The loop that replaces in place or appends computes `Set` of the old list |
| `Conditions.Status.GetCondition` | api/v1/istiorevision_types.go:64-73 | The search returns the first condition of the type, or Unknown at the zero time |
| `Conditions.SetOne` | api/v1/istiorevision_types.go:90-104 | Types keep their places, a new type goes last, only the type set changes, and its time changes exactly if its status does |
| `Conditions.RunKeepsUnique` | api/v1/istiorevision_types.go:90-104 | Types stay unique under any sequence of calls |
| `Conditions.RunHoldsLastSet` | api/v1/istiorevision_types.go:64-105 | After any sequence of calls a type has the status, reason and message set last, and is unchanged if it was not set |
| `Conditions.TransitionTimeIsLastChange` | api/v1/istiorevision_types.go:84-97 | The transition time is the truncated time of the call that last changed the status |
| `Conditions.TransitionTimeNeverDecreases` | api/v1/istiorevision_types.go:84-97 | Under a monotone clock the transition time of a type never goes back |
| `References.IsRevisionReferenced` | controllers/istiorevision/istiorevision_controller.go:519-569 | The early-exit scans with the namespace index return the declarative verdict, including which failing list is reported |
| `References.VerdictIsInUse` | controllers/istiorevision/istiorevision_controller.go:519-584 | With all lists at hand the verdict is true exactly if a tag, a namespace label (istio-injection before istio.io/rev), the annotation or the labels of a non-succeeded pod in a listed namespace, or the injection default refers to the revision, each spelled out on labels; it depends on the sets only, not on order |
| `References.VerdictFailsIff` | controllers/istiorevision/istiorevision_controller.go:519-569 | The check fails with the error of a list exactly if that list fails and no earlier list has decided it |
| `References.FalseVerdictIsSound` | controllers/istiorevision/istiorevision_controller.go:519-569 | A negative verdict means that no list failed and nothing refers to the revision |
| `References.IsTagReferencedByWorkloads` | controllers/istiorevisiontag/istiorevisiontag_controller.go:375-418 | The same scans for a tag return their declarative verdict |
| `References.TagVerdictIsUse` | controllers/istiorevisiontag/istiorevisiontag_controller.go:375-427 | A tag is in use exactly if a namespace or the labels of a pod refer to it, or it is the default one and its target injects by default; a missing target fails the check only if no workload uses the tag |
| `References.TagVerdictFailsIff` | controllers/istiorevisiontag/istiorevisiontag_controller.go:375-400 | The exact cases in which a failing list fails the check for a tag |
| `References.TagWorkloadsCountForRevision` | controllers/istiorevisiontag/istiorevisiontag_controller.go:424-427 | What counts as use of a tag's name counts as use of a revision of that name |
| `References.WhenNamespaceReferences` | pkg/revision/references.go:22-26 | A namespace refers to a revision exactly if istio-injection is "enabled" and the revision is "default", or it is not and istio.io/rev names the revision |
| `References.WhenPodReferences` | pkg/revision/references.go:22-48 | The ways in which a pod refers to a revision, spelled out: by its injection annotation, or by its own labels if its namespace chooses none and it does not opt out |
| `Prune.ListOwned` | pkg/revision/list.go:27-40 | The loop returns the owned revisions in order, or the list error |
| `Prune.OwnedExactly` | pkg/revision/list.go:27-52 | What is listed are the revisions with the UID among their owners, each once and in order, and no other |
| `Prune.Client.PruneInactive` | pkg/revision/prune.go:32-86 | Deletes what is expired up to the first failing delete, reports that failure, and otherwise the time until the earliest deadline still waiting |
| `Prune.ExpiredAmongExactly` | pkg/revision/prune.go:43-68 | The deletions are each revision that is not active, InUse False and with its deadline strictly before the reading taken for it, once and in order, and no other |
| `Prune.ExpiredIff` | pkg/revision/prune.go:44-63 | A revision is expired exactly if it is not the active one, its first InUse condition is False, and that has been so for longer than the grace period |
| `Prune.FailureDeletesPrefix` | pkg/revision/prune.go:64-68 | What is deleted before a failure is a prefix of what a complete run deletes |
| `Prune.NextStep` | pkg/revision/prune.go:69-74 | The candidate deadline stays the minimum over the revisions seen so far that wait |
| `Prune.RequeuedIffNothingDue` | pkg/revision/prune.go:76-85 | A later run is scheduled if and only if some revision waits and no deadline has been reached when the loop ends |
| `Prune.DeadlineNowIsMissed` | pkg/revision/prune.go:62-85 | A deadline equal to now is neither deleted nor scheduled |
| `Prune.GraceIsExactIff` | controllers/istio/istio_controller.go:149-159 | The int64 product is the configured period if and only if it is at most 9223372036 seconds |
| `Prune.GraceMeans` | controllers/istio/istio_controller.go:149-159 | 30 seconds unless configured, none if negative, and else the configured number of seconds |
| `Prune.OverflowedGraceIsNone` | controllers/istio/istio_controller.go:149-159 | One second more and a revision expires as soon as it is seen unused |
| `StatusUpdate.SetChangesNothingIff` | api/v1/istiorevision_types.go:90-104 | Setting a condition leaves the list as it is if and only if it already has that status, reason and message |
| `StatusUpdate.DetermineRevisionStatus` | controllers/istiorevision/istiorevision_controller.go:342-361 | The status computed on a copy is the four conditions set in order and the derived state |
| `StatusUpdate.RevisionStatusIsQuiescent` | controllers/istiorevision/istiorevision_controller.go:342-377 | From the same observations the status computed again is the same, whatever the clocks read |
| `StatusUpdate.ReconcileTwice` | controllers/istiorevision/istiorevision_controller.go:363-377 | Of two reconciliations that observe the same, the second writes nothing unless the patch of the first failed, and then it makes up for it; with a status that is up to date neither writes |
| `StatusUpdate.HealthyIff` | controllers/istiorevision/istiorevision_controller.go:379-386 | A revision's state is Healthy if and only if its Reconciled, Ready and DependenciesHealthy conditions are all True, that is, if and only if the reconciliation succeeded, istiod or the remote probe is ready, and Istio CNI is not needed or healthy |
| `StatusUpdate.RevisionStatusReports` | controllers/istiorevision/istiorevision_controller.go:342-512 | Each stored condition is True, False or Unknown exactly as the observations say, the state is the reason of the first thing that is wrong, and conditions of other types stay |
| `StatusUpdate.StateIsFirstReason` | controllers/istiorevision/istiorevision_controller.go:379-386 | The state is the reason of the first of the three stored conditions that is not True |
| `StatusUpdate.DetermineTagStatus` | controllers/istiorevisiontag/istiorevisiontag_controller.go:285-304 | A tag's status: the pinned revision and namespace move only with a success |
| `StatusUpdate.TagStatusReports` | controllers/istiorevisiontag/istiorevisiontag_controller.go:285-373 | What a tag's conditions, state and pinned revision are for each outcome of its reconciliation and of its usage check |
| `StatusUpdate.TagStatusIsQuiescent` | controllers/istiorevisiontag/istiorevisiontag_controller.go:285-320 | The status of a tag is quiescent as well |
| `StatusUpdate.DetermineIstioStatus` | controllers/istio/istio_controller.go:222-299 | The branches over the reconcile error and the lookup of the active revision, and the counting loop, compute the specified status |
| `StatusUpdate.IstioStatusIsQuiescent` | controllers/istio/istio_controller.go:222-314 | The status of Istio is quiescent too |
| `StatusUpdate.IstioMirrorsActiveRevision` | controllers/istio/istio_controller.go:267-271 | Without an error Istio reports its active revision's three conditions and state |
| `StatusUpdate.IstioReportsErrors` | controllers/istio/istio_controller.go:228-283 | What Istio reports if its reconciliation failed, or the active revision is missing or cannot be read; the name of the active revision stays only in the first case |
| `StatusUpdate.CountersMean` | controllers/istio/istio_controller.go:284-298 | The counters are the numbers of owned revisions, of those that are ready and of those in use, or -1 if they cannot be listed |
| `StatusUpdate.CountWithinTotal` | controllers/istio/istio_controller.go:284-297 | The counters never exceed the total and equal it only if every owned revision has the condition |
| `ActiveRevision.Cluster.CreateOrUpdate` | pkg/revision/reconcile.go:29-68 | Creates the revision, or updates version and values while keeping namespace and owners; on failure nothing changes |
| `ActiveRevision.Cluster.ReconcileActiveRevision` | controllers/istio/istio_controller.go:123-147 | Computes the values for the active name and creates or updates it; succeeds exactly if nothing fails |
| `ActiveRevision.RoundWritesActiveRevision` | controllers/istio/istio_controller.go:123-190 | A successful round leaves, under the name of the Istio, for the RevisionBased strategy followed by a dash and the version with dashes for dots, a revision with the resolved version and the values computed from the spec; an existing one keeps its namespace and owners, nothing else changes, and a round that fails changes nothing |
| `ActiveRevision.OtherRevisionsStay` | controllers/istio/istio_controller.go:123-190 | Over any sequence of rounds, revisions under other names than the active ones stay as they are |
| `ActiveRevision.OwnRevisionIff` | controllers/istio/istio_controller.go:176-190 | Under RevisionBased two versions of one Istio have revisions of their own if and only if they differ in more than dots and dashes |
| `ActiveRevision.UpgradesKeepOldRevision` | controllers/istio/istio_controller.go:176-190 | Under RevisionBased, upgrades to such versions leave the old revision as it was |
| `ActiveRevision.InPlaceUpdatesOneRevision` | controllers/istio/istio_controller.go:176-190 | Under any other strategy the one revision has the version and the values of the last round, and no other is touched |
| `ActiveRevision.WrittenRevisionMatchesIff` | pkg/istiovalues/overrides.go:23-41 | What is written passes the name check, and the namespace check if and only if the revision is in the Istio's namespace |
| `ActiveRevision.OwnedRevisionsAlwaysMatch` | pkg/revision/reconcile.go:41-66 | Over any sequence of edits and failures every revision the Istio owns passes both checks |
| `ActiveRevision.OwnedRevisionsAreAccepted` | controllers/istiorevision/istiorevision_controller.go:127-163 | So validation accepts each of them if and only if its version and namespace are set, the namespace is usable and no tag of the name comes first |
| `ActiveRevision.InvalidBecause` | controllers/istiorevision/istiorevision_controller.go:127-163 | Validation answers with the error of the first check that fails |
| `FinalizerProtocol.StepKeepsInv` | pkg/reconciler/reconciler.go:68-93 | The invariant that ties cache, versions, deletion, updates under way and installed charts is kept by every step |
| `FinalizerProtocol.ReconcilesOnlyUnderFinalizer` | pkg/reconciler/reconciler.go:80-93 | In every run, while the object is being reconciled the server's object carries the finalizer |
| `FinalizerProtocol.GoneOnlyWhenFinalized` | pkg/reconciler/reconciler.go:80-88 | In every run the object is gone only after a finalization that succeeded with no reconciliation after it |
| `FinalizerProtocol.UpdatesTouchOnlyOwnFinalizer` | pkg/kube/finalizers.go:37-79 | An update of the controller that takes effect changes its own finalizer and nothing else, and removes it only from an object being deleted |
| `FinalizerProtocol.CacheMustNotGoBack` | pkg/reconciler/reconciler.go:71-93 | With a cache that goes back a deleted object would be reconciled |
| `StandardReconciler.Reconciler.Reconcile` | pkg/reconciler/reconciler.go:68-114 | One pass makes exactly the specified calls, in order, and answers each kind of error as specified |
| `StandardReconciler.Reconciler.RemoveFinalizer` | pkg/kube/finalizers.go:37-57 | Updates the object without the finalizer; not found is done, a conflict is retried after two seconds |
| `StandardReconciler.Reconciler.AddFinalizer` | pkg/kube/finalizers.go:59-79 | Updates the object with the finalizer, with the same outcomes |
| `StandardReconciler.PassIsProtocolRun` | pkg/reconciler/reconciler.go:68-114 | A pass is a run of the protocol's worker from reading the cache until it is idle, with the same calls in the same order, whatever is answered |
| `StandardReconciler.PassFailsIff` | pkg/reconciler/reconciler.go:71-113 | The exact error that a pass returns, if any; not found, conflicts, transient and validation errors are among those that it does not return |
| `StandardReconciler.WhenTriedAgain` | pkg/reconciler/reconciler.go:95-113 | A pass asks for another one at once if and only if the controller was called and its error is one of the four kinds that pass or its result asks for it, and after two seconds exactly if an update met a conflict |
| `StandardReconciler.PassIsSafe` | pkg/reconciler/reconciler.go:80-95 | Each call of a pass is made if and only if it is due, finalization first, and an update changes the reconciler's own finalizer alone |
| `JsonTree.OverlayUnits` | pkg/istiovalues/profiles.go:120-145 | The empty map is the unit of the merge on both sides |
| `JsonTree.OverlayAt` | pkg/istiovalues/profiles.go:120-145 | At a path where the overrides have a leaf a merge has that leaf, and where they say nothing it has what the base has |
| `JsonTree.OverlayIdempotent` | pkg/istiovalues/profiles.go:120-145 | Merging the same overrides again changes nothing |
| `JsonTree.AbsorbedIffNoEffect` | pkg/istiovalues/profiles.go:120-145 | A merge leaves its overrides as they are if and only if they have every key of the base |
| `JsonTree.OverlayAssociativeIff` | pkg/istiovalues/profiles.go:120-145 | Three merges associate if and only if no leaf of the middle one hides a map that the last one does not already cover |
| `JsonTree.MapLeafMapDoesNotAssociate` | pkg/istiovalues/profiles.go:137-142 | A map, a leaf and a map at one key do not associate |
| `JsonTree.FoldIsOneMerge` | pkg/istiovalues/profiles.go:66-95 | Folding layers whose kinds agree is one merge of their combined overlay |
| `Schema.DecodeIsProjection` | pkg/helm/values.go:80-92 | Decoding what decoding yields changes nothing |
| `Schema.DecodesIff` | pkg/helm/values.go:80-92 | Values decode if and only if each is null or of the kind that the type declares, all the way down |
| `Schema.OmittedIff` | pkg/helm/values.go:68-92 | A field is dropped if and only if it is optional, and absent, null, an empty map or list, or the zero of a plain scalar |
| `Schema.DecodeKeepsTyped` | pkg/helm/values.go:68-92 | Decoding keeps every leaf of a typed value that its input keeps |
| `Schema.DefaultsAreAbsorbed` | pkg/istiovalues/vendor_defaults.go:117-118 | Defaults merged under a typed value that covers an earlier merge with them decode to that value |
| `NestedFields.SetIfAbsentMeaning` | pkg/helm/values.go:53-62 | SetIfAbsent fails exactly if a level above is not a map; otherwise a present field and all else stay, an absent one is set |
| `IstioValues.ApplyProfilesIsFold` | pkg/istiovalues/profiles.go:66-95 | Profiles apply if and only if every name is given and readable, and the result is the fold of each once |
| `IstioValues.ValuesTypeExists` | api/v1/values_types.gen.go:954-984 | What the theorems assume of the values type can be met |
| `IstioValues.DigestsKeepUserValues` | pkg/istiovalues/digests.go:23-70 | Digests yield a typed value and keep everything the user set |
| `IstioValues.DigestsAddNothing` | pkg/istiovalues/digests.go:23-70 | Digests add nothing to a value with every key they once left |
| `IstioValues.OverridesTouchThreeLeaves` | pkg/istiovalues/overrides.go:23-41 | Overrides change leaves at three paths only |
| `RevisionValues.ResultIsTyped` | pkg/revision/values.go:31-65 | Each stage yields a typed value with everything the stage before it had |
| `RevisionValues.ComputeValuesIdempotent` | pkg/revision/values.go:31-65 | Computing the values of computed values returns them, for every environment |
| `RevisionValues.UserLeavesWin` | pkg/revision/values.go:37-64 | Every leaf the user set is in the result, at every path but the three overridden ones |
| `RevisionValues.OverriddenLeaves` | pkg/istiovalues/overrides.go:23-41 | At those three the result has the revision name ("" for default), the namespace and "" |
| `ValueSources.LeafOfVendor` | pkg/istiovalues/vendor_defaults.go:56-119 | A leaf about which neither the user nor a digest or an override says anything is that of the vendor defaults for Istio in the version, as the type lets it through |
| `ValueSources.LeafOfChosenProfile` | pkg/istiovalues/profiles.go:55-95 | Where these say nothing either it is that of the profile the user names, or else of the operator's, and where that says nothing or there is none, that of the default profile |
| `ValueSources.ProfilesAreThere` | pkg/istiovalues/profiles.go:66-95 | Values are computed only if the files of the default and the chosen profile are readable |
| `ValueSources.PlatformOfOperator` | pkg/istiovalues/profiles.go:41-45 | A platform that nothing else sets is the operator's, and absent if that is plain Kubernetes |
| `ValueSources.CompliancePolicyOfOperator` | pkg/istiovalues/fips.go:48-55 | A compliance policy that nothing else sets is fips-140-2 in FIPS mode and absent otherwise |
| `ValueSources.NothingAnywhere` | pkg/revision/values.go:31-65 | At a path about which no source says anything the result has nothing |
| `ValueSources.ImagesOfDigests` | pkg/istiovalues/digests.go:23-70 | Unless the user sets a global hub or tag: the digest of istiod is at pilot.image if the user sets no image, hub or tag there, and that of the proxy at the two proxy images that the user does not set |
| `RevisionValues.DigestsLeaveResultAlone` | pkg/revision/dependency.go:28-29 | Recomputing writes nothing into the values of the revision it is given |
| `RevisionValues.RecomputationIsConservative` | pkg/revision/dependency.go:27-46 | Recomputing without the user's profile changes no leaf of a revision's values |
| `RevisionValues.ExplicitCNIDecides` | pkg/revision/dependency.go:27-46 | An explicit pilot.cni.enabled decides, on every platform |
| `RevisionValues.ExplicitPlatformDecides` | pkg/revision/dependency.go:38-45 | An explicit global.platform decides: the answer does not depend on the platform the operator runs on, and is that of the revision's platform |
| `RevisionValues.DefaultProfileDecides` | pkg/revision/dependency.go:27-46 | If the user names no profile, the default one or the operator's, the answer can be read off the revision: on OpenShift CNI is needed unless it is disabled, elsewhere only if it is enabled |
| `RevisionValues.NeedsCNIMeans` | pkg/revision/dependency.go:34-45 | The decision for each state of the flag; without one it is true on OpenShift only |
| `MergeHeap.MergeOverwrite` | pkg/istiovalues/profiles.go:120-145 | On disjoint tree-shaped maps the in-place merge terminates, leaves the base the overlay, and leaves the overrides laid out as they were, although they now share sub-maps; nothing else is written |
| `MergeHeap.MergeIsOverlay` | pkg/istiovalues/profiles.go:125-143 | The shape the merge leaves stands for the overlay of the trees |
| `MergeHeap.MergeIsTreeShaped` | pkg/istiovalues/profiles.go:125-143 | The merged maps are tree-shaped again, so further merges are safe |
| `ValuesHeap.DeepCopy` | pkg/istiovalues/vendor_defaults.go:117 | The copy stands for the same tree and consists of new maps only |
| `ValuesHeap.SetString` | pkg/helm/values.go:41-43 | Setting in place makes the missing maps and yields the specified tree, or fails and changes nothing |
| `ValuesHeap.Search` | pkg/helm/values.go:53-55 | The walk down the path finds what the specification finds |
| `ValuesPipeline.ApplyDigestsTo` | pkg/istiovalues/digests.go:23-70 | The assignments to the caller's values amount to the specified value |
| `ValuesPipeline.ApplyVendorDefaultsTo` | pkg/istiovalues/vendor_defaults.go:96-119 | Merges over a copy and writes to nothing that existed before |
| `ValuesPipeline.GetValuesFromProfiles` | pkg/istiovalues/profiles.go:66-95 | The loop with the set of applied profiles computes the specified merge or error |
| `ValuesPipeline.ComputeValuesOf` | pkg/revision/values.go:31-65 | The pipeline in memory returns new values equal to the pure pipeline's, writes only digests to the caller's values, and leaves the vendor defaults as they were |
| `ValuesPipeline.ComputeAll` | pkg/istiovalues/vendor_defaults.go:28-32 | After any sequence of computations every result is the one the initial vendor defaults yield |
| `ChartReleases.ChartManager.UpgradeOrInstallChart` | pkg/helm/chartmanager.go:64-152 | The sequence of actions and branches performs the specified pass |
| `ChartReleases.ChartManager.UninstallChart` | pkg/helm/chartmanager.go:155-169 | Succeeds exactly if there is no release or it is removed |
| `ChartReleases.PassRecovers` | pkg/helm/chartmanager.go:84-151 | From any release that an interrupted action can leave: no unexpected status, upgrade only on deployed, install only on none, success has installed or upgraded last and ends deployed, and a failure leaves such a release again |
| `ChartReleases.UnexpectedStatusIff` | pkg/helm/chartmanager.go:105-124 | The default branch is taken exactly for an unknown, uninstalled or superseded newest release |
| `ChartReleases.OnePassSuffices` | pkg/helm/chartmanager.go:105-151 | Once Helm's actions succeed, one call gets any such release deployed |
| `ChartReleases.AlwaysRecoverable` | pkg/helm/chartmanager.go:64-169 | No sequence of interrupted calls gets a release into a state that the next call cannot handle |
| `IstioVersions.MustParse` | pkg/istioversion/version.go:103-157 | The two passes compute the specified list, defaults, map and names, or the first reason to panic |
| `IstioVersions.TablesOfFile` | pkg/istioversion/version.go:118-156 | The lists of versions, aliases and names out of support have exactly their entries in the order of the file; the first supported version is the newest and the default, the second the base |
| `IstioVersions.RefusedIff` | pkg/istioversion/version.go:118-143 | The file is refused exactly for the first alias that has other fields, or else for the first whose reference is neither a supported version nor an earlier alias |
| `IstioVersions.NamesMapToEndOfChain` | pkg/istioversion/version.go:137-143 | With unique names, a name is mapped to a version if and only if its chain of references ends there |
| `IstioVersions.ResolveIsIdempotent` | pkg/istioversion/version.go:79-85 | A resolved name is that of a supported version and resolves to itself |
| `IstioVersions.EolDoesNotResolve` | pkg/istioversion/version.go:121-124 | The name of a version out of support does not resolve |
| `IstioVersions.RepeatedNamesResolveFurther` | pkg/istioversion/version.go:137-143 | Without unique names a resolved name can resolve further |
| `IstioVersions.GetLatestPatchVersions` | pkg/istioversion/version.go:160-178 | Exactly one entry per major.minor, the first of the highest precedence, in strictly descending order |
| `SemVer.PrecedesIsTotal` | pkg/istioversion/version.go:164-168 | Precedence by section 11 of Semantic Versioning 2.0.0 orders any two versions that differ in more than metadata, one way |
| `SemVer.PrecedesMeans` | pkg/istioversion/version.go:164-168 | The lower major version, then minor version, then patch precedes; a pre-release precedes its release; pre-releases compare by their first difference, numbers before words |
| `SemVer.PrecedesIsTransitive` | pkg/istioversion/version.go:173-175 | Precedence is transitive |
| `PostRenderer.Run` | pkg/helm/postrenderer.go:58-102 | If every document can be rendered, non-empty manifests keep their number and order, each rendered; otherwise the error is that of the first document that cannot be |
| `PostRenderer.ManifestsExactly` | pkg/helm/postrenderer.go:62-75 | The manifests that are rendered are the non-empty documents of the stream, each once and in order |
| `PostRenderer.RenderFrame` | pkg/helm/postrenderer.go:104-180 | A manifest gains one last owner reference, or in another namespace the two annotations that name its owner, and the label; it loses failure policies only in validating webhooks on updates, and no other leaf changes, appears or disappears |

## Left out

- The API server, informers, the work queue, logging and the wiring of watches: the API is an abstract store whose calls may fail.
- Watch events: that a change leads to a reconciliation at all is not claimed, so neither is progress.
- Precedence between tags and revisions of one name, and whether a namespace can be used: parameters of `ActiveRevision.Validate`.
- The Helm release of a tag and its recorded namespace; of the tag controller only its status and its usage check are modelled.
- Helm's own actions, which follow the contract written at the top of `ChartReleases.dfy`; YAML and JSON as text, and reading files: parsed trees are the input, and a profile that cannot be read, or whose name leaves the directory, is not in the store.
- Typed values: an empty map or slice and a nil one have the same encoding; nested structs are not separate objects, so aliasing between fields of one value is not captured; case-insensitive JSON keys, quantities and the precision of numbers are not modelled.
- Maps are merged and set in place on disjoint trees, which is what parsing and conversion yield; cyclic or shared inputs do not arise.
- The controllers for IstioCNI, ZTunnel and the webhook probe, generated code, platform detection and configuration loading.
- StatusUpdate.CountersOf: counts are unbounded, the source stores them as 32-bit numbers.
- ValuesHeap.DeepCopy: the library copy that the source calls panics on a Go `int`, which is what a whole number in `vendor_defaults.yaml` is read as; the model has one kind of number and copies it.
- PostRenderer.Render: manifests are values here, the source edits decoded maps that nothing else refers to.
- IstioVersions.GetLatestPatchVersions: sorts by picking the highest repeatedly in place of the library's sort.
