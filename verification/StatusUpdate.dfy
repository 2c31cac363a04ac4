/**
 How the controllers for IstioRevision and Istio derive a status from what they observe, and when
 that makes them write it.
 */
module StatusUpdate {
  import opened Wrappers
  import opened Conditions

  const RECONCILED := "Reconciled"
  const READY := "Ready"
  const DEPENDENCIES_HEALTHY := "DependenciesHealthy"
  const IN_USE := "InUse"
  const HEALTHY := "Healthy"

  function New(typ: string, status: ConditionStatus, reason: string, message: string): Condition {
    Condition(typ, status, reason, message, 0)
  }

  // ----- Setting what is already set -----

  /** The list already has the condition, whenever it got its status. */
  predicate Has(cs: seq<Condition>, c: Condition) {
    var found := Find(cs, c.typ);
    found.Some? && found.value == c.(lastTransition := found.value.lastTransition)
  }

  /** Setting a condition leaves the list alone exactly when the list has it, whatever the clock reads. */
  lemma {:induction false} SetChangesNothingIff(cs: seq<Condition>, c: Condition, now: nat)
    ensures Set(cs, c, now) == cs <==> Has(cs, c)
  {
    if cs != [] {
      SetChangesNothingIff(cs[1..], c, now);
      if cs[0].typ == c.typ {
        assert Set(cs, c, now)[0] == Stamped(Some(cs[0]), c, now);
        assert cs == [cs[0]] + cs[1..];
      } else {
        assert Set(cs, c, now)[1..] == Set(cs[1..], c, now);
        assert cs == [cs[0]] + cs[1..];
      }
    }
  }

  lemma SetHas(cs: seq<Condition>, c: Condition, now: nat, other: Condition)
    ensures Has(Set(cs, c, now), c)
    ensures other.typ != c.typ && Has(cs, other) ==> Has(Set(cs, c, now), other)
  {
  }

  /** Setting several conditions, each at its own time. */
  function SetAll(cs: seq<Condition>, wanted: seq<Condition>, clock: seq<nat>): seq<Condition>
    requires |clock| == |wanted|
    decreases |wanted|
  {
    if wanted == [] then cs else SetAll(Set(cs, wanted[0], clock[0]), wanted[1..], clock[1..])
  }

  lemma SetAllUnrolled(cs: seq<Condition>, wanted: seq<Condition>, clock: seq<nat>)
    requires |clock| == |wanted| >= 2
    ensures SetAll(cs, wanted, clock) ==
            SetAll(Set(Set(cs, wanted[0], clock[0]), wanted[1], clock[1]), wanted[2..], clock[2..])
  {
  }

  ghost predicate DifferentTypes(wanted: seq<Condition>) {
    forall i, j | 0 <= i < j < |wanted| :: wanted[i].typ != wanted[j].typ
  }

  lemma {:induction false} SetAllHas(cs: seq<Condition>, wanted: seq<Condition>, clock: seq<nat>, c: Condition)
    requires |clock| == |wanted| && DifferentTypes(wanted)
    requires c in wanted || (Has(cs, c) && forall d | d in wanted :: d.typ != c.typ)
    ensures Has(SetAll(cs, wanted, clock), c)
    decreases |wanted|
  {
    if wanted != [] {
      SetHas(cs, wanted[0], clock[0], c);
      assert c == wanted[0] ==> forall d | d in wanted[1..] :: d.typ != c.typ;
      SetAllHas(Set(cs, wanted[0], clock[0]), wanted[1..], clock[1..], c);
    }
  }

  lemma {:induction false} SetAllAgain(cs: seq<Condition>, wanted: seq<Condition>, clock: seq<nat>)
    requires |clock| == |wanted| && forall c | c in wanted :: Has(cs, c)
    ensures SetAll(cs, wanted, clock) == cs
    decreases |wanted|
  {
    if wanted != [] {
      SetChangesNothingIff(cs, wanted[0], clock[0]);
      SetAllAgain(cs, wanted[1..], clock[1..]);
    }
  }

  lemma SetAllTwice(cs: seq<Condition>, wanted: seq<Condition>, clock: seq<nat>, later: seq<nat>)
    requires |clock| == |later| == |wanted| && DifferentTypes(wanted)
    ensures SetAll(SetAll(cs, wanted, clock), wanted, later) == SetAll(cs, wanted, clock)
  {
    forall c | c in wanted
      ensures Has(SetAll(cs, wanted, clock), c)
    {
      SetAllHas(cs, wanted, clock, c);
    }
    SetAllAgain(SetAll(cs, wanted, clock), wanted, later);
  }

  // ----- IstioRevision -----

  datatype Fetched<T> = Found(value: T) | NotFound | Failed(message: string)

  datatype Outcome = Reconciled | NameAlreadyExists(message: string) | ReconcileError(message: string)

  datatype Replicas = Replicas(total: int, ready: int)

  /** What readiness is judged by: the istiod deployment, or the webhook of a remote control plane. */
  datatype Readiness = Local(istiod: Fetched<Replicas>) | Remote(webhook: string, probe: Fetched<string>)

  /** What the dependency check sees: None if the revision does not need Istio CNI, else the state of IstioCNI. */
  type Dependencies = Option<Fetched<string>>

  datatype Observed = Observed(outcome: Outcome, readiness: Readiness, cni: Dependencies, inUse: Result<bool, string>)

  function ReconciledCondition(o: Outcome): (c: Condition)
    ensures c.typ == RECONCILED && (c.status != True ==> c.reason != HEALTHY)
    ensures c.status == if o.Reconciled? then True else False
  {
    match o
    case Reconciled => New(RECONCILED, True, "", "")
    case NameAlreadyExists(m) => New(RECONCILED, False, "NameAlreadyExists", m)
    case ReconcileError(m) => New(RECONCILED, False, "ReconcileError", "error reconciling resource: " + m)
  }

  /** Ready exactly if there are replicas of istiod and all are ready. */
  function LocalReady(istiod: Fetched<Replicas>): (c: Condition)
    ensures c.typ == READY && (c.status != True ==> c.reason != HEALTHY)
    ensures c.status == True <==> istiod.Found? && istiod.value.total != 0 && istiod.value.ready >= istiod.value.total
    ensures c.status == Unknown <==> istiod.Failed?
  {
    match istiod
    case Found(r) =>
      if r.total == 0 then New(READY, False, "IstiodNotReady", "istiod Deployment is scaled to zero replicas")
      else if r.ready < r.total then New(READY, False, "IstiodNotReady", "not all istiod pods are ready")
      else New(READY, True, "", "")
    case NotFound => New(READY, False, "IstiodNotReady", "istiod Deployment not found")
    case Failed(m) => New(READY, Unknown, "ReadinessCheckFailed", "failed to get readiness: " + m)
  }

  /** Ready exactly if the webhook says that the probe of the remote istiod succeeds. */
  function RemoteReady(webhook: string, probe: Fetched<string>): (c: Condition)
    ensures c.typ == READY && (c.status != True ==> c.reason != HEALTHY)
    ensures c.status == True <==> probe == Found("true")
    ensures c.status == Unknown <==> probe.Failed?
  {
    match probe
    case Found("true") => New(READY, True, "", "")
    case Found("false") => New(READY, False, "RemoteIstiodNotReady", "readiness probe on remote istiod failed")
    case Found(_) =>
      New(READY, False, "RemoteIstiodNotReady",
          "invalid or missing annotation sailoperator.io/readinessProbe.status on "
          + "MutatingWebhookConfiguration " + webhook)
    case NotFound =>
      New(READY, False, "RemoteIstiodNotReady", "MutatingWebhookConfiguration " + webhook + " not found")
    case Failed(m) => New(READY, Unknown, "ReadinessCheckFailed", "failed to get readiness: " + m)
  }

  function ReadyCondition(r: Readiness): (c: Condition)
    ensures c.typ == READY && (c.status != True ==> c.reason != HEALTHY)
  {
    match r
    case Local(istiod) => LocalReady(istiod)
    case Remote(webhook, probe) => RemoteReady(webhook, probe)
  }

  /** Dependencies are healthy exactly if Istio CNI is not needed or is healthy. */
  function DependenciesCondition(d: Dependencies): (c: Condition)
    ensures c.typ == DEPENDENCIES_HEALTHY && (c.status != True ==> c.reason != HEALTHY)
    ensures c.status == True <==> d.None? || d.value == Found(HEALTHY)
    ensures c.status == Unknown <==> d.Some? && d.value.Failed?
  {
    match d
    case None => New(DEPENDENCIES_HEALTHY, True, "", "")
    case Some(NotFound) =>
      New(DEPENDENCIES_HEALTHY, False, "IstioCNINotFound", "IstioCNI resource does not exist")
    case Some(Failed(m)) =>
      New(DEPENDENCIES_HEALTHY, Unknown, "DependencyCheckFailed", "failed to get IstioCNI status: " + m)
    case Some(Found(state)) =>
      if state == HEALTHY then New(DEPENDENCIES_HEALTHY, True, "", "")
      else New(DEPENDENCIES_HEALTHY, False, "IstioCNINotHealthy",
               "IstioCNI resource status indicates that the component is not healthy")
  }

  /** InUse is True or False exactly if the check completed with that answer. */
  function InUseCondition(r: Result<bool, string>): (c: Condition)
    ensures c.typ == IN_USE && (c.status != True ==> c.reason != HEALTHY)
    ensures c.status == True <==> r == Ok(true)
    ensures c.status == False <==> r == Ok(false)
  {
    match r
    case Ok(true) => New(IN_USE, True, "ReferencedByWorkloads", "Referenced by at least one pod or namespace")
    case Ok(false) => New(IN_USE, False, "NotReferencedByAnything", "Not referenced by any pod or namespace")
    case Err(m) => New(IN_USE, Unknown, "UsageCheckFailed", "failed to determine if revision is in use: " + m)
  }

  function DeriveState(cs: seq<Condition>): string {
    if cs == [] then HEALTHY
    else if cs[0].status != True then cs[0].reason
    else DeriveState(cs[1..])
  }

  method DeriveStateOf(cs: seq<Condition>) returns (state: string)
    ensures state == DeriveState(cs)
  {
    for i := 0 to |cs|
      invariant DeriveState(cs) == DeriveState(cs[i..])
    {
      if cs[i].status != True {
        return cs[i].reason;
      }
    }
    state := HEALTHY;
  }

  datatype RevisionStatus = RevisionStatus(observedGeneration: int, conditions: seq<Condition>, state: string)

  /** The conditions that are set, in order. */
  function RevisionConditions(o: Observed): seq<Condition> {
    [ReconciledCondition(o.outcome), ReadyCondition(o.readiness), DependenciesCondition(o.cni), InUseCondition(o.inUse)]
  }

  /** The status derived at the times of the four clock readings. */
  function RevisionStatusOf(generation: int, prior: RevisionStatus, o: Observed, clock: seq<nat>): RevisionStatus
    requires |clock| == 4
  {
    RevisionStatus(
      generation, SetAll(prior.conditions, RevisionConditions(o), clock), DeriveState(RevisionConditions(o)[..3]))
  }

  /** `determineStatus`, on a copy of the status. */
  method DetermineRevisionStatus(generation: int, prior: RevisionStatus, o: Observed, clock: seq<nat>)
    returns (status: RevisionStatus)
    requires |clock| == 4
    ensures status == RevisionStatusOf(generation, prior, o, clock)
  {
    var cs := RevisionConditions(o);
    var copy := new Status(prior.conditions);
    copy.SetCondition(cs[0], clock[0]);
    copy.SetCondition(cs[1], clock[1]);
    SetAllUnrolled(prior.conditions, cs, clock);
    ghost var half := copy.conditions;
    copy.SetCondition(cs[2], clock[2]);
    copy.SetCondition(cs[3], clock[3]);
    SetAllUnrolled(half, cs[2..], clock[2..]);
    var state := DeriveStateOf(cs[..3]);
    status := RevisionStatus(generation, copy.conditions, state);
  }

  /** The four conditions, whatever they say. */
  ghost predicate AreRevisionConditions(wanted: seq<Condition>) {
    && |wanted| == 4
    && wanted[0].typ == RECONCILED && wanted[1].typ == READY
    && wanted[2].typ == DEPENDENCIES_HEALTHY && wanted[3].typ == IN_USE
    && forall c | c in wanted :: c.status != True ==> c.reason != HEALTHY
  }

  lemma TypesDiffer(wanted: seq<Condition>)
    requires AreRevisionConditions(wanted)
    ensures DifferentTypes(wanted)
  {
  }

  lemma RevisionConditionsHaveTypes(o: Observed)
    ensures AreRevisionConditions(RevisionConditions(o))
  {
  }

  /** A revision is Healthy exactly when it is reconciled and ready and its dependencies are healthy. */
  lemma HealthyIff(generation: int, prior: RevisionStatus, o: Observed, clock: seq<nat>)
    requires |clock| == 4
    ensures var status := RevisionStatusOf(generation, prior, o, clock);
            status.state == HEALTHY <==>
              && Get(status.conditions, RECONCILED).status == True
              && Get(status.conditions, READY).status == True
              && Get(status.conditions, DEPENDENCIES_HEALTHY).status == True
    ensures RevisionStatusOf(generation, prior, o, clock).state == "Healthy" <==>
            o.outcome.Reconciled? && IsReady(o.readiness) && DependenciesAreHealthy(o.cni)
  {
    RevisionConditionsHaveTypes(o);
    StateIsHealthyIff(prior.conditions, RevisionConditions(o), clock);
    DeriveStateIsHealthyIff(RevisionConditions(o)[..3]);
    ReadyReason(o.readiness);
    DependenciesReason(o.cni);
  }

  lemma StateIsHealthyIff(cs: seq<Condition>, wanted: seq<Condition>, clock: seq<nat>)
    requires |clock| == 4 && AreRevisionConditions(wanted)
    ensures var all := SetAll(cs, wanted, clock);
            DeriveState(wanted[..3]) == HEALTHY <==>
              && Get(all, RECONCILED).status == True
              && Get(all, READY).status == True
              && Get(all, DEPENDENCIES_HEALTHY).status == True
  {
    TypesDiffer(wanted);
    ReportsWanted(cs, wanted, clock, 0);
    ReportsWanted(cs, wanted, clock, 1);
    ReportsWanted(cs, wanted, clock, 2);
    DeriveStateIsHealthyIff(wanted[..3]);
  }

  lemma ReportsWanted(cs: seq<Condition>, wanted: seq<Condition>, clock: seq<nat>, i: nat)
    requires |clock| == |wanted| && DifferentTypes(wanted) && i < |wanted|
    ensures var c := Get(SetAll(cs, wanted, clock), wanted[i].typ);
            c == wanted[i].(lastTransition := c.lastTransition)
  {
    SetAllHas(cs, wanted, clock, wanted[i]);
  }

  lemma {:induction false} SetAllKeepsOthers(cs: seq<Condition>, wanted: seq<Condition>, clock: seq<nat>, typ: string)
    requires |clock| == |wanted| && forall c | c in wanted :: c.typ != typ
    ensures Find(SetAll(cs, wanted, clock), typ) == Find(cs, typ)
    decreases |wanted|
  {
    if wanted != [] {
      SetOne(cs, wanted[0], clock[0]);
      SetAllKeepsOthers(Set(cs, wanted[0], clock[0]), wanted[1..], clock[1..], typ);
    }
  }

  lemma {:induction false} DeriveStateIsHealthyIff(cs: seq<Condition>)
    requires forall c | c in cs :: c.status != True ==> c.reason != HEALTHY
    ensures DeriveState(cs) == HEALTHY <==> forall i | 0 <= i < |cs| :: cs[i].status == True
  {
    if cs != [] {
      DeriveStateIsHealthyIff(cs[1..]);
      assert forall i | 1 <= i < |cs| :: cs[i] == cs[1..][i - 1];
    }
  }

  // What was observed, as the status reports it.

  ghost predicate IsReady(r: Readiness) {
    match r
    case Local(istiod) => istiod.Found? && istiod.value.total != 0 && istiod.value.ready >= istiod.value.total
    case Remote(_, probe) => probe == Found("true")
  }

  ghost predicate ReadinessUnknown(r: Readiness) {
    if r.Local? then r.istiod.Failed? else r.probe.Failed?
  }

  ghost predicate DependenciesAreHealthy(d: Dependencies) {
    d.None? || d.value == Found("Healthy")
  }

  /** The state of a revision: the first thing that is wrong. */
  ghost function StateOf(o: Observed): string {
    if o.outcome.NameAlreadyExists? then "NameAlreadyExists"
    else if o.outcome.ReconcileError? then "ReconcileError"
    else if ReadinessUnknown(o.readiness) then "ReadinessCheckFailed"
    else if !IsReady(o.readiness) then (if o.readiness.Local? then "IstiodNotReady" else "RemoteIstiodNotReady")
    else if DependenciesAreHealthy(o.cni) then "Healthy"
    else
      match o.cni.value
      case NotFound => "IstioCNINotFound"
      case Failed(_) => "DependencyCheckFailed"
      case Found(_) => "IstioCNINotHealthy"
  }

  /** What the stored conditions and the state say in terms of what was observed. */
  lemma RevisionStatusReports(generation: int, prior: RevisionStatus, o: Observed, clock: seq<nat>)
    requires |clock| == 4
    ensures var status := RevisionStatusOf(generation, prior, o, clock);
            && status.observedGeneration == generation
            && Get(status.conditions, "Reconciled").status == (if o.outcome.Reconciled? then True else False)
            && Get(status.conditions, "Ready").status ==
               (if IsReady(o.readiness) then True else if ReadinessUnknown(o.readiness) then Unknown else False)
            && Get(status.conditions, "DependenciesHealthy").status ==
               (if DependenciesAreHealthy(o.cni) then True else if o.cni.value.Failed? then Unknown else False)
            && Get(status.conditions, "InUse").status ==
               (match o.inUse case Ok(inUse) => if inUse then True else False case Err(_) => Unknown)
            && status.state == StateOf(o)
    ensures var status := RevisionStatusOf(generation, prior, o, clock);
            forall typ | typ !in {"Reconciled", "Ready", "DependenciesHealthy", "InUse"} ::
              Find(status.conditions, typ) == Find(prior.conditions, typ)
  {
    RevisionConditionsHaveTypes(o);
    FourReported(prior.conditions, RevisionConditions(o), clock);
    ReadyReason(o.readiness);
    DependenciesReason(o.cni);
    StateOfIsFirst(o);
  }

  lemma FourReported(cs: seq<Condition>, wanted: seq<Condition>, clock: seq<nat>)
    requires |clock| == 4 && AreRevisionConditions(wanted)
    ensures var all := SetAll(cs, wanted, clock);
            && Get(all, "Reconciled").status == wanted[0].status && Get(all, "Ready").status == wanted[1].status
            && Get(all, "DependenciesHealthy").status == wanted[2].status
            && Get(all, "InUse").status == wanted[3].status
    ensures forall typ | typ !in {"Reconciled", "Ready", "DependenciesHealthy", "InUse"} ::
              Find(SetAll(cs, wanted, clock), typ) == Find(cs, typ)
  {
    TypesDiffer(wanted);
    ReportsWanted(cs, wanted, clock, 0);
    ReportsWanted(cs, wanted, clock, 1);
    ReportsWanted(cs, wanted, clock, 2);
    ReportsWanted(cs, wanted, clock, 3);
    forall typ | typ !in {"Reconciled", "Ready", "DependenciesHealthy", "InUse"}
      ensures Find(SetAll(cs, wanted, clock), typ) == Find(cs, typ)
    {
      SetAllKeepsOthers(cs, wanted, clock, typ);
    }
  }

  lemma ReadyReason(r: Readiness)
    ensures var c := ReadyCondition(r);
            && (c.status == True <==> IsReady(r))
            && (c.status == Unknown <==> ReadinessUnknown(r))
            && (c.status != True ==>
                  c.reason == if ReadinessUnknown(r) then "ReadinessCheckFailed"
                              else if r.Local? then "IstiodNotReady" else "RemoteIstiodNotReady")
  {
  }

  lemma DependenciesReason(d: Dependencies)
    ensures var c := DependenciesCondition(d);
            && (c.status == True <==> DependenciesAreHealthy(d))
            && (c.status != True ==>
                  c.reason == match d.value
                              case NotFound => "IstioCNINotFound"
                              case Failed(_) => "DependencyCheckFailed"
                              case Found(_) => "IstioCNINotHealthy")
  {
  }

  lemma StateOfIsFirst(o: Observed)
    ensures DeriveState(RevisionConditions(o)[..3]) == StateOf(o)
  {
    ReadyReason(o.readiness);
    DependenciesReason(o.cni);
    FirstOfThree(ReconciledCondition(o.outcome), ReadyCondition(o.readiness), DependenciesCondition(o.cni));
    assert RevisionConditions(o)[..3] ==
           [ReconciledCondition(o.outcome), ReadyCondition(o.readiness), DependenciesCondition(o.cni)];
  }

  lemma FirstOfThree(a: Condition, b: Condition, c: Condition)
    ensures DeriveState([a, b, c]) ==
            if a.status != True then a.reason else if b.status != True then b.reason
            else if c.status != True then c.reason else "Healthy"
  {
    assert [a, b, c][1..] == [b, c] && [b, c][1..] == [c] && [c][1..] == [];
    assert DeriveState([c]) == if c.status != True then c.reason else HEALTHY;
  }

  /** The state is the reason of the first of the three stored conditions that is not True. */
  lemma StateIsFirstReason(generation: int, prior: RevisionStatus, o: Observed, clock: seq<nat>)
    requires |clock| == 4
    ensures var status := RevisionStatusOf(generation, prior, o, clock);
            var (a, b, c) := (Get(status.conditions, "Reconciled"), Get(status.conditions, "Ready"),
                              Get(status.conditions, "DependenciesHealthy"));
            status.state == if a.status != True then a.reason else if b.status != True then b.reason
                            else if c.status != True then c.reason else "Healthy"
  {
    var cs := RevisionConditions(o);
    RevisionConditionsHaveTypes(o);
    TypesDiffer(cs);
    ReportsWanted(prior.conditions, cs, clock, 0);
    ReportsWanted(prior.conditions, cs, clock, 1);
    ReportsWanted(prior.conditions, cs, clock, 2);
    FirstOfThree(cs[0], cs[1], cs[2]);
    assert cs[..3] == [cs[0], cs[1], cs[2]];
  }

  /** Computing the status again from the same observations yields the same status, whenever it is done. */
  lemma RevisionStatusIsQuiescent(
      generation: int, prior: RevisionStatus, o: Observed, clock: seq<nat>, later: seq<nat>)
    requires |clock| == |later| == 4
    ensures var status := RevisionStatusOf(generation, prior, o, clock);
            RevisionStatusOf(generation, status, o, later) == status
  {
    RevisionConditionsHaveTypes(o);
    TypesDiffer(RevisionConditions(o));
    SetAllTwice(prior.conditions, RevisionConditions(o), clock, later);
  }

  /** A status object on the server; a patch replaces the whole status, unless it fails. */
  class Resource<S(==)> {
    var status: S
    var patches: nat

    constructor (s: S)
      ensures status == s && patches == 0
    {
      status, patches := s, 0;
    }

    method UpdateStatus(read: S, wanted: S, fails: bool) returns (ok: bool)
      modifies this
      ensures patches == old(patches) + (if read == wanted then 0 else 1)
      ensures status == if read == wanted || fails then old(status) else wanted
      ensures ok == (read == wanted || !fails)
    {
      ok := true;
      if read != wanted {
        patches := patches + 1;
        if fails {
          return false;
        }
        status := wanted;
      }
    }
  }

  /**
   Two reconciliations that observe the same. Once a patch has got through, or none was needed, the
   second one writes nothing; if the first patch failed, the second one makes up for it.
   */
  method ReconcileTwice(
      server: Resource<RevisionStatus>, generation: int, o: Observed, clock: seq<nat>, later: seq<nat>,
      firstFails: bool, secondFails: bool)
    requires |clock| == |later| == 4
    modifies server
    ensures var prior := old(server.status);
            var first := RevisionStatusOf(generation, prior, o, clock);
            var second := RevisionStatusOf(generation, prior, o, later);
            if first == prior then server.status == prior && server.patches == old(server.patches)
            else if !firstFails then server.status == first && server.patches == old(server.patches) + 1
            else server.patches == old(server.patches) + 2 && server.status == if secondFails then prior else second
  {
    var prior := server.status;
    var first := DetermineRevisionStatus(generation, prior, o, clock);
    var _ := server.UpdateStatus(prior, first, firstFails);
    RevisionStatusIsQuiescent(generation, prior, o, clock, later);
    RevisionStatusIsQuiescent(generation, prior, o, later, clock);
    var read := server.status;
    var second := DetermineRevisionStatus(generation, read, o, later);
    var _ := server.UpdateStatus(read, second, secondFails);
  }

  // ----- IstioRevisionTag -----

  datatype TagTarget = TagTarget(revision: string, namespace: string)

  /** How the reconciliation of a tag ended; a success has a target. */
  datatype TagOutcome =
    | TagReconciled(target: TagTarget)
    | TagNameExists(message: string)
    | TargetNotFound(message: string)
    | TagError(message: string)

  datatype TagStatus = TagStatus(
    observedGeneration: int, istiodNamespace: string, istioRevision: string, conditions: seq<Condition>, state: string)

  function TagReconciledCondition(o: TagOutcome): (c: Condition)
    ensures c.typ == RECONCILED
    ensures c.status == if o.TagReconciled? then True else False
  {
    match o
    case TagReconciled(_) => New(RECONCILED, True, "", "")
    case TagNameExists(m) => New(RECONCILED, False, "NameAlreadyExists", m)
    case TargetNotFound(m) => New(RECONCILED, False, "RefNotFound", m)
    case TagError(m) => New(RECONCILED, False, "ReconcileError", "error reconciling resource: " + m)
  }

  function TagInUseCondition(r: Result<bool, string>): (c: Condition)
    ensures c.typ == IN_USE
  {
    match r
    case Ok(_) => InUseCondition(r)
    case Err(m) => New(IN_USE, Unknown, "UsageCheckFailed", "failed to determine if revision tag is in use: " + m)
  }

  /** The revision that a tag's status names: moved by a success, and otherwise as it was. */
  function PinnedAfter(pinned: string, o: TagOutcome): string {
    if o.TagReconciled? then o.target.revision else pinned
  }

  function TagConditions(o: TagOutcome, inUse: Result<bool, string>): seq<Condition> {
    [TagReconciledCondition(o), TagInUseCondition(inUse)]
  }

  function TagStatusOf(
      generation: int, prior: TagStatus, o: TagOutcome, inUse: Result<bool, string>, clock: seq<nat>): TagStatus
    requires |clock| == 2
  {
    TagStatus(
      generation, if o.TagReconciled? then o.target.namespace else prior.istiodNamespace,
      PinnedAfter(prior.istioRevision, o), SetAll(prior.conditions, TagConditions(o, inUse), clock),
      DeriveState(TagConditions(o, inUse)))
  }

  method DetermineTagStatus(
      generation: int, prior: TagStatus, o: TagOutcome, inUse: Result<bool, string>, clock: seq<nat>)
    returns (status: TagStatus)
    requires |clock| == 2
    ensures status == TagStatusOf(generation, prior, o, inUse, clock)
  {
    var cs := TagConditions(o, inUse);
    status := prior.(observedGeneration := generation);
    if cs[0].status == True {
      status := status.(istiodNamespace := o.target.namespace);
      status := status.(istioRevision := o.target.revision);
    }
    var copy := new Status(prior.conditions);
    copy.SetCondition(cs[0], clock[0]);
    copy.SetCondition(cs[1], clock[1]);
    SetAllUnrolled(prior.conditions, cs, clock);
    var state := DeriveStateOf(cs);
    status := status.(conditions := copy.conditions, state := state);
  }

  /** What a tag's status says in terms of what was observed. */
  lemma TagStatusReports(
      generation: int, prior: TagStatus, o: TagOutcome, inUse: Result<bool, string>, clock: seq<nat>)
    requires |clock| == 2
    ensures var status := TagStatusOf(generation, prior, o, inUse, clock);
            && status.observedGeneration == generation
            && Get(status.conditions, "Reconciled").status == (if o.TagReconciled? then True else False)
            && Get(status.conditions, "InUse").status ==
               (match inUse case Ok(used) => if used then True else False case Err(_) => Unknown)
            && status.state ==
               match o
               case TagReconciled(_) =>
                 if inUse.Err? then "UsageCheckFailed" else if inUse.value then "Healthy" else "NotReferencedByAnything"
               case TagNameExists(_) => "NameAlreadyExists"
               case TargetNotFound(_) => "RefNotFound"
               case TagError(_) => "ReconcileError"
    ensures var status := TagStatusOf(generation, prior, o, inUse, clock);
            TagTarget(status.istioRevision, status.istiodNamespace) ==
            if o.TagReconciled? then o.target else TagTarget(prior.istioRevision, prior.istiodNamespace)
  {
    var cs := TagConditions(o, inUse);
    assert RECONCILED != IN_USE;
    ReportsWanted(prior.conditions, cs, clock, 0);
    ReportsWanted(prior.conditions, cs, clock, 1);
    assert cs[1..] == [cs[1]] && cs[1..][1..] == [];
    assert DeriveState(cs[1..]) == if cs[1].status != True then cs[1].reason else HEALTHY;
  }

  /** A tag's status is quiescent too, pinned revision included. */
  lemma TagStatusIsQuiescent(
      generation: int, prior: TagStatus, o: TagOutcome, inUse: Result<bool, string>, clock: seq<nat>, later: seq<nat>)
    requires |clock| == |later| == 2
    ensures var status := TagStatusOf(generation, prior, o, inUse, clock);
            TagStatusOf(generation, status, o, inUse, later) == status
  {
    assert RECONCILED != IN_USE;
    SetAllTwice(prior.conditions, TagConditions(o, inUse), clock, later);
  }

  // ----- Istio -----

  datatype Counters = Counters(total: int, ready: int, inUse: int)

  datatype IstioStatus = IstioStatus(
    observedGeneration: int, conditions: seq<Condition>, state: string, activeRevisionName: string, revisions: Counters)

  /** What the Istio controller sees: its own error if any, the active revision, and the owned revisions. */
  datatype IstioObserved = IstioObserved(
    error: Option<string>, active: Fetched<RevisionStatus>, owned: Option<seq<RevisionStatus>>)

  /** Without the transition time, which Istio records on its own. */
  function Convert(c: Condition): Condition {
    c.(lastTransition := 0)
  }

  /** The conditions that are set, in order. */
  function IstioConditions(o: IstioObserved): seq<Condition> {
    match o.error
    case Some(m) => [
      New(RECONCILED, False, "ReconcileError", m),
      New(READY, Unknown, "ReconcileError", "cannot determine readiness due to reconciliation error")]
    case None =>
      match o.active
      case NotFound => [
        New(RECONCILED, False, "ActiveRevisionNotFound", "active IstioRevision not found"),
        New(READY, False, "ActiveRevisionNotFound", "active IstioRevision not found")]
      case Found(rev) => [
        Convert(Get(rev.conditions, RECONCILED)),
        Convert(Get(rev.conditions, READY)),
        Convert(Get(rev.conditions, DEPENDENCIES_HEALTHY))]
      case Failed(m) => [
        New(RECONCILED, Unknown, "FailedToGetActiveRevision", "failed to get active IstioRevision: " + m),
        New(READY, Unknown, "FailedToGetActiveRevision", "failed to get active IstioRevision: " + m)]
  }

  function IstioState(o: IstioObserved): string {
    match o.error
    case Some(_) => "ReconcileError"
    case None =>
      match o.active
      case NotFound => "ActiveRevisionNotFound"
      case Found(rev) => rev.state
      case Failed(_) => "FailedToGetActiveRevision"
  }

  /** How many revisions have the condition. */
  function Count(revs: seq<RevisionStatus>, typ: string): nat {
    if revs == [] then 0
    else (if Get(revs[0].conditions, typ).status == True then 1 else 0) + Count(revs[1..], typ)
  }

  lemma {:induction false} CountAppend(revs: seq<RevisionStatus>, rev: RevisionStatus, typ: string)
    ensures Count(revs + [rev], typ) == Count(revs, typ) + (if Get(rev.conditions, typ).status == True then 1 else 0)
  {
    if revs != [] {
      assert (revs + [rev])[1..] == revs[1..] + [rev];
      CountAppend(revs[1..], rev, typ);
    }
  }

  lemma {:induction false} CountWithinTotal(revs: seq<RevisionStatus>, typ: string)
    ensures Count(revs, typ) <= |revs|
    ensures Count(revs, typ) == |revs| <==>
            forall i | 0 <= i < |revs| :: Get(revs[i].conditions, typ).status == True
  {
    if revs != [] {
      CountWithinTotal(revs[1..], typ);
      if forall i | 0 <= i < |revs| :: Get(revs[i].conditions, typ).status == True {
        assert forall i | 0 <= i < |revs[1..]| :: Get(revs[1..][i].conditions, typ).status == True;
      }
    }
  }

  /** The revisions in the list with the condition. */
  ghost function Having(revs: seq<RevisionStatus>, typ: string): set<nat> {
    set i: nat | i < |revs| && Get(revs[i].conditions, typ).status == True
  }

  lemma {:induction false} CountIsCardinality(revs: seq<RevisionStatus>, typ: string)
    ensures Count(revs, typ) == |Having(revs, typ)|
    decreases |revs|
  {
    if revs != [] {
      var last := |revs| - 1;
      var rest := Having(revs[..last], typ);
      CountIsCardinality(revs[..last], typ);
      assert revs == revs[..last] + [revs[last]];
      CountAppend(revs[..last], revs[last], typ);
      assert Having(revs, typ) == if Get(revs[last].conditions, typ).status == True then rest + {last} else rest;
    }
  }

  /** The three counters are numbers of owned revisions; all are -1 if those could not be listed. */
  lemma CountersMean(owned: Option<seq<RevisionStatus>>)
    ensures var c := CountersOf(owned);
            match owned
            case None => c == Counters(-1, -1, -1)
            case Some(revs) =>
              && c.total == |revs|
              && c.ready == |Having(revs, "Ready")|
              && c.inUse == |Having(revs, "InUse")|
  {
    if owned.Some? {
      CountIsCardinality(owned.value, "Ready");
      CountIsCardinality(owned.value, "InUse");
    }
  }

  function CountersOf(owned: Option<seq<RevisionStatus>>): Counters {
    if owned.None? then Counters(-1, -1, -1)
    else Counters(|owned.value|, Count(owned.value, READY), Count(owned.value, IN_USE))
  }

  method CountRevisions(owned: Option<seq<RevisionStatus>>) returns (c: Counters)
    ensures c == CountersOf(owned)
  {
    if owned.None? {
      return Counters(-1, -1, -1);
    }
    var revs := owned.value;
    var ready, inUse := 0, 0;
    for i := 0 to |revs|
      invariant ready == Count(revs[..i], READY) && inUse == Count(revs[..i], IN_USE)
    {
      assert revs[..i + 1] == revs[..i] + [revs[i]];
      CountAppend(revs[..i], revs[i], READY);
      CountAppend(revs[..i], revs[i], IN_USE);
      if Get(revs[i].conditions, READY).status == True {
        ready := ready + 1;
      }
      if Get(revs[i].conditions, IN_USE).status == True {
        inUse := inUse + 1;
      }
    }
    assert revs[..|revs|] == revs;
    c := Counters(|revs|, ready, inUse);
  }

  function IstioStatusOf(
      generation: int, name: string, prior: IstioStatus, o: IstioObserved, clock: seq<nat>): IstioStatus
    requires |clock| == |IstioConditions(o)|
  {
    IstioStatus(
      generation, SetAll(prior.conditions, IstioConditions(o), clock), IstioState(o),
      if o.error.Some? then prior.activeRevisionName else name, CountersOf(o.owned))
  }

  method DetermineIstioStatus(generation: int, name: string, prior: IstioStatus, o: IstioObserved, clock: seq<nat>)
    returns (status: IstioStatus)
    requires |clock| == |IstioConditions(o)|
    ensures status == IstioStatusOf(generation, name, prior, o, clock)
  {
    var copy := new Status(prior.conditions);
    var active := prior.activeRevisionName;
    var state: string;
    match o.error {
      case Some(m) =>
        copy.SetCondition(New(RECONCILED, False, "ReconcileError", m), clock[0]);
        copy.SetCondition(
          New(READY, Unknown, "ReconcileError", "cannot determine readiness due to reconciliation error"), clock[1]);
        state := "ReconcileError";
      case None =>
        active := name;
        match o.active {
          case NotFound =>
            var reason, message := "ActiveRevisionNotFound", "active IstioRevision not found";
            copy.SetCondition(New(RECONCILED, False, reason, message), clock[0]);
            copy.SetCondition(New(READY, False, reason, message), clock[1]);
            state := "ActiveRevisionNotFound";
          case Found(rev) =>
            copy.SetCondition(Convert(Get(rev.conditions, RECONCILED)), clock[0]);
            copy.SetCondition(Convert(Get(rev.conditions, READY)), clock[1]);
            copy.SetCondition(Convert(Get(rev.conditions, DEPENDENCIES_HEALTHY)), clock[2]);
            state := rev.state;
          case Failed(m) =>
            var message := "failed to get active IstioRevision: " + m;
            copy.SetCondition(New(RECONCILED, Unknown, "FailedToGetActiveRevision", message), clock[0]);
            copy.SetCondition(New(READY, Unknown, "FailedToGetActiveRevision", message), clock[1]);
            state := "FailedToGetActiveRevision";
        }
    }
    SetAllUnrolled(prior.conditions, IstioConditions(o), clock);
    var counters := CountRevisions(o.owned);
    status := IstioStatus(generation, copy.conditions, state, active, counters);
  }

  lemma IstioConditionsDiffer(o: IstioObserved)
    ensures DifferentTypes(IstioConditions(o)) && 2 <= |IstioConditions(o)| <= 3
  {
    if o.error.None? && o.active.Found? {
      var cs := o.active.value.conditions;
      FindMeansIn(cs, RECONCILED);
      FindMeansIn(cs, READY);
      FindMeansIn(cs, DEPENDENCIES_HEALTHY);
    }
  }

  /** The same for Istio: the same observations yield the same status at any later time. */
  lemma IstioStatusIsQuiescent(
      generation: int, name: string, prior: IstioStatus, o: IstioObserved, clock: seq<nat>, later: seq<nat>)
    requires |clock| == |later| == |IstioConditions(o)|
    ensures var status := IstioStatusOf(generation, name, prior, o, clock);
            IstioStatusOf(generation, name, status, o, later) == status
  {
    IstioConditionsDiffer(o);
    SetAllTwice(prior.conditions, IstioConditions(o), clock, later);
  }

  /** Without an error of its own, Istio reports its active revision's conditions and state. */
  lemma IstioMirrorsActiveRevision(
      generation: int, name: string, prior: IstioStatus, o: IstioObserved, clock: seq<nat>, typ: string)
    requires o.error.None? && o.active.Found? && |clock| == |IstioConditions(o)|
    requires typ in {"Reconciled", "Ready", "DependenciesHealthy"}
    ensures var status := IstioStatusOf(generation, name, prior, o, clock);
            && status.activeRevisionName == name
            && status.state == o.active.value.state
            && var (c, d) := (Get(status.conditions, typ), Get(o.active.value.conditions, typ));
               (c.status, c.reason, c.message) == (d.status, d.reason, d.message)
  {
    IstioConditionsDiffer(o);
    var c := Convert(Get(o.active.value.conditions, typ));
    FindMeansIn(o.active.value.conditions, typ);
    assert IstioConditions(o)[0] == Convert(Get(o.active.value.conditions, RECONCILED));
    assert IstioConditions(o)[1] == Convert(Get(o.active.value.conditions, READY));
    assert IstioConditions(o)[2] == Convert(Get(o.active.value.conditions, DEPENDENCIES_HEALTHY));
    assert c in IstioConditions(o);
    SetAllHas(prior.conditions, IstioConditions(o), clock, c);
  }

  /** What the status says if there is an error, or the active revision is missing or cannot be read. */
  lemma IstioReportsErrors(
      generation: int, name: string, prior: IstioStatus, o: IstioObserved, clock: seq<nat>)
    requires (o.error.Some? || !o.active.Found?) && |clock| == |IstioConditions(o)|
    ensures var status := IstioStatusOf(generation, name, prior, o, clock);
            var (reconciled, ready) := (Get(status.conditions, "Reconciled"), Get(status.conditions, "Ready"));
            && status.observedGeneration == generation
            && status.state == reconciled.reason == ready.reason
            && (if o.error.Some? then
                  && status.state == "ReconcileError" && status.activeRevisionName == prior.activeRevisionName
                  && reconciled.status == False && ready.status == Unknown && reconciled.message == o.error.value
                else
                  && status.activeRevisionName == name
                  && reconciled.status == ready.status
                  && (if o.active.NotFound? then
                        status.state == "ActiveRevisionNotFound" && ready.status == False
                      else status.state == "FailedToGetActiveRevision" && ready.status == Unknown))
  {
    IstioConditionsDiffer(o);
    ReportsWanted(prior.conditions, IstioConditions(o), clock, 0);
    ReportsWanted(prior.conditions, IstioConditions(o), clock, 1);
  }
}
