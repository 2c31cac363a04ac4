/**
 The life of revisions as a state machine: users edit the Istio resource, workloads and tags come
 and go, the IstioRevision controller records whether a revision is in use, and the Istio
 controller deletes revisions whose grace period has passed. Every step of a controller can
 interleave with everything else, API calls fail at will, and controllers crash.

 Two reads are of the present: a controller reads the status it last wrote, and the list of revisions
 that is pruned shows the server at the moment of listing. What was listed may be used much later.
 Everything else may be read late: lists of tags, namespaces and pods, and the Istio resource, are
 those of any earlier moment. The clock may jump.
 */
module Lifecycle {
  import opened Wrappers
  import opened Conditions
  import R = References
  import P = Prune
  import S = StatusUpdate
  import A = ActiveRevision

  // ----- State -----

  /** What references revisions. */
  datatype World = World(tags: seq<R.Tag>, namespaces: seq<R.Namespace>, pods: seq<R.Pod>)

  /** Which moment each list shows; None if the list failed. */
  datatype Seen = Seen(tags: Option<nat>, namespaces: Option<nat>, pods: Option<nat>)

  /** One recorded usage check: when its result was stamped, when it reached the server, and what it saw. */
  datatype Record = Record(status: ConditionStatus, computedAt: nat, writtenAt: nat, subject: R.Subject, seen: Seen)

  /** A revision on the server, with every usage check recorded for it so far. */
  datatype Rev = Rev(stored: P.Revision, injectsByDefault: bool, deleting: bool, records: seq<Record>)

  datatype Worker =
    | Loaded(read: Rev, lists: seq<Option<nat>>)
    | Computed(read: Rev, conditions: seq<Condition>, record: Record)

  datatype IstioWorker =
    | Idle
    | Started(istio: A.Istio)
    | Updated(istio: A.Istio)
    | Pruning(istio: A.Istio, listed: seq<Rev>, next: nat)

  /** A deletion that the API accepted: what the controller had read, and the time it compared with. */
  datatype Deletion = Deletion(istio: A.Istio, listed: Rev, at: nat)

  datatype State = State(
    clock: nat,
    past: seq<World>,
    istios: seq<A.Istio>,
    revs: map<string, Rev>,
    used: set<string>,
    workers: map<string, Worker>,
    istioWorker: IstioWorker,
    deletions: seq<Deletion>)

  function SubjectOf(rev: Rev): R.Subject {
    R.Subject(rev.stored.name, rev.injectsByDefault)
  }

  predicate WithinPast(at: Option<nat>, past: seq<World>) {
    at.Some? ==> at.value < |past|
  }

  /** The lists that a check got to see. */
  function ListingAt(past: seq<World>, seen: Seen): R.Listing
    requires WithinPast(seen.tags, past) && WithinPast(seen.namespaces, past) && WithinPast(seen.pods, past)
  {
    R.Listing(
      if seen.tags.Some? then Some(past[seen.tags.value].tags) else None,
      if seen.namespaces.Some? then Some(past[seen.namespaces.value].namespaces) else None,
      if seen.pods.Some? then Some(past[seen.pods.value].pods) else None)
  }

  function UsageCondition(verdict: Result<bool, R.ListError>): Condition {
    S.InUseCondition(if verdict.Ok? then Ok(verdict.value) else Err("list failed"))
  }

  function Grace(istio: A.Istio): int {
    P.GracePeriod(if istio.spec.strategy.Some? then istio.spec.strategy.value.gracePeriodSeconds else None)
  }

  // ----- Steps -----

  datatype Step =
    // the environment
    | Tick(now: nat)
    | ChangeWorkloads(namespaces: seq<R.Namespace>, pods: seq<R.Pod>)
    | CreateTag(tag: string)
    | DeleteTag(index: nat)
    | EditIstio(spec: A.IstioSpec)
    | CreateRevision(stored: P.Revision)
    | EditRevision(name: string, injectsByDefault: bool)
    | DeleteRevision(name: string)
    // the tag controller writes a status
    | WriteTag(index: nat, outcome: S.TagOutcome)
    // the IstioRevision controller
    | Load(name: string)
    | List(name: string, at: Option<nat>)
    | Compute(name: string, others: seq<Condition>, times: seq<nat>)
    | Write(name: string, ok: bool)
    | Finalize(name: string)
    // the Istio controller
    | ReadIstio(index: nat)
    | UpdateActive(uid: string, injectsByDefault: bool, ok: bool)
    | ListRevisions(list: seq<Rev>)
    | PruneNext(ok: bool)
    | Crash

  predicate Enabled(s: State, step: Step)
    requires s.past != [] && s.istios != []
  {
    var world := s.past[|s.past| - 1];
    match step
    case Tick(_) => true
    case ChangeWorkloads(_, _) => true
    case CreateTag(tag) => forall t | t in world.tags :: t.name != tag
    case DeleteTag(index) => index < |world.tags|
    case EditIstio(_) => true
    case CreateRevision(stored) =>
      stored.name !in s.revs && stored.name !in s.workers && stored.uid !in s.used && stored.conditions == []
    case EditRevision(name, _) => name in s.revs
    case DeleteRevision(name) => name in s.revs
    case WriteTag(index, outcome) =>
      index < |world.tags| && (outcome.TagReconciled? ==> outcome.target.revision != "")
    case Load(name) => name in s.revs && name !in s.workers
    case List(name, at) =>
      name in s.workers && s.workers[name].Loaded? && |s.workers[name].lists| < 3 && WithinPast(at, s.past)
    case Compute(name, others, times) =>
      && name in s.workers && s.workers[name].Loaded? && |s.workers[name].lists| == 3
      && |others| == |times| && (forall c | c in others :: c.typ != P.IN_USE)
      && (forall at | at in s.workers[name].lists :: WithinPast(at, s.past))
    case Write(name, _) => name in s.workers && s.workers[name].Computed? && name in s.revs
    case Finalize(name) => name in s.revs && s.revs[name].deleting && name !in s.workers
    case ReadIstio(index) => s.istioWorker.Idle? && index < |s.istios|
    case UpdateActive(uid, _, _) =>
      && s.istioWorker.Started?
      && uid !in s.used
      && var name := A.ActiveRevisionName(s.istioWorker.istio);
         name !in s.revs ==> name !in s.workers
    case ListRevisions(list) =>
      && s.istioWorker.Updated? && !A.ManagesExternalRevision(s.istioWorker.istio)
      && forall rev | rev in list :: rev in s.revs.Values
    case PruneNext(_) => s.istioWorker.Pruning? && s.istioWorker.next < |s.istioWorker.listed|
    case Crash => true
  }

  function SeenOf(lists: seq<Option<nat>>): Seen
    requires |lists| == 3
  {
    Seen(lists[0], lists[1], lists[2])
  }

  /** The status computed from what was read: other conditions first, then InUse, stamped now. */
  function ComputedStatus(s: State, w: Worker, others: seq<Condition>, times: seq<nat>): Worker
    requires w.Loaded? && |w.lists| == 3 && |others| == |times|
    requires forall at | at in w.lists :: WithinPast(at, s.past)
  {
    var seen := SeenOf(w.lists);
    var inUse := UsageCondition(R.Verdict(ListingAt(s.past, seen), SubjectOf(w.read)));
    Computed(
      w.read,
      Set(S.SetAll(w.read.stored.conditions, others, times), inUse, s.clock),
      Record(inUse.status, s.clock, s.clock, SubjectOf(w.read), seen))
  }

  function After(s: State, step: Step): State
    requires s.past != [] && s.istios != [] && Enabled(s, step)
  {
    var world := s.past[|s.past| - 1];
    match step
    case Tick(now) => s.(clock := now)
    case ChangeWorkloads(namespaces, pods) => s.(past := s.past + [world.(namespaces := namespaces, pods := pods)])
    case CreateTag(tag) => s.(past := s.past + [world.(tags := world.tags + [R.Tag(tag, "")])])
    case DeleteTag(index) => s.(past := s.past + [world.(tags := world.tags[..index] + world.tags[index + 1..])])
    case EditIstio(spec) => s.(istios := s.istios + [s.istios[0].(spec := spec)])
    case CreateRevision(stored) =>
      s.(revs := s.revs[stored.name := Rev(stored, false, false, [])], used := s.used + {stored.uid})
    case EditRevision(name, injectsByDefault) =>
      s.(revs := s.revs[name := s.revs[name].(injectsByDefault := injectsByDefault)])
    case DeleteRevision(name) => s.(revs := s.revs[name := s.revs[name].(deleting := true)])
    case WriteTag(index, outcome) =>
      var tag := world.tags[index];
      s.(past := s.past + [world.(tags := world.tags[index := tag.(revision := S.PinnedAfter(tag.revision, outcome))])])
    case Load(name) => s.(workers := s.workers[name := Loaded(s.revs[name], [])])
    case List(name, at) =>
      var w := s.workers[name];
      s.(workers := s.workers[name := w.(lists := w.lists + [at])])
    case Compute(name, others, times) =>
      s.(workers := s.workers[name := ComputedStatus(s, s.workers[name], others, times)])
    case Write(name, ok) =>
      var w, rev := s.workers[name], s.revs[name];
      var written := rev.(
        stored := rev.stored.(conditions := w.conditions),
        records := rev.records + [w.record.(writtenAt := s.clock)]);
      s.(workers := s.workers - {name}, revs := if ok then s.revs[name := written] else s.revs)
    case Finalize(name) => s.(revs := s.revs - {name})
    case ReadIstio(index) => s.(istioWorker := Started(s.istios[index]))
    case UpdateActive(uid, injectsByDefault, ok) =>
      var istio := s.istioWorker.istio;
      var name := A.ActiveRevisionName(istio);
      if !ok then s.(istioWorker := Idle)
      else if name in s.revs then
        s.(istioWorker := Updated(istio), revs := s.revs[name := s.revs[name].(injectsByDefault := injectsByDefault)])
      else
        var stored := P.Revision(name, uid, [istio.uid], []);
        s.(istioWorker := Updated(istio), revs := s.revs[name := Rev(stored, injectsByDefault, false, [])],
           used := s.used + {uid})
    case ListRevisions(list) =>
      var istio := s.istioWorker.istio;
      s.(istioWorker := Pruning(istio, OwnedBy(list, istio.uid), 0))
    case PruneNext(ok) =>
      var Pruning(istio, listed, next) := s.istioWorker;
      var rev := listed[next];
      if !P.Expired(rev.stored, A.ActiveRevisionName(istio), Grace(istio), s.clock) then
        s.(istioWorker := Pruning(istio, listed, next + 1))
      else if !ok then s.(istioWorker := Idle)
      else
        s.(istioWorker := Pruning(istio, listed, next + 1),
           revs := if rev.stored.name in s.revs
                   then s.revs[rev.stored.name := s.revs[rev.stored.name].(deleting := true)] else s.revs,
           deletions := s.deletions + [Deletion(istio, rev, s.clock)])
    case Crash => s.(workers := map[], istioWorker := Idle)
  }

  function OwnedBy(list: seq<Rev>, owner: string): seq<Rev> {
    if list == [] then []
    else (if P.IsOwned(list[0].stored, owner) then [list[0]] else []) + OwnedBy(list[1..], owner)
  }

  lemma {:induction false} OwnedByOwner(list: seq<Rev>, owner: string)
    ensures forall rev | rev in OwnedBy(list, owner) :: rev in list && P.IsOwned(rev.stored, owner)
  {
    if list != [] {
      OwnedByOwner(list[1..], owner);
    }
  }

  // ----- Runs -----

  predicate Init(s: State) {
    && |s.past| == 1 && s.past[0].tags == []
    && |s.istios| == 1
    && s.revs == map[] && s.used == {} && s.workers == map[] && s.istioWorker.Idle? && s.deletions == []
  }

  predicate Takes(s: State, step: Step, s': State) {
    s.past != [] && s.istios != [] && Enabled(s, step) && s' == After(s, step)
  }

  predicate TakesAt(run: seq<State>, steps: seq<Step>, i: nat)
    requires i < |steps| < |run|
  {
    Takes(run[i], steps[i], run[i + 1])
  }

  /** The states of a run, and the steps between them. */
  ghost predicate IsRun(run: seq<State>, steps: seq<Step>) {
    |run| == |steps| + 1 && Init(run[0]) && forall i | 0 <= i < |steps| :: TakesAt(run, steps, i)
  }

  // ----- What every step keeps -----

  /** The recorded status is what the check found. */
  ghost predicate Honest(past: seq<World>, name: string, r: Record) {
    && WithinPast(r.seen.tags, past) && WithinPast(r.seen.namespaces, past) && WithinPast(r.seen.pods, past)
    && r.subject.name == name
    && r.status == UsageCondition(R.Verdict(ListingAt(past, r.seen), r.subject)).status
  }

  /** Since record `j` every check has had the status, and `j` is the one that the time stems from. */
  ghost predicate Since(records: seq<Record>, j: nat, c: Condition) {
    && j < |records|
    && (forall i | j <= i < |records| :: records[i].status == c.status)
    && c.lastTransition == Truncate(records[j].computedAt)
  }

  /** The InUse condition tells since when the checks have agreed. */
  ghost predicate Explained(records: seq<Record>, c: Option<Condition>) {
    if c.None? then records == [] else exists j :: Since(records, j, c.value)
  }

  ghost predicate RevOk(past: seq<World>, rev: Rev) {
    && (forall i | 0 <= i < |rev.records| :: Honest(past, rev.stored.name, rev.records[i]))
    && Explained(rev.records, Find(rev.stored.conditions, P.IN_USE))
  }

  /** A worker holds the status that the server has, or the one to be written in its place. */
  ghost predicate WorkerOk(s: State, name: string)
    requires name in s.workers
  {
    var w := s.workers[name];
    && name in s.revs
    && w.read.stored.name == name
    && w.read.records == s.revs[name].records
    && w.read.stored.conditions == s.revs[name].stored.conditions
    && match w
       case Loaded(_, lists) => forall at | at in lists :: WithinPast(at, s.past)
       case Computed(read, conditions, record) =>
         && Honest(s.past, name, record)
         && Explained(read.records + [record], Find(conditions, P.IN_USE))
  }

  /** What was read of a revision is an earlier state of it, unless it has gone. */
  ghost predicate ReadEarlier(s: State, rev: Rev) {
    && rev.stored.uid in s.used
    && (rev.stored.name in s.revs && s.revs[rev.stored.name].stored.uid == rev.stored.uid ==>
          rev.records <= s.revs[rev.stored.name].records)
  }

  ghost predicate RevsOk(s: State) {
    forall n | n in s.revs :: s.revs[n].stored.name == n && s.revs[n].stored.uid in s.used && RevOk(s.past, s.revs[n])
  }

  ghost predicate WorkersOk(s: State) {
    forall n | n in s.workers :: WorkerOk(s, n)
  }

  ghost predicate Inv(s: State) {
    s.past != [] && s.istios != [] && RevsOk(s) && WorkersOk(s)
  }

  lemma {:induction false} SetAllOthers(cs: seq<Condition>, others: seq<Condition>, times: seq<nat>)
    requires |others| == |times| && forall c | c in others :: c.typ != P.IN_USE
    ensures Find(S.SetAll(cs, others, times), P.IN_USE) == Find(cs, P.IN_USE)
    decreases |others|
  {
    if others != [] {
      SetOne(cs, others[0], times[0]);
      SetAllOthers(Set(cs, others[0], times[0]), others[1..], times[1..]);
    }
  }

  /** Setting InUse keeps the condition explained, with the new check as the last one. */
  lemma SetStaysExplained(records: seq<Record>, base: seq<Condition>, r: Record, c: Condition)
    requires Explained(records, Find(base, P.IN_USE)) && c.typ == P.IN_USE && c.status == r.status
    ensures Explained(records + [r], Find(Set(base, c, r.computedAt), P.IN_USE))
  {
    SetOne(base, c, r.computedAt);
    var was, all := Find(base, P.IN_USE), records + [r];
    if was.Some? && was.value.status == c.status {
      var j :| Since(records, j, was.value);
      assert Since(all, j, Stamped(was, c, r.computedAt));
    } else {
      assert Since(all, |records|, Stamped(was, c, r.computedAt));
    }
  }

  lemma HonestLater(past: seq<World>, later: seq<World>, name: string, r: Record)
    requires past <= later && Honest(past, name, r)
    ensures Honest(later, name, r)
  {
    assert ListingAt(later, r.seen) == ListingAt(past, r.seen);
  }

  lemma RevOkLater(past: seq<World>, later: seq<World>, rev: Rev)
    requires past <= later && RevOk(past, rev)
    ensures RevOk(later, rev)
  {
    forall i | 0 <= i < |rev.records|
      ensures Honest(later, rev.stored.name, rev.records[i])
    {
      HonestLater(past, later, rev.stored.name, rev.records[i]);
    }
  }

  /** Time only adds: worlds and records are appended to, and a uid is never used again. */
  ghost predicate Extends(s: State, s': State) {
    && s.past <= s'.past
    && s.used <= s'.used
    && forall n | n in s'.revs ::
         if n in s.revs && s.revs[n].stored.uid == s'.revs[n].stored.uid then s.revs[n].records <= s'.revs[n].records
         else s'.revs[n].stored.uid !in s.used
  }

  /** What a step can do to a revision: nothing but set flags, write its status, or create it. */
  lemma RevAfter(s: State, step: Step, n: string)
    requires s.past != [] && s.istios != [] && Enabled(s, step) && n in After(s, step).revs
    ensures var rev := After(s, step).revs[n];
            || (n in s.revs && step != Write(n, true)
                && rev.stored == s.revs[n].stored && rev.records == s.revs[n].records)
            || (n in s.revs && step == Write(n, true) && n in s.workers && s.workers[n].Computed?
                && rev.stored == s.revs[n].stored.(conditions := s.workers[n].conditions)
                && rev.records == s.revs[n].records + [s.workers[n].record.(writtenAt := s.clock)])
            || (n !in s.revs && n !in s.workers && rev.stored.name == n && rev.stored.conditions == []
                && rev.records == [] && rev.stored.uid !in s.used && rev.stored.uid in After(s, step).used)
  {
  }

  /** What a step can do to a worker; a revision does not go away while one is at it. */
  lemma WorkerAfter(s: State, step: Step, n: string)
    requires s.past != [] && s.istios != [] && Enabled(s, step) && n in After(s, step).workers
    ensures var w := After(s, step).workers[n];
            || (n in s.workers && w == s.workers[n] && !(step.Write? && step.name == n))
            || (step == Load(n) && w == Loaded(s.revs[n], []))
            || (step.List? && step.name == n && n in s.workers && s.workers[n].Loaded?
                && w == s.workers[n].(lists := s.workers[n].lists + [step.at]))
            || (step.Compute? && step.name == n && n in s.workers
                && w == ComputedStatus(s, s.workers[n], step.others, step.times))
    ensures n in s.revs ==> n in After(s, step).revs
  {
  }

  lemma StepGrowsPast(s: State, step: Step)
    requires s.past != [] && s.istios != [] && Enabled(s, step)
    ensures s.past <= After(s, step).past && s.used <= After(s, step).used
  {
  }

  lemma StepExtends(s: State, step: Step)
    requires s.past != [] && s.istios != [] && Enabled(s, step)
    ensures Extends(s, After(s, step))
  {
    var s' := After(s, step);
    StepGrowsPast(s, step);
    forall n | n in s'.revs
      ensures if n in s.revs && s.revs[n].stored.uid == s'.revs[n].stored.uid then
                s.revs[n].records <= s'.revs[n].records
              else s'.revs[n].stored.uid !in s.used
    {
      RevAfter(s, step, n);
    }
  }

  lemma StepKeepsRevs(s: State, step: Step)
    requires Inv(s) && Enabled(s, step)
    ensures RevsOk(After(s, step))
  {
    var s' := After(s, step);
    StepGrowsPast(s, step);
    forall n | n in s'.revs
      ensures s'.revs[n].stored.name == n && s'.revs[n].stored.uid in s'.used && RevOk(s'.past, s'.revs[n])
    {
      RevAfter(s, step, n);
      if n in s.revs {
        RevOkLater(s.past, s'.past, s.revs[n]);
        if step == Write(n, true) {
          WrittenRevOk(s, s'.past, n, s'.revs[n]);
        }
      }
    }
  }

  lemma WrittenRevOk(s: State, past: seq<World>, n: string, rev: Rev)
    requires n in s.workers && s.workers[n].Computed? && WorkerOk(s, n) && s.past <= past
    requires s.revs[n].stored.name == n && RevOk(past, s.revs[n])
    requires rev.stored == s.revs[n].stored.(conditions := s.workers[n].conditions)
    requires rev.records == s.revs[n].records + [s.workers[n].record.(writtenAt := s.clock)]
    ensures RevOk(past, rev)
  {
    var w, records := s.workers[n], s.revs[n].records;
    HonestLater(s.past, past, n, w.record);
    forall i | 0 <= i < |rev.records|
      ensures Honest(past, n, rev.records[i])
    {
      if i < |records| {
        assert Honest(past, n, records[i]);
      }
    }
    ExplainedByWritten(records, w.record, s.clock, Find(w.conditions, P.IN_USE));
  }

  lemma ExplainedByWritten(records: seq<Record>, r: Record, at: nat, c: Option<Condition>)
    requires Explained(records + [r], c)
    ensures Explained(records + [r.(writtenAt := at)], c)
  {
    if c.Some? {
      var j: nat :| Since(records + [r], j, c.value);
      assert forall i | 0 <= i <= |records| ::
        (records + [r.(writtenAt := at)])[i].status == (records + [r])[i].status;
      assert Since(records + [r.(writtenAt := at)], j, c.value);
    }
  }

  lemma StepKeepsWorkers(s: State, step: Step)
    requires Inv(s) && Enabled(s, step)
    ensures WorkersOk(After(s, step))
  {
    var s' := After(s, step);
    forall n | n in s'.workers
      ensures WorkerOk(s', n)
    {
      WorkerStaysOk(s, step, n);
    }
  }

  lemma WorkerStaysOk(s: State, step: Step, n: string)
    requires Inv(s) && Enabled(s, step) && n in After(s, step).workers
    ensures WorkerOk(After(s, step), n)
  {
    var s' := After(s, step);
    StepGrowsPast(s, step);
    WorkerAfter(s, step, n);
    RevAfter(s, step, n);
    if n in s.workers {
      assert WorkerOk(s, n);
      if s'.workers[n] == s.workers[n] {
        SameWorkerOk(s, s', n);
      } else if step.Compute? && step.name == n {
        ComputeKeepsWorker(s, n, step.others, step.times);
      }
    }
  }

  lemma SameWorkerOk(s: State, s': State, n: string)
    requires n in s.workers && WorkerOk(s, n) && s.past <= s'.past
    requires n in s'.workers && s'.workers[n] == s.workers[n]
    requires n in s'.revs && s'.revs[n].stored == s.revs[n].stored && s'.revs[n].records == s.revs[n].records
    ensures WorkerOk(s', n)
  {
    if s.workers[n].Computed? {
      HonestLater(s.past, s'.past, n, s.workers[n].record);
    }
  }

  lemma ComputeKeepsWorker(s: State, n: string, others: seq<Condition>, times: seq<nat>)
    requires Inv(s) && Enabled(s, Compute(n, others, times))
    ensures var w := ComputedStatus(s, s.workers[n], others, times);
            Honest(s.past, n, w.record) && Explained(w.read.records + [w.record], Find(w.conditions, P.IN_USE))
  {
    assert WorkerOk(s, n);
    assert RevOk(s.past, s.revs[n]);
    var w := s.workers[n];
    var computed := ComputedStatus(s, w, others, times);
    var base := S.SetAll(w.read.stored.conditions, others, times);
    SetAllOthers(w.read.stored.conditions, others, times);
    SetStaysExplained(w.read.records, base, computed.record,
      UsageCondition(R.Verdict(ListingAt(s.past, SeenOf(w.lists)), SubjectOf(w.read))));
  }

  lemma StepKeepsInv(s: State, step: Step)
    requires Inv(s) && Enabled(s, step)
    ensures Inv(After(s, step))
  {
    StepKeepsRevs(s, step);
    StepKeepsWorkers(s, step);
  }

  lemma {:induction false} RunKeepsInv(run: seq<State>, steps: seq<Step>, i: nat)
    requires IsRun(run, steps) && i < |run|
    ensures Inv(run[i])
  {
    if i > 0 {
      RunKeepsInv(run, steps, i - 1);
      assert TakesAt(run, steps, i - 1);
      StepKeepsInv(run[i - 1], steps[i - 1]);
    }
  }

  lemma {:induction false} RunExtends(run: seq<State>, steps: seq<Step>, i: nat, j: nat)
    requires IsRun(run, steps) && i <= j < |run|
    ensures run[i].past <= run[j].past && run[i].used <= run[j].used
    decreases j
  {
    if i < j {
      RunExtends(run, steps, i, j - 1);
      assert TakesAt(run, steps, j - 1);
      StepGrowsPast(run[j - 1], steps[j - 1]);
    }
  }
}
