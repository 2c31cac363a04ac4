/**
 Runs in which a revision is pruned.

 In the first it is pruned as early as possible: two nanoseconds more than a grace period minus one
 second after the time stamp of the check that found it unused, and at the very time at which the
 result of the check reaches the server, since that write is late. In the other two something happens
 between the listing and the deletion: a check finds the revision in use, or another object takes its
 name. It is deleted all the same.
 */
module LifecycleExample {
  import opened Wrappers
  import opened Conditions
  import opened Lifecycle
  import P = Prune
  import A = ActiveRevision
  import R = References
  import S = StatusUpdate

  const EMPTY_WORLD := World([], [], [])
  const MESH := A.Istio("mesh", "uid-mesh", A.IstioSpec("v1.26.0", "istio-system", "", None, None))
  const FOUND_AT: nat := 5_999_999_999
  const PRUNED_AT: nat := 35_000_000_001

  ghost predicate Ends(run: seq<State>, steps: seq<Step>, s: State) {
    IsRun(run, steps) && run[|run| - 1] == s
  }

  lemma Append(run: seq<State>, steps: seq<Step>, s: State, step: Step, next: State)
    returns (longer: seq<State>, more: seq<Step>)
    requires Ends(run, steps, s) && Takes(s, step, next)
    ensures Ends(longer, more, next)
  {
    longer, more := run + [next], steps + [step];
    forall i | 0 <= i < |more|
      ensures TakesAt(longer, more, i)
    {
      if i < |steps| {
        assert TakesAt(run, steps, i);
      }
    }
  }

  function Old(conditions: seq<Condition>, records: seq<Record>): Rev {
    Rev(P.Revision("old", "uid-old", ["uid-mesh"], conditions), false, false, records)
  }

  const UNUSED := S.InUseCondition(Ok(false)).(lastTransition := 5 * SECOND)
  const CHECK := Record(False, FOUND_AT, FOUND_AT, R.Subject("old", false), Seen(Some(0), Some(0), Some(0)))
  const LATE_CHECK := CHECK.(writtenAt := PRUNED_AT)

  function At(clock: nat, revs: map<string, Rev>, workers: map<string, Worker>): State {
    State(clock, [EMPTY_WORLD], [MESH], revs, {"uid-old"}, workers, Idle, [])
  }

  function Checking(w: Worker): State {
    At(FOUND_AT, map["old" := Old([], [])], map["old" := w])
  }

  lemma ReadRun() returns (run: seq<State>, steps: seq<Step>)
    ensures Ends(run, steps, Checking(Loaded(Old([], []), [])))
  {
    var s0 := State(0, [EMPTY_WORLD], [MESH], map[], {}, map[], Idle, []);
    var s1 := At(0, map["old" := Old([], [])], map[]);
    run, steps := Append([s0], [], s0, CreateRevision(Old([], []).stored), s1);
    var s2 := s1.(clock := FOUND_AT);
    run, steps := Append(run, steps, s1, Tick(FOUND_AT), s2);
    run, steps := Append(run, steps, s2, Load("old"), Checking(Loaded(Old([], []), [])));
  }

  lemma CheckingNext(w: Worker, next: Worker)
    ensures Checking(w).workers["old" := next] == Checking(next).workers
  {
  }

  lemma ListOnce(run: seq<State>, steps: seq<Step>, lists: seq<Option<nat>>)
    returns (longer: seq<State>, more: seq<Step>)
    requires |lists| < 3 && Ends(run, steps, Checking(Loaded(Old([], []), lists)))
    ensures Ends(longer, more, Checking(Loaded(Old([], []), lists + [Some(0)])))
  {
    var w, next := Loaded(Old([], []), lists), Loaded(Old([], []), lists + [Some(0)]);
    CheckingNext(w, next);
    longer, more := Append(run, steps, Checking(w), List("old", Some(0)), Checking(next));
  }

  lemma ListedRun() returns (run: seq<State>, steps: seq<Step>)
    ensures Ends(run, steps, Checking(Loaded(Old([], []), [Some(0), Some(0), Some(0)])))
  {
    run, steps := ReadRun();
    run, steps := ListOnce(run, steps, []);
    run, steps := ListOnce(run, steps, [] + [Some(0)]);
    run, steps := ListOnce(run, steps, [] + [Some(0)] + [Some(0)]);
    assert [] + [Some(0)] + [Some(0)] + [Some(0)] == [Some(0), Some(0), Some(0)];
  }

  lemma ComputedUnused(s: State)
    requires s == Checking(Loaded(Old([], []), [Some(0), Some(0), Some(0)]))
    ensures ComputedStatus(s, s.workers["old"], [], []) == Computed(Old([], []), [UNUSED], CHECK)
  {
    assert "old" != R.DEFAULT_REVISION;
    assert R.Verdict(ListingAt(s.past, CHECK.seen), CHECK.subject) == Ok(false);
  }

  lemma ComputedRun() returns (run: seq<State>, steps: seq<Step>)
    ensures Ends(run, steps, Checking(Computed(Old([], []), [UNUSED], CHECK)))
  {
    run, steps := ListedRun();
    var w := Loaded(Old([], []), [Some(0), Some(0), Some(0)]);
    ComputedUnused(Checking(w));
    CheckingNext(w, Computed(Old([], []), [UNUSED], CHECK));
    var next := Checking(Computed(Old([], []), [UNUSED], CHECK));
    run, steps := Append(run, steps, Checking(w), Compute("old", [], []), next);
  }

  /** An unreferenced revision is checked, and the result is written late. */
  lemma FoundUnusedRun() returns (run: seq<State>, steps: seq<Step>)
    ensures Ends(run, steps, At(PRUNED_AT, map["old" := Old([UNUSED], [LATE_CHECK])], map[]))
  {
    run, steps := ComputedRun();
    var computed := Checking(Computed(Old([], []), [UNUSED], CHECK));
    var later := computed.(clock := PRUNED_AT);
    run, steps := Append(run, steps, computed, Tick(PRUNED_AT), later);
    assert [] + [LATE_CHECK] == [LATE_CHECK];
    assert later.workers - {"old"} == map[];
    assert later.revs["old" := Old([UNUSED], [LATE_CHECK])] == map["old" := Old([UNUSED], [LATE_CHECK])];
    var next := At(PRUNED_AT, map["old" := Old([UNUSED], [LATE_CHECK])], map[]);
    run, steps := Append(run, steps, later, Write("old", true), next);
  }

  const LISTED := Old([UNUSED], [LATE_CHECK])
  const ACTIVE := Rev(P.Revision("mesh", "uid-active", ["uid-mesh"], []), false, false, [])

  function Later(worker: IstioWorker, revs: map<string, Rev>, used: set<string>): State {
    State(PRUNED_AT, [EMPTY_WORLD], [MESH], revs, used, map[], worker, [])
  }

  lemma UpdatedRun() returns (run: seq<State>, steps: seq<Step>)
    ensures Ends(run, steps, Later(Updated(MESH), map["old" := LISTED, "mesh" := ACTIVE], {"uid-old", "uid-active"}))
  {
    run, steps := FoundUnusedRun();
    var revs := map["old" := LISTED];
    var s1 := Later(Idle, revs, {"uid-old"});
    assert s1 == At(PRUNED_AT, revs, map[]);
    var s2 := Later(Started(MESH), revs, {"uid-old"});
    run, steps := Append(run, steps, s1, ReadIstio(0), s2);
    assert A.ActiveRevisionName(MESH) == "mesh" && "mesh" !in revs && "uid-active" != "uid-old";
    var s3 := Later(Updated(MESH), map["old" := LISTED, "mesh" := ACTIVE], {"uid-old", "uid-active"});
    assert After(s2, UpdateActive("uid-active", false, true)) == s3;
    run, steps := Append(run, steps, s2, UpdateActive("uid-active", false, true), s3);
  }

  const REVS := map["old" := LISTED, "mesh" := ACTIVE]
  const USED_UIDS := {"uid-old", "uid-active"}

  /** The unused revision has been listed, and comes next. */
  lemma PruningRun() returns (run: seq<State>, steps: seq<Step>)
    ensures Ends(run, steps, Later(Pruning(MESH, [LISTED], 0), REVS, USED_UIDS))
  {
    run, steps := UpdatedRun();
    var s, s1 := Later(Updated(MESH), REVS, USED_UIDS), Later(Pruning(MESH, [LISTED], 0), REVS, USED_UIDS);
    assert REVS["old"] == LISTED;
    assert OwnedBy([LISTED], "uid-mesh") == [LISTED];
    run, steps := Append(run, steps, s, ListRevisions([LISTED]), s1);
  }

  const DELETION := Deletion(MESH, LISTED, PRUNED_AT)

  lemma PruneIt(s: State)
    requires s.past != [] && s.istios != [] && s.clock == PRUNED_AT
    requires s.istioWorker == Pruning(MESH, [LISTED], 0) && "old" in s.revs
    ensures Enabled(s, PruneNext(true))
    ensures var s' := After(s, PruneNext(true));
            && s'.deletions == s.deletions + [DELETION]
            && s'.revs == s.revs["old" := s.revs["old"].(deleting := true)]
  {
    assert Find([UNUSED], P.IN_USE) == Some(UNUSED);
    assert A.ActiveRevisionName(MESH) == "mesh" != "old";
    assert P.Expired(LISTED.stored, "mesh", Grace(MESH), PRUNED_AT);
  }

  lemma PruningCanHappen() returns (run: seq<State>, steps: seq<Step>, d: Deletion)
    ensures IsRun(run, steps) && run[|run| - 1].deletions == [d]
    ensures |d.listed.records| == 1 && Grace(d.istio) == 30 * SECOND
    ensures d.at - d.listed.records[0].computedAt == Grace(d.istio) - SECOND + 2
    ensures d.at == d.listed.records[0].writtenAt
  {
    run, steps := PruningRun();
    var s := Later(Pruning(MESH, [LISTED], 0), REVS, USED_UIDS);
    PruneIt(s);
    d := DELETION;
    run, steps := Append(run, steps, s, PruneNext(true), After(s, PruneNext(true)));
  }

  // ----- Between the listing and the deletion -----

  /** Another object may take the name: it is the one that is deleted, although nothing was ever recorded for it. */
  lemma AnotherObjectIsDeleted() returns (run: seq<State>, steps: seq<Step>, d: Deletion)
    ensures IsRun(run, steps)
    ensures var s := run[|run| - 1];
            && s.deletions == [d] && d.listed.stored.name in s.revs
            && var rev := s.revs[d.listed.stored.name];
               rev.deleting && rev.stored.uid != d.listed.stored.uid && rev.records == []
  {
    run, steps := PruningRun();
    var pruning := Pruning(MESH, [LISTED], 0);
    var s := Later(pruning, REVS, USED_UIDS);
    var s1 := Later(pruning, REVS["old" := LISTED.(deleting := true)], USED_UIDS);
    run, steps := Append(run, steps, s, DeleteRevision("old"), s1);
    var s2 := s1.(revs := s1.revs - {"old"});
    run, steps := Append(run, steps, s1, Finalize("old"), s2);
    var other := P.Revision("old", "uid-new", [], []);
    assert "uid-new"[4] != "uid-old"[4];
    var s3 := s2.(revs := s2.revs["old" := Rev(other, false, false, [])], used := USED_UIDS + {"uid-new"});
    run, steps := Append(run, steps, s2, CreateRevision(other), s3);
    PruneIt(s3);
    d := DELETION;
    run, steps := Append(run, steps, s3, PruneNext(true), After(s3, PruneNext(true)));
  }

  const BUSY_WORLD := World([], [R.Namespace("app", map[R.REV_LABEL := "old"])], [])
  const IN_USE_NOW := S.InUseCondition(Ok(true)).(lastTransition := 35 * SECOND)
  const USE_FOUND := Record(True, PRUNED_AT, PRUNED_AT, R.Subject("old", false), Seen(Some(1), Some(1), Some(1)))

  function Busy(revs: map<string, Rev>, workers: map<string, Worker>): State {
    State(PRUNED_AT, [EMPTY_WORLD, BUSY_WORLD], [MESH], revs, USED_UIDS, workers, Pruning(MESH, [LISTED], 0), [])
  }

  function Rechecking(lists: seq<Option<nat>>): State {
    Busy(REVS, map["old" := Loaded(LISTED, lists)])
  }

  /** A namespace begins to use the listed revision, and another check of it begins. */
  lemma ReloadRun() returns (run: seq<State>, steps: seq<Step>)
    ensures Ends(run, steps, Rechecking([]))
  {
    run, steps := PruningRun();
    var s := Later(Pruning(MESH, [LISTED], 0), REVS, USED_UIDS);
    run, steps := Append(run, steps, s, ChangeWorkloads(BUSY_WORLD.namespaces, []), Busy(REVS, map[]));
    assert REVS["old"] == LISTED;
    run, steps := Append(run, steps, Busy(REVS, map[]), Load("old"), Rechecking([]));
  }

  lemma RelistOnce(run: seq<State>, steps: seq<Step>, lists: seq<Option<nat>>)
    returns (longer: seq<State>, more: seq<Step>)
    requires |lists| < 3 && Ends(run, steps, Rechecking(lists))
    ensures Ends(longer, more, Rechecking(lists + [Some(1)]))
  {
    assert Rechecking(lists).workers["old" := Loaded(LISTED, lists + [Some(1)])]
        == Rechecking(lists + [Some(1)]).workers;
    longer, more := Append(run, steps, Rechecking(lists), List("old", Some(1)), Rechecking(lists + [Some(1)]));
  }

  lemma RecheckRun() returns (run: seq<State>, steps: seq<Step>)
    ensures Ends(run, steps, Rechecking([Some(1), Some(1), Some(1)]))
  {
    run, steps := ReloadRun();
    run, steps := RelistOnce(run, steps, []);
    run, steps := RelistOnce(run, steps, [] + [Some(1)]);
    run, steps := RelistOnce(run, steps, [] + [Some(1)] + [Some(1)]);
    assert [] + [Some(1)] + [Some(1)] + [Some(1)] == [Some(1), Some(1), Some(1)];
  }

  lemma ComputedInUse(s: State)
    requires s == Rechecking([Some(1), Some(1), Some(1)])
    ensures ComputedStatus(s, s.workers["old"], [], []) == Computed(LISTED, [IN_USE_NOW], USE_FOUND)
  {
    assert BUSY_WORLD.namespaces[0] in BUSY_WORLD.namespaces;
    assert R.INJECTION_LABEL != R.REV_LABEL;
    assert R.NamespaceReferences(BUSY_WORLD.namespaces[0], "old");
    assert R.Verdict(ListingAt(s.past, USE_FOUND.seen), USE_FOUND.subject) == Ok(true);
  }

  const COMPUTED_IN_USE := Computed(LISTED, [IN_USE_NOW], USE_FOUND)

  lemma RecomputedRun() returns (run: seq<State>, steps: seq<Step>)
    ensures Ends(run, steps, Busy(REVS, map["old" := COMPUTED_IN_USE]))
  {
    run, steps := RecheckRun();
    var s := Rechecking([Some(1), Some(1), Some(1)]);
    ComputedInUse(s);
    assert s.workers["old" := COMPUTED_IN_USE] == map["old" := COMPUTED_IN_USE];
    run, steps := Append(run, steps, s, Compute("old", [], []), Busy(REVS, map["old" := COMPUTED_IN_USE]));
  }

  const USED := LISTED.(stored := LISTED.stored.(conditions := [IN_USE_NOW]), records := [LATE_CHECK, USE_FOUND])

  lemma UseRecordedRun() returns (run: seq<State>, steps: seq<Step>)
    ensures Ends(run, steps, Busy(REVS["old" := USED], map[]))
  {
    run, steps := RecomputedRun();
    var s := Busy(REVS, map["old" := COMPUTED_IN_USE]);
    assert [LATE_CHECK] + [USE_FOUND] == [LATE_CHECK, USE_FOUND];
    assert s.workers - {"old"} == map[];
    run, steps := Append(run, steps, s, Write("old", true), Busy(REVS["old" := USED], map[]));
  }

  /** The check may find the revision in use and record it: the very object is deleted nevertheless. */
  lemma UsedObjectIsDeleted() returns (run: seq<State>, steps: seq<Step>, d: Deletion)
    ensures IsRun(run, steps)
    ensures var s := run[|run| - 1];
            && s.deletions == [d] && d.listed.stored.name in s.revs
            && var rev := s.revs[d.listed.stored.name];
               && rev.deleting && rev.stored.uid == d.listed.stored.uid
               && Get(rev.stored.conditions, P.IN_USE).status == True
               && rev.records != [] && rev.records[|rev.records| - 1].status == True
  {
    run, steps := UseRecordedRun();
    var s := Busy(REVS["old" := USED], map[]);
    PruneIt(s);
    d := DELETION;
    assert Find([IN_USE_NOW], P.IN_USE) == Some(IN_USE_NOW);
    run, steps := Append(run, steps, s, PruneNext(true), After(s, PruneNext(true)));
  }
}
