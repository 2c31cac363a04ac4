/**
 Pruning the revisions that an Istio resource owns and no longer uses.

 Times and durations are in nanoseconds. The clock is read for every revision that is not in use,
 and once more at the end.
 */
module Prune {
  import opened Wrappers
  import opened Conditions

  datatype Revision = Revision(name: string, uid: string, owners: seq<string>, conditions: seq<Condition>)

  datatype PruneError = ListFailed | DeleteFailed(name: string)

  const IN_USE := "InUse"

  /** The readings of a clock: for the first, second, ... revision, and last for the end of the loop. */
  type Clock = readings: seq<int> | readings != [] witness [0]

  function Reading(clock: Clock, i: nat): int {
    if i < |clock| then clock[i] else clock[|clock| - 1]
  }

  // ----- The revisions an owner has -----

  predicate IsOwned(rev: Revision, owner: string) {
    owner in rev.owners
  }

  function Owned(revs: seq<Revision>, owner: string): seq<Revision> {
    if revs == [] then []
    else (if IsOwned(revs[0], owner) then [revs[0]] else []) + Owned(revs[1..], owner)
  }

  lemma {:induction false} OwnedAppend(revs: seq<Revision>, rev: Revision, owner: string)
    ensures Owned(revs + [rev], owner) == Owned(revs, owner) + (if IsOwned(rev, owner) then [rev] else [])
  {
    if revs != [] {
      assert (revs + [rev])[1..] == revs[1..] + [rev];
      OwnedAppend(revs[1..], rev, owner);
    }
  }

  /** `isOwnedRevision`; it panics without an owner. */
  method HasOwner(rev: Revision, owner: string) returns (r: bool)
    requires owner != ""
    ensures r == IsOwned(rev, owner)
  {
    for i := 0 to |rev.owners|
      invariant owner !in rev.owners[..i]
    {
      if rev.owners[i] == owner {
        return true;
      }
    }
    r := false;
  }

  method ListOwned(list: Option<seq<Revision>>, owner: string) returns (r: Result<seq<Revision>, PruneError>)
    requires owner != ""
    ensures r == if list.None? then Err(ListFailed) else Ok(Owned(list.value, owner))
  {
    if list.None? {
      return Err(ListFailed);
    }
    var revs: seq<Revision> := [];
    for i := 0 to |list.value|
      invariant revs == Owned(list.value[..i], owner)
    {
      assert list.value[..i + 1] == list.value[..i] + [list.value[i]];
      OwnedAppend(list.value[..i], list.value[i], owner);
      var owned := HasOwner(list.value[i], owner);
      if owned {
        revs := revs + [list.value[i]];
      }
    }
    assert list.value[..|list.value|] == list.value;
    r := Ok(revs);
  }

  // ----- The prune loop -----

  /** Only revisions known not to be in use are ever pruned, and never the active one. */
  predicate Prunable(rev: Revision, active: string) {
    rev.name != active && Get(rev.conditions, IN_USE).status == False
  }

  function Deadline(rev: Revision, grace: int): int {
    Get(rev.conditions, IN_USE).lastTransition + grace
  }

  predicate Expired(rev: Revision, active: string, grace: int, now: int) {
    Prunable(rev, active) && Deadline(rev, grace) < now
  }

  /** One run of the loop: the owned revisions in order, and the clock readings. */
  datatype Scan = Scan(revs: seq<Revision>, active: string, grace: int, clock: Clock)
  {
    predicate Expires(i: nat)
      requires i < |revs|
    {
      Expired(revs[i], active, grace, Reading(clock, i))
    }

    /** Not in use, but not yet expired when it was looked at. */
    predicate Waits(i: nat)
      requires i < |revs|
    {
      Prunable(revs[i], active) && !Expires(i)
    }

    function DeadlineOf(i: nat): int
      requires i < |revs|
    {
      Deadline(revs[i], grace)
    }

    /** The first `n` revisions without those that are kept. */
    function ExpiredAmong(n: nat): seq<Revision>
      requires n <= |revs|
    {
      if n == 0 then [] else ExpiredAmong(n - 1) + (if Expires(n - 1) then [revs[n - 1]] else [])
    }

    /** `next` is the earliest deadline of the first `n` revisions that are still waiting; None if none is. */
    ghost predicate IsNext(next: Option<int>, n: nat)
      requires n <= |revs|
    {
      && (next.None? <==> forall i | 0 <= i < n :: !Waits(i))
      && (next.Some? ==>
            && (exists i | 0 <= i < n :: Waits(i) && DeadlineOf(i) == next.value)
            && (forall i | 0 <= i < n && Waits(i) :: next.value <= DeadlineOf(i)))
    }
  }

  function Earlier(next: Option<int>, deadline: int): Option<int> {
    if next.None? || next.value > deadline then Some(deadline) else next
  }

  /** The loop has dealt with the first `n` revisions. */
  ghost predicate Progress(
      s: Scan, n: nat, before: seq<Revision>, deleted: seq<Revision>, fails: set<nat>, next: Option<int>)
    requires n <= |s.revs|
  {
    && deleted == before + s.ExpiredAmong(n)
    && (forall i | 0 <= i < n && s.Expires(i) :: i !in fails)
    && s.IsNext(next, n)
  }

  lemma NextStep(s: Scan, next: Option<int>, n: nat)
    requires n < |s.revs| && s.IsNext(next, n)
    ensures s.IsNext(if s.Waits(n) then Earlier(next, s.DeadlineOf(n)) else next, n + 1)
  {
  }

  lemma ProgressStep(
      s: Scan, n: nat, before: seq<Revision>, deleted: seq<Revision>, fails: set<nat>, next: Option<int>)
    requires n < |s.revs| && Progress(s, n, before, deleted, fails, next)
    ensures s.Expires(n) && n !in fails ==> Progress(s, n + 1, before, deleted + [s.revs[n]], fails, next)
    ensures s.Waits(n) ==> Progress(s, n + 1, before, deleted, fails, Earlier(next, s.DeadlineOf(n)))
    ensures !Prunable(s.revs[n], s.active) ==> Progress(s, n + 1, before, deleted, fails, next)
  {
    NextStep(s, next, n);
  }

  /** When a revision is to be pruned; None for the active one, and for those in use or not known to be unused. */
  method PruneTime(rev: Revision, active: string, grace: int) returns (deadline: Option<int>)
    ensures deadline == if Prunable(rev, active) then Some(Deadline(rev, grace)) else None
  {
    if rev.name == active {
      return None;
    }
    var inUse := Get(rev.conditions, IN_USE);
    if inUse.status == True {
      return None;
    }
    if inUse.status != False {
      return None;
    }
    deadline := Some(inUse.lastTransition + grace);
  }

  /** The API as the loop uses it: the delete requests that succeeded, in order. */
  class Client {
    var deleted: seq<Revision>

    constructor ()
      ensures deleted == []
    {
      deleted := [];
    }

    method Delete(rev: Revision, fails: bool) returns (ok: bool)
      modifies this
      ensures ok == !fails
      ensures deleted == if ok then old(deleted) + [rev] else old(deleted)
    {
      if !fails {
        deleted := deleted + [rev];
      }
      ok := !fails;
    }

    /**
     Deletes what is expired, up to the first delete that fails, and reports how long to wait for
     the next revision to expire.
     */
    method PruneInactive(
        list: Option<seq<Revision>>, owner: string, active: string, grace: int, clock: Clock, fails: set<nat>)
      returns (r: Result<Option<int>, PruneError>, ghost stopped: nat)
      requires owner != ""
      modifies this
      ensures list.None? ==> r == Err(ListFailed) && deleted == old(deleted)
      ensures list.Some? ==>
                var s := Scan(Owned(list.value, owner), active, grace, clock);
                && stopped <= |s.revs|
                && deleted == old(deleted) + s.ExpiredAmong(stopped)
                && (forall i | 0 <= i < stopped && s.Expires(i) :: i !in fails)
                && match r
                   case Ok(requeue) =>
                     && stopped == |s.revs|
                     && s.IsNext(if requeue.Some? then Some(requeue.value + Reading(clock, stopped)) else None, stopped)
                   case Err(e) =>
                     && stopped < |s.revs| && s.Expires(stopped) && stopped in fails
                     && e == DeleteFailed(s.revs[stopped].name)
    {
      stopped := 0;
      var owned := ListOwned(list, owner);
      if owned.Err? {
        return Err(owned.error), 0;
      }
      var revs := owned.value;
      ghost var s := Scan(revs, active, grace, clock);
      var next: Option<int> := None;
      var i := 0;
      while i < |revs|
        invariant 0 <= i <= |revs|
        invariant Progress(s, i, old(deleted), deleted, fails, next)
      {
        ProgressStep(s, i, old(deleted), deleted, fails, next);
        var pruneTime := PruneTime(revs[i], active, grace);
        if pruneTime.Some? {
          if pruneTime.value < Reading(clock, i) {
            var ok := Delete(revs[i], i in fails);
            if !ok {
              return Err(DeleteFailed(revs[i].name)), i;
            }
          } else {
            next := Earlier(next, pruneTime.value);
          }
        }
        i := i + 1;
      }
      stopped := i;
      match next
      case None => r := Ok(None);
      case Some(deadline) => r := Ok(Some(deadline - Reading(clock, |revs|)));
    }
  }

  // ----- What the loop amounts to -----

  ghost predicate Increasing(picks: seq<nat>) {
    forall k, l | 0 <= k < l < |picks| :: picks[k] < picks[l]
  }

  /** A revision is pruned if it is not the active one, and its first InUse condition has been False for long enough. */
  lemma ExpiredIff(rev: Revision, active: string, grace: int, now: int)
    ensures Expired(rev, active, grace, now) <==>
            && rev.name != active
            && exists i | 0 <= i < |rev.conditions| ::
                 && rev.conditions[i].typ == "InUse" && (forall j | 0 <= j < i :: rev.conditions[j].typ != "InUse")
                 && rev.conditions[i].status == False && rev.conditions[i].lastTransition + grace < now
  {
    FindIsFirst(rev.conditions, "InUse");
  }

  /** What is deleted: each expired revision once, in the order of the list, and nothing else. */
  lemma {:induction false} ExpiredAmongExactly(s: Scan, n: nat) returns (picks: seq<nat>)
    requires n <= |s.revs|
    ensures |picks| == |s.ExpiredAmong(n)| && Increasing(picks)
    ensures forall k | 0 <= k < |picks| :: picks[k] < n && s.ExpiredAmong(n)[k] == s.revs[picks[k]]
    ensures forall i | 0 <= i < n :: s.Expires(i) <==> i in picks
  {
    if n == 0 {
      return [];
    }
    picks := ExpiredAmongExactly(s, n - 1);
    if s.Expires(n - 1) {
      picks := picks + [n - 1];
    }
  }

  /** What is listed: each revision that the owner has once, in the order of the list, and nothing else. */
  lemma {:induction false} OwnedExactly(revs: seq<Revision>, owner: string) returns (picks: seq<nat>)
    ensures |picks| == |Owned(revs, owner)| && Increasing(picks)
    ensures forall k | 0 <= k < |picks| :: picks[k] < |revs| && Owned(revs, owner)[k] == revs[picks[k]]
    ensures forall i | 0 <= i < |revs| :: owner in revs[i].owners <==> i in picks
    decreases |revs|
  {
    if revs == [] {
      return [];
    }
    var last := |revs| - 1;
    picks := OwnedExactly(revs[..last], owner);
    assert revs == revs[..last] + [revs[last]];
    OwnedAppend(revs[..last], revs[last], owner);
    if IsOwned(revs[last], owner) {
      picks := picks + [last];
    }
  }

  /** A failing delete leaves a prefix of what a complete run would have deleted. */
  lemma {:induction false} FailureDeletesPrefix(s: Scan, n: nat)
    requires n <= |s.revs|
    ensures s.ExpiredAmong(n) <= s.ExpiredAmong(|s.revs|)
    decreases |s.revs| - n
  {
    if n < |s.revs| {
      FailureDeletesPrefix(s, n + 1);
    }
  }

  /** A request is queued again only after a positive delay. */
  predicate Requeues(requeue: Option<int>) {
    requeue.Some? && requeue.value > 0
  }

  /** The next run is scheduled exactly when something waits and no deadline has been reached by the end of the loop. */
  lemma RequeuedIffNothingDue(s: Scan, requeue: Option<int>)
    requires s.IsNext(if requeue.Some? then Some(requeue.value + Reading(s.clock, |s.revs|)) else None, |s.revs|)
    ensures Requeues(requeue) <==>
            && (exists i | 0 <= i < |s.revs| :: s.Waits(i))
            && (forall i | 0 <= i < |s.revs| && s.Waits(i) :: s.DeadlineOf(i) > Reading(s.clock, |s.revs|))
  {
  }

  /** A deadline that is now: the revision is not deleted, and nothing is scheduled that would delete it. */
  lemma DeadlineNowIsMissed() returns (s: Scan)
    ensures |s.revs| == 1 && Prunable(s.revs[0], s.active)
    ensures s.DeadlineOf(0) == Reading(s.clock, 0) == Reading(s.clock, 1)
    ensures s.ExpiredAmong(1) == [] && s.IsNext(Some(0 + Reading(s.clock, 1)), 1) && !Requeues(Some(0))
  {
    var c := Condition(IN_USE, False, "", "", 5 * SECOND);
    assert Find([c], IN_USE) == Some(c);
    s := Scan([Revision("old", "uid", ["owner"], [c])], "active", 30 * SECOND, [35 * SECOND]);
    assert s.Waits(0);
  }

  // ----- The grace period -----

  const TWO_63: int := 0x8000_0000_0000_0000
  const DEFAULT_GRACE_SECONDS := 30
  const LONGEST_GRACE_SECONDS := 9223372036

  /** The value of an int64 after wrap-around. */
  function Wrap64(x: int): int {
    (x + TWO_63) % (2 * TWO_63) - TWO_63
  }

  function GraceSeconds(configured: Option<int>): int {
    var period := if configured.Some? then configured.value else DEFAULT_GRACE_SECONDS;
    if period < 0 then 0 else period
  }

  /** `getPruningGracePeriod`: a number of seconds, by default 30, as an int64 duration. */
  function GracePeriod(configured: Option<int>): int {
    Wrap64(GraceSeconds(configured) * SECOND)
  }

  /** 30 seconds unless configured, none if that is negative, and else what is configured. */
  lemma GraceMeans(configured: Option<int>)
    requires configured.Some? ==> configured.value <= 9_223_372_036
    ensures GracePeriod(configured) ==
            match configured
            case None => 30_000_000_000
            case Some(n) => if n < 0 then 0 else n * 1_000_000_000
  {
  }

  /** The product is exact for up to 9223372036 seconds, and for no longer period that an int64 can hold. */
  lemma GraceIsExactIff(configured: Option<int>)
    requires configured.Some? ==> -TWO_63 <= configured.value < TWO_63
    ensures GracePeriod(configured) == GraceSeconds(configured) * SECOND <==>
            GraceSeconds(configured) <= LONGEST_GRACE_SECONDS
  {
  }

  /** One second more, and a revision is pruned as soon as it is seen not to be in use. */
  lemma OverflowedGraceIsNone(rev: Revision, active: string, now: nat)
    requires Prunable(rev, active) && Get(rev.conditions, IN_USE).lastTransition == Truncate(now)
    ensures Expired(rev, active, GracePeriod(Some(LONGEST_GRACE_SECONDS + 1)), now)
  {
  }
}
