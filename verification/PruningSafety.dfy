/**
 What a deletion of a revision rests on, in every run of the state machine: when the pruner listed
 the revision, what had been recorded for it by then, and what happened to it until it was deleted.
 */
module PruningSafety {
  import opened Wrappers
  import opened JsonTree
  import opened Conditions
  import opened Lifecycle
  import R = References
  import P = Prune
  import S = StatusUpdate
  import A = ActiveRevision

  // ----- One pass of the pruner -----

  /** In step `k` the pruner lists revisions, and in state `m` it still works on that list. */
  ghost predicate PassFrom(
      run: seq<State>, steps: seq<Step>, k: nat, m: nat, istio: A.Istio, listed: seq<Rev>)
    requires |run| == |steps| + 1
  {
    && k < m < |run|
    && run[k].istioWorker == Updated(istio)
    && steps[k].ListRevisions? && listed == OwnedBy(steps[k].list, istio.uid)
    && forall l | k < l <= m ::
         run[l].istioWorker.Pruning? && run[l].istioWorker.istio == istio && run[l].istioWorker.listed == listed
  }

  lemma PrunerAfter(s: State, step: Step)
    requires s.past != [] && s.istios != [] && Enabled(s, step) && After(s, step).istioWorker.Pruning?
    ensures var w := After(s, step).istioWorker;
            || (step.ListRevisions? && s.istioWorker == Updated(w.istio) && w.listed == OwnedBy(step.list, w.istio.uid))
            || (s.istioWorker.Pruning? && s.istioWorker.istio == w.istio && s.istioWorker.listed == w.listed)
  {
  }

  lemma {:induction false} PrunerHasListed(run: seq<State>, steps: seq<Step>, m: nat) returns (k: nat)
    requires IsRun(run, steps) && m < |run| && run[m].istioWorker.Pruning?
    ensures PassFrom(run, steps, k, m, run[m].istioWorker.istio, run[m].istioWorker.listed)
  {
    assert m > 0;
    assert TakesAt(run, steps, m - 1);
    PrunerAfter(run[m - 1], steps[m - 1]);
    if steps[m - 1].ListRevisions? {
      k := m - 1;
    } else {
      k := PrunerHasListed(run, steps, m - 1);
    }
  }

  /** In state `s` the pruner deletes what it has listed, under the name of the revision. */
  ghost predicate Deletes(s: State, step: Step, s': State, d: Deletion) {
    && step == PruneNext(true)
    && s.istioWorker.Pruning? && s.istioWorker.next < |s.istioWorker.listed|
    && d == Deletion(s.istioWorker.istio, s.istioWorker.listed[s.istioWorker.next], s.clock)
    && P.Expired(d.listed.stored, A.ActiveRevisionName(d.istio), Grace(d.istio), d.at)
    && s'.deletions == s.deletions + [d]
    && var n := d.listed.stored.name;
       s'.revs == if n in s.revs then s.revs[n := s.revs[n].(deleting := true)] else s.revs
  }

  lemma DeletionAfter(s: State, step: Step, d: Deletion)
    requires s.past != [] && s.istios != [] && Enabled(s, step) && d in After(s, step).deletions
    ensures d in s.deletions || Deletes(s, step, After(s, step), d)
  {
  }

  lemma {:induction false} DeletionHasStep(run: seq<State>, steps: seq<Step>, i: nat, d: Deletion) returns (m: nat)
    requires IsRun(run, steps) && i < |run| && d in run[i].deletions
    ensures m < i && Deletes(run[m], steps[m], run[m + 1], d)
  {
    assert i > 0;
    assert TakesAt(run, steps, i - 1);
    DeletionAfter(run[i - 1], steps[i - 1], d);
    if d in run[i - 1].deletions {
      m := DeletionHasStep(run, steps, i - 1, d);
    } else {
      m := i - 1;
    }
  }

  /**
   The deletion is made in step `m`, in the pass that listed the revision in step `k`, and what was
   listed is what the server had then.
   */
  ghost predicate DeletedInPass(run: seq<State>, steps: seq<Step>, k: nat, m: nat, d: Deletion)
    requires |run| == |steps| + 1
  {
    && k < m < |steps|
    && Deletes(run[m], steps[m], run[m + 1], d)
    && PassFrom(run, steps, k, m, d.istio, run[m].istioWorker.listed)
    && d.listed.stored.name in run[k].revs && run[k].revs[d.listed.stored.name] == d.listed
  }

  lemma DeletionHasPass(run: seq<State>, steps: seq<Step>, i: nat, d: Deletion) returns (k: nat, m: nat)
    requires IsRun(run, steps) && i < |run| && d in run[i].deletions
    ensures m < i && DeletedInPass(run, steps, k, m, d)
    ensures P.IsOwned(d.listed.stored, d.istio.uid) && !A.ManagesExternalRevision(d.istio)
  {
    m := DeletionHasStep(run, steps, i, d);
    k := PrunerHasListed(run, steps, m);
    assert TakesAt(run, steps, k);
    OwnedByOwner(steps[k].list, d.istio.uid);
    RunKeepsInv(run, steps, k);
    assert d.listed in run[k].revs.Values;
  }

  // ----- What had been recorded -----

  ghost predicate FoundUnused(past: seq<World>, name: string, r: Record) {
    && Honest(past, name, r)
    && r.status == False
    && R.Verdict(ListingAt(past, r.seen), r.subject) == Ok(false)
  }

  /** The checks from the `j`-th on found the revision unused. */
  ghost predicate AllUnused(past: seq<World>, name: string, records: seq<Record>, j: nat) {
    forall i | j <= i < |records| :: FoundUnused(past, name, records[i])
  }

  lemma AllUnusedLater(past: seq<World>, later: seq<World>, name: string, records: seq<Record>, j: nat)
    requires past <= later && forall i | 0 <= i < |records| :: Honest(past, name, records[i])
    ensures AllUnused(later, name, records, j) <==> AllUnused(past, name, records, j)
  {
    forall i | 0 <= i < |records|
      ensures FoundUnused(later, name, records[i]) <==> FoundUnused(past, name, records[i])
    {
      HonestLater(past, later, name, records[i]);
    }
  }

  lemma AllUnusedWith(past: seq<World>, name: string, records: seq<Record>, r: Record, j: nat)
    requires Honest(past, name, r) && j <= |records|
    ensures AllUnused(past, name, records + [r], j) <==> AllUnused(past, name, records, j) && r.status == False
  {
    var all := records + [r];
    assert all[|records|] == r;
    assert FoundUnused(past, name, r) <==> r.status == False;
    assert forall i | 0 <= i < |records| :: all[i] == records[i];
  }

  /**
   From its `j`-th check on the revision was found unused, and that check was taken a grace period
   before the deletion, but for a second.
   */
  ghost predicate UnusedSince(past: seq<World>, d: Deletion, j: nat) {
    var records := d.listed.records;
    && j < |records|
    && AllUnused(past, d.listed.stored.name, records, j)
    && d.at - records[j].computedAt >= Grace(d.istio) - SECOND + 2
  }

  lemma ExpiredIsUnused(past: seq<World>, d: Deletion) returns (j: nat)
    requires RevOk(past, d.listed)
    requires P.Expired(d.listed.stored, A.ActiveRevisionName(d.istio), Grace(d.istio), d.at)
    ensures UnusedSince(past, d, j)
  {
    var records, c := d.listed.records, Find(d.listed.stored.conditions, P.IN_USE);
    assert c.Some? && c.value.status == False;
    j :| Since(records, j, c.value);
    TruncateIsMonotone(records[j].computedAt, records[j].computedAt);
    forall i | j <= i < |records|
      ensures FoundUnused(past, d.listed.stored.name, records[i])
    {
      assert Honest(past, d.listed.stored.name, records[i]);
    }
  }

  // ----- What happened until the deletion -----

  /** The revision's finalization, or a usage check that did not find it unused. */
  ghost predicate Disturbs(s: State, step: Step, n: string) {
    || step == Finalize(n)
    || (step == Write(n, true) && n in s.workers && s.workers[n].Computed? && s.workers[n].record.status != False)
  }

  ghost predicate Undisturbed(run: seq<State>, steps: seq<Step>, k: nat, m: nat, n: string)
    requires m <= |steps| < |run|
  {
    forall l | k <= l < m :: !Disturbs(run[l], steps[l], n)
  }

  /** The server has the very object, and its checks from the `j`-th to the latest found it unused. */
  ghost predicate UnusedSoFar(s: State, rev: Rev, j: nat) {
    IsSameObject(s, rev) && AllUnused(s.past, rev.stored.name, s.revs[rev.stored.name].records, j)
  }

  ghost predicate IsSameObject(s: State, rev: Rev) {
    rev.stored.name in s.revs && s.revs[rev.stored.name].stored.uid == rev.stored.uid
  }

  lemma ReadEarlierStays(s: State, step: Step, rev: Rev)
    requires s.past != [] && s.istios != [] && Enabled(s, step) && ReadEarlier(s, rev)
    ensures ReadEarlier(After(s, step), rev)
    ensures IsSameObject(After(s, step), rev) ==> IsSameObject(s, rev)
  {
    StepExtends(s, step);
  }

  /** What a step does to a revision that has been found unused so far. */
  lemma UnusedAfter(s: State, step: Step, rev: Rev, j: nat)
    requires Inv(s) && Enabled(s, step) && ReadEarlier(s, rev) && j < |rev.records|
    ensures UnusedSoFar(After(s, step), rev, j) <==> UnusedSoFar(s, rev, j) && !Disturbs(s, step, rev.stored.name)
  {
    var n, s' := rev.stored.name, After(s, step);
    ReadEarlierStays(s, step, rev);
    if IsSameObject(s, rev) {
      if n !in s'.revs {
        GoneOnlyWhenFinalized(s, step, n);
      } else {
        RevAfter(s, step, n);
        StepGrowsPast(s, step);
        AllUnusedLater(s.past, s'.past, n, s.revs[n].records, j);
        if step == Write(n, true) {
          var r := s.workers[n].record.(writtenAt := s.clock);
          assert WorkerOk(s, n);
          HonestLater(s.past, s'.past, n, r);
          AllUnusedWith(s'.past, n, s.revs[n].records, r, j);
        }
      }
    }
  }

  lemma UnusedNext(s: State, step: Step, s': State, rev: Rev, j: nat)
    requires Inv(s) && Takes(s, step, s') && ReadEarlier(s, rev) && j < |rev.records|
    ensures UnusedSoFar(s', rev, j) <==> UnusedSoFar(s, rev, j) && !Disturbs(s, step, rev.stored.name)
  {
    UnusedAfter(s, step, rev, j);
  }

  lemma GoneOnlyWhenFinalized(s: State, step: Step, n: string)
    requires s.past != [] && s.istios != [] && Enabled(s, step) && n in s.revs
    ensures n !in After(s, step).revs <==> step == Finalize(n)
  {
  }

  lemma {:induction false} ReadEarlierInRun(run: seq<State>, steps: seq<Step>, k: nat, m: nat, rev: Rev)
    requires IsRun(run, steps) && k <= m < |run|
    requires rev.stored.name in run[k].revs && run[k].revs[rev.stored.name] == rev
    ensures ReadEarlier(run[m], rev)
    decreases m
  {
    if k < m {
      ReadEarlierInRun(run, steps, k, m - 1, rev);
      assert TakesAt(run, steps, m - 1);
      ReadEarlierStays(run[m - 1], steps[m - 1], rev);
    } else {
      RunKeepsInv(run, steps, k);
    }
  }

  lemma UnusedAtStep(run: seq<State>, steps: seq<Step>, l: nat, rev: Rev, j: nat)
    requires IsRun(run, steps) && l < |steps| && ReadEarlier(run[l], rev) && j < |rev.records|
    ensures UnusedSoFar(run[l + 1], rev, j) <==>
            UnusedSoFar(run[l], rev, j) && !Disturbs(run[l], steps[l], rev.stored.name)
  {
    RunKeepsInv(run, steps, l);
    assert TakesAt(run, steps, l);
    UnusedNext(run[l], steps[l], run[l + 1], rev, j);
  }

  /** The exact condition under which everything recorded until a later moment found the revision unused. */
  lemma {:induction false} StillUnusedIff(run: seq<State>, steps: seq<Step>, k: nat, m: nat, rev: Rev, j: nat)
    requires IsRun(run, steps) && k <= m < |run|
    requires rev.stored.name in run[k].revs && run[k].revs[rev.stored.name] == rev
    requires j < |rev.records| && AllUnused(run[k].past, rev.stored.name, rev.records, j)
    ensures UnusedSoFar(run[m], rev, j) <==> Undisturbed(run, steps, k, m, rev.stored.name)
    decreases m
  {
    if k < m {
      StillUnusedIff(run, steps, k, m - 1, rev, j);
      ReadEarlierInRun(run, steps, k, m - 1, rev);
      UnusedAtStep(run, steps, m - 1, rev, j);
      UndisturbedStep(run, steps, k, m - 1, rev.stored.name);
      assert run[m - 1 + 1] == run[m];
    } else {
      assert UnusedSoFar(run[k], rev, j);
    }
  }

  lemma UndisturbedStep(run: seq<State>, steps: seq<Step>, k: nat, m: nat, n: string)
    requires k <= m < |steps| < |run|
    ensures Undisturbed(run, steps, k, m + 1, n) <==>
            Undisturbed(run, steps, k, m, n) && !Disturbs(run[m], steps[m], n)
  {
  }

  // ----- Main theorems -----

  /**
   Every deletion is of a revision that the pruner listed in the same pass: owned, not the active
   one, and found unused by every check that the server had from one on that was taken a grace period
   before, but for a second.

   Until it is deleted the same holds of everything recorded for it, and the object is the same, if and
   only if it was not finalized in between and no check with another result was written.
   */
  lemma PrunedOnlyAfterGracePeriod(run: seq<State>, steps: seq<Step>, i: nat, d: Deletion)
    returns (k: nat, m: nat, j: nat)
    requires IsRun(run, steps) && i < |run| && d in run[i].deletions
    ensures m < i && DeletedInPass(run, steps, k, m, d)
    ensures d.istio.uid in d.listed.stored.owners && !A.IsActiveName(d.istio, d.listed.stored.name)
    ensures d.istio.spec.values.Some? ==>
              At(d.istio.spec.values.value, ["pilot", "env", "EXTERNAL_ISTIOD"]) != Some(Str("true"))
    ensures UnusedSince(run[k].past, d, j)
    ensures UnusedSoFar(run[m], d.listed, j) <==> Undisturbed(run, steps, k, m, d.listed.stored.name)
    ensures ReadEarlier(run[i], d.listed)
  {
    k, m := DeletionHasPass(run, steps, i, d);
    RunKeepsInv(run, steps, k);
    j := ExpiredIsUnused(run[k].past, d);
    StillUnusedIff(run, steps, k, m, d.listed, j);
    ReadEarlierInRun(run, steps, k, i, d.listed);
    A.ActiveNameIsUnique(d.istio, d.listed.stored.name);
  }

  /** The grace period in the spec; 30 seconds if there is none, and no time if it is negative. */
  function ConfiguredSeconds(istio: A.Istio): int {
    match istio.spec.strategy
    case None => 30
    case Some(strategy) =>
      match strategy.gracePeriodSeconds
      case None => 30
      case Some(n) => if n < 0 then 0 else n
  }

  /** In seconds, for every grace period that a duration can hold. */
  lemma PrunedOnlyAfterConfiguredSeconds(run: seq<State>, steps: seq<Step>, i: nat, d: Deletion)
    returns (k: nat, m: nat, j: nat)
    requires IsRun(run, steps) && i < |run| && d in run[i].deletions
    requires ConfiguredSeconds(d.istio) <= 9_223_372_036
    ensures Grace(d.istio) == ConfiguredSeconds(d.istio) * 1_000_000_000
    ensures m < i && DeletedInPass(run, steps, k, m, d) && UnusedSince(run[k].past, d, j)
    ensures d.at >= d.listed.records[j].computedAt + (ConfiguredSeconds(d.istio) - 1) * 1_000_000_000 + 2
    ensures UnusedSoFar(run[m], d.listed, j) <==> Undisturbed(run, steps, k, m, d.listed.stored.name)
  {
    k, m, j := PrunedOnlyAfterGracePeriod(run, steps, i, d);
    P.GraceIsExactIff(Some(ConfiguredSeconds(d.istio)));
  }

  /** Measured from the moment when the check reached the server, the bound is less by as long as that took. */
  lemma PrunedAfterWrite(run: seq<State>, steps: seq<Step>, i: nat, d: Deletion, delay: nat)
    returns (k: nat, m: nat, j: nat)
    requires IsRun(run, steps) && i < |run| && d in run[i].deletions
    requires forall r | r in d.listed.records :: r.writtenAt <= r.computedAt + delay
    ensures m < i && DeletedInPass(run, steps, k, m, d) && UnusedSince(run[k].past, d, j)
    ensures d.at - d.listed.records[j].writtenAt >= Grace(d.istio) - SECOND + 2 - delay
    ensures UnusedSoFar(run[m], d.listed, j) <==> Undisturbed(run, steps, k, m, d.listed.stored.name)
  {
    k, m, j := PrunedOnlyAfterGracePeriod(run, steps, i, d);
  }

  /** Reading an old status loses the guarantee: the old time comes back although the revision was in use since. */
  lemma StaleReadBringsBackOldTime(grace: nat, usedAt: nat, now: nat)
    requires SECOND <= usedAt <= now && grace < now - SECOND
    ensures var stale := Set([], S.InUseCondition(Ok(false)), 0);
            var current := Set(stale, S.InUseCondition(Ok(true)), usedAt);
            var written := Set(stale, S.InUseCondition(Ok(false)), now);
            && Get(current, P.IN_USE).status == True && Get(current, P.IN_USE).lastTransition > usedAt - SECOND
            && P.Expired(P.Revision("old", "uid", ["owner"], written), "active", grace, now)
  {
  }
}
