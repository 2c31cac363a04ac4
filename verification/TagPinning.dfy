/**
 What the status of a tag keeps in every run: the revision it names counts as in use, and moves only
 from one revision to the target of a successful reconciliation.
 */
module TagPinning {
  import opened Wrappers
  import opened Conditions
  import opened Lifecycle
  import opened PruningSafety
  import R = References
  import S = StatusUpdate

  /** While a tag's status names a revision, no check that reads the tags then can find the revision unused. */
  lemma PinnedIsNeverFoundUnused(run: seq<State>, steps: seq<Step>, i: nat, name: string, r: Record)
    requires IsRun(run, steps) && i < |run| && name in run[i].revs && r in run[i].revs[name].records
    requires r.seen.tags.Some? && r.seen.tags.value < |run[i].past|
    requires R.TagPins(run[i].past[r.seen.tags.value].tags, name)
    ensures r.status == True
  {
    RunKeepsInv(run, steps, i);
    assert Honest(run[i].past, name, r);
  }

  /** If tags have named the revision ever since moment `p`, it was deleted on checks older than that only. */
  lemma PinnedIsPrunedOnOldChecksOnly(run: seq<State>, steps: seq<Step>, i: nat, d: Deletion, p: nat)
    returns (k: nat, m: nat, j: nat)
    requires IsRun(run, steps) && i < |run| && d in run[i].deletions
    requires forall l | p <= l < |run[i].past| :: R.TagPins(run[i].past[l].tags, d.listed.stored.name)
    ensures m < i && DeletedInPass(run, steps, k, m, d) && UnusedSince(run[k].past, d, j)
    ensures forall l | j <= l < |d.listed.records| ::
              d.listed.records[l].seen.tags.Some? && d.listed.records[l].seen.tags.value < p
  {
    k, m, j := PrunedOnlyAfterGracePeriod(run, steps, i, d);
    RunExtends(run, steps, k, i);
    forall l | j <= l < |d.listed.records|
      ensures d.listed.records[l].seen.tags.Some? && d.listed.records[l].seen.tags.value < p
    {
      assert FoundUnused(run[k].past, d.listed.stored.name, d.listed.records[l]);
    }
  }

  // ----- Which revision a tag names -----

  function CurrentTags(s: State): seq<R.Tag>
    requires s.past != []
  {
    s.past[|s.past| - 1].tags
  }

  predicate Names(s: State, tag: string, revision: string)
    requires s.past != []
  {
    R.Tag(tag, revision) in CurrentTags(s)
  }

  ghost predicate Exists(s: State, tag: string) {
    s.past != [] && exists t :: t in CurrentTags(s) && t.name == tag
  }

  ghost predicate UniqueTags(s: State) {
    s.past != [] && s.istios != [] &&
    forall i, j | 0 <= i < j < |CurrentTags(s)| :: CurrentTags(s)[i].name != CurrentTags(s)[j].name
  }

  /** The tag's status is written after a success, and names its target. */
  predicate Retargets(s: State, step: Step, tag: string, revision: string)
    requires s.past != []
  {
    && step.WriteTag? && step.index < |CurrentTags(s)| && CurrentTags(s)[step.index].name == tag
    && step.outcome.TagReconciled? && step.outcome.target.revision == revision
  }

  lemma StepKeepsTagsUnique(s: State, step: Step)
    requires UniqueTags(s) && Enabled(s, step)
    ensures UniqueTags(After(s, step))
  {
    TagsAfter(s, step);
  }

  lemma TagsAfter(s: State, step: Step)
    requires s.past != [] && s.istios != [] && Enabled(s, step)
    ensures After(s, step).past != []
    ensures var (tags, after) := (CurrentTags(s), CurrentTags(After(s, step)));
            match step
            case WriteTag(index, outcome) =>
              after == tags[index := tags[index].(revision := S.PinnedAfter(tags[index].revision, outcome))]
            case CreateTag(tag) => after == tags + [R.Tag(tag, "")]
            case DeleteTag(index) => after == tags[..index] + tags[index + 1..]
            case _ => after == tags
  {
  }

  /** What a tag names after a step it named before, or it is the target that the step writes. */
  lemma NamesAfter(s: State, step: Step, tag: string, revision: string)
    requires UniqueTags(s) && Enabled(s, step) && Exists(s, tag)
    requires After(s, step).past != [] && Names(After(s, step), tag, revision)
    ensures Names(s, tag, revision) || (Retargets(s, step, tag, revision) && revision != "")
  {
    TagsAfter(s, step);
    if step.CreateTag? {
      assert step.tag != tag;
    }
  }

  lemma {:induction false} TagsAreUnique(run: seq<State>, steps: seq<Step>, i: nat)
    requires IsRun(run, steps) && i < |run|
    ensures UniqueTags(run[i])
  {
    if i > 0 {
      TagsAreUnique(run, steps, i - 1);
      assert TakesAt(run, steps, i - 1);
      StepKeepsTagsUnique(run[i - 1], steps[i - 1]);
    }
  }

  lemma NamesOne(s: State, tag: string, a: string, b: string)
    requires UniqueTags(s) && Names(s, tag, a) && Names(s, tag, b)
    ensures a == b
  {
    var i :| 0 <= i < |CurrentTags(s)| && CurrentTags(s)[i] == R.Tag(tag, a);
    var j :| 0 <= j < |CurrentTags(s)| && CurrentTags(s)[j] == R.Tag(tag, b);
    assert i == j;
  }

  lemma NamesAtStep(run: seq<State>, steps: seq<Step>, l: nat, tag: string, revision: string)
    requires IsRun(run, steps) && l < |steps| && UniqueTags(run[l]) && Exists(run[l], tag)
    requires run[l + 1].past != [] && Names(run[l + 1], tag, revision)
    ensures Names(run[l], tag, revision) || (Retargets(run[l], steps[l], tag, revision) && revision != "")
  {
    assert TakesAt(run, steps, l);
    NamesAfter(run[l], steps[l], tag, revision);
  }

  lemma NamesOnlyOne(s: State, tag: string, revision: string)
    requires UniqueTags(s) && Names(s, tag, revision)
    ensures forall other :: Names(s, tag, other) ==> other == revision
  {
    forall other | Names(s, tag, other)
      ensures other == revision
    {
      NamesOne(s, tag, other, revision);
    }
  }

  ghost predicate RetargetedBetween(
      run: seq<State>, steps: seq<Step>, p: nat, q: nat, tag: string, revision: string)
  {
    exists l | p <= l < q && l < |steps| && l < |run| ::
      run[l].past != [] && Retargets(run[l], steps[l], tag, revision)
  }

  /**
   At every moment while it exists, a tag names exactly one revision: the one it named at first, or one
   that a successful reconciliation has moved it to since. So it never ceases to name one.
   */
  lemma {:induction false} TagNamesOldOrTarget(
      run: seq<State>, steps: seq<Step>, p: nat, q: nat, tag: string, first: string)
    returns (now: string)
    requires IsRun(run, steps) && p <= q < |run|
    requires forall l | p <= l <= q :: Exists(run[l], tag)
    requires Exists(run[p], tag) && Names(run[p], tag, first)
    ensures UniqueTags(run[q]) && Names(run[q], tag, now)
    ensures forall other :: Names(run[q], tag, other) ==> other == now
    ensures now == first || RetargetedBetween(run, steps, p, q, tag, now)
    ensures first != "" ==> now != ""
    decreases q
  {
    TagsAreUnique(run, steps, q);
    if p == q {
      now := first;
    } else {
      var before := TagNamesOldOrTarget(run, steps, p, q - 1, tag, first);
      TagsAreUnique(run, steps, q - 1);
      assert Exists(run[q], tag);
      var t :| t in CurrentTags(run[q]) && t.name == tag;
      now := t.revision;
      assert t == R.Tag(tag, now);
      NamesAtStep(run, steps, q - 1, tag, now);
      if now != before {
        NamesOnlyOne(run[q - 1], tag, before);
        assert Retargets(run[q - 1], steps[q - 1], tag, now);
      }
    }
    NamesOnlyOne(run[q], tag, now);
  }
}
