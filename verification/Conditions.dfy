/**
 The condition list of a custom resource's status. The Istio and IstioRevision kinds have the same
 list with the same two operations.

 Times are nanoseconds since the zero time; a recorded transition time is truncated to the second.
 */
module Conditions {
  import opened Wrappers

  datatype ConditionStatus = True | False | Unknown

  datatype Condition = Condition(
    typ: string, status: ConditionStatus, reason: string, message: string, lastTransition: nat)

  const SECOND: nat := 1_000_000_000

  function Truncate(now: nat): nat {
    now - now % SECOND
  }

  /** Truncation yields whole seconds, loses less than one, and keeps the order. */
  lemma TruncateIsMonotone(a: nat, b: nat)
    requires a <= b
    ensures Truncate(a) <= Truncate(b)
    ensures Truncate(b) % 1_000_000_000 == 0 && b - 1_000_000_000 < Truncate(b) <= b
  {
  }

  function Find(cs: seq<Condition>, typ: string): Option<Condition> {
    if cs == [] then None else if cs[0].typ == typ then Some(cs[0]) else Find(cs[1..], typ)
  }

  /** A type that is not in the list is Unknown, since the zero time. */
  function Absent(typ: string): Condition {
    Condition(typ, Unknown, "", "", 0)
  }

  function Get(cs: seq<Condition>, typ: string): Condition {
    match Find(cs, typ)
    case Some(c) => c
    case None => Absent(typ)
  }

  /** The condition as it is stored, given what the list had for its type. */
  function Stamped(previous: Option<Condition>, c: Condition, now: nat): Condition {
    if previous.Some? && previous.value.status == c.status then c.(lastTransition := previous.value.lastTransition)
    else c.(lastTransition := Truncate(now))
  }

  /** The list after setting a condition: replaced where its type first occurs, or appended. */
  function Set(cs: seq<Condition>, c: Condition, now: nat): seq<Condition> {
    if cs == [] then [Stamped(None, c, now)]
    else if cs[0].typ == c.typ then [Stamped(Some(cs[0]), c, now)] + cs[1..]
    else [cs[0]] + Set(cs[1..], c, now)
  }

  class Status {
    var conditions: seq<Condition>

    constructor (cs: seq<Condition>)
      ensures conditions == cs
    {
      conditions := cs;
    }

    method GetCondition(typ: string) returns (c: Condition)
      ensures c == Get(conditions, typ)
    {
      for i := 0 to |conditions|
        invariant Find(conditions, typ) == Find(conditions[i..], typ)
      {
        if conditions[i].typ == typ {
          return conditions[i];
        }
      }
      c := Absent(typ);
    }

    method SetCondition(condition: Condition, now: nat)
      modifies this
      ensures conditions == Set(old(conditions), condition, now)
    {
      var lastTransition := Truncate(now);
      for i := 0 to |conditions|
        invariant conditions == old(conditions)
        invariant Set(conditions, condition, now) == conditions[..i] + Set(conditions[i..], condition, now)
      {
        var previous := conditions[i];
        if previous.typ == condition.typ {
          var stored := condition.(lastTransition :=
            if previous.status != condition.status then lastTransition else previous.lastTransition);
          conditions := conditions[i := stored];
          return;
        }
        assert conditions[i..][1..] == conditions[i + 1..];
        assert conditions[..i] + [previous] == conditions[..i + 1];
      }
      conditions := conditions + [condition.(lastTransition := lastTransition)];
    }
  }

  // ----- The list refines a map -----

  predicate Unique(cs: seq<Condition>) {
    forall i, j | 0 <= i < j < |cs| :: cs[i].typ != cs[j].typ
  }

  lemma {:induction false} FindMeansIn(cs: seq<Condition>, typ: string)
    ensures Find(cs, typ).None? ==> forall i | 0 <= i < |cs| :: cs[i].typ != typ
    ensures Find(cs, typ).Some? ==> Find(cs, typ).value in cs && Find(cs, typ).value.typ == typ
  {
    if cs != [] && cs[0].typ != typ {
      FindMeansIn(cs[1..], typ);
    }
  }

  lemma {:induction false} FindIsFirst(cs: seq<Condition>, typ: string)
    ensures Find(cs, typ).Some? <==> exists i :: 0 <= i < |cs| && cs[i].typ == typ
    ensures forall i | 0 <= i < |cs| && cs[i].typ == typ && (forall j | 0 <= j < i :: cs[j].typ != typ) ::
              Find(cs, typ) == Some(cs[i])
    ensures Find(cs, typ).Some? ==>
              exists i ::
                0 <= i < |cs| && Find(cs, typ) == Some(cs[i]) && cs[i].typ == typ
                && forall j | 0 <= j < i :: cs[j].typ != typ
  {
    if cs != [] {
      var rest := cs[1..];
      FindIsFirst(rest, typ);
      assert forall i | 0 <= i < |rest| :: rest[i] == cs[i + 1];
      if cs[0].typ != typ && Find(rest, typ).Some? {
        var i :| 0 <= i < |rest| && Find(rest, typ) == Some(rest[i]) && rest[i].typ == typ
                 && forall j | 0 <= j < i :: rest[j].typ != typ;
        assert cs[i + 1] == rest[i] && forall j | 1 <= j < i + 1 :: cs[j] == rest[j - 1];
      }
    }
  }

  /** One call: the types keep their places, a new one goes last, and only the type that is set changes. */
  lemma {:induction false} SetOne(cs: seq<Condition>, c: Condition, now: nat)
    ensures var r := Set(cs, c, now);
            && |r| == |cs| + (if Find(cs, c.typ).Some? then 0 else 1)
            && (forall i | 0 <= i < |cs| :: r[i].typ == cs[i].typ)
            && (Find(cs, c.typ).None? ==> r[|cs|].typ == c.typ)
            && (forall t :: Find(r, t) == if t == c.typ then Some(Stamped(Find(cs, t), c, now)) else Find(cs, t))
  {
    if cs != [] && cs[0].typ != c.typ {
      SetOne(cs[1..], c, now);
    }
  }

  lemma SetKeepsUnique(cs: seq<Condition>, c: Condition, now: nat)
    requires Unique(cs)
    ensures Unique(Set(cs, c, now))
  {
    SetOne(cs, c, now);
    FindMeansIn(cs, c.typ);
  }

  datatype Call = Call(condition: Condition, now: nat)

  /** Any sequence of SetCondition calls. */
  function Run(cs: seq<Condition>, calls: seq<Call>): seq<Condition>
    decreases |calls|
  {
    if calls == [] then cs
    else Set(Run(cs, calls[..|calls| - 1]), calls[|calls| - 1].condition, calls[|calls| - 1].now)
  }

  lemma {:induction false} RunKeepsUnique(cs: seq<Condition>, calls: seq<Call>)
    requires Unique(cs)
    ensures Unique(Run(cs, calls))
    decreases |calls|
  {
    if calls != [] {
      RunKeepsUnique(cs, calls[..|calls| - 1]);
      SetKeepsUnique(Run(cs, calls[..|calls| - 1]), calls[|calls| - 1].condition, calls[|calls| - 1].now);
    }
  }

  /** The last call for a type; None if there is none. */
  function LastCall(calls: seq<Call>, typ: string): Option<Call>
    decreases |calls|
  {
    if calls == [] then None
    else if calls[|calls| - 1].condition.typ == typ then Some(calls[|calls| - 1])
    else LastCall(calls[..|calls| - 1], typ)
  }

  /** The list holds for each type what was set last, and what it held at first for a type never set. */
  lemma {:induction false} RunHoldsLastSet(cs: seq<Condition>, calls: seq<Call>, typ: string)
    ensures match LastCall(calls, typ)
            case None => Find(Run(cs, calls), typ) == Find(cs, typ)
            case Some(call) =>
              && Find(Run(cs, calls), typ).Some?
              && var c := Find(Run(cs, calls), typ).value;
                 c == call.condition.(lastTransition := c.lastTransition)
    decreases |calls|
  {
    if calls != [] {
      var before := calls[..|calls| - 1];
      RunHoldsLastSet(cs, before, typ);
      SetOne(Run(cs, before), calls[|calls| - 1].condition, calls[|calls| - 1].now);
    }
  }

  ghost predicate SameStatusFrom(calls: seq<Call>, j: nat, typ: string, status: ConditionStatus) {
    forall i | j <= i < |calls| && calls[i].condition.typ == typ :: calls[i].condition.status == status
  }

  /** Call `j` changed the status of its type, or added the type. */
  ghost predicate ChangesAt(cs: seq<Condition>, calls: seq<Call>, j: nat, typ: string)
    requires j < |calls|
  {
    var previous := Find(Run(cs, calls[..j]), typ);
    calls[j].condition.typ == typ && (previous.None? || previous.value.status != calls[j].condition.status)
  }

  /**
   The transition time is the truncated time of the call that last changed the status; if no call
   has changed it, it is the initial one.
   */
  lemma {:induction false} TransitionTimeIsLastChange(cs: seq<Condition>, calls: seq<Call>, typ: string)
    returns (j: nat)
    requires Find(Run(cs, calls), typ).Some?
    ensures var c := Find(Run(cs, calls), typ).value;
            && j <= |calls|
            && SameStatusFrom(calls, if j < |calls| then j else 0, typ, c.status)
            && if j < |calls| then ChangesAt(cs, calls, j, typ) && c.lastTransition == Truncate(calls[j].now)
               else Find(cs, typ).Some? && c.status == Find(cs, typ).value.status
                    && c.lastTransition == Find(cs, typ).value.lastTransition
    decreases |calls|
  {
    if calls == [] {
      return 0;
    }
    var n := |calls| - 1;
    var before, last := calls[..n], calls[n];
    SetOne(Run(cs, before), last.condition, last.now);
    if ChangesAt(cs, calls, n, typ) {
      return n;
    }
    var c, was := Find(Run(cs, calls), typ).value, Find(Run(cs, before), typ).value;
    assert c.status == was.status && c.lastTransition == was.lastTransition;
    var i := TransitionTimeIsLastChange(cs, before, typ);
    j := if i < n then i else n + 1;
    assert forall k | 0 <= k < n :: before[k] == calls[k];
    if i < n {
      assert before[..i] == calls[..i];
      assert ChangesAt(cs, before, i, typ);
    }
  }

  ghost predicate MonotoneClock(calls: seq<Call>) {
    forall i, j | 0 <= i < j < |calls| :: calls[i].now <= calls[j].now
  }

  ghost predicate StampedBy(cs: seq<Condition>, now: nat) {
    forall i | 0 <= i < |cs| :: cs[i].lastTransition <= now
  }

  /** Under a monotone clock the transition time of a type never goes back. */
  lemma {:induction false} TransitionTimeNeverDecreases(cs: seq<Condition>, calls: seq<Call>, i: nat, typ: string)
    requires MonotoneClock(calls) && i <= |calls|
    requires calls != [] ==> StampedBy(cs, Truncate(calls[0].now))
    ensures Find(Run(cs, calls[..i]), typ).Some? ==>
              && Find(Run(cs, calls), typ).Some?
              && Find(Run(cs, calls[..i]), typ).value.lastTransition <= Find(Run(cs, calls), typ).value.lastTransition
    decreases |calls|
  {
    assert calls[..|calls|] == calls;
    if i < |calls| {
      var before, last := calls[..|calls| - 1], calls[|calls| - 1];
      assert before[..i] == calls[..i];
      TransitionTimeNeverDecreases(cs, before, i, typ);
      SetOne(Run(cs, before), last.condition, last.now);
      RunTruncated(cs, before, last.now);
      FindMeansIn(Run(cs, before), typ);
    }
  }

  lemma {:induction false} RunTruncated(cs: seq<Condition>, calls: seq<Call>, now: nat)
    requires StampedBy(cs, Truncate(now)) && forall i | 0 <= i < |calls| :: calls[i].now <= now
    ensures StampedBy(Run(cs, calls), Truncate(now))
    decreases |calls|
  {
    if calls != [] {
      var before, last := calls[..|calls| - 1], calls[|calls| - 1];
      RunTruncated(cs, before, now);
      TruncateIsMonotone(last.now, now);
      SetTruncated(Run(cs, before), last.condition, last.now, Truncate(now));
    }
  }

  lemma {:induction false} SetTruncated(cs: seq<Condition>, c: Condition, now: nat, bound: nat)
    requires StampedBy(cs, bound) && Truncate(now) <= bound
    ensures StampedBy(Set(cs, c, now), bound)
  {
    if cs != [] && cs[0].typ != c.typ {
      SetTruncated(cs[1..], c, now, bound);
    }
  }
}
