/**
 One pass of the reconciler that all controllers share: it decides from the object it reads whether
 to finalize it, to add the finalizer, or to reconcile it. FinalizerProtocol.dfy is about runs of
 such passes.
 */
module StandardReconciler {
  import opened Wrappers
  import FP = FinalizerProtocol

  /** An object as the API delivers it, with a list of finalizers. */
  datatype Object = Object(finalizers: seq<string>, deleting: bool, payload: string)

  datatype ApiError = NotFound | Conflict | OtherError(message: string)

  /** What is true of an error that a controller returns; joined errors can be several things at once. */
  datatype ReconcileError = ReconcileError(
    forbiddenRestMapping: bool, conflict: bool, notFound: bool, transient: bool, validation: bool, message: string)

  datatype Failure = GetFailed(error: ApiError) | FinalizeFailed(message: string) | UpdateFailed(error: ApiError)
                   | ReconcileFailed(cause: ReconcileError)

  /** When to come back, and the error that is returned, if any. */
  datatype Outcome = Outcome(requeue: bool, requeueAfter: nat, failure: Option<Failure>)

  const DONE := Outcome(false, 0, None)
  const RETRY := Outcome(true, 0, None)
  const RETRY_AFTER_CONFLICT := Outcome(false, 2_000_000_000, None)

  datatype Call = Reconciled(o: FP.Object) | Finalized(o: FP.Object) | Updated(o: FP.Object)

  function AsSet(o: Object): FP.Object {
    FP.Object((set f | f in o.finalizers), o.deleting, o.payload)
  }

  /** What there is to do; without a finalizer there is nothing to finalize. */
  function ActionFor(o: FP.Object, finalizer: string): FP.Action {
    if o.deleting then (if finalizer != "" && finalizer in o.finalizers then FP.Finalize else FP.Skip)
    else if finalizer != "" && finalizer !in o.finalizers then FP.AddFinalizer
    else FP.Reconcile
  }

  /** How an error of the controller is answered: at once again, not again, or by returning it. */
  function OutcomeOf(result: Result<Outcome, ReconcileError>): Outcome {
    match result
    case Ok(o) => o
    case Err(e) =>
      if e.forbiddenRestMapping || e.conflict || e.notFound || e.transient then RETRY
      else if e.validation then DONE
      else Outcome(false, 0, Some(ReconcileFailed(e)))
  }

  /** An update that found the object gone is done; one that lost against another update is tried again later. */
  function OutcomeOfUpdate(update: Result<(), ApiError>): Outcome {
    match update
    case Ok(_) => DONE
    case Err(NotFound) => DONE
    case Err(Conflict) => RETRY_AFTER_CONFLICT
    case Err(e) => Outcome(false, 0, Some(UpdateFailed(e)))
  }

  /** What the API and the controller's functions answer in one pass. */
  datatype Answers = Answers(
    get: Result<Object, ApiError>,
    finalize: Result<(), string>,
    update: Result<(), ApiError>,
    reconcile: Result<Outcome, ReconcileError>)

  function CallsOf(o: FP.Object, finalizer: string, answers: Answers): seq<Call> {
    match ActionFor(o, finalizer)
    case Skip => []
    case Finalize =>
      if answers.finalize.Err? then [Finalized(o)]
      else [Finalized(o), Updated(o.(finalizers := o.finalizers - {finalizer}))]
    case AddFinalizer => [Updated(o.(finalizers := o.finalizers + {finalizer}))]
    case Reconcile => [Reconciled(o)]
  }

  function OutcomeOfPass(finalizer: string, answers: Answers): Outcome {
    match answers.get
    case Err(NotFound) => DONE
    case Err(e) => Outcome(false, 0, Some(GetFailed(e)))
    case Ok(o) =>
      match ActionFor(AsSet(o), finalizer)
      case Skip => DONE
      case Finalize =>
        if answers.finalize.Err? then Outcome(false, 0, Some(FinalizeFailed(answers.finalize.error)))
        else OutcomeOfUpdate(answers.update)
      case AddFinalizer => OutcomeOfUpdate(answers.update)
      case Reconcile => OutcomeOf(answers.reconcile)
  }

  /** The elements of a set, in some order. */
  method UnsortedList(s: set<string>) returns (l: seq<string>)
    ensures (set x | x in l) == s
  {
    l := [];
    var todo := s;
    while todo != {}
      invariant todo <= s && (set x | x in l) == s - todo
      decreases todo
    {
      var x :| x in todo;
      assert (set y | y in l + [x]) == (set y | y in l) + {x};
      l, todo := l + [x], todo - {x};
    }
  }

  class Reconciler {
    const finalizer: string
    var calls: seq<Call>

    constructor (finalizer: string)
      ensures this.finalizer == finalizer && calls == []
    {
      this.finalizer := finalizer;
      calls := [];
    }

    method Update(o: Object, answer: Result<(), ApiError>) returns (r: Outcome)
      modifies this
      ensures calls == old(calls) + [Updated(AsSet(o))] && r == OutcomeOfUpdate(answer)
    {
      calls := calls + [Updated(AsSet(o))];
      match answer {
        case Ok(_) => r := DONE;
        case Err(NotFound) => r := DONE;
        case Err(Conflict) => r := RETRY_AFTER_CONFLICT;
        case Err(e) => r := Outcome(false, 0, Some(UpdateFailed(e)));
      }
    }

    method RemoveFinalizer(o: Object, answer: Result<(), ApiError>) returns (r: Outcome)
      modifies this
      ensures calls == old(calls) + [Updated(AsSet(o).(finalizers := AsSet(o).finalizers - {finalizer}))]
      ensures r == OutcomeOfUpdate(answer)
    {
      var finalizers := (set f | f in o.finalizers) - {finalizer};
      var list := UnsortedList(finalizers);
      r := Update(o.(finalizers := list), answer);
    }

    method AddFinalizer(o: Object, answer: Result<(), ApiError>) returns (r: Outcome)
      modifies this
      ensures calls == old(calls) + [Updated(AsSet(o).(finalizers := AsSet(o).finalizers + {finalizer}))]
      ensures r == OutcomeOfUpdate(answer)
    {
      var finalizers := (set f | f in o.finalizers) + {finalizer};
      var list := UnsortedList(finalizers);
      r := Update(o.(finalizers := list), answer);
    }

    method Reconcile(answers: Answers) returns (r: Outcome)
      modifies this
      ensures r == OutcomeOfPass(finalizer, answers)
      ensures calls == old(calls)
                     + if answers.get.Ok? then CallsOf(AsSet(answers.get.value), finalizer, answers) else []
    {
      match answers.get {
        case Err(NotFound) =>
          return DONE;
        case Err(e) =>
          return Outcome(false, 0, Some(GetFailed(e)));
        case Ok(o) =>
          if o.deleting {
            if finalizer != "" && finalizer in o.finalizers {
              calls := calls + [Finalized(AsSet(o))];
              if answers.finalize.Err? {
                return Outcome(false, 0, Some(FinalizeFailed(answers.finalize.error)));
              }
              r := RemoveFinalizer(o, answers.update);
              return;
            }
            return DONE;
          }
          if finalizer != "" && finalizer !in o.finalizers {
            r := AddFinalizer(o, answers.update);
            return;
          }
          calls := calls + [Reconciled(AsSet(o))];
          match answers.reconcile {
            case Ok(result) => r := result;
            case Err(e) =>
              if e.forbiddenRestMapping || e.conflict || e.notFound || e.transient {
                r := RETRY;
              } else if e.validation {
                r := DONE;
              } else {
                r := Outcome(false, 0, Some(ReconcileFailed(e)));
              }
          }
      }
    }
  }

  // ----- What a pass does, in terms of the object it reads -----

  /** The object is being deleted under this finalizer. */
  predicate IsToBeFinalized(o: Object, finalizer: string) {
    o.deleting && finalizer != "" && finalizer in o.finalizers
  }

  predicate NeedsFinalizer(o: Object, finalizer: string) {
    !o.deleting && finalizer != "" && finalizer !in o.finalizers
  }

  predicate IsToBeReconciled(o: Object, finalizer: string) {
    !o.deleting && (finalizer == "" || finalizer in o.finalizers)
  }

  /** An update is sent when the finalizer is missing, or finalization has just succeeded. */
  predicate SendsUpdate(o: Object, finalizer: string, answers: Answers) {
    NeedsFinalizer(o, finalizer) || (IsToBeFinalized(o, finalizer) && answers.finalize.Ok?)
  }

  predicate IsTriedAgain(e: ReconcileError) {
    e.forbiddenRestMapping || e.conflict || e.notFound || e.transient
  }

  /** Each call is made exactly when it is due, and an update changes the reconciler's own finalizer alone. */
  lemma PassIsSafe(o: Object, finalizer: string, answers: Answers)
    ensures var calls := CallsOf(AsSet(o), finalizer, answers);
            && (Reconciled(AsSet(o)) in calls <==> IsToBeReconciled(o, finalizer))
            && (Finalized(AsSet(o)) in calls <==> IsToBeFinalized(o, finalizer))
            && (Finalized(AsSet(o)) in calls ==> calls[0] == Finalized(AsSet(o)))
            && (forall c | c in calls :: c.Reconciled? || c.Finalized? ==> c.o == AsSet(o))
            && ((exists c | c in calls :: c.Updated?) <==> SendsUpdate(o, finalizer, answers))
    ensures forall c | c in CallsOf(AsSet(o), finalizer, answers) && c.Updated? ::
              && c.o.finalizers - {finalizer} == AsSet(o).finalizers - {finalizer}
              && c.o.payload == o.payload && c.o.deleting == o.deleting
              && (finalizer in c.o.finalizers <==> !o.deleting)
  {
    var calls := CallsOf(AsSet(o), finalizer, answers);
    if SendsUpdate(o, finalizer, answers) {
      assert calls[|calls| - 1].Updated?;
    }
  }

  /**
   When the object is looked at again. A pass asks for that at once if and only if the controller
   was called and either its error is one of the four kinds that pass, or its own result asks for
   it; and after two seconds if an update lost against another one.
   */
  lemma WhenTriedAgain(finalizer: string, answers: Answers)
    ensures var r := OutcomeOfPass(finalizer, answers);
            var called := answers.get.Ok? && IsToBeReconciled(answers.get.value, finalizer);
            && (r.requeue <==>
                  && called
                  && match answers.reconcile case Ok(result) => result.requeue case Err(e) => IsTriedAgain(e))
            && r.requeueAfter ==
               (if answers.get.Ok? && SendsUpdate(answers.get.value, finalizer, answers)
                   && answers.update == Err(Conflict) then 2_000_000_000
                else if called && answers.reconcile.Ok? then answers.reconcile.value.requeueAfter
                else 0)
  {
  }

  /**
   The error that a pass returns, if any. An object that is gone is no error, whether the read or
   the update finds that out; nor is a lost update, nor an invalid object.
   */
  lemma PassFailsIff(finalizer: string, answers: Answers)
    ensures OutcomeOfPass(finalizer, answers).failure ==
            match answers.get
            case Err(e) => (if e == NotFound then None else Some(GetFailed(e)))
            case Ok(o) =>
              if IsToBeFinalized(o, finalizer) && answers.finalize.Err? then
                Some(FinalizeFailed(answers.finalize.error))
              else if SendsUpdate(o, finalizer, answers) then
                if answers.update.Err? && answers.update.error !in {NotFound, Conflict} then
                  Some(UpdateFailed(answers.update.error))
                else None
              else if IsToBeReconciled(o, finalizer) then
                match answers.reconcile
                case Ok(result) => result.failure
                case Err(e) => if IsTriedAgain(e) || e.validation then None else Some(ReconcileFailed(e))
              else None
  {
  }

  // ----- A pass as steps of the protocol -----

  /** What the controller does to the cluster in a step of the protocol. */
  function CallsOfStep(s: FP.State, step: FP.Step): seq<Call>
    requires s.history != [] && FP.Enabled(s, step)
  {
    var worker := FP.After(s, step).worker;
    var started :=
      if step != FP.Dispatch then []
      else if worker.Reconciling? then [Reconciled(s.history[worker.version].value)]
      else if worker.Finalizing? then [Finalized(s.history[worker.version].value)]
      else [];
    started + match FP.Sends(s, step) case Some(u) => [Updated(u.wanted)] case None => []
  }

  predicate CanTake(s: FP.State, steps: seq<FP.Step>)
    decreases |steps|
  {
    s.history != [] && (steps != [] ==> FP.Enabled(s, steps[0]) && CanTake(FP.After(s, steps[0]), steps[1..]))
  }

  function AfterAll(s: FP.State, steps: seq<FP.Step>): FP.State
    requires CanTake(s, steps)
    decreases |steps|
  {
    if steps == [] then s else AfterAll(FP.After(s, steps[0]), steps[1..])
  }

  function CallsOfSteps(s: FP.State, steps: seq<FP.Step>): seq<Call>
    requires CanTake(s, steps)
    decreases |steps|
  {
    if steps == [] then []
    else CallsOfStep(s, steps[0]) + CallsOfSteps(FP.After(s, steps[0]), steps[1..])
  }

  lemma TakeOne(s: FP.State, step: FP.Step, rest: seq<FP.Step>)
    requires s.history != [] && FP.Enabled(s, step) && CanTake(FP.After(s, step), rest)
    ensures CanTake(s, [step] + rest)
    ensures AfterAll(s, [step] + rest) == AfterAll(FP.After(s, step), rest)
    ensures CallsOfSteps(s, [step] + rest) == CallsOfStep(s, step) + CallsOfSteps(FP.After(s, step), rest)
  {
    assert ([step] + rest)[1..] == rest;
  }

  /** How the protocol's worker goes on once it has read the object. */
  function StepsAfterGet(o: FP.Object, answers: Answers): seq<FP.Step> {
    match FP.ActionFor(o)
    case Skip => [FP.Dispatch]
    case Finalize =>
      var respond := if answers.finalize.Ok? then [FP.Respond] else [];
      [FP.Dispatch] + ([FP.EndFinalize(answers.finalize.Ok?)] + respond)
    case AddFinalizer => [FP.Dispatch] + [FP.Respond]
    case Reconcile => [FP.Dispatch] + [FP.EndReconcile]
  }

  /**
   A pass of the reconciler is a run of the protocol's worker: it makes the same calls in the same
   order, whatever the API and the controller's functions answer, and ends idle.
   */
  lemma PassIsProtocolRun(s: FP.State, answers: Answers) returns (steps: seq<FP.Step>)
    requires s.history != [] && s.cache <= FP.Latest(s) && s.worker.Idle?
    requires match s.history[s.cache]
             case None => answers.get == Err(NotFound)
             case Some(o) => answers.get.Ok? && AsSet(answers.get.value) == o
    ensures CanTake(s, steps) && AfterAll(s, steps).worker.Idle?
    ensures CallsOfSteps(s, steps) ==
            if answers.get.Ok? then CallsOf(AsSet(answers.get.value), FP.FINALIZER, answers) else []
  {
    if s.history[s.cache].None? {
      TakeOne(s, FP.Get, []);
      steps := [FP.Get] + [];
    } else {
      var o := s.history[s.cache].value;
      WorkerActs(FP.After(s, FP.Get), o, answers);
      TakeOne(s, FP.Get, StepsAfterGet(o, answers));
      steps := [FP.Get] + StepsAfterGet(o, answers);
    }
  }

  /** From a state in which the object has been read, the worker makes the calls of the pass and ends idle. */
  ghost predicate ActsAsPass(s: FP.State, o: FP.Object, answers: Answers) {
    var steps := StepsAfterGet(o, answers);
    && CanTake(s, steps) && AfterAll(s, steps).worker.Idle?
    && CallsOfSteps(s, steps) == CallsOf(o, FP.FINALIZER, answers)
  }

  ghost predicate HasRead(s: FP.State, o: FP.Object) {
    && s.history != [] && s.worker.Got? && s.worker.version <= FP.Latest(s)
    && s.history[s.worker.version] == Some(o)
  }

  lemma WorkerActs(s: FP.State, o: FP.Object, answers: Answers)
    requires HasRead(s, o)
    ensures ActsAsPass(s, o, answers)
  {
    match FP.ActionFor(o)
    case Skip =>
      TakeOne(s, FP.Dispatch, []);
      assert [FP.Dispatch] + [] == [FP.Dispatch];
    case AddFinalizer => OneStepFollows(s, o, answers, FP.Respond);
    case Reconcile => OneStepFollows(s, o, answers, FP.EndReconcile);
    case Finalize => FinalizeFollows(s, o, answers);
  }

  lemma OneStepFollows(s: FP.State, o: FP.Object, answers: Answers, last: FP.Step)
    requires HasRead(s, o)
    requires last == if FP.ActionFor(o).AddFinalizer? then FP.Respond else FP.EndReconcile
    requires FP.ActionFor(o).AddFinalizer? || FP.ActionFor(o).Reconcile?
    ensures ActsAsPass(s, o, answers)
  {
    TakeOne(FP.After(s, FP.Dispatch), last, []);
    assert [last] + [] == [last];
    TakeOne(s, FP.Dispatch, [last]);
  }

  lemma FinalizeFollows(s: FP.State, o: FP.Object, answers: Answers)
    requires HasRead(s, o) && FP.ActionFor(o).Finalize?
    ensures ActsAsPass(s, o, answers)
  {
    var rest := StepsAfterGet(o, answers)[1..];
    FinalizeEnds(FP.After(s, FP.Dispatch), o, answers);
    TakeOne(s, FP.Dispatch, rest);
    assert StepsAfterGet(o, answers) == [FP.Dispatch] + rest;
  }

  lemma FinalizeEnds(s: FP.State, o: FP.Object, answers: Answers)
    requires s.history != [] && s.worker.Finalizing? && s.worker.version <= FP.Latest(s)
    requires s.history[s.worker.version] == Some(o) && FP.ActionFor(o).Finalize?
    ensures var steps := StepsAfterGet(o, answers)[1..];
            && CanTake(s, steps) && AfterAll(s, steps).worker.Idle?
            && CallsOfSteps(s, steps) ==
               if answers.finalize.Ok? then [Updated(FP.WithoutFinalizer(o))] else []
  {
    var end := FP.EndFinalize(answers.finalize.Ok?);
    if answers.finalize.Ok? {
      TakeOne(FP.After(s, end), FP.Respond, []);
      TakeOne(s, end, [FP.Respond]);
      assert StepsAfterGet(o, answers)[1..] == [end] + [FP.Respond];
    } else {
      TakeOne(s, end, []);
      assert StepsAfterGet(o, answers)[1..] == [end] + [];
    }
  }
}
