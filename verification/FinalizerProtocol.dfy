/**
 The finalizer protocol between a controller and the API server.

 The server keeps one object and checks versions on update; version `i` of the object is
 `history[i]`, and None where it does not exist. The controller reads from a cache that lags behind
 but never goes back, works on the object with one worker, and may crash at any moment. Updates
 travel on their own: once sent, one may arrive at any later time, also after a crash, or never.
 Other actors change the object as they like, except that they leave the controller's finalizer on
 it once it is there.
 */
module FinalizerProtocol {
  import opened Wrappers

  const FINALIZER := "sailoperator.io/sail-operator"

  datatype Object = Object(finalizers: set<string>, deleting: bool, payload: string)

  /** An update of the version that was read. */
  datatype Update = Update(version: nat, wanted: Object)

  datatype Worker =
    | Idle
    | Got(version: nat)
    | Reconciling(version: nat)
    | Finalizing(version: nat)
    | Waiting(version: nat)

  datatype State = State(
    history: seq<Option<Object>>,
    cache: nat,
    worker: Worker,
    sent: set<Update>,
    installed: bool)

  /** What the reconciler does with an object it has read. */
  datatype Action = Skip | Finalize | AddFinalizer | Reconcile

  function ActionFor(o: Object): Action {
    if o.deleting then (if FINALIZER in o.finalizers then Finalize else Skip)
    else if FINALIZER !in o.finalizers then AddFinalizer
    else Reconcile
  }

  function WithFinalizer(o: Object): Object {
    o.(finalizers := o.finalizers + {FINALIZER})
  }

  function WithoutFinalizer(o: Object): Object {
    o.(finalizers := o.finalizers - {FINALIZER})
  }

  function Latest(s: State): nat
    requires s.history != []
  {
    |s.history| - 1
  }

  function Server(s: State): Option<Object>
    requires s.history != []
  {
    s.history[Latest(s)]
  }

  predicate HasFinalizer(o: Option<Object>) {
    o.Some? && FINALIZER in o.value.finalizers
  }

  /** An object that is being deleted goes away with its last finalizer. */
  function Stored(o: Object): Option<Object> {
    if o.deleting && o.finalizers == {} then None else Some(o)
  }

  // ----- Steps -----

  datatype Step =
    // other actors
    | Create(o: Object)
    | Change(finalizers: set<string>, payload: string)
    | RequestDeletion
    // the cache and the network
    | CatchUp(version: nat)
    | Deliver(update: Update)
    // the controller
    | Get
    | Dispatch
    | EndReconcile
    | EndFinalize(ok: bool)
    | Respond
    | Crash

  predicate Enabled(s: State, step: Step)
    requires s.history != []
  {
    match step
    case Create(o) => Server(s).None? && !o.deleting
    case Change(finalizers, _) => Server(s).Some? && (HasFinalizer(Server(s)) ==> FINALIZER in finalizers)
    case RequestDeletion => Server(s).Some?
    case CatchUp(version) => s.cache <= version <= Latest(s)
    case Deliver(update) => update in s.sent
    case Get => s.worker.Idle? && s.cache <= Latest(s)
    case Dispatch => s.worker.Got? && s.worker.version <= Latest(s) && s.history[s.worker.version].Some?
    case EndReconcile => s.worker.Reconciling?
    case EndFinalize(_) => s.worker.Finalizing? && s.worker.version <= Latest(s) && s.history[s.worker.version].Some?
    case Respond => s.worker.Waiting?
    case Crash => true
  }

  /** The update that a step sends, of the version that the worker has read. */
  function Sends(s: State, step: Step): Option<Update>
    requires s.history != [] && Enabled(s, step)
  {
    match step
    case Dispatch =>
      var o := s.history[s.worker.version].value;
      if ActionFor(o).AddFinalizer? then Some(Update(s.worker.version, WithFinalizer(o))) else None
    case EndFinalize(true) => Some(Update(s.worker.version, WithoutFinalizer(s.history[s.worker.version].value)))
    case _ => None
  }

  function After(s: State, step: Step): State
    requires s.history != [] && Enabled(s, step)
  {
    match step
    case Create(o) => s.(history := s.history + [Some(o)])
    case Change(finalizers, payload) =>
      s.(history := s.history + [Stored(Server(s).value.(finalizers := finalizers, payload := payload))])
    case RequestDeletion => s.(history := s.history + [Stored(Server(s).value.(deleting := true))])
    case CatchUp(version) => s.(cache := version)
    case Deliver(update) =>
      if update.version == Latest(s) && Server(s).Some? then s.(history := s.history + [Stored(update.wanted)])
      else s
    case Get => if s.history[s.cache].None? then s else s.(worker := Got(s.cache))
    case Dispatch =>
      var v := s.worker.version;
      var o := s.history[v].value;
      (match ActionFor(o)
       case Skip => s.(worker := Idle)
       case Finalize => s.(worker := Finalizing(v))
       case AddFinalizer => s.(worker := Waiting(v), sent := s.sent + {Sends(s, step).value})
       case Reconcile => s.(worker := Reconciling(v), installed := true))
    case EndReconcile => s.(worker := Idle)
    case EndFinalize(ok) =>
      var v := s.worker.version;
      if ok then
        s.(worker := Waiting(v), sent := s.sent + {Sends(s, step).value}, installed := false)
      else s.(worker := Idle)
    case Respond => s.(worker := Idle)
    case Crash => s.(worker := Idle)
  }

  predicate Init(s: State) {
    s == State([None], 0, Idle, {}, false)
  }

  ghost predicate Next(s: State, s': State) {
    s.history != [] && exists step :: Enabled(s, step) && s' == After(s, step)
  }

  ghost predicate IsRun(run: seq<State>) {
    run != [] && Init(run[0]) && forall i | 0 <= i < |run| - 1 :: Next(run[i], run[i + 1])
  }

  // ----- What every step keeps -----

  /** Version `v` has been read before, and by the worker at work no later than what it works on. */
  ghost predicate ReadBefore(s: State, v: nat) {
    v <= s.cache && (!s.worker.Idle? ==> v <= s.worker.version)
  }

  ghost predicate Removes(u: Update) {
    FINALIZER !in u.wanted.finalizers
  }

  ghost predicate SentOk(s: State, u: Update)
    requires s.history != []
  {
    && u.version <= Latest(s) && s.history[u.version].Some? && ReadBefore(s, u.version)
    && var o := s.history[u.version].value;
       if Removes(u) then o.deleting && u.wanted == WithoutFinalizer(o) && (u.version == Latest(s) ==> !s.installed)
       else u.wanted == WithFinalizer(o)
  }

  /** The finalizer has gone only from versions that were read while being deleted. */
  ghost predicate DropsOk(s: State, i: nat)
    requires i + 1 < |s.history|
  {
    HasFinalizer(s.history[i]) && !HasFinalizer(s.history[i + 1]) ==> s.history[i].value.deleting && ReadBefore(s, i)
  }

  ghost predicate WorkerOk(s: State)
    requires s.history != []
  {
    !s.worker.Idle? ==>
      && s.worker.version <= Latest(s) && s.worker.version <= s.cache
      && s.history[s.worker.version].Some?
      && var o := s.history[s.worker.version].value;
         && (s.worker.Reconciling? ==> s.installed)
         && (s.worker.Finalizing? ==> o.deleting && FINALIZER in o.finalizers)
  }

  ghost predicate Inv(s: State) {
    && s.history != [] && s.cache <= Latest(s)
    && WorkerOk(s)
    && (forall u | u in s.sent :: SentOk(s, u))
    && (forall i | 0 <= i < |s.history| - 1 :: DropsOk(s, i))
    && (s.installed ==> HasFinalizer(Server(s)))
  }

  /** If a version had the finalizer and was not being deleted when it was read, the server's object has it still. */
  lemma {:induction false} FinalizerStillThere(s: State, v: nat, k: nat)
    requires Inv(s) && !s.worker.Idle? && s.worker.version == v <= k <= Latest(s)
    requires HasFinalizer(s.history[v]) && !s.history[v].value.deleting
    ensures HasFinalizer(s.history[k])
    decreases k
  {
    if v < k {
      FinalizerStillThere(s, v, k - 1);
      assert DropsOk(s, k - 1);
    }
  }

  lemma DispatchKeepsInv(s: State)
    requires Inv(s) && Enabled(s, Dispatch)
    ensures Inv(After(s, Dispatch))
  {
    var s', v := After(s, Dispatch), s.worker.version;
    if s'.worker.Reconciling? {
      FinalizerStillThere(s, v, Latest(s));
      forall u | u in s'.sent
        ensures SentOk(s', u)
      {
        assert SentOk(s, u);
      }
    } else {
      forall u | u in s'.sent
        ensures SentOk(s', u)
      {
        assert u in s.sent ==> SentOk(s, u);
      }
    }
    forall i | 0 <= i < |s'.history| - 1
      ensures DropsOk(s', i)
    {
      assert DropsOk(s, i);
    }
  }

  /** Steps that append a version, and leave the finalizer if there is something installed. */
  lemma AppendKeepsInv(s: State, s': State, o: Option<Object>)
    requires Inv(s) && s' == s.(history := s.history + [o])
    requires HasFinalizer(Server(s)) && !HasFinalizer(o) ==>
               Server(s).value.deleting && ReadBefore(s, Latest(s)) && !s.installed
    ensures Inv(s')
  {
    forall u | u in s'.sent
      ensures SentOk(s', u)
    {
      assert SentOk(s, u);
    }
    forall i | 0 <= i < |s'.history| - 1
      ensures DropsOk(s', i)
    {
      assert i < |s.history| - 1 ==> DropsOk(s, i);
    }
  }

  lemma OtherStepKeepsInv(s: State, step: Step)
    requires Inv(s) && Enabled(s, step)
    requires step.CatchUp? || step.Get? || step.EndReconcile? || step.EndFinalize? || step.Respond? || step.Crash?
    ensures Inv(After(s, step))
  {
    var s' := After(s, step);
    forall u | u in s'.sent
      ensures SentOk(s', u)
    {
      assert u in s.sent ==> SentOk(s, u);
    }
    forall i | 0 <= i < |s'.history| - 1
      ensures DropsOk(s', i)
    {
      assert DropsOk(s, i);
    }
  }

  lemma StepKeepsInv(s: State, step: Step)
    requires Inv(s) && Enabled(s, step)
    ensures Inv(After(s, step))
  {
    var s' := After(s, step);
    match step
    case Create(o) => AppendKeepsInv(s, s', Some(o));
    case Change(finalizers, payload) =>
      AppendKeepsInv(s, s', Stored(Server(s).value.(finalizers := finalizers, payload := payload)));
    case RequestDeletion => AppendKeepsInv(s, s', Stored(Server(s).value.(deleting := true)));
    case Deliver(update) =>
      assert SentOk(s, update);
      if update.version == Latest(s) && Server(s).Some? {
        AppendKeepsInv(s, s', Stored(update.wanted));
      }
    case Dispatch => DispatchKeepsInv(s);
    case _ => OtherStepKeepsInv(s, step);
  }

  lemma {:induction false} RunKeepsInv(run: seq<State>, i: nat)
    requires IsRun(run) && i < |run|
    ensures Inv(run[i])
  {
    if i > 0 {
      RunKeepsInv(run, i - 1);
      assert Next(run[i - 1], run[i]);
      var step :| Enabled(run[i - 1], step) && run[i] == After(run[i - 1], step);
      StepKeepsInv(run[i - 1], step);
    }
  }

  // ----- Main theorems -----

  /** While anything is reconciled, the server's object carries the finalizer. */
  lemma ReconcilesOnlyUnderFinalizer(run: seq<State>, i: nat)
    requires IsRun(run) && i < |run| && run[i].worker.Reconciling?
    ensures run[i].history != [] && HasFinalizer(Server(run[i]))
  {
    RunKeepsInv(run, i);
  }

  /** A finalization succeeds in the step that leads to state `k`. */
  ghost predicate FinalizedAt(run: seq<State>, k: nat) {
    0 < k < |run| && run[k - 1].worker.Finalizing? && run[k].worker.Waiting?
  }

  ghost predicate NoReconcileBetween(run: seq<State>, k: nat, i: nat) {
    forall l | k <= l <= i && l < |run| :: !run[l].worker.Reconciling?
  }

  /** The last reconciliation that began, if any did, has been followed by a finalization that succeeded. */
  ghost predicate FinalizedSince(run: seq<State>, i: nat) {
    NoReconcileBetween(run, 0, i) || exists k :: 0 <= k <= i && FinalizedAt(run, k) && NoReconcileBetween(run, k, i)
  }

  lemma {:induction false} NotInstalledMeansFinalized(run: seq<State>, i: nat)
    requires IsRun(run) && i < |run| && !run[i].installed
    ensures FinalizedSince(run, i)
  {
    RunKeepsInv(run, i);
    if i > 0 {
      assert Next(run[i - 1], run[i]);
      if run[i - 1].installed {
        assert FinalizedAt(run, i) && NoReconcileBetween(run, i, i);
      } else {
        NotInstalledMeansFinalized(run, i - 1);
        if !NoReconcileBetween(run, 0, i) {
          var k :| 0 <= k <= i - 1 && FinalizedAt(run, k) && NoReconcileBetween(run, k, i - 1);
          assert NoReconcileBetween(run, k, i);
        }
      }
    }
  }

  /** The object is gone only after a finalization that succeeded with no reconciliation after it. */
  lemma GoneOnlyWhenFinalized(run: seq<State>, i: nat)
    requires IsRun(run) && i < |run| && run[i].history != [] && Server(run[i]).None?
    ensures !run[i].installed && FinalizedSince(run, i)
  {
    RunKeepsInv(run, i);
    NotInstalledMeansFinalized(run, i);
  }

  /** An update of the controller that takes effect changes its own finalizer and nothing else. */
  lemma UpdatesTouchOnlyOwnFinalizer(run: seq<State>, i: nat, u: Update)
    requires IsRun(run) && i < |run| && run[i].history != [] && u in run[i].sent
    requires u.version == Latest(run[i]) && Server(run[i]).Some?
    ensures var o := Server(run[i]).value;
            && After(run[i], Deliver(u)).history == run[i].history + [Stored(u.wanted)]
            && u.wanted.finalizers - {FINALIZER} == o.finalizers - {FINALIZER}
            && u.wanted.payload == o.payload && u.wanted.deleting == o.deleting
            && (FINALIZER !in u.wanted.finalizers ==> o.deleting)
  {
    RunKeepsInv(run, i);
    assert SentOk(run[i], u);
  }

  /** Were the cache to go back to an older version, a deleted object would be reconciled. */
  lemma CacheMustNotGoBack()
    ensures var o := Object({FINALIZER}, false, "");
            var d := o.(deleting := true);
            var s := State([None, Some(o), Some(d), None], 3, Idle, {Update(2, WithoutFinalizer(d))}, false);
            var back := s.(cache := 1);
            && Inv(s) && Enabled(back, Get) && Enabled(After(back, Get), Dispatch)
            && After(After(back, Get), Dispatch).worker.Reconciling?
            && Server(After(After(back, Get), Dispatch)).None?
  {
  }
}
