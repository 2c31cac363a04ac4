/**
 Installing, upgrading and removing a Helm chart, whatever state an earlier attempt has left the
 release in.

 `Release` is the newest revision of a release in Helm's storage. Helm's own actions follow this
 contract: each records a pending (or uninstalling) release before it starts and the result when it
 ends; it can stop anywhere, by failing or because the operator dies, and even a finished action may
 not be reported back.
 */
module ChartReleases {
  import opened Wrappers

  datatype Status =
    | Unknown | Deployed | Uninstalled | Superseded | Failed | Uninstalling
    | PendingInstall | PendingUpgrade | PendingRollback

  datatype Release = Release(version: nat, status: Status)

  datatype Action = Unlock | Install | Upgrade | Rollback | Uninstall

  /** How far an action gets, and whether the caller is told that it has succeeded. */
  datatype Progress = NotStarted | Started | GaveUp | Completed(reported: bool)

  datatype ChartError = ReleaseNotRead | ActionFailed(action: Action) | UnexpectedStatus(status: Status)

  predicate IsPending(s: Status) {
    s == PendingInstall || s == PendingUpgrade || s == PendingRollback
  }

  /** A new revision, as far as the action gets with it. */
  function Recorded(before: Option<Release>, version: nat, pending: Status, p: Progress): Option<Release> {
    match p
    case NotStarted => before
    case Started => Some(Release(version, pending))
    case GaveUp => Some(Release(version, Failed))
    case Completed(_) => Some(Release(version, Deployed))
  }

  /** What Helm leaves in its storage. */
  function Leaves(action: Action, before: Option<Release>, p: Progress): Option<Release> {
    match action
    case Unlock => if before.Some? && p.Completed? then Some(before.value.(status := Failed)) else before
    case Install => Recorded(before, 1, PendingInstall, p)
    case Upgrade => if before.Some? then Recorded(before, before.value.version + 1, PendingUpgrade, p) else before
    case Rollback => if before.Some? then Recorded(before, before.value.version + 1, PendingRollback, p) else before
    case Uninstall =>
      match p
      case NotStarted => before
      case Completed(_) => None
      case _ => if before.Some? then Some(before.value.(status := Uninstalling)) else before
  }

  predicate Succeeds(p: Progress) {
    p.Completed? && p.reported
  }

  datatype Performed = Performed(action: Action, on: Option<Release>)

  /** How far each action gets if it is performed. */
  datatype Script = Script(
    unlock: Progress, install: Progress, upgrade: Progress, rollback: Progress, uninstall: Progress)
  {
    function Of(action: Action): Progress {
      match action
      case Unlock => unlock
      case Install => install
      case Upgrade => upgrade
      case Rollback => rollback
      case Uninstall => uninstall
    }
  }

  class ChartManager {
    var release: Option<Release>
    var log: seq<Performed>

    constructor (r: Option<Release>)
      ensures release == r && log == []
    {
      release, log := r, [];
    }

    method Perform(action: Action, p: Progress) returns (ok: bool)
      modifies this
      ensures release == Leaves(action, old(release), p) && ok == Succeeds(p)
      ensures log == old(log) + [Performed(action, old(release))]
    {
      log := log + [Performed(action, release)];
      release := Leaves(action, release, p);
      ok := Succeeds(p);
    }

    method UpgradeOrInstallChart(readFails: bool, script: Script) returns (r: Result<(), ChartError>)
      modifies this
      ensures var pass := PassOver(old(release), readFails, script);
              release == pass.release && log == old(log) + pass.log && r == pass.result
    {
      if readFails {
        return Err(ReleaseNotRead);
      }
      var rel := release;
      if rel.Some? && IsPending(rel.value.status) {
        UnlockFirst(rel, script);
        var ok := Perform(Unlock, script.unlock);
        if !ok {
          return Err(ActionFailed(Unlock));
        }
        rel := Some(rel.value.(status := Failed));
      }
      r := RepairAndApply(rel, script);
    }

    /** Continues with a release that is not pending. */
    method RepairAndApply(rel: Option<Release>, script: Script) returns (r: Result<(), ChartError>)
      requires rel == release && (rel.Some? ==> !IsPending(rel.value.status))
      modifies this
      ensures var pass := PassOver(old(release), false, script);
              release == pass.release && log == old(log) + pass.log && r == pass.result
    {
      var last := Upgrade;
      if rel.None? {
        last := Install;
      } else if rel.value.status == Deployed {
      } else if rel.value.status == Failed && rel.value.version > 1 {
        RunActionsStep(release, Rollback, [Upgrade], script);
        var ok := Perform(Rollback, script.Of(Rollback));
        if !ok {
          return Err(ActionFailed(Rollback));
        }
      } else if rel.value.status == Uninstalling || (rel.value.status == Failed && rel.value.version <= 1) {
        RunActionsStep(release, Uninstall, [Install], script);
        var ok := Perform(Uninstall, script.Of(Uninstall));
        if !ok {
          return Err(ActionFailed(Uninstall));
        }
        last := Install;
      } else {
        return Err(UnexpectedStatus(rel.value.status));
      }
      RunActionsStep(release, last, [], script);
      var ok := Perform(last, script.Of(last));
      r := if ok then Ok(()) else Err(ActionFailed(last));
    }

    /** A release that does not exist counts as removed. */
    method UninstallChart(readFails: bool, script: Script) returns (r: Result<(), ChartError>)
      modifies this
      ensures release == Removed(old(release), readFails, script)
      ensures r.Ok? ==> release.None?
      ensures r.Ok? <==> !readFails && (old(release).Some? ==> Succeeds(script.Of(Uninstall)))
    {
      if readFails {
        return Err(ReleaseNotRead);
      }
      if release.None? {
        return Ok(());
      }
      var ok := Perform(Uninstall, script.Of(Uninstall));
      r := if ok then Ok(()) else Err(ActionFailed(Uninstall));
    }
  }

  function Removed(release: Option<Release>, readFails: bool, script: Script): Option<Release> {
    if readFails || release.None? then release else Leaves(Uninstall, release, script.Of(Uninstall))
  }

  /** The actions of one call, up to the first that is not reported as a success. */
  datatype Pass = Pass(release: Option<Release>, log: seq<Performed>, result: Result<(), ChartError>)

  function RunActions(release: Option<Release>, actions: seq<Action>, script: Script): Pass
    decreases |actions|
  {
    if actions == [] then Pass(release, [], Ok(()))
    else
      var p := script.Of(actions[0]);
      var left := Leaves(actions[0], release, p);
      if !Succeeds(p) then Pass(left, [Performed(actions[0], release)], Err(ActionFailed(actions[0])))
      else
        var rest := RunActions(left, actions[1..], script);
        rest.(log := [Performed(actions[0], release)] + rest.log)
  }

  lemma RunActionsStep(release: Option<Release>, a: Action, rest: seq<Action>, script: Script)
    ensures RunActions(release, [a] + rest, script) ==
            var left := Leaves(a, release, script.Of(a));
            if !Succeeds(script.Of(a)) then Pass(left, [Performed(a, release)], Err(ActionFailed(a)))
            else RunActions(left, rest, script).(log := [Performed(a, release)] + RunActions(left, rest, script).log)
  {
  }

  /** What it takes to get a release in a known state deployed. */
  function Plan(release: Option<Release>): Result<seq<Action>, ChartError> {
    if release.None? then Ok([Install])
    else
      var Release(version, status) := release.value;
      match status
      case Deployed => Ok([Upgrade])
      case Failed => Ok(if version > 1 then [Rollback, Upgrade] else [Uninstall, Install])
      case Uninstalling => Ok([Uninstall, Install])
      case _ =>
        if IsPending(status) then
          Ok(if version > 1 then [Unlock, Rollback, Upgrade] else [Unlock, Uninstall, Install])
        else Err(UnexpectedStatus(status))
  }

  function PassOver(release: Option<Release>, readFails: bool, script: Script): Pass {
    if readFails then Pass(release, [], Err(ReleaseNotRead))
    else
      match Plan(release)
      case Err(e) => Pass(release, [], Err(e))
      case Ok(actions) => RunActions(release, actions, script)
  }

  /** A pending release is unlocked, and then treated as a failed one. */
  lemma UnlockFirst(release: Option<Release>, script: Script)
    requires release.Some? && IsPending(release.value.status)
    ensures var first := [Performed(Unlock, release)];
            PassOver(release, false, script) ==
              if !Succeeds(script.unlock) then
                Pass(Leaves(Unlock, release, script.unlock), first, Err(ActionFailed(Unlock)))
              else
                var rest := PassOver(Some(release.value.(status := Failed)), false, script);
                rest.(log := first + rest.log)
  {
  }

  // ----- Recovery -----

  /** The states that Helm's actions leave behind. */
  predicate Recoverable(release: Option<Release>) {
    release.Some? ==>
      release.value.version >= 1 &&
      release.value.status in {Deployed, Failed, Uninstalling, PendingInstall, PendingUpgrade, PendingRollback}
  }

  /** Each action is used only on a release it is meant for. */
  predicate Appropriate(p: Performed) {
    match p.action
    case Unlock => p.on.Some? && IsPending(p.on.value.status)
    case Install => p.on.None?
    case Upgrade => p.on.Some? && p.on.value.status == Deployed
    case Rollback => p.on.Some? && p.on.value.status == Failed && p.on.value.version > 1
    case Uninstall => p.on.Some? && (p.on.value.status == Uninstalling || p.on.value == Release(1, Failed))
  }

  /** From any recoverable state, whatever fails: the unexpected-status branch is not taken, no action
      is misused, a success has applied the chart and ends deployed, and a failure leaves a recoverable state again. */
  lemma PassRecovers(release: Option<Release>, readFails: bool, script: Script)
    requires Recoverable(release)
    ensures var pass := PassOver(release, readFails, script);
            && Recoverable(pass.release)
            && (forall p | p in pass.log :: Appropriate(p))
            && (pass.result.Ok? ==> pass.release.Some? && pass.release.value.status == Deployed)
            && (pass.result.Ok? ==> pass.log != [] && pass.log[|pass.log| - 1].action in {Install, Upgrade})
            && (pass.result.Err? ==> !pass.result.error.UnexpectedStatus?)
  {
    if !readFails {
      var actions := Plan(release).value;
      PlanIsSound(release);
      ActionsRecover(release, actions, script);
    }
  }

  lemma PlanIsSound(release: Option<Release>)
    requires Recoverable(release)
    ensures Plan(release).Ok? && Sound(release, Plan(release).value) && EndsDeployed(Plan(release).value)
  {
  }

  /** A list of actions of which each is appropriate after those before it have succeeded. */
  predicate Sound(release: Option<Release>, actions: seq<Action>)
    decreases |actions|
  {
    actions != [] ==>
      && Appropriate(Performed(actions[0], release))
      && Sound(Leaves(actions[0], release, Completed(true)), actions[1..])
  }

  predicate EndsDeployed(actions: seq<Action>) {
    actions != [] && actions[|actions| - 1] in {Install, Upgrade}
  }

  lemma {:induction false} ActionsRecover(release: Option<Release>, actions: seq<Action>, script: Script)
    requires Recoverable(release) && Sound(release, actions)
    ensures var pass := RunActions(release, actions, script);
            && Recoverable(pass.release)
            && (forall p | p in pass.log :: Appropriate(p))
            && (pass.result.Ok? && EndsDeployed(actions) ==>
                  pass.release.Some? && pass.release.value.status == Deployed)
            && (pass.result.Ok? ==> |pass.log| == |actions|)
            && (pass.result.Ok? ==> forall k | 0 <= k < |actions| :: pass.log[k].action == actions[k])
            && (pass.result.Err? ==> !pass.result.error.UnexpectedStatus?)
    decreases |actions|
  {
    if actions != [] && Succeeds(script.Of(actions[0])) {
      var left := Leaves(actions[0], release, script.Of(actions[0]));
      assert left == Leaves(actions[0], release, Completed(true));
      ActionsRecover(left, actions[1..], script);
    }
  }

  /** The unexpected-status branch is taken exactly for a release that no action here leaves as its newest. */
  lemma UnexpectedStatusIff(release: Option<Release>, script: Script)
    ensures var r := PassOver(release, false, script).result;
            r.Err? && r.error.UnexpectedStatus? <==>
              release.Some? && release.value.status in {Unknown, Uninstalled, Superseded}
  {
    if Plan(release).Ok? {
      RunActionsFails(release, Plan(release).value, script);
    }
  }

  lemma {:induction false} RunActionsFails(release: Option<Release>, actions: seq<Action>, script: Script)
    ensures var r := RunActions(release, actions, script).result;
            r.Ok? <==> forall a | a in actions :: Succeeds(script.Of(a))
    ensures var r := RunActions(release, actions, script).result;
            r.Err? ==> r.error.ActionFailed? && r.error.action in actions
    decreases |actions|
  {
    if actions != [] && Succeeds(script.Of(actions[0])) {
      RunActionsFails(Leaves(actions[0], release, script.Of(actions[0])), actions[1..], script);
    }
  }

  /** Once Helm's actions succeed, one pass gets any recoverable release deployed. */
  lemma OnePassSuffices(release: Option<Release>, script: Script)
    requires Recoverable(release) && forall a :: Succeeds(script.Of(a))
    ensures PassOver(release, false, script).result.Ok?
    ensures var after := PassOver(release, false, script).release; after.Some? && after.value.status == Deployed
  {
    RunActionsFails(release, Plan(release).value, script);
    PassRecovers(release, false, script);
  }

  datatype Call = UpgradeOrInstall(readFails: bool, script: Script) | Remove(readFails: bool, script: Script)

  /** Any sequence of calls, each of which may be cut short anywhere. */
  ghost function AfterCalls(release: Option<Release>, calls: seq<Call>): Option<Release>
    decreases |calls|
  {
    if calls == [] then release
    else
      var c := calls[|calls| - 1];
      var before := AfterCalls(release, calls[..|calls| - 1]);
      match c
      case UpgradeOrInstall(readFails, script) => PassOver(before, readFails, script).release
      case Remove(readFails, script) => Removed(before, readFails, script)
  }

  /** Starting without a release, no sequence of interrupted calls gets it into a state that the next call
      cannot handle. */
  lemma {:induction false} AlwaysRecoverable(calls: seq<Call>)
    ensures Recoverable(AfterCalls(None, calls))
    decreases |calls|
  {
    if calls != [] {
      var c := calls[|calls| - 1];
      AlwaysRecoverable(calls[..|calls| - 1]);
      if c.UpgradeOrInstall? {
        PassRecovers(AfterCalls(None, calls[..|calls| - 1]), c.readFails, c.script);
      }
    }
  }
}
