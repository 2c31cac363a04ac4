/**
 The revision that an Istio resource keeps for its current spec: its name, how it is created and
 updated, and what the IstioRevision controller demands of it.
 */
module ActiveRevision {
  import opened Wrappers
  import opened JsonTree
  import opened IstioValues
  import opened RevisionValues

  datatype UpdateStrategy = UpdateStrategy(typ: string, gracePeriodSeconds: Option<int>)

  datatype IstioSpec = IstioSpec(
    version: string, namespace: string, profile: string, values: Option<Fields>, strategy: Option<UpdateStrategy>)

  datatype Istio = Istio(name: string, uid: string, spec: IstioSpec)

  function DotsToDashes(s: string): (r: string)
    ensures |r| == |s| && forall i | 0 <= i < |s| :: r[i] == if s[i] == '.' then '-' else s[i]
  {
    if s == "" then "" else [if s[0] == '.' then '-' else s[0]] + DotsToDashes(s[1..])
  }

  function ActiveRevisionName(istio: Istio): string {
    if istio.spec.strategy.Some? && istio.spec.strategy.value.typ == "RevisionBased" then
      istio.name + "-" + DotsToDashes(istio.spec.version)
    else istio.name
  }

  /** Revisions of an external control plane are never pruned. */
  predicate ManagesExternalRevision(istio: Istio) {
    istio.spec.values.Some? && At(istio.spec.values.value, ["pilot", "env", "EXTERNAL_ISTIOD"]) == Some(Str("true"))
  }

  datatype IstioRevision = IstioRevision(
    name: string, version: string, namespace: string, values: Option<Fields>, owners: seq<string>)

  // ----- Creating and updating -----

  datatype WriteError =
    | InvalidSpec
    | UnknownVersion
    | ValuesNotComputed(error: ValuesError)
    | GetFailed
    | UpdateFailed
    | CreateFailed

  /** Which API calls fail. */
  datatype Failures = Failures(get: bool, update: bool, create: bool)

  type Revisions = map<string, IstioRevision>

  /** An existing revision keeps its namespace and its owners. */
  function CreatedOrUpdated(
      revs: Revisions, name: string, version: string, namespace: string, values: Fields, owner: string): IstioRevision
  {
    if name in revs then revs[name].(version := version, values := Some(values))
    else IstioRevision(name, version, namespace, Some(values), [owner])
  }

  class Cluster {
    var revs: Revisions

    constructor ()
      ensures revs == map[]
    {
      revs := map[];
    }

    method CreateOrUpdate(
        name: string, version: string, namespace: string, values: Fields, owner: string, fails: Failures)
      returns (r: Result<(), WriteError>)
      modifies this
      ensures r.Ok? ==> revs == old(revs)[name := CreatedOrUpdated(old(revs), name, version, namespace, values, owner)]
      ensures r.Err? ==> revs == old(revs)
      ensures r.Ok? <==> !fails.get && !(if name in old(revs) then fails.update else fails.create)
    {
      if fails.get {
        return Err(GetFailed);
      }
      if name in revs {
        var rev := revs[name];
        rev := rev.(version := version);
        rev := rev.(values := Some(values));
        if fails.update {
          return Err(UpdateFailed);
        }
        revs := revs[name := rev];
      } else {
        if fails.create {
          return Err(CreateFailed);
        }
        revs := revs[name := IstioRevision(name, version, namespace, Some(values), [owner])];
      }
      r := Ok(());
    }

    /** `reconcileActiveRevision` after validation; `version` is what the version in the spec resolves to. */
    method ReconcileActiveRevision(istio: Istio, env: Environment, version: Option<string>, fails: Failures)
      returns (r: Result<(), WriteError>)
      modifies this
      ensures revs == ReconciledRevisions(old(revs), istio, env, version, fails)
      ensures r.Ok? <==> Wanted(istio, env, version).Ok? && !Fails(old(revs), istio, fails)
      ensures Wanted(istio, env, version).Err? ==> r == Err(Wanted(istio, env, version).error)
    {
      if istio.spec.version == "" || istio.spec.namespace == "" {
        return Err(InvalidSpec);
      }
      if version.None? {
        return Err(UnknownVersion);
      }
      var name := ActiveRevisionName(istio);
      var values := ComputeValues(
        env, istio.spec.values, istio.spec.namespace, version.value, istio.spec.profile, name);
      match values
      case Err(e) => r := Err(ValuesNotComputed(e));
      case Ok(v) => r := CreateOrUpdate(name, version.value, istio.spec.namespace, v, istio.uid, fails);
    }
  }

  /** The values that the active revision is to have. */
  function Wanted(istio: Istio, env: Environment, version: Option<string>): Result<Fields, WriteError> {
    if istio.spec.version == "" || istio.spec.namespace == "" then Err(InvalidSpec)
    else if version.None? then Err(UnknownVersion)
    else
      match ComputeValues(
          env, istio.spec.values, istio.spec.namespace, version.value, istio.spec.profile, ActiveRevisionName(istio))
      case Ok(v) => Ok(v)
      case Err(e) => Err(ValuesNotComputed(e))
  }

  predicate Fails(revs: Revisions, istio: Istio, fails: Failures) {
    fails.get || if ActiveRevisionName(istio) in revs then fails.update else fails.create
  }

  function ReconciledRevisions(
      revs: Revisions, istio: Istio, env: Environment, version: Option<string>, fails: Failures): Revisions
  {
    var name := ActiveRevisionName(istio);
    match Wanted(istio, env, version)
    case Err(_) => revs
    case Ok(values) =>
      if Fails(revs, istio, fails) then revs
      else revs[name := CreatedOrUpdated(revs, name, version.value, istio.spec.namespace, values, istio.uid)]
  }

  // ----- Which revision is written, and what -----

  /** One reconciliation of an Istio resource, whatever its spec then says. */
  datatype Round = Round(istio: Istio, env: Environment, version: Option<string>, fails: Failures)

  function AfterRounds(revs: Revisions, rounds: seq<Round>): Revisions
    decreases |rounds|
  {
    if rounds == [] then revs
    else
      var q := rounds[0];
      AfterRounds(ReconciledRevisions(revs, q.istio, q.env, q.version, q.fails), rounds[1..])
  }

  ghost predicate IsRevisionBased(istio: Istio) {
    istio.spec.strategy.Some? && istio.spec.strategy.value.typ == "RevisionBased"
  }

  /** The name of the active revision, character by character. */
  ghost predicate IsActiveName(istio: Istio, n: string) {
    if IsRevisionBased(istio) then
      var (base, version) := (istio.name, istio.spec.version);
      && |n| == |base| + 1 + |version|
      && (forall i | 0 <= i < |base| :: n[i] == base[i])
      && n[|base|] == '-'
      && (forall i | 0 <= i < |version| :: n[|base| + 1 + i] == if version[i] == '.' then '-' else version[i])
    else n == istio.name
  }

  /** A string in three parts, character by character. */
  ghost predicate HasParts(n: string, base: string, c: char, rest: string) {
    && |n| == |base| + 1 + |rest|
    && (forall i | 0 <= i < |base| :: n[i] == base[i])
    && n[|base|] == c
    && (forall i | 0 <= i < |rest| :: n[|base| + 1 + i] == rest[i])
  }

  lemma ThreeParts(n: string, base: string, c: char, rest: string)
    ensures HasParts(n, base, c, rest) <==> n == base + [c] + rest
  {
    if HasParts(n, base, c, rest) {
      assert n[..|base|] == base;
      forall i | 0 <= i < |rest|
        ensures n[|base| + 1..][i] == rest[i]
      {
        assert n[|base| + 1 + i] == rest[i];
      }
      assert n[|base| + 1..] == rest;
      assert n == n[..|base|] + [n[|base|]] + n[|base| + 1..];
    }
  }

  lemma ActiveNameIsUnique(istio: Istio, n: string)
    ensures IsActiveName(istio, n) <==> n == ActiveRevisionName(istio)
  {
    if IsRevisionBased(istio) {
      var dashed := DotsToDashes(istio.spec.version);
      ThreeParts(n, istio.name, '-', dashed);
      NameHasParts(istio, n, dashed);
    }
  }

  lemma NameHasParts(istio: Istio, n: string, dashed: string)
    requires IsRevisionBased(istio) && dashed == DotsToDashes(istio.spec.version)
    ensures IsActiveName(istio, n) <==> HasParts(n, istio.name, '-', dashed)
  {
    if HasParts(n, istio.name, '-', dashed) {
      forall i | 0 <= i < |dashed|
        ensures n[|istio.name| + 1 + i] == if istio.spec.version[i] == '.' then '-' else istio.spec.version[i]
      {
      }
    }
  }

  ghost function ValuesOf(q: Round, n: string): Result<Fields, ValuesError>
    requires q.version.Some?
  {
    ComputeValues(q.env, q.istio.spec.values, q.istio.spec.namespace, q.version.value, q.istio.spec.profile, n)
  }

  /** The round writes the revision `n`. */
  ghost predicate Writes(revs: Revisions, q: Round, n: string) {
    && IsActiveName(q.istio, n)
    && q.istio.spec.version != "" && q.istio.spec.namespace != "" && q.version.Some?
    && ValuesOf(q, n).Ok?
    && !q.fails.get && (if n in revs then !q.fails.update else !q.fails.create)
  }

  /**
   A round that succeeds leaves a revision under the active name, with the version and the values
   computed from the spec, and no other changes; a round that fails changes nothing.
   */
  lemma RoundWritesActiveRevision(revs: Revisions, q: Round, n: string)
    requires IsActiveName(q.istio, n)
    ensures var after := ReconciledRevisions(revs, q.istio, q.env, q.version, q.fails);
            if Writes(revs, q, n) then
              && after.Keys == revs.Keys + {n}
              && (forall m | m in revs && m != n :: after[m] == revs[m])
              && after[n].version == q.version.value
              && after[n].values == Some(ValuesOf(q, n).value)
              && (if n in revs then
                    after[n].name == revs[n].name && after[n].namespace == revs[n].namespace
                    && after[n].owners == revs[n].owners
                  else
                    after[n].name == n && after[n].namespace == q.istio.spec.namespace
                    && after[n].owners == [q.istio.uid])
            else after == revs
    ensures Wanted(q.istio, q.env, q.version).Ok? && !Fails(revs, q.istio, q.fails) <==> Writes(revs, q, n)
  {
    ActiveNameIsUnique(q.istio, n);
  }

  /** Revisions under names that are not active in any round stay as they are. */
  lemma {:induction false} OtherRevisionsStay(revs: Revisions, rounds: seq<Round>, m: string)
    requires forall i | 0 <= i < |rounds| :: !IsActiveName(rounds[i].istio, m)
    ensures m in AfterRounds(revs, rounds) <==> m in revs
    ensures m in revs ==> AfterRounds(revs, rounds)[m] == revs[m]
    decreases |rounds|
  {
    if rounds != [] {
      var q := rounds[0];
      var n := ActiveRevisionName(q.istio);
      ActiveNameIsUnique(q.istio, n);
      RoundWritesActiveRevision(revs, q, n);
      OtherRevisionsStay(ReconciledRevisions(revs, q.istio, q.env, q.version, q.fails), rounds[1..], m);
    }
  }

  /** The versions differ in more than dots and dashes. */
  ghost predicate Differ(v: string, w: string) {
    |v| != |w| || exists i | 0 <= i < |v| :: v[i] != w[i] && !(v[i] in ".-" && w[i] in ".-")
  }

  /** Exactly then the two versions of one resource have revisions of their own. */
  lemma OwnRevisionIff(a: Istio, b: Istio, n: string)
    requires a.name == b.name && IsRevisionBased(a) && IsRevisionBased(b) && IsActiveName(a, n)
    ensures IsActiveName(b, n) <==> !Differ(a.spec.version, b.spec.version)
  {
    var (v, w) := (a.spec.version, b.spec.version);
    if |v| == |w| {
      forall i | 0 <= i < |v|
        ensures n[|a.name| + 1 + i] == (if w[i] == '.' then '-' else w[i]) <==>
                v[i] == w[i] || (v[i] in ".-" && w[i] in ".-")
      {
        assert n[|a.name| + 1 + i] == if v[i] == '.' then '-' else v[i];
      }
    }
  }

  /** Upgrading to other versions leaves the revision of the old version as it was. */
  lemma UpgradesKeepOldRevision(revs: Revisions, rounds: seq<Round>, before: Istio, n: string)
    requires IsRevisionBased(before) && IsActiveName(before, n)
    requires forall i | 0 <= i < |rounds| ::
               && rounds[i].istio.name == before.name && IsRevisionBased(rounds[i].istio)
               && Differ(before.spec.version, rounds[i].istio.spec.version)
    ensures n in AfterRounds(revs, rounds) <==> n in revs
    ensures n in revs ==> AfterRounds(revs, rounds)[n] == revs[n]
  {
    forall i | 0 <= i < |rounds|
      ensures !IsActiveName(rounds[i].istio, n)
    {
      OwnRevisionIff(before, rounds[i].istio, n);
    }
    OtherRevisionsStay(revs, rounds, n);
  }

  lemma {:induction false} LastRound(revs: Revisions, rounds: seq<Round>, q: Round)
    ensures AfterRounds(revs, rounds + [q]) ==
            ReconciledRevisions(AfterRounds(revs, rounds), q.istio, q.env, q.version, q.fails)
    decreases |rounds|
  {
    if rounds != [] {
      var first := rounds[0];
      assert (rounds + [q])[1..] == rounds[1..] + [q];
      LastRound(ReconciledRevisions(revs, first.istio, first.env, first.version, first.fails), rounds[1..], q);
    }
  }

  /** Without a strategy that is based on revisions, one revision is updated and no other is touched. */
  lemma InPlaceUpdatesOneRevision(revs: Revisions, rounds: seq<Round>, q: Round)
    requires forall i | 0 <= i < |rounds| ::
               rounds[i].istio.name == q.istio.name && !IsRevisionBased(rounds[i].istio)
    requires !IsRevisionBased(q.istio) && Writes(AfterRounds(revs, rounds), q, q.istio.name)
    ensures var (after, n) := (AfterRounds(revs, rounds + [q]), q.istio.name);
            && after.Keys == revs.Keys + {n}
            && (forall m | m in revs && m != n :: after[m] == revs[m])
            && after[n].version == q.version.value && after[n].values == Some(ValuesOf(q, n).value)
  {
    var n := q.istio.name;
    LastRound(revs, rounds, q);
    RoundWritesActiveRevision(AfterRounds(revs, rounds), q, n);
    forall m | m != n
      ensures m in AfterRounds(revs, rounds) <==> m in revs
      ensures m in revs ==> AfterRounds(revs, rounds)[m] == revs[m]
    {
      OtherRevisionsStay(revs, rounds, m);
    }
  }

  // ----- Validation -----

  datatype SpecError =
    | VersionNotSet
    | NamespaceNotSet
    | NamespaceNotUsable
    | ValuesNotSet
    | RevisionNotEmpty
    | RevisionMismatch
    | IstioNamespaceMismatch
    | NameTaken

  /**
   `validate`. Whether the namespace can be used and whether a tag of the same name comes first is
   found out from the cluster.
   */
  function Validate(rev: IstioRevision, namespaceUsable: bool, tagComesFirst: bool): Result<(), SpecError> {
    if rev.version == "" then Err(VersionNotSet)
    else if rev.namespace == "" then Err(NamespaceNotSet)
    else if !namespaceUsable then Err(NamespaceNotUsable)
    else if rev.values.None? then Err(ValuesNotSet)
    else
      var revision := At(rev.values.value, REVISION_PATH);
      if rev.name == DEFAULT_REVISION && revision.Some? && revision.value != Str("") then Err(RevisionNotEmpty)
      else if rev.name != DEFAULT_REVISION && revision != Some(Str(rev.name)) then Err(RevisionMismatch)
      else if At(rev.values.value, ISTIO_NAMESPACE_PATH) != Some(Str(rev.namespace)) then Err(IstioNamespaceMismatch)
      else if tagComesFirst then Err(NameTaken)
      else Ok(())
  }

  /** The values carry the revision's own name, "" for the default one, and its own namespace. */
  predicate ValuesMatch(rev: IstioRevision) {
    && rev.values.Some?
    && (var revision := At(rev.values.value, ["revision"]);
        if rev.name == "default" then revision.None? || revision == Some(Str(""))
        else revision == Some(Str(rev.name)))
    && At(rev.values.value, ["global", "istioNamespace"]) == Some(Str(rev.namespace))
  }

  lemma ValidIff(rev: IstioRevision, namespaceUsable: bool, tagComesFirst: bool)
    ensures Validate(rev, namespaceUsable, tagComesFirst).Ok? <==>
            rev.version != "" && rev.namespace != "" && namespaceUsable && !tagComesFirst && ValuesMatch(rev)
  {
  }

  ghost predicate Violates(rev: IstioRevision, namespaceUsable: bool, tagComesFirst: bool, e: SpecError) {
    match e
    case VersionNotSet => rev.version == ""
    case NamespaceNotSet => rev.namespace == ""
    case NamespaceNotUsable => !namespaceUsable
    case ValuesNotSet => rev.values.None?
    case RevisionNotEmpty =>
      && rev.name == "default" && rev.values.Some?
      && At(rev.values.value, ["revision"]) != None && At(rev.values.value, ["revision"]) != Some(Str(""))
    case RevisionMismatch =>
      rev.name != "default" && rev.values.Some? && At(rev.values.value, ["revision"]) != Some(Str(rev.name))
    case IstioNamespaceMismatch =>
      rev.values.Some? && At(rev.values.value, ["global", "istioNamespace"]) != Some(Str(rev.namespace))
    case NameTaken => tagComesFirst
  }

  /** The order in which the checks are made. */
  function Rank(e: SpecError): nat {
    match e
    case VersionNotSet => 0
    case NamespaceNotSet => 1
    case NamespaceNotUsable => 2
    case ValuesNotSet => 3
    case RevisionNotEmpty => 4
    case RevisionMismatch => 5
    case IstioNamespaceMismatch => 6
    case NameTaken => 7
  }

  /** The error is that of the first check that fails. */
  lemma InvalidBecause(rev: IstioRevision, namespaceUsable: bool, tagComesFirst: bool, e: SpecError)
    ensures Validate(rev, namespaceUsable, tagComesFirst) == Err(e) <==>
            && Violates(rev, namespaceUsable, tagComesFirst, e)
            && forall d | Rank(d) < Rank(e) :: !Violates(rev, namespaceUsable, tagComesFirst, d)
  {
    var r := Validate(rev, namespaceUsable, tagComesFirst);
    if r.Err? {
      assert Violates(rev, namespaceUsable, tagComesFirst, r.error);
      assert forall d | Rank(d) < Rank(r.error) :: !Violates(rev, namespaceUsable, tagComesFirst, d);
      assert Rank(e) == Rank(r.error) ==> e == r.error;
    }
  }

  // ----- What is created is accepted -----

  /** The values computed for a revision match it exactly if it is in the Istio resource's namespace. */
  lemma WrittenRevisionMatchesIff(
      revs: Revisions, istio: Istio, env: Environment, version: Option<string>, fails: Failures)
    requires Wanted(istio, env, version).Ok? && !Fails(revs, istio, fails)
    requires forall n | n in revs :: revs[n].name == n
    ensures var rev := ReconciledRevisions(revs, istio, env, version, fails)[ActiveRevisionName(istio)];
            && (ValuesMatch(rev) <==> rev.namespace == istio.spec.namespace)
            && rev.version == version.value
  {
    OverriddenLeaves(
      env, istio.spec.values, istio.spec.namespace, version.value, istio.spec.profile, ActiveRevisionName(istio));
  }

  /** The namespace of an Istio resource never changes. */
  ghost predicate SameResource(rounds: seq<Round>, uid: string, namespace: string) {
    forall i | 0 <= i < |rounds| :: rounds[i].istio.uid == uid && rounds[i].istio.spec.namespace == namespace
  }

  ghost predicate OwnedMatch(revs: Revisions, uid: string, namespace: string) {
    forall n | n in revs ::
      && revs[n].name == n
      && (uid in revs[n].owners ==> revs[n].namespace == namespace && ValuesMatch(revs[n]))
  }

  /**
   However the version, the values, the profile and the strategy are edited, whatever fails, and
   whatever the environment: each revision the resource owns passes the checks on its values.
   */
  lemma {:induction false} OwnedRevisionsAlwaysMatch(
      revs: Revisions, rounds: seq<Round>, uid: string, namespace: string)
    requires OwnedMatch(revs, uid, namespace) && SameResource(rounds, uid, namespace)
    ensures OwnedMatch(AfterRounds(revs, rounds), uid, namespace)
    decreases |rounds|
  {
    if rounds != [] {
      var q := rounds[0];
      var next := ReconciledRevisions(revs, q.istio, q.env, q.version, q.fails);
      if Wanted(q.istio, q.env, q.version).Ok? && !Fails(revs, q.istio, q.fails) {
        WrittenRevisionMatchesIff(revs, q.istio, q.env, q.version, q.fails);
      }
      OwnedRevisionsAlwaysMatch(next, rounds[1..], uid, namespace);
    }
  }

  /** So the controller accepts them, but for a namespace that cannot be used or a tag that comes first. */
  lemma OwnedRevisionsAreAccepted(
      revs: Revisions, rounds: seq<Round>, uid: string, namespace: string,
      n: string, namespaceUsable: bool, tagComesFirst: bool)
    requires OwnedMatch(revs, uid, namespace) && SameResource(rounds, uid, namespace)
    requires n in AfterRounds(revs, rounds) && uid in AfterRounds(revs, rounds)[n].owners
    ensures var rev := AfterRounds(revs, rounds)[n];
            Validate(rev, namespaceUsable, tagComesFirst).Ok? <==>
              rev.version != "" && namespace != "" && namespaceUsable && !tagComesFirst
  {
    OwnedRevisionsAlwaysMatch(revs, rounds, uid, namespace);
    ValidIff(AfterRounds(revs, rounds)[n], namespaceUsable, tagComesFirst);
  }
}
