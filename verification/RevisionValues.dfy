/**
 `revision.ComputeValues`, the pipeline that yields the values of an IstioRevision, and
 `DependsOnIstioCNI`, which runs it again on values it already yielded.
 */
module RevisionValues {
  import opened Wrappers
  import opened JsonTree
  import opened Schema
  import opened NestedFields
  import opened IstioValues

  /** What the pipeline reads besides its arguments. */
  datatype Environment = Environment(
    valuesType: Type,
    digests: map<string, ImageDigests>,
    vendorDefaults: VendorDefaults,
    profiles: map<string, ProfileStore>,
    platform: string,
    defaultProfile: string,
    fips: bool)

  function Profiles(env: Environment, version: string): ProfileStore {
    if version in env.profiles then env.profiles[version] else map[]
  }

  /** The untyped values just before they are converted back: profiles, platform and FIPS applied to `values`. */
  function MergedValues(env: Environment, values: Option<Fields>, version: string, userProfile: string)
    : Result<Fields, ValuesError>
  {
    match ApplyProfilesAndPlatform(Profiles(env, version), env.platform, env.defaultProfile, userProfile, values)
    case Ok(m) => ApplyFips(env.fips, m)
    case Err(e) => Err(e)
  }

  function ComputeValues(
      env: Environment, userValues: Option<Fields>, namespace: string, version: string,
      userProfile: string, revisionName: string)
    : Result<Fields, ValuesError>
  {
    match ApplyIstioVendorDefaults(
        env.valuesType, env.vendorDefaults, version, ApplyDigests(version, userValues, env.digests))
    case Err(e) => Err(e)
    case Ok(withDefaults) =>
      match MergedValues(env, withDefaults, version, userProfile)
      case Err(e) => Err(e)
      case Ok(merged) =>
        match Decode(env.valuesType, Obj(merged))
        case Some(Obj(values)) => Ok(ApplyOverrides(revisionName, namespace, values))
        case _ => Err(ConversionFailed)
  }

  /** The arguments of one computation. */
  datatype Request = Request(
    user: Option<Fields>, namespace: string, version: string, userProfile: string, revisionName: string)

  function Answer(env: Environment, q: Request): Result<Fields, ValuesError> {
    ComputeValues(env, q.user, q.namespace, q.version, q.userProfile, q.revisionName)
  }

  // ----- One stage at a time -----

  /** Vendor defaults keep what they are merged under, and add nothing to a value that covers their result. */
  lemma VendorDefaultsStage(t: Type, defaults: VendorDefaults, version: string, values: Option<Fields>)
    requires IsValuesType(t) && Canonical(t, Obj(AsMap(values)))
    requires ApplyIstioVendorDefaults(t, defaults, version, values).Ok?
    ensures var w := AsMap(ApplyIstioVendorDefaults(t, defaults, version, values).value);
            Canonical(t, Obj(w)) && Keeps(AsMap(values), w)
  {
    var u := AsMap(values);
    KeepsItself(u);
    if version in defaults && "istio" in defaults[version] {
      var a := defaults[version]["istio"].fields;
      OverlayKeepsOverrides(a, u);
      DecodeKeepsTyped(t, u, Overlay(a, u));
      DecodeIsProjection(t, Obj(Overlay(a, u)));
    }
  }

  lemma VendorDefaultsAgain(t: Type, defaults: VendorDefaults, version: string, values: Option<Fields>, y: Fields)
    requires IsValuesType(t) && Canonical(t, Obj(AsMap(values))) && Canonical(t, Obj(y))
    requires ApplyIstioVendorDefaults(t, defaults, version, values).Ok?
    requires Covers(AsMap(ApplyIstioVendorDefaults(t, defaults, version, values).value), y)
    ensures ApplyIstioVendorDefaults(t, defaults, version, Some(y)) == Ok(Some(y))
  {
    if version in defaults && "istio" in defaults[version] {
      var a := defaults[version]["istio"].fields;
      var w := ApplyIstioVendorDefaults(t, defaults, version, values).value.value;
      VendorDefaultsStage(t, defaults, version, values);
      KeepsCovers(AsMap(values), w);
      DefaultsAreAbsorbed(t, a, AsMap(values), w, y);
    }
  }

  lemma SetFieldMeaning(m: Fields, path: seq<string>, s: string)
    requires path != [] && SetField(m, path, s).Ok?
    ensures var r := SetField(m, path, s).value;
            && Keeps(m, r)
            && At(r, path).Some?
            && (At(m, path).Some? ==> r == m)
            && (At(m, path).None? ==> Set(m, path, Str(s)) == Ok(r) && At(r, path) == Some(Str(s)))
            && (forall k | k in m && k != path[0] :: k in r && r[k] == m[k])
            && (forall k | k in r && k != path[0] :: k in m)
  {
    SetIfAbsentMeaning(m, path, Str(s));
    FoundIffAt(m, path);
  }

  /** The profiles of `Resolve` merged together. */
  function Base(env: Environment, version: string, userProfile: string): Result<Fields, ValuesError> {
    ApplyProfiles(Profiles(env, version), map[], {}, Resolve(env.defaultProfile, userProfile))
  }

  predicate SetsPlatform(env: Environment) {
    env.platform != "" && env.platform != "kubernetes"
  }

  lemma MergedKeeps(env: Environment, values: Option<Fields>, version: string, userProfile: string)
    requires MergedValues(env, values, version, userProfile).Ok?
    ensures Keeps(AsMap(values), MergedValues(env, values, version, userProfile).value)
  {
    var m := Overlay(Base(env, version, userProfile).value, AsMap(values));
    OverlayKeepsOverrides(Base(env, version, userProfile).value, AsMap(values));
    var m1 := m;
    if SetsPlatform(env) {
      SetFieldMeaning(m, PLATFORM_PATH, env.platform);
      m1 := SetField(m, PLATFORM_PATH, env.platform).value;
      KeepsTransitive(AsMap(values), m, m1);
    }
    if env.fips {
      SetFieldMeaning(m1, COMPLIANCE_POLICY_PATH, "fips-140-2");
      KeepsTransitive(AsMap(values), m1, ApplyFips(env.fips, m1).value);
    }
  }

  /** Typed values before and after the fields for platform and FIPS are set. */
  lemma DecodeWithoutField(t: Type, m: Fields, path: seq<string>, s: string)
    requires path != [] && DeclaresString(t, path) && SetField(m, path, s).Ok?
    requires Decode(t, Obj(SetField(m, path, s).value)).Some?
    ensures Decode(t, Obj(m)).Some?
    ensures Covers(Decode(t, Obj(m)).value.fields, Decode(t, Obj(SetField(m, path, s).value)).value.fields)
    ensures At(m, path).None? ==> At(Decode(t, Obj(SetField(m, path, s).value)).value.fields, path).Some?
  {
    SetFieldMeaning(m, path, s);
    var r := SetField(m, path, s).value;
    if At(m, path).None? {
      DecodeWithoutString(t, m, path, s);
      DecodeKeepsString(t, r, path, s);
    } else {
      CoversItself(Decode(t, Obj(m)).value);
    }
  }

  /** Setting a field has no effect on a merge over `base` of a value that covers the earlier result. */
  lemma FieldAlreadySet(t: Type, base: Fields, u: Fields, y: Fields, path: seq<string>, s: string)
    requires path != [] && DeclaresString(t, path) && Canonical(t, Obj(y)) && Covers(u, y)
    requires At(Overlay(base, u), path).Some? || At(y, path).Some?
    ensures SetField(Overlay(base, y), path, s) == Ok(Overlay(base, y))
  {
    if At(y, path).Some? {
      OverlayKeepsOverrides(base, y);
      KeepsCovers(y, Overlay(base, y));
      CoveredPath(y, Overlay(base, y), path);
    } else {
      TypedNotBlocked(t, y, path);
      MergedPathStays(base, u, y, path);
    }
    FoundIffAt(Overlay(base, y), path);
  }

  /** The first run, backwards from its typed result: it covers what the profiles and values alone decode to,
      and each field that is to be set is in the one or in the other. */
  lemma BeforeFields(env: Environment, m0: Fields, w: Fields) returns (w0: Fields)
    requires IsValuesType(env.valuesType)
    requires SetsPlatform(env) ==> SetField(m0, PLATFORM_PATH, env.platform).Ok?
    requires var m1 := if SetsPlatform(env) then SetField(m0, PLATFORM_PATH, env.platform).value else m0;
             ApplyFips(env.fips, m1).Ok? && Decode(env.valuesType, Obj(ApplyFips(env.fips, m1).value)) == Some(Obj(w))
    ensures Decode(env.valuesType, Obj(m0)) == Some(Obj(w0)) && Covers(w0, w)
    ensures SetsPlatform(env) ==> At(m0, PLATFORM_PATH).Some? || At(w, PLATFORM_PATH).Some?
    ensures env.fips ==> At(m0, COMPLIANCE_POLICY_PATH).Some? || At(w, COMPLIANCE_POLICY_PATH).Some?
  {
    var t := env.valuesType;
    SetPathsAreDeclared(t);
    var m1 := if SetsPlatform(env) then SetField(m0, PLATFORM_PATH, env.platform).value else m0;
    CoversItself(Obj(w));
    if env.fips {
      DecodeWithoutField(t, m1, COMPLIANCE_POLICY_PATH, "fips-140-2");
    }
    w0 := Decode(t, Obj(m1)).value.fields;
    if SetsPlatform(env) {
      w0 := BeforePlatform(env, m0, w0, w);
    }
  }

  lemma BeforePlatform(env: Environment, m0: Fields, w1: Fields, w: Fields) returns (w0: Fields)
    requires IsValuesType(env.valuesType) && SetField(m0, PLATFORM_PATH, env.platform).Ok?
    requires var m1 := SetField(m0, PLATFORM_PATH, env.platform).value;
             Decode(env.valuesType, Obj(m1)) == Some(Obj(w1)) && Covers(w1, w)
    ensures Decode(env.valuesType, Obj(m0)) == Some(Obj(w0)) && Covers(w0, w)
    ensures At(m0, PLATFORM_PATH).Some? || At(w, PLATFORM_PATH).Some?
    ensures var m1 := SetField(m0, PLATFORM_PATH, env.platform).value;
            At(m1, COMPLIANCE_POLICY_PATH) == At(m0, COMPLIANCE_POLICY_PATH)
  {
    SetPathsAreDeclared(env.valuesType);
    DecodeWithoutField(env.valuesType, m0, PLATFORM_PATH, env.platform);
    w0 := Decode(env.valuesType, Obj(m0)).value.fields;
    CoversTransitive(w0, w1, w);
    if At(m0, PLATFORM_PATH).None? {
      CoveredPath(w1, w, PLATFORM_PATH);
    }
    SetFieldMeaning(m0, PLATFORM_PATH, env.platform);
  }

  /** The profile stage adds nothing to a typed value that covers its typed result. */
  lemma MergedAgain(
      env: Environment, values: Option<Fields>, version: string, userProfile: string, w: Fields, y: Fields)
    requires IsValuesType(env.valuesType)
    requires Canonical(env.valuesType, Obj(AsMap(values))) && Canonical(env.valuesType, Obj(y))
    requires MergedValues(env, values, version, userProfile).Ok?
    requires Decode(env.valuesType, Obj(MergedValues(env, values, version, userProfile).value)) == Some(Obj(w))
    requires Covers(w, y)
    ensures MergedValues(env, Some(y), version, userProfile).Ok?
    ensures Decode(env.valuesType, Obj(MergedValues(env, Some(y), version, userProfile).value)) == Some(Obj(y))
  {
    var t, u := env.valuesType, AsMap(values);
    var base := Base(env, version, userProfile).value;
    var m0 := Overlay(base, u);
    var w0 := BeforeFields(env, m0, w);
    CoversTransitive(w0, w, y);
    OverlayKeepsOverrides(base, u);
    DecodeKeepsTyped(t, u, m0);
    KeepsCovers(u, w0);
    CoversTransitive(u, w0, y);
    DefaultsAreAbsorbed(t, base, u, w0, y);
    if SetsPlatform(env) && At(m0, PLATFORM_PATH).None? {
      CoveredPath(w, y, PLATFORM_PATH);
    }
    if env.fips && At(m0, COMPLIANCE_POLICY_PATH).None? {
      CoveredPath(w, y, COMPLIANCE_POLICY_PATH);
    }
    FieldsAlreadySet(env, base, u, y);
  }

  /** Setting the two fields has no effect where the earlier run, or the value at hand, has them. */
  lemma FieldsAlreadySet(env: Environment, base: Fields, u: Fields, y: Fields)
    requires IsValuesType(env.valuesType) && Canonical(env.valuesType, Obj(y)) && Covers(u, y)
    requires SetsPlatform(env) ==> At(Overlay(base, u), PLATFORM_PATH).Some? || At(y, PLATFORM_PATH).Some?
    requires env.fips ==> At(Overlay(base, u), COMPLIANCE_POLICY_PATH).Some? || At(y, COMPLIANCE_POLICY_PATH).Some?
    ensures SetsPlatform(env) ==> SetField(Overlay(base, y), PLATFORM_PATH, env.platform) == Ok(Overlay(base, y))
    ensures ApplyFips(env.fips, Overlay(base, y)) == Ok(Overlay(base, y))
  {
    SetPathsAreDeclared(env.valuesType);
    if SetsPlatform(env) {
      FieldAlreadySet(env.valuesType, base, u, y, PLATFORM_PATH, env.platform);
    }
    if env.fips {
      FieldAlreadySet(env.valuesType, base, u, y, COMPLIANCE_POLICY_PATH, "fips-140-2");
    }
  }

  // ----- Main theorems -----

  /** A successful result is a typed value that has every key of the user's values. */
  lemma ResultIsTyped(
      env: Environment, userValues: Option<Fields>, namespace: string, version: string,
      userProfile: string, revisionName: string)
    requires IsValuesType(env.valuesType) && Canonical(env.valuesType, Obj(AsMap(userValues)))
    requires ComputeValues(env, userValues, namespace, version, userProfile, revisionName).Ok?
    ensures var d := ApplyDigests(version, userValues, env.digests);
            var w1 := ApplyIstioVendorDefaults(env.valuesType, env.vendorDefaults, version, d).value;
            var m := MergedValues(env, w1, version, userProfile).value;
            var w2 := Decode(env.valuesType, Obj(m)).value.fields;
            var r := ComputeValues(env, userValues, namespace, version, userProfile, revisionName).value;
            && Canonical(env.valuesType, Obj(AsMap(d))) && Keeps(AsMap(userValues), AsMap(d))
            && Canonical(env.valuesType, Obj(AsMap(w1))) && Keeps(AsMap(d), AsMap(w1))
            && Canonical(env.valuesType, Obj(w2)) && Keeps(AsMap(w1), w2)
            && Canonical(env.valuesType, Obj(r)) && Covers(w2, r)
  {
    var t := env.valuesType;
    var d := ApplyDigests(version, userValues, env.digests);
    DigestsKeepUserValues(t, version, userValues, env.digests);
    var w1 := ApplyIstioVendorDefaults(t, env.vendorDefaults, version, d).value;
    VendorDefaultsStage(t, env.vendorDefaults, version, d);
    var m := MergedValues(env, w1, version, userProfile).value;
    MergedKeeps(env, w1, version, userProfile);
    DecodeKeepsTyped(t, AsMap(w1), m);
    DecodeIsProjection(t, Obj(m));
    var w2 := Decode(t, Obj(m)).value.fields;
    OverridesAreTyped(t, revisionName, namespace, w2);
    OverridesCover(t, revisionName, namespace, w2);
  }

  /** Computing the values of already computed values returns them unchanged. */
  lemma ComputeValuesIdempotent(
      env: Environment, userValues: Option<Fields>, namespace: string, version: string,
      userProfile: string, revisionName: string)
    requires IsValuesType(env.valuesType) && Canonical(env.valuesType, Obj(AsMap(userValues)))
    requires ComputeValues(env, userValues, namespace, version, userProfile, revisionName).Ok?
    ensures var r := ComputeValues(env, userValues, namespace, version, userProfile, revisionName);
            ComputeValues(env, Some(r.value), namespace, version, userProfile, revisionName) == r
  {
    var t := env.valuesType;
    var r := ComputeValues(env, userValues, namespace, version, userProfile, revisionName).value;
    ResultIsTyped(env, userValues, namespace, version, userProfile, revisionName);
    var d := ApplyDigests(version, userValues, env.digests);
    var w1 := ApplyIstioVendorDefaults(t, env.vendorDefaults, version, d).value;
    var w2 := Decode(t, Obj(MergedValues(env, w1, version, userProfile).value)).value.fields;
    KeepsCovers(AsMap(w1), w2);
    KeepsCovers(AsMap(d), AsMap(w1));
    CoversTransitive(AsMap(w1), w2, r);
    CoversTransitive(AsMap(d), AsMap(w1), r);
    DigestsLeaveResultAlone(env, userValues, namespace, version, userProfile, revisionName);
    VendorDefaultsAgain(t, env.vendorDefaults, version, d, r);
    MergedAgain(env, w1, version, userProfile, w2, r);
    OverridesAgain(revisionName, namespace, w2);
  }

  /** Nor does computing again write anything to the values of a revision, which is where digests are set. */
  lemma DigestsLeaveResultAlone(
      env: Environment, userValues: Option<Fields>, namespace: string, version: string,
      userProfile: string, revisionName: string)
    requires IsValuesType(env.valuesType) && Canonical(env.valuesType, Obj(AsMap(userValues)))
    requires ComputeValues(env, userValues, namespace, version, userProfile, revisionName).Ok?
    ensures var r := ComputeValues(env, userValues, namespace, version, userProfile, revisionName).value;
            ApplyDigests(version, Some(r), env.digests) == Some(r)
  {
    var t := env.valuesType;
    var r := ComputeValues(env, userValues, namespace, version, userProfile, revisionName).value;
    ResultIsTyped(env, userValues, namespace, version, userProfile, revisionName);
    var d := ApplyDigests(version, userValues, env.digests);
    var w1 := ApplyIstioVendorDefaults(t, env.vendorDefaults, version, d).value;
    var w2 := Decode(t, Obj(MergedValues(env, w1, version, userProfile).value)).value.fields;
    KeepsCovers(AsMap(w1), w2);
    KeepsCovers(AsMap(d), AsMap(w1));
    CoversTransitive(AsMap(w1), w2, r);
    CoversTransitive(AsMap(d), AsMap(w1), r);
    DigestsAddNothing(t, version, userValues, env.digests, r);
  }

  lemma OverridesAgain(revisionName: string, namespace: string, values: Fields)
    ensures var r := ApplyOverrides(revisionName, namespace, values);
            ApplyOverrides(revisionName, namespace, r) == r
  {
    var r := ApplyOverrides(revisionName, namespace, values);
    assert Sub(r, "global")["istioNamespace" := Str(namespace)] == Sub(r, "global");
    assert ApplyOverrides(revisionName, namespace, r) == r;
  }

  /** Every leaf the user set is in the result, except at the three overridden paths. */
  lemma UserLeavesWin(
      env: Environment, userValues: Option<Fields>, namespace: string, version: string,
      userProfile: string, revisionName: string, path: seq<string>)
    requires IsValuesType(env.valuesType) && Canonical(env.valuesType, Obj(AsMap(userValues)))
    requires ComputeValues(env, userValues, namespace, version, userProfile, revisionName).Ok?
    requires path != [] && !IsOverridden(path)
    requires At(AsMap(userValues), path).Some? && !At(AsMap(userValues), path).value.Obj?
    ensures At(ComputeValues(env, userValues, namespace, version, userProfile, revisionName).value, path)
            == At(AsMap(userValues), path)
  {
    var t := env.valuesType;
    ResultIsTyped(env, userValues, namespace, version, userProfile, revisionName);
    var d := ApplyDigests(version, userValues, env.digests);
    var w1 := ApplyIstioVendorDefaults(t, env.vendorDefaults, version, d).value;
    var w2 := Decode(t, Obj(MergedValues(env, w1, version, userProfile).value)).value.fields;
    KeptLeaf(AsMap(userValues), AsMap(d), path);
    KeptLeaf(AsMap(d), AsMap(w1), path);
    KeptLeaf(AsMap(w1), w2, path);
    OverridesTouchThreeLeaves(t, revisionName, namespace, w2, path);
  }

  /** Whatever the user asks for, the three overridden leaves have the values the operator requires. */
  lemma OverriddenLeaves(
      env: Environment, userValues: Option<Fields>, namespace: string, version: string,
      userProfile: string, revisionName: string)
    requires ComputeValues(env, userValues, namespace, version, userProfile, revisionName).Ok?
    ensures var r := ComputeValues(env, userValues, namespace, version, userProfile, revisionName).value;
            && At(r, ["revision"]) == Some(Str(if revisionName == "default" then "" else revisionName))
            && At(r, ["global", "istioNamespace"]) == Some(Str(namespace))
            && At(r, ["defaultRevision"]) == Some(Str(""))
  {
    assert ["global", "istioNamespace"][1..] == ["istioNamespace"];
  }

  // ----- Recomputation -----

  const CNI_ENABLED_PATH := ["pilot", "cni", "enabled"]

  /** The decision taken on the recomputed values. */
  predicate NeedsCNI(values: Fields) {
    var enabled := At(values, CNI_ENABLED_PATH);
    if At(values, PLATFORM_PATH) == Some(Str("openshift")) then enabled != Some(Bool(false))
    else enabled == Some(Bool(true))
  }

  /** Whether the revision needs Istio CNI; values that cannot be computed again need nothing. */
  predicate DependsOnIstioCNI(
      env: Environment, values: Option<Fields>, namespace: string, version: string, revisionName: string)
  {
    match ComputeValues(env, values, namespace, version, "", revisionName)
    case Ok(r) => NeedsCNI(r)
    case Err(_) => false
  }

  /** The decision in full, with OpenShift as the only platform on which an absent flag counts as set. */
  lemma NeedsCNIMeans(values: Fields)
    ensures var (platform, enabled) :=
              (At(values, ["global", "platform"]), At(values, ["pilot", "cni", "enabled"]));
            && (enabled == Some(Bool(true)) ==> NeedsCNI(values))
            && (enabled == Some(Bool(false)) ==> !NeedsCNI(values))
            && (enabled.None? ==> (NeedsCNI(values) <==> platform == Some(Str("openshift"))))
  {
  }

  /** Computing again with another profile changes no leaf of a revision's values, including the overridden ones. */
  lemma RecomputationIsConservative(
      env: Environment, userValues: Option<Fields>, namespace: string, version: string,
      userProfile: string, revisionName: string, path: seq<string>)
    requires IsValuesType(env.valuesType) && Canonical(env.valuesType, Obj(AsMap(userValues)))
    requires ComputeValues(env, userValues, namespace, version, userProfile, revisionName).Ok?
    requires var v := ComputeValues(env, userValues, namespace, version, userProfile, revisionName).value;
             ComputeValues(env, Some(v), namespace, version, "", revisionName).Ok?
    requires path != []
    ensures var v := ComputeValues(env, userValues, namespace, version, userProfile, revisionName).value;
            At(v, path).Some? && !At(v, path).value.Obj? ==>
              At(ComputeValues(env, Some(v), namespace, version, "", revisionName).value, path) == At(v, path)
  {
    var v := ComputeValues(env, userValues, namespace, version, userProfile, revisionName).value;
    ResultIsTyped(env, userValues, namespace, version, userProfile, revisionName);
    if IsOverridden(path) {
      OverriddenLeaves(env, userValues, namespace, version, userProfile, revisionName);
      OverriddenLeaves(env, Some(v), namespace, version, "", revisionName);
    } else if At(v, path).Some? && !At(v, path).value.Obj? {
      UserLeavesWin(env, Some(v), namespace, version, "", revisionName, path);
    }
  }

  /** An explicit pilot.cni.enabled in a revision decides, on every platform. */
  lemma ExplicitCNIDecides(
      env: Environment, userValues: Option<Fields>, namespace: string, version: string,
      userProfile: string, revisionName: string, enabled: bool)
    requires IsValuesType(env.valuesType) && Canonical(env.valuesType, Obj(AsMap(userValues)))
    requires ComputeValues(env, userValues, namespace, version, userProfile, revisionName).Ok?
    requires var v := ComputeValues(env, userValues, namespace, version, userProfile, revisionName).value;
             At(v, ["pilot", "cni", "enabled"]) == Some(Bool(enabled))
    ensures var v := ComputeValues(env, userValues, namespace, version, userProfile, revisionName).value;
            DependsOnIstioCNI(env, Some(v), namespace, version, revisionName) <==>
              enabled && ComputeValues(env, Some(v), namespace, version, "", revisionName).Ok?
  {
    var v := ComputeValues(env, userValues, namespace, version, userProfile, revisionName).value;
    if ComputeValues(env, Some(v), namespace, version, "", revisionName).Ok? {
      RecomputationIsConservative(env, userValues, namespace, version, userProfile, revisionName, CNI_ENABLED_PATH);
    }
  }

  /** For values with a platform of their own, computing again does not depend on the platform the operator runs on. */
  lemma OwnPlatformIsKept(
      env: Environment, values: Fields, namespace: string, version: string,
      userProfile: string, revisionName: string, other: string)
    requires IsValuesType(env.valuesType) && Canonical(env.valuesType, Obj(values))
    requires At(values, PLATFORM_PATH).Some?
    ensures ComputeValues(env.(platform := other), Some(values), namespace, version, userProfile, revisionName)
         == ComputeValues(env, Some(values), namespace, version, userProfile, revisionName)
  {
    var d := ApplyDigests(version, Some(values), env.digests);
    var withDefaults := ApplyIstioVendorDefaults(env.valuesType, env.vendorDefaults, version, d);
    if withDefaults.Ok? {
      PlatformSurvivesDefaults(env, values, version);
      MergedKeepsOwnPlatform(env, withDefaults.value, version, userProfile, other);
    }
  }

  lemma PlatformSurvivesDefaults(env: Environment, values: Fields, version: string)
    requires IsValuesType(env.valuesType) && Canonical(env.valuesType, Obj(values))
    requires At(values, PLATFORM_PATH).Some?
    requires var d := ApplyDigests(version, Some(values), env.digests);
             ApplyIstioVendorDefaults(env.valuesType, env.vendorDefaults, version, d).Ok?
    ensures var d := ApplyDigests(version, Some(values), env.digests);
            var u := AsMap(ApplyIstioVendorDefaults(env.valuesType, env.vendorDefaults, version, d).value);
            Canonical(env.valuesType, Obj(u)) && At(u, PLATFORM_PATH).Some?
  {
    var d := ApplyDigests(version, Some(values), env.digests);
    var u := AsMap(ApplyIstioVendorDefaults(env.valuesType, env.vendorDefaults, version, d).value);
    DigestsKeepUserValues(env.valuesType, version, Some(values), env.digests);
    VendorDefaultsStage(env.valuesType, env.vendorDefaults, version, d);
    KeepsCovers(values, AsMap(d));
    KeepsCovers(AsMap(d), u);
    CoversTransitive(values, AsMap(d), u);
    CoveredPath(values, u, PLATFORM_PATH);
  }

  lemma MergedKeepsOwnPlatform(
      env: Environment, values: Option<Fields>, version: string, userProfile: string, other: string)
    requires IsValuesType(env.valuesType) && Canonical(env.valuesType, Obj(AsMap(values)))
    requires At(AsMap(values), PLATFORM_PATH).Some?
    ensures MergedValues(env.(platform := other), values, version, userProfile)
         == MergedValues(env, values, version, userProfile)
  {
    if Base(env, version, userProfile).Ok? {
      var u, base := AsMap(values), Base(env, version, userProfile).value;
      SetPathsAreDeclared(env.valuesType);
      CoversItself(Obj(u));
      FieldAlreadySet(env.valuesType, base, u, u, PLATFORM_PATH, env.platform);
      FieldAlreadySet(env.valuesType, base, u, u, PLATFORM_PATH, other);
    }
  }

  /**
   An explicit global.platform in a revision decides: whatever platform the operator runs on, CNI is
   needed on OpenShift unless it is disabled, and elsewhere only if it is enabled.
   */
  lemma ExplicitPlatformDecides(
      env: Environment, values: Fields, namespace: string, version: string,
      revisionName: string, platform: string, other: string)
    requires IsValuesType(env.valuesType) && Canonical(env.valuesType, Obj(values))
    requires At(values, ["global", "platform"]) == Some(Str(platform))
    ensures DependsOnIstioCNI(env.(platform := other), Some(values), namespace, version, revisionName)
       <==> DependsOnIstioCNI(env, Some(values), namespace, version, revisionName)
    ensures var r := ComputeValues(env, Some(values), namespace, version, "", revisionName);
            DependsOnIstioCNI(env, Some(values), namespace, version, revisionName) <==>
              r.Ok? && if platform == "openshift" then At(r.value, ["pilot", "cni", "enabled"]) != Some(Bool(false))
                       else At(r.value, ["pilot", "cni", "enabled"]) == Some(Bool(true))
  {
    OwnPlatformIsKept(env, values, namespace, version, "", revisionName, other);
    if ComputeValues(env, Some(values), namespace, version, "", revisionName).Ok? {
      UserLeavesWin(env, Some(values), namespace, version, "", revisionName, PLATFORM_PATH);
    }
  }

  /** Without a profile of the user's own, recomputing always succeeds and the answer can be read off the revision. */
  lemma DefaultProfileDecides(
      env: Environment, userValues: Option<Fields>, namespace: string, version: string,
      userProfile: string, revisionName: string)
    requires IsValuesType(env.valuesType) && Canonical(env.valuesType, Obj(AsMap(userValues)))
    requires userProfile in {"", "default", env.defaultProfile}
    requires ComputeValues(env, userValues, namespace, version, userProfile, revisionName).Ok?
    ensures var v := ComputeValues(env, userValues, namespace, version, userProfile, revisionName).value;
            var enabled := At(v, ["pilot", "cni", "enabled"]);
            DependsOnIstioCNI(env, Some(v), namespace, version, revisionName) <==>
              if At(v, ["global", "platform"]) == Some(Str("openshift")) then enabled != Some(Bool(false))
              else enabled == Some(Bool(true))
  {
    ComputeValuesIdempotent(env, userValues, namespace, version, userProfile, revisionName);
    var v := ComputeValues(env, userValues, namespace, version, userProfile, revisionName).value;
    assert ComputeValues(env, Some(v), namespace, version, "", revisionName)
        == ComputeValues(env, Some(v), namespace, version, userProfile, revisionName);
  }
}
