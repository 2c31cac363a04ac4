/**
 The stages of the values pipeline: image digests, vendor defaults, profiles and platform, FIPS,
 and the overrides that users cannot change. A typed `*v1.Values` is an optional tree in the
 canonical form of Schema.dfy, None being nil.
 */
module IstioValues {
  import opened Wrappers
  import opened JsonTree
  import opened Schema
  import opened NestedFields

  datatype ImageDigests = ImageDigests(istiod: string, proxy: string)

  datatype ValuesError =
    | VendorDefaultsNotAMap(version: string)
    | ConversionFailed
    | EmptyProfileName
    | ProfileNotReadable(profile: string)
    | FieldError(error: PathError)

  const PLATFORM_PATH := ["global", "platform"]
  const COMPLIANCE_POLICY_PATH := ["pilot", "env", "COMPLIANCE_POLICY"]
  const REVISION_PATH := ["revision"]
  const ISTIO_NAMESPACE_PATH := ["global", "istioNamespace"]

  function AsMap(v: Option<Fields>): Fields {
    if v.Some? then v.value else map[]
  }

  /** The field `k` is not nil. */
  predicate IsSet(m: Fields, k: string) {
    k in m && m[k] != Null
  }

  /** The struct in the field `k`, or a fresh one if it is nil. */
  function Sub(m: Fields, k: string): Fields {
    if k in m && m[k].Obj? then m[k].fields else map[]
  }

  // ----- The declared shape of v1.Values -----

  ghost predicate AllOptional(t: Type) {
    t.Struct? && forall f | f in t.fields :: t.fields[f].omitEmpty
  }

  ghost predicate HasOptionalStruct(t: Type, k: string) {
    t.Struct? && k in t.fields && t.fields[k].omitEmpty && AllOptional(t.fields[k].typ)
  }

  ghost predicate HasOptionalString(t: Type, k: string) {
    t.Struct? && k in t.fields && t.fields[k].omitEmpty && t.fields[k].typ == Scalar(StringKind, true)
  }

  /** What the pipeline relies on: the fields it touches are optional strings inside optional structs. */
  ghost predicate IsValuesType(t: Type) {
    && AllOptional(t)
    && HasOptionalString(t, "revision")
    && HasOptionalString(t, "defaultRevision")
    && HasOptionalStruct(t, "global")
    && HasOptionalStruct(t, "pilot")
    && (var global := t.fields["global"].typ;
        && (forall k | k in {"platform", "istioNamespace", "hub", "tag"} :: HasOptionalString(global, k))
        && (forall k | k in {"proxy", "proxy_init"} ::
              HasOptionalStruct(global, k) && HasOptionalString(global.fields[k].typ, "image")))
    && (var pilot := t.fields["pilot"].typ;
        && (forall k | k in {"image", "hub", "tag"} :: HasOptionalString(pilot, k))
        && "env" in pilot.fields
        && pilot.fields["env"] == Field(Dict(Scalar(StringKind, false)), true))
  }

  /** A type with just those fields. */
  lemma ValuesTypeExists() returns (t: Type)
    ensures IsValuesType(t)
  {
    var text := Field(Scalar(StringKind, true), true);
    var proxy := Field(Struct(map["image" := text]), true);
    var global := Struct(map["platform" := text, "istioNamespace" := text, "hub" := text, "tag" := text,
                             "proxy" := proxy, "proxy_init" := proxy]);
    var env := Field(Dict(Scalar(StringKind, false)), true);
    var pilot := Struct(map["image" := text, "hub" := text, "tag" := text, "env" := env]);
    t := Struct(map["revision" := text, "defaultRevision" := text,
                    "global" := Field(global, true), "pilot" := Field(pilot, true)]);
  }

  lemma SetPathsAreDeclared(t: Type)
    requires IsValuesType(t)
    ensures DeclaresString(t, PLATFORM_PATH)
    ensures DeclaresString(t, COMPLIANCE_POLICY_PATH)
  {
    var global, pilot := t.fields["global"].typ, t.fields["pilot"].typ;
    assert PLATFORM_PATH[1..] == ["platform"];
    assert DeclaresString(global, ["platform"]) by {
      assert HasOptionalString(global, "platform");
    }
    assert COMPLIANCE_POLICY_PATH[1..][1..] == ["COMPLIANCE_POLICY"];
    assert DeclaresString(pilot.fields["env"].typ, COMPLIANCE_POLICY_PATH[1..][1..]);
    assert DeclaresString(pilot, COMPLIANCE_POLICY_PATH[1..]);
  }

  // ----- Stages -----

  /** Image digests from the operator configuration, unless the user chose images. */
  function ApplyDigests(version: string, values: Option<Fields>, digests: map<string, ImageDigests>): Option<Fields> {
    if version !in digests then values
    else if IsSet(Sub(AsMap(values), "global"), "hub") || IsSet(Sub(AsMap(values), "global"), "tag") then values
    else
      var v := AsMap(values);
      var pilot := Sub(v, "pilot");
      var imageChosen := IsSet(pilot, "image") || IsSet(pilot, "hub") || IsSet(pilot, "tag");
      var pilot' := if imageChosen then pilot else pilot["image" := Str(digests[version].istiod)];
      var global := Sub(v, "global");
      var proxy := WithImage(Sub(global, "proxy"), digests[version].proxy);
      var proxyInit := WithImage(Sub(global, "proxy_init"), digests[version].proxy);
      Some(v["pilot" := Obj(pilot')]["global" := Obj(global["proxy" := Obj(proxy)]["proxy_init" := Obj(proxyInit)])])
  }

  function WithImage(m: Fields, image: string): Fields {
    if IsSet(m, "image") then m else m["image" := Str(image)]
  }

  /** Back to the typed values; a nil map becomes nil. */
  function ToValues(t: Type, m: Option<Fields>): Result<Option<Fields>, ValuesError> {
    if m.None? then Ok(None)
    else
      match Decode(t, Obj(m.value))
      case Some(Obj(w)) => Ok(Some(w))
      case _ => Err(ConversionFailed)
  }

  type VendorDefaults = map<string, map<string, Val>>

  /** The user's values merged over a copy of the vendor defaults for the version, if there are any. */
  function ApplyVendorDefaults(defaults: VendorDefaults, version: string, resource: string, values: Option<Fields>)
    : Result<Option<Fields>, ValuesError>
  {
    if version !in defaults || resource !in defaults[version] then Ok(values)
    else if !defaults[version][resource].Obj? then Err(VendorDefaultsNotAMap(version))
    else Ok(Some(Overlay(defaults[version][resource].fields, AsMap(values))))
  }

  function ApplyIstioVendorDefaults(t: Type, defaults: VendorDefaults, version: string, values: Option<Fields>)
    : Result<Option<Fields>, ValuesError>
  {
    match ApplyVendorDefaults(defaults, version, "istio", values)
    case Ok(m) => ToValues(t, m)
    case Err(e) => Err(e)
  }

  /** The readable profiles of one version; a profile file may have no values. */
  type ProfileStore = map<string, Option<Fields>>

  /** The profiles to apply, in order: always "default", then the user's choice or the configured one. */
  function Resolve(defaultProfile: string, userProfile: string): seq<string> {
    if userProfile != "" && userProfile != "default" then ["default", userProfile]
    else if defaultProfile != "" && defaultProfile != "default" then ["default", defaultProfile]
    else ["default"]
  }

  /** The remaining profiles merged over the values so far, skipping those already applied. */
  function ApplyProfiles(store: ProfileStore, values: Fields, applied: set<string>, profiles: seq<string>)
    : Result<Fields, ValuesError>
    decreases |profiles|
  {
    if profiles == [] then Ok(values)
    else if profiles[0] == "" then Err(EmptyProfileName)
    else if profiles[0] in applied then ApplyProfiles(store, values, applied, profiles[1..])
    else if profiles[0] !in store then Err(ProfileNotReadable(profiles[0]))
    else ApplyProfiles(store, Overlay(values, AsMap(store[profiles[0]])), applied + {profiles[0]}, profiles[1..])
  }

  /** The profiles that are read: each name once, where it first occurs. */
  function ToApply(applied: set<string>, names: seq<string>): seq<string>
    decreases |names|
  {
    if names == [] then []
    else if names[0] in applied then ToApply(applied, names[1..])
    else [names[0]] + ToApply(applied + {names[0]}, names[1..])
  }

  function LayersOf(store: ProfileStore, names: seq<string>): seq<Fields> {
    seq(|names|, i requires 0 <= i < |names| => if names[i] in store then AsMap(store[names[i]]) else map[])
  }

  /** Profiles apply if every name is given and readable; the result is a fold of their values. */
  lemma {:induction false} ApplyProfilesIsFold(
      store: ProfileStore, values: Fields, applied: set<string>, names: seq<string>)
    ensures ApplyProfiles(store, values, applied, names).Ok? <==>
            forall n | n in names :: n != "" && (n in applied || n in store)
    ensures ApplyProfiles(store, values, applied, names).Ok? ==>
            ApplyProfiles(store, values, applied, names).value ==
            FoldLayers(values, LayersOf(store, ToApply(applied, names)))
    decreases |names|
  {
    if names != [] {
      assert forall n :: n in names <==> n == names[0] || n in names[1..];
      if names[0] in applied {
        ApplyProfilesIsFold(store, values, applied, names[1..]);
      } else if names[0] in store {
        var layer := AsMap(store[names[0]]);
        ApplyProfilesIsFold(store, Overlay(values, layer), applied + {names[0]}, names[1..]);
        var rest := LayersOf(store, ToApply(applied + {names[0]}, names[1..]));
        assert LayersOf(store, ToApply(applied, names)) == [layer] + rest;
        assert ([layer] + rest)[1..] == rest;
      }
    }
  }

  function SetField(m: Fields, path: seq<string>, s: string): Result<Fields, ValuesError>
    requires path != []
  {
    match SetIfAbsent(m, path, Str(s))
    case Ok(r) => Ok(r)
    case Err(e) => Err(FieldError(e))
  }

  function ApplyProfilesAndPlatform(
      store: ProfileStore, platform: string, defaultProfile: string, userProfile: string, values: Option<Fields>)
    : Result<Fields, ValuesError>
  {
    match ApplyProfiles(store, map[], {}, Resolve(defaultProfile, userProfile))
    case Err(e) => Err(e)
    case Ok(base) =>
      var m := Overlay(base, AsMap(values));
      if platform != "" && platform != "kubernetes" then SetField(m, PLATFORM_PATH, platform) else Ok(m)
  }

  function ApplyFips(fips: bool, values: Fields): Result<Fields, ValuesError> {
    if fips then SetField(values, COMPLIANCE_POLICY_PATH, "fips-140-2") else Ok(values)
  }

  const DEFAULT_REVISION := "default"

  /** The values users cannot choose. The revision named "default" is the empty revision. */
  function ApplyOverrides(revisionName: string, namespace: string, values: Fields): Fields {
    var revision := if revisionName == DEFAULT_REVISION then "" else revisionName;
    values["revision" := Str(revision)]
          ["global" := Obj(Sub(values, "global")["istioNamespace" := Str(namespace)])]
          ["defaultRevision" := Str("")]
  }

  // ----- Typed values stay typed -----

  lemma FieldOfTyped(t: Type, m: Fields, k: string)
    requires t.Struct? && Canonical(t, Obj(m)) && k in m
    ensures k in t.fields && Canonical(t.fields[k].typ, m[k])
    ensures t.fields[k].omitEmpty ==> !IsEmpty(t.fields[k].typ, m[k])
  {
    var f := t.fields;
    assert k in f && DecodeField(f[k].typ, f[k].omitEmpty, m, k) == Present(m[k]);
  }

  lemma SetTypedField(t: Type, m: Fields, k: string, x: Val)
    requires t.Struct? && Canonical(t, Obj(m)) && k in t.fields
    requires Canonical(t.fields[k].typ, x) && !IsEmpty(t.fields[k].typ, x)
    ensures Canonical(t, Obj(m[k := x]))
  {
    var m' := m[k := x];
    forall f | f in t.fields
      ensures DecodeField(t.fields[f].typ, t.fields[f].omitEmpty, m', f) ==
              if f == k then Present(x) else DecodeField(t.fields[f].typ, t.fields[f].omitEmpty, m, f)
    {
    }
    assert Decode(t, Obj(m')).value.fields == m';
  }

  lemma EmptyStructIsTyped(t: Type)
    requires AllOptional(t)
    ensures Canonical(t, Obj(map[]))
  {
    forall f | f in t.fields
      ensures DecodeField(t.fields[f].typ, t.fields[f].omitEmpty, map[], f) == Omitted
    {
      assert t.fields[f].typ.Raw? || Decode(t.fields[f].typ, Null).Some?;
    }
    assert Decode(t, Obj(map[])).value.fields == map[];
  }

  lemma SubIsTyped(t: Type, m: Fields, k: string)
    requires t.Struct? && Canonical(t, Obj(m)) && HasOptionalStruct(t, k)
    ensures Canonical(t.fields[k].typ, Obj(Sub(m, k)))
    ensures k in m ==> m[k].Obj?
  {
    EmptyStructIsTyped(t.fields[k].typ);
    if k in m {
      FieldOfTyped(t, m, k);
    }
  }

  lemma SetTypedString(t: Type, m: Fields, k: string, s: string)
    requires Canonical(t, Obj(m)) && HasOptionalString(t, k)
    ensures Canonical(t, Obj(m[k := Str(s)]))
  {
    SetTypedField(t, m, k, Str(s));
  }

  lemma TypedStringField(t: Type, m: Fields, k: string)
    requires Canonical(t, Obj(m)) && HasOptionalString(t, k)
    ensures IsSet(m, k) <==> k in m
    ensures k in m ==> m[k].Str?
  {
    if k in m {
      FieldOfTyped(t, m, k);
    }
  }

  lemma ImageIsTyped(t: Type, m: Fields, k: string, image: string)
    requires Canonical(t, Obj(m)) && HasOptionalStruct(t, k) && HasOptionalString(t.fields[k].typ, "image")
    ensures Canonical(t, Obj(m[k := Obj(WithImage(Sub(m, k), image))]))
    ensures k in m ==> m[k].Obj?
    ensures Keeps(m, m[k := Obj(WithImage(Sub(m, k), image))])
  {
    SubIsTyped(t, m, k);
    SetTypedString(t.fields[k].typ, Sub(m, k), "image", image);
    SetTypedField(t, m, k, Obj(WithImage(Sub(m, k), image)));
    TypedStringField(t.fields[k].typ, Sub(m, k), "image");
    KeepsItself(Sub(m, k));
    AddedLeafKeeps(Sub(m, k), "image", Str(image));
    SubKept(m, k, WithImage(Sub(m, k), image));
  }

  /** Digests yield a typed value, and never replace anything the user set. */
  lemma DigestsKeepUserValues(t: Type, version: string, values: Option<Fields>, digests: map<string, ImageDigests>)
    requires IsValuesType(t) && Canonical(t, Obj(AsMap(values)))
    ensures Canonical(t, Obj(AsMap(ApplyDigests(version, values, digests))))
    ensures Keeps(AsMap(values), AsMap(ApplyDigests(version, values, digests)))
  {
    var v, r := AsMap(values), AsMap(ApplyDigests(version, values, digests));
    KeepsItself(v);
    if ApplyDigests(version, values, digests) != values {
      SubIsTyped(t, v, "pilot");
      SubIsTyped(t, v, "global");
      PilotDigest(t.fields["pilot"].typ, Sub(v, "pilot"), digests[version].istiod);
      GlobalDigests(t.fields["global"].typ, Sub(v, "global"), digests[version].proxy);
      ReplacedStruct(t, v, "pilot", r["pilot"].fields);
      ReplacedStruct(t, v["pilot" := r["pilot"]], "global", r["global"].fields);
      KeepsTransitive(v, v["pilot" := r["pilot"]], r);
    }
  }

  lemma ReplacedStruct(t: Type, m: Fields, k: string, sub: Fields)
    requires HasOptionalStruct(t, k) && Canonical(t, Obj(m)) && Canonical(t.fields[k].typ, Obj(sub))
    requires Keeps(Sub(m, k), sub)
    ensures Canonical(t, Obj(m[k := Obj(sub)])) && Keeps(m, m[k := Obj(sub)])
  {
    SubIsTyped(t, m, k);
    SetTypedField(t, m, k, Obj(sub));
    SubKept(m, k, sub);
  }

  lemma PilotDigest(t: Type, pilot: Fields, image: string)
    requires HasOptionalString(t, "image") && Canonical(t, Obj(pilot))
    ensures Canonical(t, Obj(pilot["image" := Str(image)]))
    ensures Keeps(pilot, pilot)
    ensures !IsSet(pilot, "image") ==> Keeps(pilot, pilot["image" := Str(image)])
  {
    KeepsItself(pilot);
    TypedStringField(t, pilot, "image");
    SetTypedString(t, pilot, "image", image);
    AddedLeafKeeps(pilot, "image", Str(image));
  }

  lemma GlobalDigests(t: Type, global: Fields, image: string)
    requires forall k | k in {"proxy", "proxy_init"} ::
               HasOptionalStruct(t, k) && HasOptionalString(t.fields[k].typ, "image")
    requires Canonical(t, Obj(global))
    ensures var r := global["proxy" := Obj(WithImage(Sub(global, "proxy"), image))]
                           ["proxy_init" := Obj(WithImage(Sub(global, "proxy_init"), image))];
            Canonical(t, Obj(r)) && Keeps(global, r)
  {
    var global1 := global["proxy" := Obj(WithImage(Sub(global, "proxy"), image))];
    ImageIsTyped(t, global, "proxy", image);
    assert Sub(global1, "proxy_init") == Sub(global, "proxy_init");
    ImageIsTyped(t, global1, "proxy_init", image);
    KeepsTransitive(global, global1, global1["proxy_init" := Obj(WithImage(Sub(global, "proxy_init"), image))]);
  }

  lemma OverridesAreTyped(t: Type, revisionName: string, namespace: string, values: Fields)
    requires IsValuesType(t) && Canonical(t, Obj(values))
    ensures Canonical(t, Obj(ApplyOverrides(revisionName, namespace, values)))
  {
    var r := ApplyOverrides(revisionName, namespace, values);
    SubIsTyped(t, values, "global");
    SetTypedString(t.fields["global"].typ, Sub(values, "global"), "istioNamespace", namespace);
    SetTypedString(t, values, "revision", r["revision"].s);
    var values1 := values["revision" := r["revision"]];
    SetTypedField(t, values1, "global", r["global"]);
    SetTypedString(t, values1["global" := r["global"]], "defaultRevision", "");
  }

  // ----- What the stages keep -----

  lemma SubKept(u: Fields, k: string, sub: Fields)
    requires k in u ==> u[k].Obj?
    requires Keeps(Sub(u, k), sub)
    ensures Keeps(u, u[k := Obj(sub)])
  {
    forall f | f in u && u[f].Obj?
      ensures Keeps(u[f].fields, u[k := Obj(sub)][f].fields)
    {
      if f != k {
        KeepsItself(u[f].fields);
      }
    }
  }

  lemma AddedLeafKeeps(m: Fields, k: string, x: Val)
    ensures k !in m ==> Keeps(m, m[k := x])
  {
    forall f | f in m && m[f].Obj?
      ensures Keeps(m[f].fields, m[f].fields)
    {
      KeepsItself(m[f].fields);
    }
  }

  ghost predicate IsOverridden(path: seq<string>) {
    path == ["revision"] || path == ["defaultRevision"] || path == ["global", "istioNamespace"]
  }

  /** Overrides change the leaves at three paths and nothing else. */
  lemma OverridesTouchThreeLeaves(t: Type, revisionName: string, namespace: string, values: Fields, path: seq<string>)
    requires IsValuesType(t) && Canonical(t, Obj(values)) && path != [] && !IsOverridden(path)
    requires At(values, path).Some? && !At(values, path).value.Obj?
    ensures At(ApplyOverrides(revisionName, namespace, values), path) == At(values, path)
  {
    var k := path[0];
    FieldOfTyped(t, values, k);
    assert |path| == 1 ==> path == [k];
    if k == "revision" || k == "defaultRevision" {
      TypedStringField(t, values, k);
    } else if k == "global" {
      var g := values[k].fields;
      TypedStringField(t.fields[k].typ, g, "istioNamespace");
      assert |path| == 2 ==> path == [k, path[1]];
    }
  }

  lemma OverridesCover(t: Type, revisionName: string, namespace: string, values: Fields)
    requires IsValuesType(t) && Canonical(t, Obj(values))
    ensures Covers(values, ApplyOverrides(revisionName, namespace, values))
  {
    var r := ApplyOverrides(revisionName, namespace, values);
    SubIsTyped(t, values, "global");
    TypedStringField(t, values, "revision");
    TypedStringField(t, values, "defaultRevision");
    TypedStringField(t.fields["global"].typ, Sub(values, "global"), "istioNamespace");
    ReplacedLeafCovers(Sub(values, "global"), "istioNamespace", Str(namespace));
    forall k | k in values
      ensures values[k].Obj? <==> r[k].Obj?
      ensures values[k].Obj? && r[k].Obj? ==> Covers(values[k].fields, r[k].fields)
    {
      CoversItself(values[k]);
    }
  }

  lemma ReplacedLeafCovers(m: Fields, k: string, x: Val)
    requires (k in m ==> !m[k].Obj?) && !x.Obj?
    ensures Covers(m, m[k := x])
  {
    forall f | f in m && m[f].Obj?
      ensures Covers(m[f].fields, m[f].fields)
    {
      CoversItself(m[f]);
    }
  }

  /** The structs that digests fill in. */
  ghost predicate ImagesChosen(m: Fields) {
    && "pilot" in m && m["pilot"].Obj?
    && (exists k | k in {"image", "hub", "tag"} :: k in m["pilot"].fields)
    && "global" in m && m["global"].Obj?
    && (forall k | k in {"proxy", "proxy_init"} ::
          k in m["global"].fields && m["global"].fields[k].Obj? && "image" in m["global"].fields[k].fields)
  }

  /** Digests are a no-op without a configuration, under a global hub or tag, or where all images are chosen. */
  lemma DigestsDoNothing(t: Type, version: string, y: Fields, digests: map<string, ImageDigests>)
    requires IsValuesType(t) && Canonical(t, Obj(y))
    requires version in digests && !(exists k | k in {"hub", "tag"} :: k in Sub(y, "global")) ==> ImagesChosen(y)
    ensures ApplyDigests(version, Some(y), digests) == Some(y)
  {
    SubIsTyped(t, y, "global");
    var g := Sub(y, "global");
    var tg := t.fields["global"].typ;
    TypedStringField(tg, g, "hub");
    TypedStringField(tg, g, "tag");
    if version in digests && "hub" !in g && "tag" !in g {
      var p := y["pilot"].fields;
      SubIsTyped(t, y, "pilot");
      forall k | k in {"image", "hub", "tag"}
        ensures IsSet(p, k) <==> k in p
      {
        TypedStringField(t.fields["pilot"].typ, p, k);
      }
      forall k | k in {"proxy", "proxy_init"}
        ensures WithImage(Sub(g, k), digests[version].proxy) == Sub(g, k) && g[k] == Obj(Sub(g, k))
      {
        SubIsTyped(tg, g, k);
        TypedStringField(tg.fields[k].typ, Sub(g, k), "image");
      }
      assert g["proxy" := g["proxy"]]["proxy_init" := g["proxy_init"]] == g;
      assert y["pilot" := y["pilot"]]["global" := y["global"]] == y;
    }
  }

  lemma DigestsChooseImages(t: Type, version: string, values: Option<Fields>, digests: map<string, ImageDigests>)
    requires IsValuesType(t) && Canonical(t, Obj(AsMap(values))) && version in digests
    ensures var d := AsMap(ApplyDigests(version, values, digests));
            (exists k | k in {"hub", "tag"} :: k in Sub(d, "global")) || ImagesChosen(d)
  {
    var v, d := AsMap(values), AsMap(ApplyDigests(version, values, digests));
    SubIsTyped(t, v, "global");
    if !IsSet(Sub(v, "global"), "hub") && !IsSet(Sub(v, "global"), "tag") {
      var p := d["pilot"].fields;
      assert "image" in p || "hub" in p || "tag" in p;
      var g := d["global"].fields;
      assert g["proxy"].Obj? && "image" in g["proxy"].fields;
      assert g["proxy_init"].Obj? && "image" in g["proxy_init"].fields;
    }
  }

  lemma CoveredChoice(d: Fields, y: Fields)
    requires Covers(d, y)
    ensures ImagesChosen(d) ==> ImagesChosen(y)
    ensures forall k | k in Sub(d, "global") :: k in Sub(y, "global")
  {
    if ImagesChosen(d) {
      forall k | k in {"proxy", "proxy_init"}
        ensures k in y["global"].fields && y["global"].fields[k].Obj? && "image" in y["global"].fields[k].fields
      {
        var g, h := d["global"].fields, y["global"].fields;
        assert k in g && Covers(g, h) && Covers(g[k].fields, h[k].fields);
      }
    }
  }

  /** Digests have nothing left to add to a typed value that has every key they once left behind. */
  lemma DigestsAddNothing(
      t: Type, version: string, values: Option<Fields>, digests: map<string, ImageDigests>, y: Fields)
    requires IsValuesType(t) && Canonical(t, Obj(AsMap(values))) && Canonical(t, Obj(y))
    requires Covers(AsMap(ApplyDigests(version, values, digests)), y)
    ensures ApplyDigests(version, Some(y), digests) == Some(y)
  {
    if version in digests {
      DigestsChooseImages(t, version, values, digests);
      CoveredChoice(AsMap(ApplyDigests(version, values, digests)), y);
    }
    DigestsDoNothing(t, version, y, digests);
  }
}
