/**
 Where the leaves of a revision's values come from.

 The sources, highest first: the three values that users cannot choose, the user's values, the image
 digests, the vendor defaults, the chosen profile, the default profile, and last the fields for the
 platform and for FIPS. A leaf is that of the highest source that says something about its path, as
 the type of the values lets it through.
 */
module ValueSources {
  import opened Wrappers
  import opened JsonTree
  import opened Schema
  import opened NestedFields
  import opened IstioValues
  import opened RevisionValues

  // ----- Leaves and decoding -----

  /** What decoding into the type makes of a leaf at a path; None if it drops it. */
  function TypedLeaf(t: Type, path: seq<string>, v: Val): Option<Val>
    requires path != []
    decreases |path|
  {
    match t
    case Struct(fs) =>
      if path[0] !in fs then None
      else if |path| > 1 then TypedLeaf(fs[path[0]].typ, path[1..], v)
      else
        var f := fs[path[0]];
        (match Decode(f.typ, v)
         case None => None
         case Some(e) => if f.omitEmpty && IsEmpty(f.typ, e) then None else Some(e))
    case Dict(elem) => if |path| > 1 then TypedLeaf(elem, path[1..], v) else Decode(elem, v)
    case Raw => Some(v)
    case _ => None
  }

  /** Decoding yields no value at the path where there is none. */
  ghost predicate OptionalAlong(t: Type, path: seq<string>)
    requires path != []
    decreases |path|
  {
    match t
    case Struct(fs) =>
      path[0] in fs ==> fs[path[0]].omitEmpty && (|path| > 1 ==> OptionalAlong(fs[path[0]].typ, path[1..]))
    case Dict(elem) => |path| > 1 ==> OptionalAlong(elem, path[1..])
    case _ => true
  }

  lemma {:induction false} DecodedLeaf(t: Type, m: Fields, path: seq<string>)
    requires path != [] && Decode(t, Obj(m)).Some? && IsLeaf(m, path)
    ensures At(Decode(t, Obj(m)).value.fields, path) == TypedLeaf(t, path, At(m, path).value)
    decreases |path|
  {
    var k, w := path[0], Decode(t, Obj(m)).value.fields;
    match t
    case Struct(fs) =>
      if k in fs {
        assert !DecodeField(fs[k].typ, fs[k].omitEmpty, m, k).Bad?;
        if |path| > 1 {
          DecodedLeaf(fs[k].typ, m[k].fields, path[1..]);
          NonEmptyStays(fs[k].typ, m[k].fields, path[1..]);
        }
      }
    case Dict(elem) =>
      assert Decode(elem, m[k]).Some?;
      if |path| > 1 {
        DecodedLeaf(elem, m[k].fields, path[1..]);
      }
    case Raw =>
    case _ =>
  }

  lemma NonEmptyStays(t: Type, m: Fields, path: seq<string>)
    requires path != [] && Decode(t, Obj(m)).Some? && At(m, path).Some?
    ensures !IsEmpty(t, Decode(t, Obj(m)).value)
  {
    if t.Dict? {
      assert path[0] in Decode(t, Obj(m)).value.fields;
    }
  }

  lemma {:induction false} DecodedSilence(t: Type, m: Fields, path: seq<string>)
    requires path != [] && Decode(t, Obj(m)).Some? && Silent(m, path) && OptionalAlong(t, path)
    ensures Silent(Decode(t, Obj(m)).value.fields, path)
    decreases |path|
  {
    var k, w := path[0], Decode(t, Obj(m)).value.fields;
    match t
    case Struct(fs) =>
      if k in fs && k in m {
        assert !DecodeField(fs[k].typ, fs[k].omitEmpty, m, k).Bad?;
        DecodedSilence(fs[k].typ, m[k].fields, path[1..]);
      } else if k in fs {
        assert DecodeField(fs[k].typ, fs[k].omitEmpty, m, k).Omitted?;
      }
    case Dict(elem) =>
      if k in m {
        assert Decode(elem, m[k]).Some?;
        DecodedSilence(elem, m[k].fields, path[1..]);
      }
    case Raw =>
    case _ =>
  }

  // ----- Paths -----

  /** Neither path begins with the other. */
  predicate Apart(p: seq<string>, q: seq<string>) {
    p != [] && q != [] && (p[0] != q[0] || Apart(p[1..], q[1..]))
  }

  lemma ApartFromKey(k: string, q: seq<string>)
    requires Apart([k], q)
    ensures q != [] && q[0] != k
  {
    assert [k][1..] == [];
  }

  lemma {:induction false} SetElsewhere(m: Fields, path: seq<string>, v: Val, q: seq<string>)
    requires path != [] && Set(m, path, v).Ok? && Apart(path, q)
    ensures At(Set(m, path, v).value, q) == At(m, q)
    ensures Silent(m, q) ==> Silent(Set(m, path, v).value, q)
    decreases |path|
  {
    if path[0] == q[0] {
      SetElsewhere(if path[0] in m then m[path[0]].fields else map[], path[1..], v, q[1..]);
    }
  }

  // ----- The digests -----

  /** Digests are configured for the version, and the user has chosen neither a hub nor a tag for all images. */
  ghost predicate DigestsApply(version: string, user: Fields, digests: map<string, ImageDigests>) {
    && version in digests
    && At(user, ["global", "hub"]).None? && At(user, ["global", "tag"]).None?
  }

  /** The path is not at an image that digests set; a hub or tag for istiod keeps them from setting its image. */
  ghost predicate ApartFromImages(user: Fields, q: seq<string>) {
    && (At(user, ["pilot", "hub"]).Some? || At(user, ["pilot", "tag"]).Some? || Apart(["pilot", "image"], q))
    && Apart(["global", "proxy", "image"], q) && Apart(["global", "proxy_init", "image"], q)
  }

  lemma GlobalHubOrTag(t: Type, user: Fields)
    requires IsValuesType(t) && Canonical(t, Obj(user))
    ensures forall k | k in {"hub", "tag"} :: IsSet(Sub(user, "global"), k) <==> At(user, ["global", k]).Some?
  {
    SubIsTyped(t, user, "global");
    forall k | k in {"hub", "tag"}
      ensures IsSet(Sub(user, "global"), k) <==> At(user, ["global", k]).Some?
    {
      assert ["global", k][1..] == [k];
      TypedStringField(t.fields["global"].typ, Sub(user, "global"), k);
    }
  }

  lemma PilotChosen(t: Type, user: Fields)
    requires IsValuesType(t) && Canonical(t, Obj(user))
    ensures forall k | k in {"image", "hub", "tag"} :: IsSet(Sub(user, "pilot"), k) <==> At(user, ["pilot", k]).Some?
  {
    SubIsTyped(t, user, "pilot");
    forall k | k in {"image", "hub", "tag"}
      ensures IsSet(Sub(user, "pilot"), k) <==> At(user, ["pilot", k]).Some?
    {
      assert ["pilot", k][1..] == [k];
      TypedStringField(t.fields["pilot"].typ, Sub(user, "pilot"), k);
    }
  }

  /** A struct replaced by another that says nothing about the rest of the path. */
  lemma SilentBelow(m: Fields, k: string, sub: Fields, q: seq<string>)
    requires q != [] && Silent(m, q)
    requires q[0] == k ==> |q| > 1 && Silent(sub, q[1..])
    ensures Silent(m[k := Obj(sub)], q)
  {
  }

  lemma SubIsSilent(m: Fields, k: string, q: seq<string>)
    requires |q| > 1 && q[0] == k && Silent(m, q)
    ensures Silent(Sub(m, k), q[1..])
  {
  }

  lemma WithImageSilent(m: Fields, image: string, q: seq<string>)
    requires q != [] && Silent(m, q) && Apart(["image"], q)
    ensures Silent(WithImage(m, image), q) && Silent(m["image" := Str(image)], q)
  {
    assert q[0] != "image";
  }

  lemma GlobalImagesSilent(global: Fields, image: string, q: seq<string>)
    requires q != [] && Silent(global, q) && Apart(["proxy", "image"], q) && Apart(["proxy_init", "image"], q)
    ensures Silent(global["proxy" := Obj(WithImage(Sub(global, "proxy"), image))]
                         ["proxy_init" := Obj(WithImage(Sub(global, "proxy_init"), image))], q)
  {
    forall k | k in {"proxy", "proxy_init"} && q[0] == k
      ensures |q| > 1 && Silent(WithImage(Sub(global, k), image), q[1..])
    {
      assert [k, "image"][1..] == ["image"];
      assert Apart(["image"], q[1..]);
      SubIsSilent(global, k, q);
      WithImageSilent(Sub(global, k), image, q[1..]);
    }
    var proxy, init := WithImage(Sub(global, "proxy"), image), WithImage(Sub(global, "proxy_init"), image);
    SilentBelow(global, "proxy", proxy, q);
    SilentBelow(global["proxy" := Obj(proxy)], "proxy_init", init, q);
  }

  /** Where they do not set an image, digests say nothing that the user does not say. */
  lemma DigestsSilent(
      t: Type, version: string, values: Option<Fields>, digests: map<string, ImageDigests>, q: seq<string>)
    requires IsValuesType(t) && Canonical(t, Obj(AsMap(values))) && q != [] && Silent(AsMap(values), q)
    requires !DigestsApply(version, AsMap(values), digests) || ApartFromImages(AsMap(values), q)
    ensures Silent(AsMap(ApplyDigests(version, values, digests)), q)
  {
    var v, d := AsMap(values), AsMap(ApplyDigests(version, values, digests));
    GlobalHubOrTag(t, v);
    if DigestsApply(version, v, digests) {
      var pilot, global := d["pilot"].fields, d["global"].fields;
      assert d == v["pilot" := Obj(pilot)]["global" := Obj(global)];
      if q[0] == "pilot" {
        assert |q| == 1 ==> !Apart(["pilot", "image"][1..], q[1..]) && "pilot" !in v;
        SubIsSilent(v, "pilot", q);
        PilotChosen(t, v);
        if At(v, ["pilot", "hub"]).None? && At(v, ["pilot", "tag"]).None? {
          assert ["pilot", "image"][1..] == ["image"] && Apart(["image"], q[1..]);
          WithImageSilent(Sub(v, "pilot"), digests[version].istiod, q[1..]);
        }
      }
      SilentBelow(v, "pilot", pilot, q);
      if q[0] == "global" {
        assert ["global", "proxy", "image"][1..] == ["proxy", "image"];
        assert Apart(["proxy", "image"], q[1..]);
        assert ["global", "proxy_init", "image"][1..] == ["proxy_init", "image"];
        assert Apart(["proxy_init", "image"], q[1..]);
        SubIsSilent(v, "global", q);
        GlobalImagesSilent(Sub(v, "global"), digests[version].proxy, q[1..]);
      }
      SilentBelow(v["pilot" := Obj(pilot)], "global", global, q);
    }
  }

  /** Which images digests set. */
  lemma DigestImages(t: Type, version: string, values: Option<Fields>, digests: map<string, ImageDigests>)
    requires IsValuesType(t) && Canonical(t, Obj(AsMap(values))) && DigestsApply(version, AsMap(values), digests)
    ensures var (v, d) := (AsMap(values), AsMap(ApplyDigests(version, values, digests)));
            && ((forall k | k in {"image", "hub", "tag"} :: At(v, ["pilot", k]).None?) ==>
                  At(d, ["pilot", "image"]) == Some(Str(digests[version].istiod)))
            && (forall k | k in {"proxy", "proxy_init"} && At(v, ["global", k, "image"]).None? ::
                  At(d, ["global", k, "image"]) == Some(Str(digests[version].proxy)))
  {
    var v, d := AsMap(values), AsMap(ApplyDigests(version, values, digests));
    GlobalHubOrTag(t, v);
    var pilot, global := Sub(v, "pilot"), Sub(v, "global");
    PilotChosen(t, v);
    assert ["pilot", "image"][1..] == ["image"];
    SubIsTyped(t, v, "global");
    forall k | k in {"proxy", "proxy_init"} && At(v, ["global", k, "image"]).None?
      ensures At(d, ["global", k, "image"]) == Some(Str(digests[version].proxy))
    {
      assert ["global", k, "image"][1..] == [k, "image"] && [k, "image"][1..] == ["image"];
      assert At(global, [k, "image"]).None?;
      ProxyImage(t.fields["global"].typ, global, k);
      assert "global" in d && d["global"].Obj? && k in d["global"].fields;
      assert d["global"].fields[k] == Obj(Sub(global, k)["image" := Str(digests[version].proxy)]);
      AtThree(d, "global", k, "image");
    }
  }

  lemma AtThree(m: Fields, a: string, b: string, c: string)
    requires a in m && m[a].Obj? && b in m[a].fields && m[a].fields[b].Obj? && c in m[a].fields[b].fields
    ensures At(m, [a, b, c]) == Some(m[a].fields[b].fields[c])
  {
    assert [a, b, c][1..] == [b, c] && [b, c][1..] == [c];
    assert At(m[a].fields[b].fields, [c]) == Some(m[a].fields[b].fields[c]);
    assert At(m[a].fields, [b, c]) == Some(m[a].fields[b].fields[c]);
  }

  lemma ProxyImage(t: Type, global: Fields, k: string)
    requires HasOptionalStruct(t, k) && HasOptionalString(t.fields[k].typ, "image") && Canonical(t, Obj(global))
    ensures IsSet(Sub(global, k), "image") <==> At(global, [k, "image"]).Some?
  {
    SubIsTyped(t, global, k);
    assert [k, "image"][1..] == ["image"];
    TypedStringField(t.fields[k].typ, Sub(global, k), "image");
  }

  // ----- The vendor defaults -----

  /** The vendor's values for Istio in the version. */
  function VendorValues(env: Environment, version: string): Fields {
    if
      && version in env.vendorDefaults && "istio" in env.vendorDefaults[version]
      && env.vendorDefaults[version]["istio"].Obj?
    then env.vendorDefaults[version]["istio"].fields
    else map[]
  }

  lemma DefaultsAt(env: Environment, version: string, d: Option<Fields>, q: seq<string>)
    requires IsValuesType(env.valuesType) && Canonical(env.valuesType, Obj(AsMap(d))) && q != []
    requires ApplyIstioVendorDefaults(env.valuesType, env.vendorDefaults, version, d).Ok?
    requires Silent(AsMap(d), q)
    ensures var (v, w) := (VendorValues(env, version),
                           AsMap(ApplyIstioVendorDefaults(env.valuesType, env.vendorDefaults, version, d).value));
            && (IsLeaf(v, q) ==> At(w, q) == TypedLeaf(env.valuesType, q, At(v, q).value))
            && (Silent(v, q) && OptionalAlong(env.valuesType, q) ==> Silent(w, q))
  {
    var v, m := VendorValues(env, version), Overlay(VendorValues(env, version), AsMap(d));
    DefaultsAreDecoded(env, version, d);
    OverlayAt(v, AsMap(d), q);
    if IsLeaf(v, q) {
      DecodedLeaf(env.valuesType, m, q);
    }
    if Silent(v, q) && OptionalAlong(env.valuesType, q) {
      DecodedSilence(env.valuesType, m, q);
    }
  }

  lemma DefaultsAreDecoded(env: Environment, version: string, d: Option<Fields>)
    requires IsValuesType(env.valuesType) && Canonical(env.valuesType, Obj(AsMap(d)))
    requires ApplyIstioVendorDefaults(env.valuesType, env.vendorDefaults, version, d).Ok?
    ensures Decode(env.valuesType, Obj(Overlay(VendorValues(env, version), AsMap(d)))) ==
            Some(Obj(AsMap(ApplyIstioVendorDefaults(env.valuesType, env.vendorDefaults, version, d).value)))
  {
    OverlayUnits(AsMap(d));
  }

  // ----- The profiles -----

  /** The profile that is applied over the default one: the user's choice, or else the operator's. */
  function ChosenProfile(userProfile: string, defaultProfile: string): Option<string> {
    if userProfile !in {"", "default"} then Some(userProfile)
    else if defaultProfile !in {"", "default"} then Some(defaultProfile)
    else None
  }

  /** The values in the file of a profile. */
  function FileValues(env: Environment, version: string, profile: string): Fields {
    if version in env.profiles && profile in env.profiles[version] then AsMap(env.profiles[version][profile]) else map[]
  }

  predicate Readable(env: Environment, version: string, profile: string) {
    version in env.profiles && profile in env.profiles[version]
  }

  /** Profiles fail only if a file cannot be read. */
  lemma BaseOfProfiles(env: Environment, version: string, userProfile: string)
    ensures var p := ChosenProfile(userProfile, env.defaultProfile);
            var d := FileValues(env, version, "default");
            && (Base(env, version, userProfile).Ok? <==>
                  Readable(env, version, "default") && (p.Some? ==> Readable(env, version, p.value)))
            && (Base(env, version, userProfile).Ok? ==>
                  Base(env, version, userProfile).value ==
                  if p.Some? then Overlay(d, FileValues(env, version, p.value)) else d)
  {
    var p := ChosenProfile(userProfile, env.defaultProfile);
    var names := if p.Some? then ["default", p.value] else ["default"];
    var store, d := Profiles(env, version), FileValues(env, version, "default");
    assert Resolve(env.defaultProfile, userProfile) == names;
    OverlayUnits(d);
    FirstProfile(store, map[], {}, names);
    if "default" in store && p.Some? {
      assert names[1..] == [p.value];
      FirstProfile(store, d, {"default"}, [p.value]);
    }
  }

  /** A profile that has not been applied yet. */
  lemma FirstProfile(store: ProfileStore, values: Fields, applied: set<string>, names: seq<string>)
    requires names != [] && names[0] != "" && names[0] !in applied
    ensures names[0] !in store ==> ApplyProfiles(store, values, applied, names).Err?
    ensures names[0] in store ==>
              var merged := Overlay(values, AsMap(store[names[0]]));
              ApplyProfiles(store, values, applied, names) ==
              if |names| == 1 then Ok(merged) else ApplyProfiles(store, merged, applied + {names[0]}, names[1..])
  {
    assert |names| == 1 ==> names[1..] == [];
  }

  // ----- Platform, FIPS and the overrides -----

  lemma FieldElsewhere(m: Fields, path: seq<string>, x: string, q: seq<string>)
    requires path != [] && SetField(m, path, x).Ok? && Apart(path, q)
    ensures Silent(m, q) ==> Silent(SetField(m, path, x).value, q)
  {
    if Get(m, path).Missing? {
      SetElsewhere(m, path, Str(x), q);
    }
  }

  /** No value that users cannot choose is at the path, above it or below it. */
  ghost predicate ApartFromOverrides(q: seq<string>) {
    Apart(["revision"], q) && Apart(["defaultRevision"], q) && Apart(["global", "istioNamespace"], q)
  }

  lemma OverridesElsewhere(t: Type, revisionName: string, namespace: string, values: Fields, q: seq<string>)
    requires IsValuesType(t) && Canonical(t, Obj(values)) && q != [] && ApartFromOverrides(q)
    ensures At(ApplyOverrides(revisionName, namespace, values), q) == At(values, q)
  {
    SubIsTyped(t, values, "global");
    ApartFromKey("revision", q);
    ApartFromKey("defaultRevision", q);
    if q[0] == "global" {
      assert ["global", "istioNamespace"][1..] == ["istioNamespace"];
      ApartFromKey("istioNamespace", q[1..]);
    }
  }

  // ----- The values before and after the profiles -----

  /** A successful computation, with the user's values typed. */
  ghost predicate Computes(env: Environment, q: Request, r: Fields) {
    IsValuesType(env.valuesType) && Canonical(env.valuesType, Obj(AsMap(q.user))) && Answer(env, q) == Ok(r)
  }

  /** The typed values over which nothing but profiles has yet been applied. */
  function Defaulted(env: Environment, q: Request): Fields
    requires Answer(env, q).Ok?
  {
    AsMap(ApplyIstioVendorDefaults(
      env.valuesType, env.vendorDefaults, q.version, ApplyDigests(q.version, q.user, env.digests)).value)
  }

  /** The typed values before the overrides. */
  function Profiled(env: Environment, q: Request): Fields
    requires Answer(env, q).Ok?
  {
    var w := ApplyIstioVendorDefaults(
      env.valuesType, env.vendorDefaults, q.version, ApplyDigests(q.version, q.user, env.digests)).value;
    Decode(env.valuesType, Obj(MergedValues(env, w, q.version, q.userProfile).value)).value.fields
  }

  lemma Stages(env: Environment, q: Request, r: Fields)
    requires Computes(env, q, r)
    ensures Canonical(env.valuesType, Obj(Defaulted(env, q))) && Canonical(env.valuesType, Obj(Profiled(env, q)))
    ensures Keeps(AsMap(ApplyDigests(q.version, q.user, env.digests)), Defaulted(env, q))
    ensures Keeps(Defaulted(env, q), Profiled(env, q))
    ensures r == ApplyOverrides(q.revisionName, q.namespace, Profiled(env, q))
  {
    ResultIsTyped(env, q.user, q.namespace, q.version, q.userProfile, q.revisionName);
  }

  /** A leaf that is there before the profiles is in the result. */
  lemma LeafOfDefaulted(env: Environment, q: Request, r: Fields, path: seq<string>)
    requires Computes(env, q, r) && path != [] && ApartFromOverrides(path) && IsLeaf(Defaulted(env, q), path)
    ensures At(r, path) == At(Defaulted(env, q), path)
  {
    Stages(env, q, r);
    KeptLeaf(Defaulted(env, q), Profiled(env, q), path);
    OverridesElsewhere(env.valuesType, q.revisionName, q.namespace, Profiled(env, q), path);
  }

  /** The values merged from the profiles and what is there before them. */
  lemma MergedOfProfiles(env: Environment, q: Request, r: Fields) returns (base: Fields, m1: Fields, m2: Fields)
    requires Computes(env, q, r)
    ensures Readable(env, q.version, "default")
    ensures var p := ChosenProfile(q.userProfile, env.defaultProfile);
            var d := FileValues(env, q.version, "default");
            && (p.Some? ==> Readable(env, q.version, p.value))
            && base == if p.Some? then Overlay(d, FileValues(env, q.version, p.value)) else d
    ensures var m0 := Overlay(base, Defaulted(env, q));
            && (if env.platform !in {"", "kubernetes"} then SetField(m0, ["global", "platform"], env.platform) == Ok(m1)
                else m1 == m0)
            && (if env.fips then SetField(m1, ["pilot", "env", "COMPLIANCE_POLICY"], "fips-140-2") == Ok(m2)
                else m2 == m1)
            && Decode(env.valuesType, Obj(m2)) == Some(Obj(Profiled(env, q)))
  {
    BaseOfProfiles(env, q.version, q.userProfile);
    base := Base(env, q.version, q.userProfile).value;
    var m0 := Overlay(base, Defaulted(env, q));
    m1 := if env.platform !in {"", "kubernetes"} then SetField(m0, PLATFORM_PATH, env.platform).value else m0;
    m2 := ApplyFips(env.fips, m1).value;
  }

  /** Where nothing is there before the profiles, their leaf is in the result as the type lets it through. */
  lemma LeafOfProfiles(env: Environment, q: Request, r: Fields, path: seq<string>, base: Fields)
    requires Computes(env, q, r) && path != [] && ApartFromOverrides(path)
    requires Silent(Defaulted(env, q), path)
    requires var p := ChosenProfile(q.userProfile, env.defaultProfile);
             var d := FileValues(env, q.version, "default");
             base == if p.Some? then Overlay(d, FileValues(env, q.version, p.value)) else d
    requires IsLeaf(base, path)
    ensures At(r, path) == TypedLeaf(env.valuesType, path, At(base, path).value)
  {
    var b, m1, m2 := MergedOfProfiles(env, q, r);
    var m0 := Overlay(base, Defaulted(env, q));
    OverlayAt(base, Defaulted(env, q), path);
    if env.platform !in {"", "kubernetes"} {
      SetFieldMeaning(m0, ["global", "platform"], env.platform);
      KeptLeaf(m0, m1, path);
    }
    if env.fips {
      SetFieldMeaning(m1, ["pilot", "env", "COMPLIANCE_POLICY"], "fips-140-2");
      KeptLeaf(m1, m2, path);
    }
    DecodedLeaf(env.valuesType, m2, path);
    Stages(env, q, r);
    OverridesElsewhere(env.valuesType, q.revisionName, q.namespace, Profiled(env, q), path);
  }

  // ----- Main theorems -----

  lemma {:induction false} TypedLeafIsLeaf(t: Type, path: seq<string>, v: Val)
    requires path != [] && !v.Obj? && TypedLeaf(t, path, v).Some?
    ensures !TypedLeaf(t, path, v).value.Obj?
    decreases |path|
  {
    match t
    case Struct(fs) =>
      if |path| > 1 {
        TypedLeafIsLeaf(fs[path[0]].typ, path[1..], v);
      }
    case Dict(elem) =>
      if |path| > 1 {
        TypedLeafIsLeaf(elem, path[1..], v);
      }
    case Raw =>
    case _ =>
  }

  /** Neither the user nor the digests nor the overrides say anything about the path. */
  ghost predicate LeftToDefaults(env: Environment, q: Request, path: seq<string>) {
    && path != [] && Silent(AsMap(q.user), path) && ApartFromOverrides(path)
    && (DigestsApply(q.version, AsMap(q.user), env.digests) ==> ApartFromImages(AsMap(q.user), path))
  }

  /** Nor do the vendor defaults. */
  ghost predicate LeftToProfiles(env: Environment, q: Request, path: seq<string>) {
    LeftToDefaults(env, q, path) && Silent(VendorValues(env, q.version), path) && OptionalAlong(env.valuesType, path)
  }

  lemma DigestsAreTyped(env: Environment, q: Request, path: seq<string>)
    requires IsValuesType(env.valuesType) && Canonical(env.valuesType, Obj(AsMap(q.user)))
    requires LeftToDefaults(env, q, path)
    ensures var d := AsMap(ApplyDigests(q.version, q.user, env.digests));
            Canonical(env.valuesType, Obj(d)) && Silent(d, path)
  {
    DigestsSilent(env.valuesType, q.version, q.user, env.digests, path);
    DigestsKeepUserValues(env.valuesType, q.version, q.user, env.digests);
  }

  /** A leaf that is left to the defaults is that of the vendor defaults, if they have it. */
  lemma LeafOfVendor(env: Environment, q: Request, r: Fields, path: seq<string>)
    requires Computes(env, q, r) && LeftToDefaults(env, q, path) && IsLeaf(VendorValues(env, q.version), path)
    ensures var leaf := TypedLeaf(env.valuesType, path, At(VendorValues(env, q.version), path).value);
            leaf.Some? ==> At(r, path) == leaf
  {
    var leaf := TypedLeaf(env.valuesType, path, At(VendorValues(env, q.version), path).value);
    DigestsAreTyped(env, q, path);
    DefaultsAt(env, q.version, ApplyDigests(q.version, q.user, env.digests), path);
    if leaf.Some? {
      TypedLeafIsLeaf(env.valuesType, path, At(VendorValues(env, q.version), path).value);
      LeafOfDefaulted(env, q, r, path);
    }
  }

  lemma NothingDefaulted(env: Environment, q: Request, r: Fields, path: seq<string>)
    requires Computes(env, q, r) && LeftToProfiles(env, q, path)
    ensures Silent(Defaulted(env, q), path)
  {
    DigestsAreTyped(env, q, path);
    DefaultsAt(env, q.version, ApplyDigests(q.version, q.user, env.digests), path);
  }

  /**
   A leaf that is left to the profiles is that of the chosen profile: the user's, or the operator's
   if the user names none. Where the chosen profile says nothing, or there is none, it is that of
   the default profile.
   */
  lemma LeafOfChosenProfile(env: Environment, q: Request, r: Fields, path: seq<string>)
    requires Computes(env, q, r) && LeftToProfiles(env, q, path)
    ensures var d := FileValues(env, q.version, "default");
            match ChosenProfile(q.userProfile, env.defaultProfile)
            case Some(p) =>
              var f := FileValues(env, q.version, p);
              && (IsLeaf(f, path) ==> At(r, path) == TypedLeaf(env.valuesType, path, At(f, path).value))
              && (Silent(f, path) && IsLeaf(d, path) ==>
                    At(r, path) == TypedLeaf(env.valuesType, path, At(d, path).value))
            case None =>
              IsLeaf(d, path) ==> At(r, path) == TypedLeaf(env.valuesType, path, At(d, path).value)
  {
    NothingDefaulted(env, q, r, path);
    var base, m1, m2 := MergedOfProfiles(env, q, r);
    var p := ChosenProfile(q.userProfile, env.defaultProfile);
    if p.Some? {
      OverlayAt(FileValues(env, q.version, "default"), FileValues(env, q.version, p.value), path);
    }
    if IsLeaf(base, path) {
      LeafOfProfiles(env, q, r, path, base);
    }
  }

  /** Nor do the profiles. */
  ghost predicate LeftToOperator(env: Environment, q: Request, path: seq<string>) {
    && LeftToProfiles(env, q, path)
    && Silent(FileValues(env, q.version, "default"), path)
    && var p := ChosenProfile(q.userProfile, env.defaultProfile);
       p.Some? ==> Silent(FileValues(env, q.version, p.value), path)
  }

  lemma NothingMerged(env: Environment, q: Request, r: Fields, path: seq<string>)
    returns (m0: Fields, m1: Fields, m2: Fields)
    requires Computes(env, q, r) && LeftToOperator(env, q, path)
    ensures Silent(m0, path)
    ensures if env.platform !in {"", "kubernetes"} then SetField(m0, ["global", "platform"], env.platform) == Ok(m1)
            else m1 == m0
    ensures if env.fips then SetField(m1, ["pilot", "env", "COMPLIANCE_POLICY"], "fips-140-2") == Ok(m2) else m2 == m1
    ensures Decode(env.valuesType, Obj(m2)) == Some(Obj(Profiled(env, q)))
    ensures At(r, path) == At(Profiled(env, q), path)
  {
    NothingDefaulted(env, q, r, path);
    var base;
    base, m1, m2 := MergedOfProfiles(env, q, r);
    var p := ChosenProfile(q.userProfile, env.defaultProfile);
    if p.Some? {
      OverlayAt(FileValues(env, q.version, "default"), FileValues(env, q.version, p.value), path);
    }
    m0 := Overlay(base, Defaulted(env, q));
    OverlayAt(base, Defaulted(env, q), path);
    Stages(env, q, r);
    OverridesElsewhere(env.valuesType, q.revisionName, q.namespace, Profiled(env, q), path);
  }

  /** A platform that nothing else sets is the operator's, unless that is plain Kubernetes. */
  lemma PlatformOfOperator(env: Environment, q: Request, r: Fields)
    requires Computes(env, q, r) && LeftToOperator(env, q, ["global", "platform"])
    ensures At(r, ["global", "platform"]) ==
            if env.platform in {"", "kubernetes"} then None else Some(Str(env.platform))
  {
    var path := ["global", "platform"];
    var m0, m1, m2 := NothingMerged(env, q, r, path);
    SetPathsAreDeclared(env.valuesType);
    SilentIsAbsent(m0, path);
    if env.platform !in {"", "kubernetes"} {
      SetFieldMeaning(m0, path, env.platform);
      if env.fips {
        SetFieldMeaning(m1, ["pilot", "env", "COMPLIANCE_POLICY"], "fips-140-2");
        KeptLeaf(m1, m2, path);
      }
      DecodeKeepsString(env.valuesType, m2, path, env.platform);
    } else {
      NothingAnywhere(env, q, r, path);
    }
  }

  /** A compliance policy that nothing else sets is that of FIPS, if the operator runs in FIPS mode. */
  lemma CompliancePolicyOfOperator(env: Environment, q: Request, r: Fields)
    requires Computes(env, q, r) && LeftToOperator(env, q, ["pilot", "env", "COMPLIANCE_POLICY"])
    ensures At(r, ["pilot", "env", "COMPLIANCE_POLICY"]) == if env.fips then Some(Str("fips-140-2")) else None
  {
    var path := ["pilot", "env", "COMPLIANCE_POLICY"];
    var m0, m1, m2 := NothingMerged(env, q, r, path);
    SetPathsAreDeclared(env.valuesType);
    SilentIsAbsent(m0, path);
    if env.platform !in {"", "kubernetes"} {
      SetFieldMeaning(m0, ["global", "platform"], env.platform);
      FieldElsewhere(m0, ["global", "platform"], env.platform, path);
      SilentIsAbsent(m1, path);
    }
    if env.fips {
      SetFieldMeaning(m1, path, "fips-140-2");
      DecodeKeepsString(env.valuesType, m2, path, "fips-140-2");
    } else {
      NothingAnywhere(env, q, r, path);
    }
  }

  /** Where no source says anything, neither does the result. */
  lemma NothingAnywhere(env: Environment, q: Request, r: Fields, path: seq<string>)
    requires Computes(env, q, r) && LeftToOperator(env, q, path)
    requires env.platform in {"", "kubernetes"} || Apart(["global", "platform"], path)
    requires env.fips ==> Apart(["pilot", "env", "COMPLIANCE_POLICY"], path)
    ensures At(r, path).None?
  {
    var m0, m1, m2 := NothingMerged(env, q, r, path);
    if env.platform !in {"", "kubernetes"} {
      FieldElsewhere(m0, ["global", "platform"], env.platform, path);
    }
    if env.fips {
      FieldElsewhere(m1, ["pilot", "env", "COMPLIANCE_POLICY"], "fips-140-2", path);
    }
    DecodedSilence(env.valuesType, m2, path);
    SilentIsAbsent(Profiled(env, q), path);
  }

  /** The images of the digests: istiod's and that of both proxies, each where the user has not chosen one. */
  lemma ImagesOfDigests(env: Environment, q: Request, r: Fields)
    requires Computes(env, q, r) && DigestsApply(q.version, AsMap(q.user), env.digests)
    ensures (forall k | k in {"image", "hub", "tag"} :: At(AsMap(q.user), ["pilot", k]).None?) ==>
              At(r, ["pilot", "image"]) == Some(Str(env.digests[q.version].istiod))
    ensures forall k | k in {"proxy", "proxy_init"} && At(AsMap(q.user), ["global", k, "image"]).None? ::
              At(r, ["global", k, "image"]) == Some(Str(env.digests[q.version].proxy))
  {
    DigestImages(env.valuesType, q.version, q.user, env.digests);
    if forall k | k in {"image", "hub", "tag"} :: At(AsMap(q.user), ["pilot", k]).None? {
      LeafOfDigests(env, q, r, ["pilot", "image"]);
    }
    forall k | k in {"proxy", "proxy_init"} && At(AsMap(q.user), ["global", k, "image"]).None?
      ensures At(r, ["global", k, "image"]) == Some(Str(env.digests[q.version].proxy))
    {
      ApartInGlobal(["global", k, "image"]);
      LeafOfDigests(env, q, r, ["global", k, "image"]);
    }
  }

  lemma ApartInGlobal(q: seq<string>)
    requires |q| > 1 && q[0] == "global" && q[1] != "istioNamespace"
    ensures ApartFromOverrides(q)
  {
    assert ["global", "istioNamespace"][1..] == ["istioNamespace"];
  }

  lemma LeafOfDigests(env: Environment, q: Request, r: Fields, path: seq<string>)
    requires Computes(env, q, r) && path != [] && ApartFromOverrides(path)
    requires IsLeaf(AsMap(ApplyDigests(q.version, q.user, env.digests)), path)
    ensures At(r, path) == At(AsMap(ApplyDigests(q.version, q.user, env.digests)), path)
  {
    Stages(env, q, r);
    KeptLeaf(AsMap(ApplyDigests(q.version, q.user, env.digests)), Defaulted(env, q), path);
    LeafOfDefaulted(env, q, r, path);
  }

  /** Values are computed only from profiles that are there: the default one and the chosen one. */
  lemma ProfilesAreThere(env: Environment, q: Request, r: Fields)
    requires Computes(env, q, r)
    ensures Readable(env, q.version, "default")
    ensures var p := ChosenProfile(q.userProfile, env.defaultProfile);
            p.Some? ==> Readable(env, q.version, p.value)
  {
    BaseOfProfiles(env, q.version, q.userProfile);
  }
}
