/**
 The values pipeline as the program runs it, on mutable maps and mutable typed values.

 Conversions allocate, the vendor defaults are copied before anything is merged into them, and
 every stage that writes in place writes to maps that no one else holds, or to the caller's typed
 values.
 */
module ValuesPipeline {
  import opened Wrappers
  import opened JsonTree
  import opened MergeHeap
  import opened ValuesHeap
  import opened NestedFields
  import opened IstioValues
  import opened RevisionValues
  import Schema

  // ----- Typed values -----

  /** A `*v1.Values`; what it points to is held as its encoding. */
  class TypedValues {
    var tree: Fields

    constructor (t: Fields)
      ensures tree == t
    {
      tree := t;
    }
  }

  ghost function TreeOf(v: TypedValues?): Option<Fields>
    reads v
  {
    if v == null then None else Some(v.tree)
  }

  /** What a map or nil map stands for. */
  ghost function Opt(s: Shape): Option<Fields> {
    if s.Map? then Some(Trees(s.fields)) else None
  }

  /** Assigns a field of the struct in the field `k`, which is made if it is nil. */
  method SetIn(v: TypedValues, k: string, field: string, x: Val)
    modifies v
    ensures v.tree == old(v.tree)[k := Obj(Sub(old(v.tree), k)[field := x])]
  {
    if k !in v.tree || !v.tree[k].Obj? {
      v.tree := v.tree[k := Obj(map[])];
    }
    v.tree := v.tree[k := Obj(v.tree[k].fields[field := x])];
  }

  method DigestPilot(v: TypedValues, image: string)
    modifies v
    ensures var pilot := Sub(old(v.tree), "pilot");
            var chosen := IsSet(pilot, "image") || IsSet(pilot, "hub") || IsSet(pilot, "tag");
            v.tree == old(v.tree)["pilot" := Obj(if chosen then pilot else pilot["image" := Str(image)])]
  {
    if "pilot" !in v.tree || !v.tree["pilot"].Obj? {
      v.tree := v.tree["pilot" := Obj(map[])];
    }
    var pilot := v.tree["pilot"].fields;
    if !IsSet(pilot, "image") && !IsSet(pilot, "hub") && !IsSet(pilot, "tag") {
      v.tree := v.tree["pilot" := Obj(pilot["image" := Str(image)])];
    }
  }

  method DigestGlobal(v: TypedValues, image: string)
    modifies v
    ensures var global := Sub(old(v.tree), "global");
            v.tree == old(v.tree)["global" := Obj(
              global["proxy" := Obj(WithImage(Sub(global, "proxy"), image))]
                    ["proxy_init" := Obj(WithImage(Sub(global, "proxy_init"), image))])]
  {
    SetIn(v, "global", "proxy", Obj(WithImage(Sub(Sub(v.tree, "global"), "proxy"), image)));
    SetIn(v, "global", "proxy_init", Obj(WithImage(Sub(Sub(v.tree, "global"), "proxy_init"), image)));
  }

  /** `ApplyDigests` writes to the caller's values, unless there are none. */
  method ApplyDigestsTo(version: string, values: TypedValues?, digests: map<string, ImageDigests>)
    returns (r: TypedValues?)
    modifies values
    ensures TreeOf(r) == ApplyDigests(version, old(TreeOf(values)), digests)
    ensures if values == null then r == null || fresh(r) else r == values
  {
    if version !in digests {
      return values;
    }
    if values != null && (IsSet(Sub(values.tree, "global"), "hub") || IsSet(Sub(values.tree, "global"), "tag")) {
      return values;
    }
    var v: TypedValues;
    if values == null {
      v := new TypedValues(map[]);
    } else {
      v := values;
    }
    DigestPilot(v, digests[version].istiod);
    DigestGlobal(v, digests[version].proxy);
    r := v;
  }

  method ApplyOverridesTo(revisionName: string, namespace: string, values: TypedValues)
    modifies values
    ensures values.tree == ApplyOverrides(revisionName, namespace, old(values.tree))
  {
    var revision := if revisionName == DEFAULT_REVISION then "" else revisionName;
    values.tree := values.tree["revision" := Str(revision)];
    SetIn(values, "global", "istioNamespace", Str(namespace));
    values.tree := values.tree["defaultRevision" := Str("")];
  }

  /** `FromValues`: a new map, or nil for nil. */
  method FromValues(v: TypedValues?) returns (n: Node?, ghost s: Shape)
    ensures Stands(n, s) && fresh(Nodes(s)) && Opt(s) == TreeOf(v)
  {
    if v == null {
      n, s := null, Leaf(Null);
    } else {
      n, s := NewMap(v.tree);
    }
  }

  /** `ToValues`: new typed values, or nil for a nil map. */
  method ToTypedValues(t: Schema.Type, n: Node?, ghost s: Shape) returns (r: Result<TypedValues?, ValuesError>)
    requires Stands(n, s)
    ensures r.Ok? ==> ToValues(t, Opt(s)) == Ok(TreeOf(r.value)) && (r.value == null || fresh(r.value))
    ensures r.Err? ==> ToValues(t, Opt(s)) == Err(r.error)
  {
    if n == null {
      r := Ok(null);
    } else {
      var tree := Read(n, s);
      match Schema.Decode(t, Obj(tree)) {
        case Some(Obj(w)) =>
          var v := new TypedValues(w);
          r := Ok(v);
        case _ =>
          r := Err(ConversionFailed);
      }
    }
  }

  // ----- Vendor defaults -----

  /** The package variable that holds the vendor defaults. */
  class Globals {
    var vendorDefaults: map<string, map<string, Entry>>
    ghost var shapes: map<string, map<string, Shape>>

    ghost function Footprint(): set<Node>
      reads this
    {
      set v, r, n | v in shapes && r in shapes[v] && n in Nodes(shapes[v][r]) :: n
    }

    /** Memory holds the defaults laid out as `shapes`. */
    ghost predicate Valid()
      reads this, Footprint()
    {
      && vendorDefaults.Keys == shapes.Keys
      && forall v | v in shapes ::
        && vendorDefaults[v].Keys == shapes[v].Keys
        && forall r | r in shapes[v] :: HoldsDefault(v, r)
    }

    ghost predicate HoldsDefault(v: string, r: string)
      requires v in vendorDefaults && v in shapes && r in vendorDefaults[v] && r in shapes[v]
      reads this, Footprint()
    {
      Laid(shapes[v][r]) && TreeShaped(shapes[v][r]) && vendorDefaults[v][r] == EntryOf(shapes[v][r])
    }

    /** The vendor defaults as trees. */
    ghost function Defaults(): VendorDefaults
      reads this
    {
      map v | v in shapes :: map r | r in shapes[v] :: Tree(shapes[v][r])
    }
  }

  lemma FootprintIsAllocated(g: Globals)
    ensures forall n | n in g.Footprint() :: allocated(n)
  {
    forall v, r | v in g.shapes && r in g.shapes[v]
      ensures forall n | n in Nodes(g.shapes[v][r]) :: allocated(n)
    {
      NodesAreAllocated(g.shapes[v][r]);
    }
  }

  lemma DefaultsAt(g: Globals, version: string, resource: string)
    requires g.Valid()
    ensures version in g.Defaults() <==> version in g.vendorDefaults
    ensures version in g.vendorDefaults ==>
              (resource in g.Defaults()[version] <==> resource in g.vendorDefaults[version])
    ensures version in g.vendorDefaults && resource in g.vendorDefaults[version] ==>
              var s := g.shapes[version][resource];
              && g.Defaults()[version][resource] == Tree(s)
              && Laid(s) && TreeShaped(s) && g.vendorDefaults[version][resource] == EntryOf(s)
  {
  }

  /**
   `applyVendorDefaultsForResourceType`. It writes to nothing that existed before, so the defaults
   stay as they are although the result shares the maps of `values`.
   */
  method ApplyVendorDefaultsTo(g: Globals, version: string, resource: string, values: Node?, ghost s: Shape)
    returns (res: Result<Node?, ValuesError>, ghost r: Shape)
    requires g.Valid() && Stands(values, s)
    ensures fresh(Nodes(r) - Nodes(s))
    ensures res.Ok? ==> Stands(res.value, r)
    ensures res.Ok? ==> ApplyVendorDefaults(g.Defaults(), version, resource, Opt(s)) == Ok(Opt(r))
    ensures res.Err? ==> ApplyVendorDefaults(g.Defaults(), version, resource, Opt(s)) == Err(res.error)
  {
    DefaultsAt(g, version, resource);
    r := s;
    if version !in g.vendorDefaults || resource !in g.vendorDefaults[version] {
      return Ok(values), s;
    }
    match g.vendorDefaults[version][resource]
    case Plain(_) =>
      res := Err(VendorDefaultsNotAMap(version));
    case Child(n) =>
      ghost var d := g.shapes[version][resource];
      assert Tree(d) == Obj(Trees(d.fields));
      var merged;
      merged, r := MergeOverCopy(n, values, d, s);
      res := Ok(merged);
  }

  method MergeOverCopy(n: Node, values: Node?, ghost d: Shape, ghost s: Shape) returns (m: Node, ghost r: Shape)
    requires Stands(n, d) && Stands(values, s)
    ensures Stands(m, r) && fresh(Nodes(r) - Nodes(s))
    ensures Trees(r.fields) == Overlay(Trees(d.fields), AsMap(Opt(s)))
  {
    NodesAreAllocated(s);
    var copy, c := DeepCopy(n, d);
    NodesOfField(c, "");
    m, r := MergeOverwrite(copy, values, c, s);
  }

  method ApplyIstioVendorDefaultsTo(g: Globals, t: Schema.Type, version: string, values: TypedValues?)
    returns (res: Result<TypedValues?, ValuesError>)
    requires g.Valid()
    ensures res.Ok? ==> ApplyIstioVendorDefaults(t, g.Defaults(), version, TreeOf(values)) == Ok(TreeOf(res.value))
    ensures res.Ok? ==> res.value == null || fresh(res.value)
    ensures res.Err? ==> ApplyIstioVendorDefaults(t, g.Defaults(), version, TreeOf(values)) == Err(res.error)
  {
    FootprintIsAllocated(g);
    var n, s := FromValues(values);
    var merged, m := ApplyVendorDefaultsTo(g, version, "istio", n, s);
    match merged
    case Ok(p) => res := ToTypedValues(t, p, m);
    case Err(e) => res := Err(e);
  }

  // ----- Profiles, platform and FIPS -----

  lemma ProfileStep(store: ProfileStore, m: Fields, applied: set<string>, names: seq<string>, i: nat)
    requires i < |names|
    ensures ApplyProfiles(store, m, applied, names[i..]) ==
            if names[i] == "" then Err(EmptyProfileName)
            else if names[i] in applied then ApplyProfiles(store, m, applied, names[i + 1..])
            else if names[i] !in store then Err(ProfileNotReadable(names[i]))
            else ApplyProfiles(store, Overlay(m, AsMap(store[names[i]])), applied + {names[i]}, names[i + 1..])
  {
  }

  /** `getValuesFromProfiles`: reads and merges the profiles in order, each only once. */
  method GetValuesFromProfiles(store: ProfileStore, names: seq<string>)
    returns (res: Result<Node, ValuesError>, ghost s: Shape)
    ensures fresh(Nodes(s))
    ensures res.Ok? ==> Stands(res.value, s) && ApplyProfiles(store, map[], {}, names) == Ok(Trees(s.fields))
    ensures res.Err? ==> ApplyProfiles(store, map[], {}, names) == Err(res.error)
  {
    var values: Node := new Node();
    s := Map(values, map[]);
    NewMapStands(values);
    var applied: set<string> := {};
    var i := 0;
    while i < |names|
      invariant 0 <= i <= |names|
      invariant Stands(values, s) && fresh(Nodes(s))
      invariant ApplyProfiles(store, map[], {}, names) == ApplyProfiles(store, Trees(s.fields), applied, names[i..])
    {
      var profile := names[i];
      ProfileStep(store, Trees(s.fields), applied, names, i);
      if profile == "" {
        return Err(EmptyProfileName), s;
      }
      if profile !in applied {
        if profile !in store {
          return Err(ProfileNotReadable(profile)), s;
        }
        applied := applied + {profile};
        values, s := MergeProfile(store[profile], values, s);
      }
      i := i + 1;
    }
    res := Ok(values);
  }

  /** Merges the values of a profile file, which may have none. */
  method MergeProfile(profile: Option<Fields>, values: Node, ghost s: Shape) returns (n: Node, ghost r: Shape)
    requires Stands(values, s)
    modifies Nodes(s)
    ensures Stands(n, r) && fresh(Nodes(r) - Nodes(s)) && Trees(r.fields) == Overlay(Trees(s.fields), AsMap(profile))
  {
    NodesAreAllocated(s);
    if profile.None? {
      n, r := MergeOverwrite(values, null, s, Leaf(Null));
    } else {
      var p, ps := NewMap(profile.value);
      n, r := MergeOverwrite(values, p, s, ps);
    }
    NodesOfField(s, "");
  }

  method ApplyProfilesAndPlatformTo(
      store: ProfileStore, platform: string, defaultProfile: string, userProfile: string, user: Node?, ghost us: Shape)
    returns (res: Result<Node, ValuesError>, ghost s: Shape)
    requires Stands(user, us)
    modifies Nodes(us)
    ensures forall n | n in Nodes(s) :: n in Nodes(us) || fresh(n)
    ensures var spec := ApplyProfilesAndPlatform(store, platform, defaultProfile, userProfile, Opt(us));
            if res.Ok? then Stands(res.value, s) && spec == Ok(Trees(s.fields)) else spec == Err(res.error)
  {
    NodesAreAllocated(us);
    var base, bs := GetValuesFromProfiles(store, Resolve(defaultProfile, userProfile));
    if base.Err? {
      return Err(base.error), bs;
    }
    res, s := MergeAndSetPlatform(base.value, user, platform, bs, us);
  }

  method MergeAndSetPlatform(b: Node, user: Node?, platform: string, ghost bs: Shape, ghost us: Shape)
    returns (res: Result<Node, ValuesError>, ghost s: Shape)
    requires Stands(b, bs) && Stands(user, us) && Nodes(bs) !! Nodes(us)
    modifies Nodes(bs), Nodes(us)
    ensures forall n | n in Nodes(s) :: n in Nodes(bs) || n in Nodes(us) || fresh(n)
    ensures var spec := WithPlatform(platform, Overlay(Trees(bs.fields), AsMap(Opt(us))));
            if res.Ok? then Stands(res.value, s) && spec == Ok(Trees(s.fields)) else spec == Err(res.error)
  {
    var n;
    ghost var m;
    n, m := MergeBase(b, user, bs, us);
    res, s := SetPlatform(n, platform, m);
  }

  /** The values of the user merged over those of the profiles, in place. */
  method MergeBase(b: Node, user: Node?, ghost bs: Shape, ghost us: Shape) returns (n: Node, ghost m: Shape)
    requires Stands(b, bs) && Stands(user, us) && Nodes(bs) !! Nodes(us)
    modifies Nodes(bs)
    ensures Stands(n, m) && forall x | x in Nodes(m) :: x in Nodes(bs) || x in Nodes(us)
    ensures Trees(m.fields) == Overlay(Trees(bs.fields), AsMap(Opt(us)))
  {
    NodesOfField(bs, "");
    n, m := MergeOverwrite(b, user, bs, us);
  }

  function WithPlatform(platform: string, m: Fields): Result<Fields, ValuesError> {
    if platform != "" && platform != "kubernetes" then SetField(m, PLATFORM_PATH, platform) else Ok(m)
  }

  method SetPlatform(n: Node, platform: string, ghost m: Shape) returns (res: Result<Node, ValuesError>, ghost s: Shape)
    requires Stands(n, m)
    modifies Nodes(m)
    ensures forall x | x in Nodes(s) :: x in Nodes(m) || fresh(x)
    ensures var spec := WithPlatform(platform, Trees(m.fields));
            if res.Ok? then Stands(res.value, s) && spec == Ok(Trees(s.fields)) else spec == Err(res.error)
  {
    if platform != "kubernetes" && platform != "" {
      res, s := SetFieldIn(n, PLATFORM_PATH, platform, m);
    } else {
      res, s := Ok(n), m;
    }
  }

  method SetFieldIn(n: Node, path: seq<string>, x: string, ghost s: Shape)
    returns (res: Result<Node, ValuesError>, ghost r: Shape)
    requires Stands(n, s) && path != []
    modifies Nodes(s)
    ensures fresh(Nodes(r) - Nodes(s))
    ensures res.Ok? ==> Stands(res.value, r) && SetField(Trees(s.fields), path, x) == Ok(Trees(r.fields))
    ensures res.Err? ==> SetField(Trees(s.fields), path, x) == Err(res.error)
  {
    var outcome;
    outcome, r := SetIfAbsentIn(n, path, x, s);
    match outcome
    case Ok(_) => res := Ok(n);
    case Err(e) => res := Err(FieldError(e));
  }

  method ApplyFipsTo(fips: bool, n: Node, ghost s: Shape) returns (res: Result<Node, ValuesError>, ghost r: Shape)
    requires Stands(n, s)
    modifies Nodes(s)
    ensures fresh(Nodes(r) - Nodes(s))
    ensures res.Ok? ==> Stands(res.value, r) && ApplyFips(fips, Trees(s.fields)) == Ok(Trees(r.fields))
    ensures res.Err? ==> ApplyFips(fips, Trees(s.fields)) == Err(res.error)
  {
    if fips {
      res, r := SetFieldIn(n, COMPLIANCE_POLICY_PATH, "fips-140-2", s);
    } else {
      res, r := Ok(n), s;
    }
  }

  // ----- The whole pipeline -----

  method MergedValuesOf(env: Environment, values: TypedValues?, version: string, userProfile: string)
    returns (res: Result<Node, ValuesError>, ghost s: Shape)
    ensures res.Ok? ==> Stands(res.value, s)
    ensures res.Ok? ==> MergedValues(env, TreeOf(values), version, userProfile) == Ok(Trees(s.fields))
    ensures res.Err? ==> MergedValues(env, TreeOf(values), version, userProfile) == Err(res.error)
  {
    var n, us := FromValues(values);
    res, s := ApplyProfilesAndPlatformTo(Profiles(env, version), env.platform, env.defaultProfile, userProfile, n, us);
    if res.Ok? {
      res, s := ApplyFipsTo(env.fips, res.value, s);
    }
  }

  method DigestAndDefault(g: Globals, env: Environment, user: TypedValues?, version: string)
    returns (res: Result<TypedValues?, ValuesError>)
    requires g.Valid()
    modifies user
    ensures user != null ==> TreeOf(user) == ApplyDigests(version, old(TreeOf(user)), env.digests)
    ensures var spec := ApplyIstioVendorDefaults(
              env.valuesType, g.Defaults(), version, ApplyDigests(version, old(TreeOf(user)), env.digests));
            if res.Err? then spec == Err(res.error)
            else spec == Ok(TreeOf(res.value)) && (res.value == null || fresh(res.value))
  {
    FootprintIsAllocated(g);
    var digested := ApplyDigestsTo(version, user, env.digests);
    res := ApplyIstioVendorDefaultsTo(g, env.valuesType, version, digested);
  }

  method FinishValues(
      env: Environment, values: TypedValues?, namespace: string, version: string,
      userProfile: string, revisionName: string)
    returns (res: Result<TypedValues, ValuesError>)
    ensures res.Ok? ==> fresh(res.value)
    ensures var merged := MergedValues(env, TreeOf(values), version, userProfile);
            if merged.Err? then res == Err(merged.error)
            else
              match Schema.Decode(env.valuesType, Obj(merged.value))
              case Some(Obj(w)) => res.Ok? && res.value.tree == ApplyOverrides(revisionName, namespace, w)
              case _ => res == Err(ConversionFailed)
  {
    var merged, s := MergedValuesOf(env, values, version, userProfile);
    if merged.Err? {
      return Err(merged.error);
    }
    var typed := ToTypedValues(env.valuesType, merged.value, s);
    match typed
    case Err(e) =>
      res := Err(e);
    case Ok(v) =>
      ApplyOverridesTo(revisionName, namespace, v);
      res := Ok(v);
  }

  method ComputeWith(
      g: Globals, env: Environment, user: TypedValues?, namespace: string, version: string,
      userProfile: string, revisionName: string)
    returns (res: Result<TypedValues, ValuesError>)
    requires g.Valid() && env.vendorDefaults == g.Defaults()
    modifies user
    ensures user != null ==> TreeOf(user) == ApplyDigests(version, old(TreeOf(user)), env.digests)
    ensures res.Ok? ==> fresh(res.value)
    ensures res.Ok? ==>
              ComputeValues(env, old(TreeOf(user)), namespace, version, userProfile, revisionName) == Ok(res.value.tree)
    ensures res.Err? ==>
              ComputeValues(env, old(TreeOf(user)), namespace, version, userProfile, revisionName) == Err(res.error)
  {
    var withDefaults := DigestAndDefault(g, env, user, version);
    if withDefaults.Err? {
      return Err(withDefaults.error);
    }
    res := FinishValues(env, withDefaults.value, namespace, version, userProfile, revisionName);
  }

  /**
   `ComputeValues`. The result is what the pure pipeline yields and shares nothing with its inputs.
   The caller's values are written to only by the digests, and the vendor defaults not at all.
   */
  method ComputeValuesOf(
      g: Globals, env: Environment, user: TypedValues?, namespace: string, version: string,
      userProfile: string, revisionName: string)
    returns (res: Result<TypedValues, ValuesError>)
    requires g.Valid() && env.vendorDefaults == g.Defaults()
    modifies user
    ensures g.Valid() && g.Defaults() == old(g.Defaults())
    ensures user != null ==> TreeOf(user) == ApplyDigests(version, old(TreeOf(user)), env.digests)
    ensures res.Ok? ==> fresh(res.value)
    ensures res.Ok? ==>
              ComputeValues(env, old(TreeOf(user)), namespace, version, userProfile, revisionName) == Ok(res.value.tree)
    ensures res.Err? ==>
              ComputeValues(env, old(TreeOf(user)), namespace, version, userProfile, revisionName) == Err(res.error)
  {
    FootprintIsAllocated(g);
    res := ComputeWith(g, env, user, namespace, version, userProfile, revisionName);
  }

  method ComputeOne(g: Globals, env: Environment, q: Request) returns (r: Result<Fields, ValuesError>)
    requires g.Valid() && env.vendorDefaults == g.Defaults()
    ensures g.Valid() && g.Defaults() == env.vendorDefaults
    ensures r == Answer(env, q)
  {
    FootprintIsAllocated(g);
    var user: TypedValues? := null;
    if q.user.Some? {
      user := new TypedValues(q.user.value);
    }
    var v := ComputeValuesOf(g, env, user, q.namespace, q.version, q.userProfile, q.revisionName);
    match v
    case Ok(values) => r := Ok(values.tree);
    case Err(e) => r := Err(e);
  }

  /** However often values are computed, every result is the one that the initial vendor defaults yield. */
  method ComputeAll(g: Globals, env: Environment, requests: seq<Request>)
    returns (results: seq<Result<Fields, ValuesError>>)
    requires g.Valid() && env.vendorDefaults == g.Defaults()
    ensures g.Valid() && g.Defaults() == env.vendorDefaults
    ensures |results| == |requests| && forall i | 0 <= i < |requests| :: results[i] == Answer(env, requests[i])
  {
    results := [];
    FootprintIsAllocated(g);
    for i := 0 to |requests|
      invariant g.Valid() && g.Defaults() == env.vendorDefaults
      invariant |results| == i && forall j | 0 <= j < i :: results[j] == Answer(env, requests[j])
    {
      var r := ComputeOne(g, env, requests[i]);
      results := results + [r];
    }
  }
}
