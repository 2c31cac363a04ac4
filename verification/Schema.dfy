/**
 Conversion between untyped trees and the typed `v1.Values`.

 A typed value is represented by its JSON encoding, so that encoding it (`FromValues`) is the
 identity and `ToValues` is `Decode`: decoding into the Go types and encoding again. Decoding
 drops what the type does not declare, fails where a value has the wrong kind, and `omitempty`
 drops nil, empty maps and slices, and zero values.
 */
module Schema {
  import opened Wrappers
  import opened JsonTree

  datatype Kind = BoolKind | NumberKind | StringKind

  /** The Go types that occur below `v1.Values`. A struct may be nil. */
  datatype Type =
    | Scalar(kind: Kind, nullable: bool)
    | Struct(fields: map<string, Field>)
    | Dict(elem: Type)
    | Slice(elem: Type)
    | Raw

  datatype Field = Field(typ: Type, omitEmpty: bool)

  datatype FieldValue = Bad | Omitted | Present(value: Val)

  function Zero(kind: Kind): Val {
    match kind
    case BoolKind => Bool(false)
    case NumberKind => Number(0)
    case StringKind => Str("")
  }

  predicate HasKind(v: Val, kind: Kind) {
    match kind
    case BoolKind => v.Bool?
    case NumberKind => v.Number?
    case StringKind => v.Str?
  }

  /** What `omitempty` drops. */
  predicate IsEmpty(t: Type, v: Val) {
    match t
    case Scalar(kind, nullable) => if nullable then v.Null? else v == Zero(kind)
    case Struct(_) => v.Null?
    case Dict(_) => v.Null? || v == Obj(map[])
    case Slice(_) => v.Null? || v == List([])
    case Raw => false
  }

  function Decode(t: Type, v: Val): Option<Val>
    decreases t, 0, 0
  {
    match t
    case Scalar(kind, nullable) =>
      if v.Null? then Some(if nullable then Null else Zero(kind))
      else if HasKind(v, kind) then Some(v)
      else None
    case Struct(fs) =>
      if v.Null? then Some(Null)
      else if v.Obj? then
        if exists f | f in fs :: DecodeField(fs[f].typ, fs[f].omitEmpty, v.fields, f).Bad? then None
        else Some(Obj(map f | f in fs && DecodeField(fs[f].typ, fs[f].omitEmpty, v.fields, f).Present? ::
                        DecodeField(fs[f].typ, fs[f].omitEmpty, v.fields, f).value))
      else None
    case Dict(elem) =>
      if v.Null? then Some(Null)
      else if v.Obj? then
        if exists k | k in v.fields :: Decode(elem, v.fields[k]).None? then None
        else Some(Obj(map k | k in v.fields :: Decode(elem, v.fields[k]).value))
      else None
    case Slice(elem) =>
      if v.Null? then Some(Null)
      else if v.List? then
        if exists i | 0 <= i < |v.items| :: Decode(elem, v.items[i]).None? then None
        else Some(List(seq(|v.items|, i requires 0 <= i < |v.items| && Decode(elem, v.items[i]).Some? =>
                             Decode(elem, v.items[i]).value)))
      else None
    case Raw => Some(v)
  }

  /** The encoding of the struct field `f` after decoding the map `m`. */
  function DecodeField(typ: Type, omitEmpty: bool, m: Fields, f: string): FieldValue
    decreases typ, 1, 0
  {
    if f !in m && typ.Raw? then (if omitEmpty then Omitted else Present(Null))
    else
      match Decode(typ, if f in m then m[f] else Null)
      case None => Bad
      case Some(e) => if omitEmpty && IsEmpty(typ, e) then Omitted else Present(e)
  }

  /** The encodings of typed values: what decoding leaves unchanged. */
  predicate Canonical(t: Type, v: Val) {
    Decode(t, v) == Some(v)
  }

  // ----- What decodes, and what is dropped -----

  /** Every value is null or of the kind that the type asks for; fields that are not declared do not count. */
  ghost predicate Conforms(t: Type, v: Val)
    decreases t
  {
    v.Null? ||
    match t
    case Scalar(BoolKind, _) => v.Bool?
    case Scalar(NumberKind, _) => v.Number?
    case Scalar(StringKind, _) => v.Str?
    case Struct(fs) => v.Obj? && forall f | f in fs && f in v.fields :: Conforms(fs[f].typ, v.fields[f])
    case Dict(elem) => v.Obj? && forall k | k in v.fields :: Conforms(elem, v.fields[k])
    case Slice(elem) => v.List? && forall i | 0 <= i < |v.items| :: Conforms(elem, v.items[i])
    case Raw => true
  }

  lemma {:induction false} DecodesIff(t: Type, v: Val)
    ensures Decode(t, v).Some? <==> Conforms(t, v)
    decreases t
  {
    match t
    case Struct(fs) =>
      if v.Obj? {
        forall f | f in fs
          ensures DecodeField(fs[f].typ, fs[f].omitEmpty, v.fields, f).Bad? <==>
                  f in v.fields && !Conforms(fs[f].typ, v.fields[f])
        {
          DecodesIff(fs[f].typ, if f in v.fields then v.fields[f] else Null);
        }
      }
    case Dict(elem) =>
      if v.Obj? {
        forall k | k in v.fields
          ensures Decode(elem, v.fields[k]).Some? <==> Conforms(elem, v.fields[k])
        {
          DecodesIff(elem, v.fields[k]);
        }
      }
    case Slice(elem) =>
      if v.List? {
        forall i | 0 <= i < |v.items|
          ensures Decode(elem, v.items[i]).Some? <==> Conforms(elem, v.items[i])
        {
          DecodesIff(elem, v.items[i]);
        }
      }
    case _ =>
  }

  /** What an optional field of the type may hold without being written. */
  ghost predicate IsNothing(t: Type, v: Val) {
    match t
    case Scalar(BoolKind, false) => v == Null || v == Bool(false)
    case Scalar(NumberKind, false) => v == Null || v == Number(0)
    case Scalar(StringKind, false) => v == Null || v == Str("")
    case Scalar(_, true) => v == Null
    case Struct(_) => v == Null
    case Dict(_) => v == Null || v == Obj(map[])
    case Slice(_) => v == Null || v == List([])
    case Raw => false
  }

  /** A field is dropped exactly if it is optional, and absent or nothing; scalars are written as they are read. */
  lemma OmittedIff(typ: Type, omitEmpty: bool, m: Fields, f: string)
    requires f in m ==> Conforms(typ, m[f])
    ensures var d := DecodeField(typ, omitEmpty, m, f);
            && !d.Bad?
            && (d.Omitted? <==> omitEmpty && (f !in m || IsNothing(typ, m[f])))
            && (d.Present? && typ.Scalar? && f in m && m[f] != Null ==> d.value == m[f])
  {
    DecodesIff(typ, if f in m then m[f] else Null);
  }

  lemma StructDependsOnFields(fs: map<string, Field>, m: Fields, n: Fields)
    requires forall f | f in fs ::
      DecodeField(fs[f].typ, fs[f].omitEmpty, m, f) == DecodeField(fs[f].typ, fs[f].omitEmpty, n, f)
    ensures Decode(Struct(fs), Obj(m)) == Decode(Struct(fs), Obj(n))
  {
    if Decode(Struct(fs), Obj(n)).Some? {
      var dm, dn := Decode(Struct(fs), Obj(m)).value.fields, Decode(Struct(fs), Obj(n)).value.fields;
      assert dm.Keys == dn.Keys;
      assert dm == dn;
    }
  }

  /** Decoding is a projection: what it yields is a typed value. */
  lemma {:induction false} DecodeIsProjection(t: Type, v: Val)
    requires Decode(t, v).Some?
    ensures Canonical(t, Decode(t, v).value)
    decreases t
  {
    var w := Decode(t, v).value;
    match t
    case Scalar(kind, nullable) =>
    case Struct(fs) =>
      if v.Obj? {
        forall f | f in fs
          ensures DecodeField(fs[f].typ, fs[f].omitEmpty, w.fields, f) ==
                  DecodeField(fs[f].typ, fs[f].omitEmpty, v.fields, f)
        {
          if Decode(fs[f].typ, if f in v.fields then v.fields[f] else Null).Some? {
            DecodeIsProjection(fs[f].typ, if f in v.fields then v.fields[f] else Null);
          }
        }
        StructDependsOnFields(fs, w.fields, v.fields);
        assert Decode(t, w) == Decode(t, v);
      }
    case Dict(elem) =>
      if v.Obj? {
        forall k | k in v.fields
          ensures Decode(elem, w.fields[k]) == Some(w.fields[k])
        {
          DecodeIsProjection(elem, v.fields[k]);
        }
        assert Decode(t, w).value.fields == w.fields;
      }
    case Slice(elem) =>
      if v.List? {
        forall i | 0 <= i < |v.items|
          ensures Decode(elem, w.items[i]) == Some(w.items[i])
        {
          DecodeIsProjection(elem, v.items[i]);
        }
        assert Decode(t, w).value.items == w.items;
      }
    case Raw =>
  }

  lemma DecodeKeepsMaps(t: Type, v: Val)
    requires Decode(t, v).Some?
    ensures Decode(t, v).value.Obj? <==> v.Obj?
  {
  }

  // ----- Which keys a tree keeps -----

  /** `w` has every key of `u`, with a map where `u` has a map. */
  ghost predicate Covers(u: Fields, w: Fields)
    decreases Obj(u)
  {
    forall k | k in u ::
      && k in w
      && (u[k].Obj? <==> w[k].Obj?)
      && (u[k].Obj? && w[k].Obj? ==> Covers(u[k].fields, w[k].fields))
  }

  /** `w` has every key of `u`, and every leaf of `u` unchanged. */
  ghost predicate Keeps(u: Fields, w: Fields)
    decreases Obj(u)
  {
    forall k | k in u ::
      && k in w
      && (if u[k].Obj? then w[k].Obj? && Keeps(u[k].fields, w[k].fields) else w[k] == u[k])
  }

  lemma {:induction false} KeepsCovers(u: Fields, w: Fields)
    requires Keeps(u, w)
    ensures Covers(u, w)
    decreases Obj(u)
  {
    forall k | k in u && u[k].Obj?
      ensures Covers(u[k].fields, w[k].fields)
    {
      KeepsCovers(u[k].fields, w[k].fields);
    }
  }

  lemma {:induction false} CoversTransitive(u: Fields, v: Fields, w: Fields)
    requires Covers(u, v) && Covers(v, w)
    ensures Covers(u, w)
    decreases Obj(u)
  {
    forall k | k in u && u[k].Obj?
      ensures Covers(u[k].fields, w[k].fields)
    {
      CoversTransitive(u[k].fields, v[k].fields, w[k].fields);
    }
  }

  lemma {:induction false} KeepsTransitive(u: Fields, v: Fields, w: Fields)
    requires Keeps(u, v) && Keeps(v, w)
    ensures Keeps(u, w)
    decreases Obj(u)
  {
    forall k | k in u && u[k].Obj?
      ensures Keeps(u[k].fields, w[k].fields)
    {
      KeepsTransitive(u[k].fields, v[k].fields, w[k].fields);
    }
  }

  lemma {:induction false} KeepsItself(u: Fields)
    ensures Keeps(u, u)
    decreases Obj(u)
  {
    forall k | k in u && u[k].Obj?
      ensures Keeps(u[k].fields, u[k].fields)
    {
      KeepsItself(u[k].fields);
    }
  }

  /** A merge keeps its overrides. */
  lemma {:induction false} OverlayKeepsOverrides(b: Fields, o: Fields)
    ensures Keeps(o, Overlay(b, o))
    decreases Obj(o)
  {
    forall k | k in o && o[k].Obj?
      ensures Keeps(o[k].fields, Overlay(b, o)[k].fields)
    {
      if k in b && b[k].Obj? {
        OverlayKeepsOverrides(b[k].fields, o[k].fields);
      } else {
        KeepsItself(o[k].fields);
      }
    }
  }

  /** Leaves that are kept are found at the same path. */
  lemma {:induction false} KeptLeaf(u: Fields, w: Fields, path: seq<string>)
    requires Keeps(u, w) && path != [] && At(u, path).Some? && !At(u, path).value.Obj?
    ensures At(w, path) == At(u, path)
    decreases |path|
  {
    if |path| > 1 {
      KeptLeaf(u[path[0]].fields, w[path[0]].fields, path[1..]);
    }
  }

  lemma {:induction false} CoveredPath(u: Fields, w: Fields, path: seq<string>)
    requires Covers(u, w) && path != [] && At(u, path).Some?
    ensures At(w, path).Some?
    decreases |path|
  {
    if |path| > 1 {
      CoveredPath(u[path[0]].fields, w[path[0]].fields, path[1..]);
    }
  }

  // ----- Decoding a merge -----

  /** Decoding a tree that keeps a typed value keeps that value. */
  lemma {:induction false} DecodeKeepsTyped(t: Type, u: Fields, m: Fields)
    requires Canonical(t, Obj(u)) && Keeps(u, m) && Decode(t, Obj(m)).Some?
    ensures Keeps(u, Decode(t, Obj(m)).value.fields)
    decreases t
  {
    var w := Decode(t, Obj(m)).value.fields;
    match t
    case Struct(fs) =>
      forall k | k in u
        ensures k in w && (if u[k].Obj? then w[k].Obj? && Keeps(u[k].fields, w[k].fields) else w[k] == u[k])
      {
        assert k in fs && DecodeField(fs[k].typ, fs[k].omitEmpty, u, k) == Present(u[k]);
        assert !DecodeField(fs[k].typ, fs[k].omitEmpty, m, k).Bad?;
        if u[k].Obj? && !fs[k].typ.Raw? {
          DecodeKeepsTyped(fs[k].typ, u[k].fields, m[k].fields);
        }
      }
    case Dict(elem) =>
      forall k | k in u
        ensures k in w && (if u[k].Obj? then w[k].Obj? && Keeps(u[k].fields, w[k].fields) else w[k] == u[k])
      {
        assert Decode(elem, u[k]) == Some(u[k]);
        if u[k].Obj? && !elem.Raw? {
          DecodeKeepsTyped(elem, u[k].fields, m[k].fields);
        }
      }
    case Raw =>
    case Scalar(_, _) =>
    case Slice(_) =>
  }

  lemma {:induction false} CoveredMergeAbsorbs(a: Fields, u: Fields, y: Fields)
    requires Covers(Overlay(a, u), y)
    ensures AbsorbedBy(a, y)
    decreases Obj(a)
  {
    var m := Overlay(a, u);
    forall k | k in a && a[k].Obj? && k in y && y[k].Obj?
      ensures AbsorbedBy(a[k].fields, y[k].fields)
    {
      assert k in m && m[k].Obj?;
      if k in u {
        CoveredMergeAbsorbs(a[k].fields, u[k].fields, y[k].fields);
      } else {
        OverlayUnits(a[k].fields);
        CoveredMergeAbsorbs(a[k].fields, map[], y[k].fields);
      }
    }
    forall k | k in a
      ensures k in y
    {
      assert k in m;
    }
  }

  lemma DictDecodesTo(elem: Type, m: Fields, w: Fields)
    requires m.Keys == w.Keys && forall k | k in w :: Decode(elem, m[k]) == Some(w[k])
    ensures Decode(Dict(elem), Obj(m)) == Some(Obj(w))
  {
    assert Decode(Dict(elem), Obj(m)).value.fields == w;
  }

  /**
   Merging defaults under a value a second time has no effect: if `w` is the typed result of
   merging `u` over the defaults `a`, then a typed value `y` that has the keys of `w` is itself
   the typed result of merging `y` over `a`.
   */
  lemma {:induction false} DefaultsAreAbsorbed(t: Type, a: Fields, u: Fields, w: Fields, y: Fields)
    requires Decode(t, Obj(Overlay(a, u))) == Some(Obj(w))
    requires Covers(u, w) && Covers(w, y) && Canonical(t, Obj(y))
    ensures Decode(t, Obj(Overlay(a, y))) == Some(Obj(y))
    decreases t, 0
  {
    match t
    case Struct(fs) =>
      forall f | f in fs
        ensures DecodeField(fs[f].typ, fs[f].omitEmpty, Overlay(a, y), f) ==
                DecodeField(fs[f].typ, fs[f].omitEmpty, y, f)
      {
        FieldDefaultIsAbsorbed(fs, a, u, w, y, f);
      }
      StructDependsOnFields(fs, Overlay(a, y), y);
    case Dict(elem) =>
      assert Overlay(a, y).Keys == y.Keys by {
        forall k | k in a ensures k in y { assert k in Overlay(a, u) && k in w; }
      }
      forall k | k in y
        ensures Decode(elem, Overlay(a, y)[k]) == Some(y[k])
      {
        assert Decode(elem, y[k]) == Some(y[k]);
        if k in a && a[k].Obj? && y[k].Obj? {
          assert k in Overlay(a, u) && k in w && Decode(elem, Overlay(a, u)[k]) == Some(w[k]);
          DecodeKeepsMaps(elem, Overlay(a, u)[k]);
          OverlayUnits(a[k].fields);
          DefaultsAreAbsorbed(elem, a[k].fields, if k in u then u[k].fields else map[], w[k].fields, y[k].fields);
        }
      }
      DictDecodesTo(elem, Overlay(a, y), y);
    case Raw =>
      CoveredMergeAbsorbs(a, u, y);
      AbsorbedIffNoEffect(a, y);
    case Scalar(_, _) =>
    case Slice(_) =>
  }

  lemma OverlaidMap(a: Fields, u: Fields, f: string)
    requires f in a && a[f].Obj? && (f in u ==> u[f].Obj?)
    ensures f in Overlay(a, u)
    ensures Overlay(a, u)[f] == Obj(Overlay(a[f].fields, if f in u then u[f].fields else map[]))
  {
  }

  lemma {:induction false} FieldDefaultIsAbsorbed(
      fs: map<string, Field>, a: Fields, u: Fields, w: Fields, y: Fields, f: string)
    requires f in fs
    requires Decode(Struct(fs), Obj(Overlay(a, u))) == Some(Obj(w))
    requires Covers(u, w) && Covers(w, y) && Canonical(Struct(fs), Obj(y))
    ensures DecodeField(fs[f].typ, fs[f].omitEmpty, Overlay(a, y), f) ==
            DecodeField(fs[f].typ, fs[f].omitEmpty, y, f)
    decreases fs[f].typ, 1
  {
    var typ, omitEmpty := fs[f].typ, fs[f].omitEmpty;
    var before := DecodeField(typ, omitEmpty, Overlay(a, u), f);
    var own := DecodeField(typ, omitEmpty, y, f);
    assert !before.Bad? && (before.Present? <==> f in w) && (before.Present? ==> before.value == w[f]);
    assert !own.Bad? && (own.Present? <==> f in y) && (own.Present? ==> own.value == y[f]);
    if f in y {
      if f in a && a[f].Obj? && y[f].Obj? {
        var under: Fields := if f in u then u[f].fields else map[];
        OverlaidMap(a, u, f);
        var decoded := Decode(typ, Overlay(a, u)[f]);
        DecodeKeepsMaps(typ, Overlay(a, u)[f]);
        assert before.Omitted? ==> decoded.value == Obj(map[]);
        assert Decode(typ, y[f]) == Some(y[f]);
        DefaultsAreAbsorbed(typ, a[f].fields, under, decoded.value.fields, y[f].fields);
      }
    } else {
      assert f !in w && f !in u;
    }
  }
}
