/**
 Reading and setting a field at a path of a nested map, as `helm.Values` does through the
 unstructured helpers: a level that holds something other than a map is an error, except that
 reading treats a null level as an absent field.
 */
module NestedFields {
  import opened Wrappers
  import opened JsonTree
  import opened Schema

  datatype Lookup = Found(value: Val) | Missing | NotAMap

  datatype PathError = CannotGet(path: seq<string>) | CannotSet(path: seq<string>)

  function Get(m: Fields, path: seq<string>): Lookup
    requires path != []
    decreases |path|
  {
    if path[0] !in m then Missing
    else if |path| == 1 then Found(m[path[0]])
    else
      match m[path[0]]
      case Obj(sub) => Get(sub, path[1..])
      case Null => Missing
      case _ => NotAMap
  }

  function Set(m: Fields, path: seq<string>, v: Val): Result<Fields, PathError>
    requires path != []
    decreases |path|
  {
    if |path| == 1 then Ok(m[path[0] := v])
    else if path[0] in m && !m[path[0]].Obj? then Err(CannotSet(path))
    else
      match Set(if path[0] in m then m[path[0]].fields else map[], path[1..], v)
      case Ok(sub) => Ok(m[path[0] := Obj(sub)])
      case Err(e) => Err(e)
  }

  function SetIfAbsent(m: Fields, path: seq<string>, v: Val): Result<Fields, PathError>
    requires path != []
  {
    match Get(m, path)
    case NotAMap => Err(CannotGet(path))
    case Found(_) => Ok(m)
    case Missing => Set(m, path, v)
  }

  lemma {:induction false} FoundIffAt(m: Fields, path: seq<string>)
    requires path != []
    ensures Get(m, path).Found? <==> At(m, path).Some?
    ensures Get(m, path).Found? ==> At(m, path) == Some(Get(m, path).value)
    decreases |path|
  {
    if |path| > 1 && path[0] in m && m[path[0]].Obj? {
      FoundIffAt(m[path[0]].fields, path[1..]);
    }
  }

  /** SetIfAbsent fails exactly when a level above the field holds something other than a map. */
  ghost predicate Blocked(m: Fields, path: seq<string>)
    requires path != []
    decreases |path|
  {
    |path| > 1 && path[0] in m && (m[path[0]].Obj? ==> Blocked(m[path[0]].fields, path[1..]))
  }

  lemma {:induction false} SetFailsIffBlocked(m: Fields, path: seq<string>, v: Val)
    requires path != []
    ensures Set(m, path, v).Err? <==> Blocked(m, path)
    decreases |path|
  {
    if |path| > 1 && (path[0] in m ==> m[path[0]].Obj?) {
      var sub: Fields := if path[0] in m then m[path[0]].fields else map[];
      SetFailsIffBlocked(sub, path[1..], v);
    }
  }

  lemma {:induction false} FoundNotBlocked(m: Fields, path: seq<string>)
    requires path != []
    ensures Get(m, path).Found? ==> !Blocked(m, path)
    ensures Get(m, path).NotAMap? ==> Blocked(m, path)
    decreases |path|
  {
    if |path| > 1 && path[0] in m && m[path[0]].Obj? {
      FoundNotBlocked(m[path[0]].fields, path[1..]);
    }
  }

  /** A present field keeps its value, an absent one gets `v`, and everything else stays. */
  lemma {:induction false} SetIfAbsentMeaning(m: Fields, path: seq<string>, v: Val)
    requires path != []
    ensures SetIfAbsent(m, path, v).Err? <==> Blocked(m, path)
    ensures SetIfAbsent(m, path, v).Ok? ==>
              var r := SetIfAbsent(m, path, v).value;
              && Keeps(m, r)
              && At(r, path) == Some(if At(m, path).Some? then At(m, path).value else v)
              && (At(m, path).Some? ==> r == m)
              && (forall k | k in m && k != path[0] :: r[k] == m[k])
              && (forall k | k in r && k != path[0] :: k in m)
  {
    FoundIffAt(m, path);
    FoundNotBlocked(m, path);
    SetFailsIffBlocked(m, path, v);
    KeepsItself(m);
    if Get(m, path).Missing? && Set(m, path, v).Ok? {
      SetOnlyAdds(m, path, v);
    }
  }

  lemma {:induction false} SetOnlyAdds(m: Fields, path: seq<string>, v: Val)
    requires path != [] && At(m, path).None? && Set(m, path, v).Ok?
    ensures Keeps(m, Set(m, path, v).value)
    ensures At(Set(m, path, v).value, path) == Some(v)
    decreases |path|
  {
    KeepsItself(m);
    if |path| > 1 {
      var sub: Fields := if path[0] in m then m[path[0]].fields else map[];
      SetOnlyAdds(sub, path[1..], v);
      forall k | k in m && m[k].Obj?
        ensures Keeps(m[k].fields, m[k].fields)
      {
        KeepsItself(m[k].fields);
      }
    }
  }

  // ----- Fields that the typed values declare -----

  /** `path` leads through optional structs to an optional string, or to an entry of an optional string map. */
  ghost predicate DeclaresString(t: Type, path: seq<string>)
    requires path != []
    decreases |path|
  {
    match t
    case Struct(fs) =>
      && path[0] in fs
      && fs[path[0]].omitEmpty
      && (if |path| == 1 then fs[path[0]].typ == Scalar(StringKind, true)
          else DeclaresString(fs[path[0]].typ, path[1..]))
    case Dict(elem) => |path| == 1 && elem == Scalar(StringKind, false)
    case _ => false
  }

  /** A typed value never holds anything but maps on the way to a declared string. */
  lemma {:induction false} TypedNotBlocked(t: Type, m: Fields, path: seq<string>)
    requires path != [] && DeclaresString(t, path) && Canonical(t, Obj(m))
    ensures !Blocked(m, path)
    decreases |path|
  {
    if |path| > 1 && path[0] in m {
      var f := t.fields[path[0]];
      assert DecodeField(f.typ, f.omitEmpty, m, path[0]) == Present(m[path[0]]);
      assert m[path[0]].Obj?;
      TypedNotBlocked(f.typ, m[path[0]].fields, path[1..]);
    }
  }

  /** Decoding keeps a string at a declared path. */
  lemma {:induction false} DecodeKeepsString(t: Type, m: Fields, path: seq<string>, s: string)
    requires path != [] && DeclaresString(t, path) && Decode(t, Obj(m)).Some? && At(m, path) == Some(Str(s))
    ensures At(Decode(t, Obj(m)).value.fields, path) == Some(Str(s))
    decreases |path|
  {
    var w := Decode(t, Obj(m)).value.fields;
    if t.Struct? {
      var f := t.fields[path[0]];
      assert !DecodeField(f.typ, f.omitEmpty, m, path[0]).Bad?;
      if |path| > 1 {
        DecodeKeepsString(f.typ, m[path[0]].fields, path[1..], s);
        assert path[0] in w;
      }
    }
  }

  /** If a tree decodes after a declared string was added to it, it decodes without it too. */
  lemma {:induction false} DecodeWithoutString(t: Type, m: Fields, path: seq<string>, s: string)
    requires path != [] && DeclaresString(t, path) && At(m, path).None? && Set(m, path, Str(s)).Ok?
    requires Decode(t, Obj(Set(m, path, Str(s)).value)).Some?
    ensures Decode(t, Obj(m)).Some?
    ensures Covers(Decode(t, Obj(m)).value.fields, Decode(t, Obj(Set(m, path, Str(s)).value)).value.fields)
    decreases |path|, 1
  {
    var m' := Set(m, path, Str(s)).value;
    match t
    case Struct(fs) =>
      forall f | f in fs
        ensures FieldCovers(fs[f], m, m', f)
      {
        FieldWithoutString(fs, m, path, s, f);
      }
      StructCovers(fs, m, m');
    case Dict(elem) =>
      forall f | f in m
        ensures Decode(elem, m[f]).Some?
      {
        assert f in m' && m'[f] == m[f];
      }
      var w, w' := Decode(t, Obj(m)).value.fields, Decode(t, Obj(m')).value.fields;
      forall f | f in w
        ensures f in w' && w[f] == w'[f]
        ensures w[f].Obj? ==> Covers(w[f].fields, w'[f].fields)
      {
        CoversItself(w[f]);
      }
  }

  ghost predicate FieldCovers(field: Field, m: Fields, m': Fields, f: string) {
    var d, d' := DecodeField(field.typ, field.omitEmpty, m, f), DecodeField(field.typ, field.omitEmpty, m', f);
    && !d.Bad?
    && (d.Present? ==>
          && d'.Present?
          && (d.value.Obj? <==> d'.value.Obj?)
          && (d.value.Obj? && d'.value.Obj? ==> Covers(d.value.fields, d'.value.fields)))
  }

  lemma StructCovers(fs: map<string, Field>, m: Fields, m': Fields)
    requires forall f | f in fs :: FieldCovers(fs[f], m, m', f)
    requires Decode(Struct(fs), Obj(m')).Some?
    ensures Decode(Struct(fs), Obj(m)).Some?
    ensures Covers(Decode(Struct(fs), Obj(m)).value.fields, Decode(Struct(fs), Obj(m')).value.fields)
  {
  }

  lemma {:induction false} FieldWithoutString(
      fs: map<string, Field>, m: Fields, path: seq<string>, s: string, f: string)
    requires path != [] && DeclaresString(Struct(fs), path) && At(m, path).None? && Set(m, path, Str(s)).Ok?
    requires Decode(Struct(fs), Obj(Set(m, path, Str(s)).value)).Some?
    requires f in fs
    ensures FieldCovers(fs[f], m, Set(m, path, Str(s)).value, f)
    decreases |path|, 0
  {
    var m' := Set(m, path, Str(s)).value;
    var typ, omitEmpty := fs[f].typ, fs[f].omitEmpty;
    var d, d' := DecodeField(typ, omitEmpty, m, f), DecodeField(typ, omitEmpty, m', f);
    assert !d'.Bad?;
    if f != path[0] {
      assert d == d';
      if d.Present? {
        CoversItself(d.value);
      }
    } else if f !in m {
      assert typ.Struct? || typ.Dict? || typ == Scalar(StringKind, true);
      assert Decode(typ, Null) == Some(Null);
    } else {
      assert m[f].Obj? && m'[f] == Obj(Set(m[f].fields, path[1..], Str(s)).value);
      DecodeWithoutString(typ, m[f].fields, path[1..], s);
      if d'.Omitted? {
        CoversEmptiness(Decode(typ, m[f]).value.fields, Decode(typ, m'[f]).value.fields);
      }
    }
  }

  lemma CoversEmptiness(u: Fields, w: Fields)
    requires Covers(u, w) && w == map[]
    ensures u == map[]
  {
  }

  lemma CoversItself(v: Val)
    ensures v.Obj? ==> Covers(v.fields, v.fields)
  {
    if v.Obj? {
      KeepsItself(v.fields);
      KeepsCovers(v.fields, v.fields);
    }
  }

  /** A field present in a merge over `a` is present in a merge over `a` of a value with more keys. */
  lemma {:induction false} MergedPathStays(a: Fields, u: Fields, y: Fields, path: seq<string>)
    requires path != [] && At(Overlay(a, u), path).Some? && Covers(u, y) && !Blocked(y, path)
    ensures At(Overlay(a, y), path).Some?
    decreases |path|
  {
    var k := path[0];
    if |path| > 1 && k in y {
      assert y[k].Obj?;
      if k in a && a[k].Obj? {
        OverlayUnits(a[k].fields);
        MergedPathStays(a[k].fields, if k in u then u[k].fields else map[], y[k].fields, path[1..]);
      } else {
        assert k in u;
        CoveredPath(u[k].fields, y[k].fields, path[1..]);
      }
    }
  }
}
