/**
 The nested `map[string]any` values that the operator merges, as pure trees, and the algebra
 of the merge.

 `Overlay(b, o)` is the tree that merging the overrides `o` into the base `b` leaves behind:
 maps are merged key by key, and anything else in `o` replaces what `b` has. The in-place
 algorithm that computes it is in MergeHeap.dfy.
 */
module JsonTree {
  import opened Wrappers

  type Fields = map<string, Val>

  datatype Val =
    | Null
    | Bool(b: bool)
    | Number(n: int)
    | Str(s: string)
    | List(items: seq<Val>)
    | Obj(fields: Fields)

  /** The right-biased deep merge. */
  function Overlay(b: Fields, o: Fields): Fields
    decreases Obj(o)
  {
    map k | k in b.Keys + o.Keys ::
      if k !in o then b[k]
      else if k in b && b[k].Obj? && o[k].Obj? then Obj(Overlay(b[k].fields, o[k].fields))
      else o[k]
  }

  /** The value at a path; None where the path is absent or runs through something that is not a map. */
  function At(m: Fields, path: seq<string>): Option<Val>
    requires path != []
    decreases |path|
  {
    if path[0] !in m then None
    else if |path| == 1 then Some(m[path[0]])
    else if m[path[0]].Obj? then At(m[path[0]].fields, path[1..])
    else None
  }

  /** A leaf: present, and not a map. */
  predicate IsLeaf(m: Fields, path: seq<string>)
    requires path != []
  {
    At(m, path).Some? && !At(m, path).value.Obj?
  }

  /** The tree says nothing about a path: going down it ends at a missing key. */
  predicate Silent(m: Fields, path: seq<string>)
    requires path != []
    decreases |path|
  {
    path[0] in m ==> |path| > 1 && m[path[0]].Obj? && Silent(m[path[0]].fields, path[1..])
  }

  lemma {:induction false} SilentIsAbsent(m: Fields, path: seq<string>)
    requires path != [] && Silent(m, path)
    ensures At(m, path).None?
    decreases |path|
  {
    if path[0] in m {
      SilentIsAbsent(m[path[0]].fields, path[1..]);
    }
  }

  /** Where the overrides say nothing, a merge is what its base is; where they have a leaf, it is theirs. */
  lemma {:induction false} OverlayAt(b: Fields, o: Fields, path: seq<string>)
    requires path != []
    ensures Silent(o, path) ==> At(Overlay(b, o), path) == At(b, path)
    ensures Silent(o, path) && Silent(b, path) ==> Silent(Overlay(b, o), path)
    ensures IsLeaf(o, path) ==> At(Overlay(b, o), path) == At(o, path)
    decreases |path|
  {
    var k := path[0];
    if |path| > 1 && k in o && o[k].Obj? {
      if k in b && b[k].Obj? {
        OverlayAt(b[k].fields, o[k].fields, path[1..]);
      } else if Silent(o, path) {
        SilentIsAbsent(o[k].fields, path[1..]);
      }
    }
  }

  // ----- Units and idempotence -----

  lemma {:induction false} OverlayUnits(m: Fields)
    ensures Overlay(map[], m) == m
    ensures Overlay(m, map[]) == m
  {
  }

  lemma {:induction false} OverlaySelf(m: Fields)
    ensures Overlay(m, m) == m
    decreases Obj(m)
  {
    forall k | k in m && m[k].Obj?
      ensures Overlay(m[k].fields, m[k].fields) == m[k].fields
    {
      OverlaySelf(m[k].fields);
    }
  }

  /** Merging the same overrides a second time changes nothing. */
  lemma {:induction false} OverlayIdempotent(b: Fields, o: Fields)
    ensures Overlay(Overlay(b, o), o) == Overlay(b, o)
    decreases Obj(o)
  {
    var r := Overlay(b, o);
    forall k | k in o && o[k].Obj?
      ensures r[k].Obj? && Overlay(r[k].fields, o[k].fields) == r[k].fields
    {
      if k in b && b[k].Obj? {
        OverlayIdempotent(b[k].fields, o[k].fields);
      } else {
        OverlaySelf(o[k].fields);
      }
    }
    assert Overlay(r, o).Keys == r.Keys;
  }

  // ----- What the merge keeps -----

  /** Every key of `a` is in `c`, at every level where both are maps. */
  ghost predicate AbsorbedBy(a: Fields, c: Fields)
    decreases Obj(a)
  {
    forall k | k in a ::
      && k in c
      && (a[k].Obj? && c[k].Obj? ==> AbsorbedBy(a[k].fields, c[k].fields))
  }

  /** A merge leaves its overrides as they are exactly when they already have every key of the base. */
  lemma {:induction false} AbsorbedIffNoEffect(a: Fields, c: Fields)
    ensures Overlay(a, c) == c <==> AbsorbedBy(a, c)
    decreases Obj(a)
  {
    var r := Overlay(a, c);
    forall k | k in a && k in c && a[k].Obj? && c[k].Obj?
      ensures r[k] == c[k] <==> AbsorbedBy(a[k].fields, c[k].fields)
    {
      AbsorbedIffNoEffect(a[k].fields, c[k].fields);
    }
    if AbsorbedBy(a, c) {
      assert r.Keys == c.Keys;
    } else {
      var k :| k in a && !(k in c && (a[k].Obj? && c[k].Obj? ==> AbsorbedBy(a[k].fields, c[k].fields)));
      assert k in r;
    }
  }

  // ----- Associativity -----

  /** No path is a map in one tree and something else in the other. */
  ghost predicate KindsAgree(a: Fields, b: Fields)
    decreases Obj(a)
  {
    forall k | k in a && k in b ::
      && (a[k].Obj? <==> b[k].Obj?)
      && (a[k].Obj? && b[k].Obj? ==> KindsAgree(a[k].fields, b[k].fields))
  }

  /**
   The paths at which the order of merging could matter are those where `a` and `c` have a map and
   `b` has something else: `b` hides the map of `a` only if it is merged first. It makes no
   difference when `c` has every key that would be hidden.
   */
  ghost predicate NothingHidden(a: Fields, b: Fields, c: Fields)
    decreases Obj(a), 1
  {
    forall k | k in a :: NothingHiddenAt(a, b, c, k)
  }

  ghost predicate NothingHiddenAt(a: Fields, b: Fields, c: Fields, k: string)
    decreases Obj(a), 0
  {
    k in a && k in b && k in c && a[k].Obj? && c[k].Obj? ==>
      if b[k].Obj? then NothingHidden(a[k].fields, b[k].fields, c[k].fields)
      else AbsorbedBy(a[k].fields, c[k].fields)
  }

  /** The exact condition under which three merges associate. */
  lemma {:induction false} OverlayAssociativeIff(a: Fields, b: Fields, c: Fields)
    ensures Overlay(Overlay(a, b), c) == Overlay(a, Overlay(b, c)) <==> NothingHidden(a, b, c)
    decreases Obj(a), 1
  {
    forall k | k in a || k in b || k in c
      ensures k in Overlay(Overlay(a, b), c) && k in Overlay(a, Overlay(b, c))
      ensures Overlay(Overlay(a, b), c)[k] == Overlay(a, Overlay(b, c))[k] <==> NothingHiddenAt(a, b, c, k)
    {
      AssociativeAtIff(a, b, c, k);
    }
    EqualEverywhere(a, b, c, Overlay(Overlay(a, b), c), Overlay(a, Overlay(b, c)));
  }

  lemma EqualEverywhere(a: Fields, b: Fields, c: Fields, left: Fields, right: Fields)
    requires left.Keys == right.Keys == a.Keys + b.Keys + c.Keys
    requires forall k | k in left :: left[k] == right[k] <==> NothingHiddenAt(a, b, c, k)
    ensures left == right <==> NothingHidden(a, b, c)
  {
  }

  lemma {:induction false} AssociativeAtIff(a: Fields, b: Fields, c: Fields, k: string)
    requires k in a || k in b || k in c
    ensures k in Overlay(Overlay(a, b), c) && k in Overlay(a, Overlay(b, c))
    ensures Overlay(Overlay(a, b), c)[k] == Overlay(a, Overlay(b, c))[k] <==> NothingHiddenAt(a, b, c, k)
    decreases Obj(a), 0
  {
    var ab, bc := Overlay(a, b), Overlay(b, c);
    var left, right := Overlay(ab, c), Overlay(a, bc);
    if k in a && k in b && k in c && a[k].Obj? && c[k].Obj? {
      var (x, z) := (a[k].fields, c[k].fields);
      if b[k].Obj? {
        var y := b[k].fields;
        OverlayAssociativeIff(x, y, z);
        assert ab[k] == Obj(Overlay(x, y)) && bc[k] == Obj(Overlay(y, z));
        assert left[k] == Obj(Overlay(Overlay(x, y), z)) && right[k] == Obj(Overlay(x, Overlay(y, z)));
      } else {
        assert ab[k] == b[k] && bc[k] == Obj(z);
        assert left[k] == Obj(z) && right[k] == Obj(Overlay(x, z));
        AbsorbedIffNoEffect(x, z);
      }
    } else {
      assert left[k] == right[k];
    }
  }

  lemma {:induction false} KindsAgreeHidesNothing(a: Fields, b: Fields, c: Fields)
    requires KindsAgree(a, b)
    ensures NothingHidden(a, b, c)
    decreases Obj(a)
  {
    forall k | k in a && k in b && k in c && a[k].Obj? && c[k].Obj?
      ensures b[k].Obj? && NothingHidden(a[k].fields, b[k].fields, c[k].fields)
    {
      KindsAgreeHidesNothing(a[k].fields, b[k].fields, c[k].fields);
    }
  }

  /** A map, then a string, then a map at one key: the merges do not associate. */
  lemma MapLeafMapDoesNotAssociate()
    ensures var a: Fields := map["k" := Obj(map["x" := Bool(true)])];
            var b: Fields := map["k" := Str("leaf")];
            var c: Fields := map["k" := Obj(map[])];
            Overlay(Overlay(a, b), c) != Overlay(a, Overlay(b, c))
  {
    var a: Fields := map["k" := Obj(map["x" := Bool(true)])];
    var b: Fields := map["k" := Str("leaf")];
    var c: Fields := map["k" := Obj(map[])];
    assert "x" in a["k"].fields && "x" !in c["k"].fields;
    assert !NothingHidden(a, b, c);
    OverlayAssociativeIff(a, b, c);
  }

  // ----- Folding a list of layers -----

  /** Merging the layers one after the other, each over the result so far. */
  function FoldLayers(start: Fields, layers: seq<Fields>): Fields
    decreases |layers|
  {
    if layers == [] then start else FoldLayers(Overlay(start, layers[0]), layers[1..])
  }

  ghost predicate AgreesWithAll(m: Fields, layers: seq<Fields>) {
    forall i | 0 <= i < |layers| :: KindsAgree(m, layers[i])
  }

  ghost predicate LayersAgree(layers: seq<Fields>) {
    forall i, j | 0 <= i < j < |layers| :: KindsAgree(layers[i], layers[j])
  }

  lemma {:induction false} OverlayKeepsAgreement(a: Fields, b: Fields, c: Fields)
    requires KindsAgree(a, c) && KindsAgree(b, c)
    ensures KindsAgree(Overlay(a, b), c)
    decreases Obj(b)
  {
    var r := Overlay(a, b);
    forall k | k in r && k in c
      ensures (r[k].Obj? <==> c[k].Obj?) && (r[k].Obj? && c[k].Obj? ==> KindsAgree(r[k].fields, c[k].fields))
    {
      if k in a && k in b && a[k].Obj? && b[k].Obj? {
        OverlayKeepsAgreement(a[k].fields, b[k].fields, c[k].fields);
      }
    }
  }

  /** Where no layer turns a map into something else or back, folding the layers over `start` is one
      merge of their combined overlay. */
  lemma {:induction false} FoldIsOneMerge(start: Fields, layers: seq<Fields>)
    requires AgreesWithAll(start, layers) && LayersAgree(layers)
    ensures FoldLayers(start, layers) == Overlay(start, FoldLayers(map[], layers))
    decreases |layers|
  {
    if layers == [] {
      OverlayUnits(start);
    } else {
      var first, rest := layers[0], layers[1..];
      forall i | 0 <= i < |rest|
        ensures KindsAgree(Overlay(start, first), rest[i]) && KindsAgree(first, rest[i])
      {
        assert rest[i] == layers[i + 1];
        OverlayKeepsAgreement(start, first, rest[i]);
      }
      assert LayersAgree(rest);
      FoldIsOneMerge(Overlay(start, first), rest);
      FoldIsOneMerge(first, rest);
      OverlayUnits(first);
      KindsAgreeHidesNothing(start, first, FoldLayers(map[], rest));
      OverlayAssociativeIff(start, first, FoldLayers(map[], rest));
    }
  }
}
