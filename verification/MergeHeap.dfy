/**
 The nested maps as the program holds them: mutable, and shared by reference. The merge works in
 place and stores sub-maps of the overrides inside the base, so that afterwards the two share them.

 What is laid out in memory is described by a ghost `Shape`: which map object sits where, and the
 leaves. `Laid(s)` says that memory looks like `s`.
 */
module MergeHeap {
  import opened Wrappers
  import opened JsonTree

  datatype Entry = Plain(value: Val) | Child(node: Node)

  /** A `map[string]any`. */
  class Node {
    var entries: map<string, Entry>

    constructor ()
      ensures entries == map[]
    {
      entries := map[];
    }
  }

  datatype Shape = Leaf(value: Val) | Map(node: Node, fields: map<string, Shape>)

  type Shapes = map<string, Shape>

  /** The tree that a shape stands for. */
  ghost function Tree(s: Shape): Val {
    match s
    case Leaf(v) => v
    case Map(_, fs) => Obj(map k | k in fs :: Tree(fs[k]))
  }

  ghost function Trees(fs: Shapes): Fields {
    map k | k in fs :: Tree(fs[k])
  }

  /** The maps of a shape, at every depth. */
  ghost function Maps(s: Shape): set<Shape> {
    match s
    case Leaf(_) => {}
    case Map(_, fs) => {s} + set k, x | k in fs && x in Maps(fs[k]) :: x
  }

  lemma {:induction false} MapsAreMaps(s: Shape, x: Shape)
    requires x in Maps(s)
    ensures x.Map?
  {
    if x != s {
      var k :| k in s.fields && x in Maps(s.fields[k]);
      MapsAreMaps(s.fields[k], x);
    }
  }

  /** The map objects of a shape. */
  ghost function Nodes(s: Shape): set<Node> {
    set x | x in Maps(s) && x.Map? :: x.node
  }

  lemma NodesOfMap(s: Shape)
    requires s.Map?
    ensures Nodes(s) == {s.node} + set k, n | k in s.fields && n in Nodes(s.fields[k]) :: n
  {
    var below := set k, n | k in s.fields && n in Nodes(s.fields[k]) :: n;
    forall n | n in Nodes(s)
      ensures n in {s.node} + below
    {
      var x :| x in Maps(s) && x.Map? && x.node == n;
      if x != s {
        var k :| k in s.fields && x in Maps(s.fields[k]);
        assert n in Nodes(s.fields[k]);
      }
    }
    forall n | n in below
      ensures n in Nodes(s)
    {
      var k :| k in s.fields && n in Nodes(s.fields[k]);
      var x :| x in Maps(s.fields[k]) && x.Map? && x.node == n;
      assert x in Maps(s);
    }
    assert s in Maps(s);
  }

  /** No map object occurs twice, and leaves are not maps. */
  ghost predicate TreeShaped(s: Shape) {
    match s
    case Leaf(v) => !v.Obj?
    case Map(n, fs) =>
      && (forall k | k in fs :: TreeShaped(fs[k]) && n !in Nodes(fs[k]))
      && (forall k, l | k in fs && l in fs && k != l :: Nodes(fs[k]) !! Nodes(fs[l]))
  }

  function EntryOf(s: Shape): Entry {
    match s
    case Leaf(v) => Plain(v)
    case Map(n, _) => Child(n)
  }

  ghost function EntriesOf(fs: Shapes): map<string, Entry> {
    map k | k in fs :: EntryOf(fs[k])
  }

  /** Memory holds the shape. */
  ghost predicate Laid(s: Shape)
    reads Nodes(s)
  {
    forall x | x in Maps(s) && x.Map? :: x.node.entries == EntriesOf(x.fields)
  }

  // ----- The merge on shapes -----

  /** The shape that a merge leaves behind: sub-maps that only the overrides have are theirs. */
  ghost function Merge(b: Shape, o: Shape): Shape
    requires b.Map? && o.Map?
    decreases o
  {
    Map(b.node, map k | k in b.fields.Keys + o.fields.Keys ::
      if k !in o.fields then b.fields[k]
      else if k in b.fields && b.fields[k].Map? && o.fields[k].Map? then Merge(b.fields[k], o.fields[k])
      else o.fields[k])
  }

  lemma FieldOfTreeShaped(s: Shape, k: string)
    requires s.Map? && TreeShaped(s) && k in s.fields
    ensures TreeShaped(s.fields[k]) && s.node !in Nodes(s.fields[k]) && Nodes(s.fields[k]) <= Nodes(s)
  {
  }

  /** No leaf is a map. */
  ghost predicate PlainLeaves(s: Shape) {
    match s
    case Leaf(v) => !v.Obj?
    case Map(_, fs) => forall k | k in fs :: PlainLeaves(fs[k])
  }

  lemma {:induction false} TreeShapedIsPlain(s: Shape)
    requires TreeShaped(s)
    ensures PlainLeaves(s)
  {
    if s.Map? {
      forall k | k in s.fields
        ensures PlainLeaves(s.fields[k])
      {
        TreeShapedIsPlain(s.fields[k]);
      }
    }
  }

  /** On the trees they stand for, merging shapes is the overlay. */
  lemma {:induction false} MergeIsOverlay(b: Shape, o: Shape)
    requires b.Map? && o.Map? && PlainLeaves(b) && PlainLeaves(o)
    ensures Trees(Merge(b, o).fields) == Overlay(Trees(b.fields), Trees(o.fields))
    decreases o, 1
  {
    forall k | k in b.fields || k in o.fields
      ensures Tree(Merge(b, o).fields[k]) == Overlay(Trees(b.fields), Trees(o.fields))[k]
    {
      MergeIsOverlayAt(b, o, k);
    }
    assert Trees(Merge(b, o).fields).Keys == Overlay(Trees(b.fields), Trees(o.fields)).Keys;
  }

  lemma {:induction false} MergeIsOverlayAt(b: Shape, o: Shape, k: string)
    requires b.Map? && o.Map? && PlainLeaves(b) && PlainLeaves(o)
    requires k in b.fields || k in o.fields
    ensures Tree(Merge(b, o).fields[k]) == Overlay(Trees(b.fields), Trees(o.fields))[k]
    decreases o, 0
  {
    if k in b.fields && k in o.fields && b.fields[k].Map? && o.fields[k].Map? {
      var x, y := b.fields[k], o.fields[k];
      MergeIsOverlay(x, y);
      assert Merge(b, o).fields[k] == Merge(x, y);
      assert Tree(Merge(x, y)) == Obj(Trees(Merge(x, y).fields));
      assert Tree(x) == Obj(Trees(x.fields)) && Tree(y) == Obj(Trees(y.fields));
    }
  }

  lemma {:induction false} NodesOfMerge(b: Shape, o: Shape)
    requires b.Map? && o.Map?
    ensures Nodes(Merge(b, o)) <= Nodes(b) + Nodes(o)
    decreases o
  {
    var m := Merge(b, o);
    forall k | k in m.fields
      ensures Nodes(m.fields[k]) <= Nodes(b) + Nodes(o)
    {
      NodesOfField(b, k);
      NodesOfField(o, k);
      if k in b.fields && k in o.fields && b.fields[k].Map? && o.fields[k].Map? {
        NodesOfMerge(b.fields[k], o.fields[k]);
      }
    }
  }

  lemma NodesOfField(s: Shape, k: string)
    requires s.Map?
    ensures s.node in Nodes(s)
    ensures k in s.fields ==> Nodes(s.fields[k]) <= Nodes(s)
  {
  }

  /** A field of a tree-shaped map replaced by something that shares nothing with the rest. */
  lemma WithField(s: Shape, k: string, v: Shape)
    requires s.Map? && TreeShaped(s) && TreeShaped(v) && s.node !in Nodes(v)
    requires forall l | l in s.fields && l != k :: Nodes(v) !! Nodes(s.fields[l])
    ensures TreeShaped(Map(s.node, s.fields[k := v]))
    ensures Nodes(Map(s.node, s.fields[k := v])) <= Nodes(s) + Nodes(v)
  {
  }

  lemma {:induction false} MergeIsTreeShaped(b: Shape, o: Shape)
    requires b.Map? && o.Map? && TreeShaped(b) && TreeShaped(o) && Nodes(b) !! Nodes(o)
    ensures TreeShaped(Merge(b, o))
    decreases o
  {
    var m := Merge(b, o);
    forall k | k in m.fields
      ensures TreeShaped(m.fields[k]) && b.node !in Nodes(m.fields[k])
      ensures Nodes(m.fields[k]) <= FieldNodes(b, k) + FieldNodes(o, k)
    {
      NodesOfField(b, k);
      NodesOfField(o, k);
      if k in b.fields && k in o.fields && b.fields[k].Map? && o.fields[k].Map? {
        MergeIsTreeShaped(b.fields[k], o.fields[k]);
        NodesOfMerge(b.fields[k], o.fields[k]);
      }
    }
    forall k, l | k in m.fields && l in m.fields && k != l
      ensures Nodes(m.fields[k]) !! Nodes(m.fields[l])
    {
      FieldNodesApart(b, k, l);
      FieldNodesApart(o, k, l);
      FieldNodesInside(b, k);
      FieldNodesInside(b, l);
      FieldNodesInside(o, k);
      FieldNodesInside(o, l);
    }
  }

  ghost function FieldNodes(s: Shape, k: string): set<Node>
    requires s.Map?
  {
    if k in s.fields then Nodes(s.fields[k]) else {}
  }

  lemma FieldNodesApart(s: Shape, k: string, l: string)
    requires s.Map? && TreeShaped(s) && k != l
    ensures FieldNodes(s, k) !! FieldNodes(s, l)
  {
  }

  lemma FieldNodesInside(s: Shape, k: string)
    requires s.Map?
    ensures FieldNodes(s, k) <= Nodes(s)
  {
  }

  // ----- The merge in memory -----

  lemma {:induction false} NodesAreAllocated(s: Shape)
    ensures forall n | n in Nodes(s) :: allocated(n)
  {
    if s.Map? {
      NodesOfMap(s);
      forall k | k in s.fields
        ensures forall n | n in Nodes(s.fields[k]) :: allocated(n)
      {
        NodesAreAllocated(s.fields[k]);
      }
    }
  }

  /** Either a nil map, or the map object of a tree-shaped layout. */
  ghost predicate Stands(n: Node?, s: Shape)
    reads Nodes(s)
  {
    if n == null then s == Leaf(Null) else s.Map? && s.node == n && Laid(s) && TreeShaped(s)
  }

  ghost function FieldsOf(s: Shape): Fields {
    if s.Map? then Trees(s.fields) else map[]
  }

  /** What a merge leaves under a key that holds `v` in the overrides. */
  ghost function MergedField(s: Shape, key: string, v: Shape): Shape
    requires s.Map?
  {
    if key in s.fields && s.fields[key].Map? && v.Map? then Merge(s.fields[key], v) else v
  }

  lemma LaidFields(s: Shape)
    requires s.Map? && Laid(s)
    ensures s.node.entries == EntriesOf(s.fields)
    ensures forall k | k in s.fields :: Laid(s.fields[k])
  {
  }

  /** The rest of a map has nothing in common with the map object itself and what it has under the key. */
  ghost predicate OthersApart(s: Shape, key: string)
    requires s.Map?
  {
    forall k | k in s.fields && k != key :: Nodes(s.fields[k]) !! {s.node} + FieldNodes(s, key)
  }

  /** One round of the merge loop: what the map has under the key is merged with the value, or replaced by it. */
  method MergeKey(r: Node, key: string, value: Entry, ghost s: Shape, ghost v: Shape)
    requires Stands(r, s) && Laid(v) && TreeShaped(v) && value == EntryOf(v)
    requires Nodes(s) !! Nodes(v)
    modifies {r} + FieldNodes(s, key)
    ensures Laid(Map(r, s.fields[key := MergedField(s, key, v)]))
    decreases v, 3
  {
    LaidFields(s);
    assert OthersApart(s, key);
    if key in r.entries && r.entries[key].Child? && value.Child? {
      ChildStands(r, s, key);
      MergeChild(r, key, r.entries[key].node, value.node, s, v);
    } else {
      ghost var before := Snapshot(s);
      r.entries := r.entries[key := value];
      LaidAgain(s, key, v, before);
    }
  }

  method MergeChild(r: Node, key: string, child: Node, value: Node, ghost s: Shape, ghost v: Shape)
    requires s.Map? && s.node == r && Laid(s) && OthersApart(s, key)
    requires key in s.fields && Stands(child, s.fields[key]) && Stands(value, v)
    requires Nodes(s.fields[key]) !! Nodes(v) && r !in Nodes(s.fields[key])
    modifies {r} + Nodes(s.fields[key])
    ensures Laid(Map(r, s.fields[key := Merge(s.fields[key], v)]))
    decreases v, 2
  {
    ghost var sub := s.fields[key];
    LaidFields(s);
    NodesAreAllocated(s);
    ghost var before := Snapshot(s);
    MergeInto(child, value, sub, v);
    assert r.entries == EntriesOf(s.fields) && r.entries[key := Child(child)] == r.entries;
    r.entries := r.entries[key := Child(child)];
    LaidAgain(s, key, Merge(sub, v), before);
  }

  lemma ChildStands(n: Node, s: Shape, key: string)
    requires Stands(n, s) && key in s.fields && s.fields[key].Map?
    ensures Stands(s.fields[key].node, s.fields[key])
    ensures n in Nodes(s) && n !in Nodes(s.fields[key]) && Nodes(s.fields[key]) <= Nodes(s)
    ensures n.entries == EntriesOf(s.fields)
  {
  }

  /** The contents of the maps of a layout, to compare with after they have changed. */
  ghost function Snapshot(s: Shape): (before: map<Node, map<string, Entry>>)
    requires Laid(s)
    reads Nodes(s)
    ensures before.Keys == Nodes(s) && WasLaid(before, s)
    ensures forall n | n in before :: before[n] == n.entries
  {
    map n | n in Nodes(s) :: n.entries
  }

  ghost predicate WasLaid(before: map<Node, map<string, Entry>>, s: Shape) {
    forall x | x in Maps(s) && x.Map? :: x.node in before && before[x.node] == EntriesOf(x.fields)
  }

  /** Changing a map and what it has under one key leaves its other fields as they were laid out before. */
  lemma OthersStayLaid(s: Shape, key: string, before: map<Node, map<string, Entry>>)
    requires s.Map? && OthersApart(s, key)
    requires WasLaid(before, s)
    requires forall n | n in before && n !in {s.node} + FieldNodes(s, key) :: n.entries == before[n]
    ensures forall k | k in s.fields && k != key :: Laid(s.fields[k])
  {
  }

  lemma LaidWith(s: Shape, key: string, v: Shape)
    requires s.Map? && Laid(v)
    requires s.node.entries == EntriesOf(s.fields)[key := EntryOf(v)]
    requires forall k | k in s.fields && k != key :: Laid(s.fields[k])
    ensures Laid(Map(s.node, s.fields[key := v]))
  {
    var s' := Map(s.node, s.fields[key := v]);
    forall x | x in Maps(s') && x.Map?
      ensures x.node.entries == EntriesOf(x.fields)
    {
      if x == s' {
        assert EntriesOf(s'.fields) == EntriesOf(s.fields)[key := EntryOf(v)];
      } else {
        var k :| k in s'.fields && x in Maps(s'.fields[k]);
        assert Laid(s'.fields[k]);
      }
    }
  }

  /** Memory holds the map again after its entry under one key, and what was below that entry, has changed. */
  lemma LaidAgain(s: Shape, key: string, v: Shape, before: map<Node, map<string, Entry>>)
    requires s.Map? && OthersApart(s, key) && Laid(v)
    requires WasLaid(before, s)
    requires forall n | n in before && n !in {s.node} + FieldNodes(s, key) :: n.entries == before[n]
    requires s.node.entries == EntriesOf(s.fields)[key := EntryOf(v)]
    ensures Laid(Map(s.node, s.fields[key := v]))
  {
    OthersStayLaid(s, key, before);
    LaidWith(s, key, v);
  }

  /** A merge of `o` into `b` that has dealt with the keys in `done`. */
  ghost predicate PartlyMerged(b: Shape, o: Shape, done: set<string>, m: Shape)
    requires b.Map? && o.Map? && done <= o.fields.Keys
  {
    && m.Map? && m.node == b.node
    && m.fields.Keys == b.fields.Keys + done
    && forall k | k in m.fields :: m.fields[k] == if k in done then MergedField(b, k, o.fields[k]) else b.fields[k]
  }

  /** The fields of a partly merged map come from the fields of the base and of the overrides with the same key. */
  lemma PartlyMergedField(b: Shape, o: Shape, done: set<string>, m: Shape, k: string)
    requires b.Map? && o.Map? && TreeShaped(b) && TreeShaped(o) && Nodes(b) !! Nodes(o)
    requires done <= o.fields.Keys && PartlyMerged(b, o, done, m) && k in m.fields
    ensures TreeShaped(m.fields[k]) && b.node !in Nodes(m.fields[k])
    ensures Nodes(m.fields[k]) <= FieldNodes(b, k) + (if k in done then FieldNodes(o, k) else {})
    ensures FieldNodes(b, k) <= Nodes(b) && FieldNodes(o, k) <= Nodes(o)
  {
    MergedFieldNodes(b, o, k);
    FieldNodesInside(b, k);
    FieldNodesInside(o, k);
  }

  lemma PartlyMergedIsTreeShaped(b: Shape, o: Shape, done: set<string>, m: Shape)
    requires b.Map? && o.Map? && TreeShaped(b) && TreeShaped(o) && Nodes(b) !! Nodes(o)
    requires done <= o.fields.Keys && PartlyMerged(b, o, done, m)
    ensures TreeShaped(m) && Nodes(m) <= Nodes(b) + Nodes(o)
  {
    forall k | k in m.fields
      ensures TreeShaped(m.fields[k]) && m.node !in Nodes(m.fields[k]) && Nodes(m.fields[k]) <= Nodes(b) + Nodes(o)
    {
      PartlyMergedField(b, o, done, m, k);
    }
    forall k, l | k in m.fields && l in m.fields && k != l
      ensures Nodes(m.fields[k]) !! Nodes(m.fields[l])
    {
      PartlyMergedField(b, o, done, m, k);
      PartlyMergedField(b, o, done, m, l);
      FieldNodesApart(b, k, l);
      FieldNodesApart(o, k, l);
    }
    NodesOfMap(m);
    NodesOfField(b, "");
  }

  /** The round for a key touches only the base, and nothing that the key's value consists of. */
  lemma RoundsApart(b: Shape, o: Shape, done: set<string>, m: Shape, key: string)
    requires b.Map? && o.Map? && TreeShaped(b) && TreeShaped(o) && Nodes(b) !! Nodes(o)
    requires done <= o.fields.Keys && PartlyMerged(b, o, done, m)
    requires key in o.fields && key !in done
    ensures TreeShaped(m)
    ensures TreeShaped(o.fields[key]) && Nodes(m) !! Nodes(o.fields[key])
    ensures {m.node} + FieldNodes(m, key) <= Nodes(b)
  {
    PartlyMergedIsTreeShaped(b, o, done, m);
    FieldNodesInside(o, key);
    forall k | k in m.fields
      ensures Nodes(m.fields[k]) !! Nodes(o.fields[key])
    {
      PartlyMergedField(b, o, done, m, k);
      if k != key {
        FieldNodesApart(o, k, key);
      }
    }
    NodesOfMap(m);
    NodesOfField(b, key);
  }

  lemma MergedFieldNodes(b: Shape, o: Shape, k: string)
    requires b.Map? && o.Map? && TreeShaped(b) && TreeShaped(o) && Nodes(b) !! Nodes(o)
    ensures k in b.fields ==> TreeShaped(b.fields[k]) && b.node !in Nodes(b.fields[k])
    ensures k in o.fields ==>
              var v := MergedField(b, k, o.fields[k]);
              TreeShaped(v) && b.node !in Nodes(v) && Nodes(v) <= FieldNodes(b, k) + FieldNodes(o, k)
  {
    NodesOfField(b, k);
    NodesOfField(o, k);
    if k in b.fields && k in o.fields && b.fields[k].Map? && o.fields[k].Map? {
      MergeIsTreeShaped(b.fields[k], o.fields[k]);
      NodesOfMerge(b.fields[k], o.fields[k]);
    }
  }

  /** `mergeOverwrite`: merges the overrides into the base; a nil base is replaced by a new map. */
  method MergeOverwrite(base: Node?, overrides: Node?, ghost b: Shape, ghost o: Shape)
    returns (r: Node, ghost m: Shape)
    requires Stands(base, b) && Stands(overrides, o) && Nodes(b) !! Nodes(o)
    modifies Nodes(b)
    ensures if base == null then fresh(r) else r == base
    ensures Stands(r, m) && Stands(overrides, o)
    ensures Trees(m.fields) == Overlay(FieldsOf(b), FieldsOf(o))
    ensures Nodes(m) <= {r} + Nodes(b) + Nodes(o)
  {
    NodesAreAllocated(o);
    if base == null {
      r := new Node();
      m := Map(r, map[]);
      NewMapStands(r);
    } else {
      r := base;
      m := b;
    }
    assert Stands(r, m) && Trees(m.fields) == FieldsOf(b);
    assert Nodes(m) <= {r} + Nodes(b) && Nodes(m) !! Nodes(o);
    if overrides == null {
      OverlayUnits(Trees(m.fields));
    } else {
      m := MergeBoth(r, overrides, m, o);
    }
  }

  lemma NewMapStands(n: Node)
    requires n.entries == map[]
    ensures Stands(n, Map(n, map[])) && Nodes(Map(n, map[])) == {n} && Trees(map[]) == map[]
  {
  }

  method MergeBoth(r: Node, overrides: Node, ghost b: Shape, ghost o: Shape) returns (ghost m: Shape)
    requires Stands(r, b) && Stands(overrides, o) && Nodes(b) !! Nodes(o)
    modifies Nodes(b)
    ensures Stands(r, m) && Stands(overrides, o)
    ensures Trees(m.fields) == Overlay(Trees(b.fields), Trees(o.fields))
    ensures Nodes(m) <= Nodes(b) + Nodes(o)
  {
    m := Merge(b, o);
    MergeIsTreeShaped(b, o);
    NodesOfMerge(b, o);
    TreeShapedIsPlain(b);
    TreeShapedIsPlain(o);
    MergeIsOverlay(b, o);
    NodesAreAllocated(o);
    MergeInto(r, overrides, b, o);
  }

  /** The loop of the merge, in whatever order the map is ranged over. */
  method MergeInto(r: Node, overrides: Node, ghost b: Shape, ghost o: Shape)
    requires Stands(r, b) && Stands(overrides, o) && Nodes(b) !! Nodes(o)
    modifies Nodes(b)
    ensures Laid(Merge(b, o))
    decreases o, 1
  {
    NodesAreAllocated(o);
    ghost var m := b;
    var todo := overrides.entries.Keys;
    ghost var done: set<string> := {};
    while todo != {}
      invariant todo !! done && todo + done == o.fields.Keys
      invariant PartlyMerged(b, o, done, m)
      invariant Laid(m) && Laid(o)
      decreases todo
    {
      var key :| key in todo;
      RoundsApart(b, o, done, m, key);
      LaidFields(o);
      MergeKey(r, key, overrides.entries[key], m, o.fields[key]);
      NextRound(b, o, done, m, key);
      m := Map(r, m.fields[key := MergedField(m, key, o.fields[key])]);
      todo, done := todo - {key}, done + {key};
    }
    FinishedMerge(b, o, done, m);
  }

  lemma NextRound(b: Shape, o: Shape, done: set<string>, m: Shape, key: string)
    requires b.Map? && o.Map? && done <= o.fields.Keys && PartlyMerged(b, o, done, m)
    requires key in o.fields && key !in done
    ensures PartlyMerged(b, o, done + {key}, Map(m.node, m.fields[key := MergedField(m, key, o.fields[key])]))
  {
  }

  lemma FinishedMerge(b: Shape, o: Shape, done: set<string>, m: Shape)
    requires b.Map? && o.Map? && done == o.fields.Keys && PartlyMerged(b, o, done, m)
    ensures m == Merge(b, o)
  {
  }
}
