/**
 The values pipeline on mutable maps: conversions allocate, the vendor defaults are copied before
 anything is merged into them, and every stage that writes in place writes only to maps that no
 one else holds.
 */
module ValuesHeap {
  import opened Wrappers
  import opened JsonTree
  import opened MergeHeap
  import opened NestedFields
  import opened IstioValues
  import opened RevisionValues
  import Schema

  // ----- Building, reading and copying maps -----

  /** Stores an entry under a new key. */
  method Store(n: Node, key: string, e: Entry, ghost s: Shape, ghost v: Shape) returns (ghost r: Shape)
    requires Stands(n, s) && Laid(v) && TreeShaped(v) && e == EntryOf(v)
    requires key !in s.fields && Nodes(s) !! Nodes(v)
    modifies n
    ensures r == Map(n, s.fields[key := v]) && Stands(n, r)
    ensures Nodes(r) <= Nodes(s) + Nodes(v)
  {
    r := Map(n, s.fields[key := v]);
    LaidFields(s);
    NodesOfMap(s);
    NodesAreAllocated(s);
    NodesAreAllocated(v);
    ghost var before := Snapshot(s);
    n.entries := n.entries[key := e];
    LaidAgain(s, key, v, before);
    WithField(s, key, v);
  }

  /** The shape stands for the part of a tree that is not in `todo`. */
  ghost predicate Holds(s: Shape, t: Fields, todo: set<string>) {
    s.Map? && Trees(s.fields) == t - todo
  }

  lemma HoldsOneMore(s: Shape, t: Fields, todo: set<string>, k: string, v: Shape)
    requires Holds(s, t, todo) && k in todo && k in t && Tree(v) == t[k]
    ensures Holds(Map(s.node, s.fields[k := v]), t, todo - {k})
  {
    assert forall l | l in s.fields :: l in Trees(s.fields);
    assert forall l | l in t && l !in todo :: l in Trees(s.fields) && Tree(s.fields[l]) == t[l];
    assert Trees(s.fields[k := v]) == t - (todo - {k});
  }

  lemma NotYetHeld(s: Shape, t: Fields, todo: set<string>, k: string)
    requires Holds(s, t, todo) && k in todo
    ensures k !in s.fields
  {
  }

  lemma HoldsAll(s: Shape, t: Fields)
    requires Holds(s, t, {})
    ensures Trees(s.fields) == t
  {
  }

  /** A new map for a tree, as parsing and JSON conversion make one. */
  method NewMap(t: Fields) returns (n: Node, ghost s: Shape)
    ensures Stands(n, s) && fresh(Nodes(s)) && Trees(s.fields) == t
    decreases Obj(t), 0
  {
    n := new Node();
    s := Map(n, map[]);
    NewMapStands(n);
    var todo := t.Keys;
    while todo != {}
      invariant todo <= t.Keys && Holds(s, t, todo)
      invariant Stands(n, s) && fresh(Nodes(s)) && fresh(n)
      decreases todo
    {
      var k :| k in todo;
      NodesAreAllocated(s);
      var e, v := NewEntry(t[k]);
      NotYetHeld(s, t, todo, k);
      HoldsOneMore(s, t, todo, k, v);
      s := Store(n, k, e, s, v);
      todo := todo - {k};
    }
    HoldsAll(s, t);
  }

  method NewEntry(v: Val) returns (e: Entry, ghost s: Shape)
    ensures Laid(s) && TreeShaped(s) && e == EntryOf(s) && fresh(Nodes(s)) && Tree(s) == v
    decreases v, 1
  {
    if v.Obj? {
      var n, m := NewMap(v.fields);
      e, s := Child(n), m;
      assert Tree(s) == Obj(Trees(s.fields));
    } else {
      e, s := Plain(v), Leaf(v);
    }
  }

  /** What a map holds under a key, laid out on its own. */
  lemma EntryStands(n: Node, s: Shape, k: string)
    requires Stands(n, s) && k in s.fields
    ensures n.entries.Keys == s.fields.Keys && n.entries[k] == EntryOf(s.fields[k])
    ensures Laid(s.fields[k]) && TreeShaped(s.fields[k])
  {
  }

  /** `DeepCopyJSON`: a copy that shares no map with the original. */
  method DeepCopy(n: Node, ghost s: Shape) returns (c: Node, ghost cs: Shape)
    requires Stands(n, s)
    ensures Stands(c, cs) && fresh(Nodes(cs)) && Trees(cs.fields) == Trees(s.fields)
    decreases s, 1
  {
    NodesAreAllocated(s);
    LaidFields(s);
    c := new Node();
    NewMapStands(c);
    forall k | k in s.fields
      ensures Laid(s.fields[k]) && TreeShaped(s.fields[k]) && c !in Nodes(s.fields[k])
    {
      EntryStands(n, s, k);
      FieldOfTreeShaped(s, k);
    }
    cs := CopyFields(c, n.entries, s, Trees(s.fields));
  }

  /** The loop of the copy, in whatever order the map is ranged over. */
  method CopyFields(c: Node, entries: map<string, Entry>, ghost s: Shape, ghost t: Fields) returns (ghost cs: Shape)
    requires s.Map? && entries == EntriesOf(s.fields) && t == Trees(s.fields)
    requires forall k | k in s.fields :: Laid(s.fields[k]) && TreeShaped(s.fields[k]) && c !in Nodes(s.fields[k])
    requires Stands(c, Map(c, map[]))
    modifies c
    ensures Stands(c, cs) && fresh(Nodes(cs) - {c}) && Trees(cs.fields) == t
    decreases s, 0
  {
    cs := Map(c, map[]);
    NewMapStands(c);
    forall k | k in s.fields
      ensures forall n | n in Nodes(s.fields[k]) :: allocated(n)
    {
      NodesAreAllocated(s.fields[k]);
    }
    var todo := entries.Keys;
    while todo != {}
      invariant todo <= s.fields.Keys && Holds(cs, t, todo)
      invariant Stands(c, cs) && fresh(Nodes(cs) - {c})
      invariant forall k | k in s.fields :: Laid(s.fields[k])
      decreases todo
    {
      var k :| k in todo;
      cs := CopyField(c, k, entries[k], cs, s.fields[k], t, todo);
      todo := todo - {k};
    }
    HoldsAll(cs, t);
  }

  /** One round of the copy. */
  method CopyField(
      c: Node, k: string, e: Entry, ghost cs: Shape, ghost s: Shape, ghost t: Fields, ghost todo: set<string>)
    returns (ghost r: Shape)
    requires Stands(c, cs) && Laid(s) && TreeShaped(s) && e == EntryOf(s)
    requires Holds(cs, t, todo) && k in todo && k in t && t[k] == Tree(s)
    modifies c
    ensures Stands(c, r) && fresh(Nodes(r) - Nodes(cs)) && Holds(r, t, todo - {k})
    decreases s, 3
  {
    NodesAreAllocated(cs);
    NotYetHeld(cs, t, todo, k);
    var d, v := DeepCopyEntry(e, s);
    HoldsOneMore(cs, t, todo, k, v);
    r := Store(c, k, d, cs, v);
  }

  method DeepCopyEntry(e: Entry, ghost s: Shape) returns (c: Entry, ghost cs: Shape)
    requires Laid(s) && TreeShaped(s) && e == EntryOf(s)
    ensures Laid(cs) && TreeShaped(cs) && c == EntryOf(cs) && fresh(Nodes(cs)) && Tree(cs) == Tree(s)
    decreases s, 2
  {
    match e
    case Plain(value) =>
      c, cs := e, s;
    case Child(sub) =>
      var d, ds := DeepCopy(sub, s);
      c, cs := Child(d), ds;
      assert Tree(cs) == Obj(Trees(cs.fields)) && Tree(s) == Obj(Trees(s.fields));
  }

  /** The tree that a map stands for, as encoding it to JSON reads it. */
  method Read(n: Node, ghost s: Shape) returns (t: Fields)
    requires Stands(n, s)
    ensures t == Trees(s.fields)
    decreases s, 0
  {
    t := map[];
    NodesAreAllocated(s);
    LaidFields(s);
    var todo := n.entries.Keys;
    while todo != {}
      invariant todo <= s.fields.Keys && Stands(n, s)
      invariant t.Keys == s.fields.Keys - todo
      invariant forall k | k in t :: t[k] == Tree(s.fields[k])
      decreases todo
    {
      var k :| k in todo;
      EntryStands(n, s, k);
      var v := ReadEntry(n.entries[k], s.fields[k]);
      t := t[k := v];
      todo := todo - {k};
    }
    assert t == Trees(s.fields);
  }

  method ReadEntry(e: Entry, ghost s: Shape) returns (v: Val)
    requires Laid(s) && TreeShaped(s) && e == EntryOf(s)
    ensures v == Tree(s)
    decreases s, 1
  {
    match e
    case Plain(value) =>
      v := value;
    case Child(sub) =>
      var t := Read(sub, s);
      v := Obj(t);
      assert Tree(s) == Obj(Trees(s.fields));
  }

  // ----- Setting a field -----

  lemma SetTrees(s: Shape, k: string, v: Shape)
    requires s.Map?
    ensures Trees(s.fields[k := v]) == Trees(s.fields)[k := Tree(v)]
  {
  }

  /** Replaces what a map holds under a key, or adds the key. */
  method Replace(n: Node, key: string, e: Entry, ghost s: Shape, ghost v: Shape) returns (ghost r: Shape)
    requires Stands(n, s) && Laid(v) && TreeShaped(v) && e == EntryOf(v)
    requires n !in Nodes(v) && forall k | k in s.fields && k != key :: Nodes(v) !! Nodes(s.fields[k])
    modifies n
    ensures r == Map(n, s.fields[key := v]) && Stands(n, r)
    ensures Nodes(r) <= Nodes(s) + Nodes(v)
  {
    r := Map(n, s.fields[key := v]);
    LaidFields(s);
    NodesAreAllocated(s);
    NodesAreAllocated(v);
    assert OthersApart(s, key);
    ghost var before := Snapshot(s);
    n.entries := n.entries[key := e];
    LaidAgain(s, key, v, before);
    WithField(s, key, v);
  }

  /** Setting a string at a path of one layout succeeds and leaves another, or fails and changes nothing. */
  ghost predicate SetsTo(s: Shape, path: seq<string>, x: string, res: Result<(), PathError>, r: Shape)
    requires path != []
  {
    && s.Map? && r.Map?
    && match res
       case Ok(_) => Set(Trees(s.fields), path, Str(x)) == Ok(Trees(r.fields))
       case Err(e) => Set(Trees(s.fields), path, Str(x)) == Err(e) && r == s
  }

  lemma SetsBelow(s: Shape, path: seq<string>, x: string, res: Result<(), PathError>, v: Shape)
    requires s.Map? && |path| > 1 && path[0] in s.fields && SetsTo(s.fields[path[0]], path[1..], x, res, v)
    ensures SetsTo(s, path, x, res, Map(s.node, s.fields[path[0] := v]))
  {
    var sub := s.fields[path[0]];
    assert Tree(v) == Obj(Trees(v.fields)) && Tree(sub) == Obj(Trees(sub.fields));
    SetTrees(s, path[0], v);
    assert s.fields[path[0] := sub] == s.fields;
  }

  /** An empty map in place of a missing one makes no difference, and what is set in it never fails. */
  lemma NewMapOnTheWay(s: Shape, path: seq<string>, x: string, c: Node)
    requires s.Map? && |path| > 1 && path[0] !in s.fields
    ensures var m := Map(s.node, s.fields[path[0] := Map(c, map[])]);
            Set(Trees(m.fields), path, Str(x)).Ok? &&
            Set(Trees(m.fields), path, Str(x)) == Set(Trees(s.fields), path, Str(x))
  {
    var m := Map(s.node, s.fields[path[0] := Map(c, map[])]);
    assert Trees(map[]) == map[];
    SetFailsIffBlocked(map[], path[1..], Str(x));
    SetTrees(s, path[0], Map(c, map[]));
    assert Trees(m.fields)[path[0]] == Obj(map[]);
    var sub := Set(map[], path[1..], Str(x)).value;
    assert Trees(m.fields)[path[0] := Obj(sub)] == Trees(s.fields)[path[0] := Obj(sub)];
  }

  /** `Set`: makes the missing maps on the way; a level that is not a map is an error. */
  method SetString(n: Node, path: seq<string>, x: string, ghost s: Shape)
    returns (res: Result<(), PathError>, ghost r: Shape)
    requires Stands(n, s) && path != []
    modifies Nodes(s)
    ensures Stands(n, r) && fresh(Nodes(r) - Nodes(s)) && SetsTo(s, path, x, res, r)
    decreases |path|, 2
  {
    var key := path[0];
    LaidFields(s);
    NodesOfField(s, key);
    NodesAreAllocated(s);
    if |path| == 1 {
      res := Ok(());
      r := Replace(n, key, Plain(Str(x)), s, Leaf(Str(x)));
      SetTrees(s, key, Leaf(Str(x)));
    } else {
      ghost var m := s;
      if key !in n.entries {
        m := AddMap(n, path, x, s);
      }
      res, r := SetUnder(n, path, x, m);
    }
  }

  method AddMap(n: Node, path: seq<string>, ghost x: string, ghost s: Shape) returns (ghost m: Shape)
    requires Stands(n, s) && |path| > 1 && path[0] !in s.fields
    modifies n
    ensures Stands(n, m) && path[0] in m.fields && fresh(Nodes(m) - Nodes(s))
    ensures Set(Trees(m.fields), path, Str(x)).Ok?
    ensures Set(Trees(m.fields), path, Str(x)) == Set(Trees(s.fields), path, Str(x))
  {
    NodesAreAllocated(s);
    var c := new Node();
    NewMapStands(c);
    m := Store(n, path[0], Child(c), s, Map(c, map[]));
    NewMapOnTheWay(s, path, x, c);
  }

  /** What is below a key may gain maps that are not elsewhere in the layout. */
  lemma GrownField(s: Shape, key: string, v: Shape)
    requires s.Map? && TreeShaped(s) && TreeShaped(v) && key in s.fields
    requires Nodes(v) - Nodes(s.fields[key]) !! Nodes(s)
    ensures TreeShaped(Map(s.node, s.fields[key := v]))
    ensures Nodes(Map(s.node, s.fields[key := v])) <= Nodes(s) + Nodes(v)
  {
    NodesOfField(s, key);
    forall l | l in s.fields && l != key
      ensures Nodes(v) !! Nodes(s.fields[l])
    {
      NodesOfField(s, l);
    }
    WithField(s, key, v);
  }

  /** Sets a field below a key that is present. */
  method SetUnder(n: Node, path: seq<string>, x: string, ghost s: Shape)
    returns (res: Result<(), PathError>, ghost r: Shape)
    requires Stands(n, s) && |path| > 1 && path[0] in s.fields
    modifies Nodes(s)
    ensures Stands(n, r) && fresh(Nodes(r) - Nodes(s)) && SetsTo(s, path, x, res, r)
    decreases |path|, 1
  {
    var key := path[0];
    EntryStands(n, s, key);
    NodesOfField(s, key);
    match n.entries[key]
    case Plain(_) =>
      res, r := Err(CannotSet(path)), s;
      assert !Tree(s.fields[key]).Obj?;
    case Child(c) =>
      ChildStands(n, s, key);
      NodesAreAllocated(s);
      ghost var v;
      res, v := SetBelow(n, key, c, path[1..], x, s);
      r := Map(n, s.fields[key := v]);
      SetsBelow(s, path, x, res, v);
      GrownField(s, key, v);
  }

  method SetBelow(n: Node, key: string, c: Node, path: seq<string>, x: string, ghost s: Shape)
    returns (res: Result<(), PathError>, ghost v: Shape)
    requires s.Map? && s.node == n && Laid(s) && OthersApart(s, key)
    requires path != [] && key in s.fields && Stands(c, s.fields[key]) && n !in Nodes(s.fields[key])
    modifies Nodes(s.fields[key])
    ensures Stands(c, v) && Laid(Map(n, s.fields[key := v]))
    ensures fresh(Nodes(v) - Nodes(s.fields[key])) && SetsTo(s.fields[key], path, x, res, v)
    decreases |path|, 3
  {
    ghost var sub := s.fields[key];
    LaidFields(s);
    NodesAreAllocated(s);
    ghost var before := Snapshot(s);
    res, v := SetString(c, path, x, sub);
    LaidAgain(s, key, v, before);
  }

  /** `NestedFieldNoCopy`: walks down the path; a null on the way counts as an absent field. */
  method Search(n: Node, path: seq<string>, ghost s: Shape) returns (found: bool, blocked: bool)
    requires Stands(n, s) && path != []
    ensures found <==> Get(Trees(s.fields), path).Found?
    ensures blocked <==> Get(Trees(s.fields), path).NotAMap?
  {
    var cur, i := n, 0;
    ghost var sub := s;
    while true
      invariant 0 <= i < |path| && Stands(cur, sub)
      invariant Get(Trees(s.fields), path) == Get(Trees(sub.fields), path[i..])
      decreases |path| - i
    {
      LaidFields(sub);
      if path[i] !in cur.entries {
        return false, false;
      }
      if i + 1 == |path| {
        return true, false;
      }
      EntryStands(cur, sub, path[i]);
      assert path[i..][1..] == path[i + 1..];
      match cur.entries[path[i]] {
        case Plain(v) =>
          return false, v != Null;
        case Child(c) =>
          ghost var x := sub.fields[path[i]];
          assert Tree(x) == Obj(Trees(x.fields));
          cur, i, sub := c, i + 1, x;
      }
    }
  }

  method SetIfAbsentIn(n: Node, path: seq<string>, x: string, ghost s: Shape)
    returns (res: Result<(), PathError>, ghost r: Shape)
    requires Stands(n, s) && path != []
    modifies Nodes(s)
    ensures Stands(n, r) && fresh(Nodes(r) - Nodes(s))
    ensures res.Ok? ==> SetIfAbsent(Trees(s.fields), path, Str(x)) == Ok(Trees(r.fields))
    ensures res.Err? ==> SetIfAbsent(Trees(s.fields), path, Str(x)) == Err(res.error)
  {
    NodesAreAllocated(s);
    var found, blocked := Search(n, path, s);
    r := s;
    if blocked {
      res := Err(CannotGet(path));
    } else if found {
      res := Ok(());
    } else {
      res, r := SetString(n, path, x, s);
    }
  }
}
