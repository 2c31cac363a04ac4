/**
 The versions the operator supports: the list of real versions and the aliases that lead to them.
 */
module IstioVersions {
  import opened Wrappers
  import opened SemVer

  /** An entry of the versions file. It is an alias if it refers to another entry. */
  datatype VersionInfo = VersionInfo(
    name: string, ref: string, version: Option<Version>, repo: string, branch: string, commit: string,
    charts: seq<string>, eol: bool)

  datatype AliasInfo = AliasInfo(name: string, ref: string)

  type VersionMap = map<string, VersionInfo>

  datatype Versions = Versions(
    list: seq<VersionInfo>, default_: string, base: string, newest: string,
    byName: VersionMap, aliases: seq<AliasInfo>, eol: seq<string>)

  /** Why the file is refused; the program panics. */
  datatype ParseError = AliasWithFields(name: string) | RefNotFound(ref: string)

  predicate IsReal(v: VersionInfo) {
    !v.eol && v.ref == ""
  }

  predicate IsAlias(v: VersionInfo) {
    !v.eol && v.ref != ""
  }

  predicate HasOtherFields(v: VersionInfo) {
    v.version.Some? || v.repo != "" || v.commit != "" || v.branch != "" || v.charts != []
  }

  // ----- What the two passes compute -----

  function Last<T>(s: seq<T>): T
    requires s != []
  {
    s[|s| - 1]
  }

  function Front<T>(s: seq<T>): seq<T>
    requires s != []
  {
    s[..|s| - 1]
  }

  function Reals(vs: seq<VersionInfo>): seq<VersionInfo> {
    if vs == [] then [] else Reals(Front(vs)) + (if IsReal(Last(vs)) then [Last(vs)] else [])
  }

  function Aliases(vs: seq<VersionInfo>): seq<AliasInfo> {
    if vs == [] then []
    else Aliases(Front(vs)) + (if IsAlias(Last(vs)) then [AliasInfo(Last(vs).name, Last(vs).ref)] else [])
  }

  function EolNames(vs: seq<VersionInfo>): seq<string> {
    if vs == [] then [] else EolNames(Front(vs)) + (if Last(vs).eol then [Last(vs).name] else [])
  }

  function RealMap(vs: seq<VersionInfo>): VersionMap {
    if vs == [] then map[]
    else if IsReal(Last(vs)) then RealMap(Front(vs))[Last(vs).name := Last(vs)]
    else RealMap(Front(vs))
  }

  /** The first alias that says more than it may. */
  function BadAlias(vs: seq<VersionInfo>): Option<string> {
    if vs == [] then None
    else if BadAlias(Front(vs)).Some? then BadAlias(Front(vs))
    else if IsAlias(Last(vs)) && HasOtherFields(Last(vs)) then Some(Last(vs).name)
    else None
  }

  /** The aliases in order, each looked up in what is there already. */
  function WithAliases(m: VersionMap, aliases: seq<AliasInfo>): Result<VersionMap, ParseError>
    decreases |aliases|
  {
    if aliases == [] then Ok(m)
    else
      match WithAliases(m, Front(aliases))
      case Err(e) => Err(e)
      case Ok(before) =>
        var a := Last(aliases);
        if a.ref in before then Ok(before[a.name := before[a.ref]]) else Err(RefNotFound(a.ref))
  }

  function Parse(vs: seq<VersionInfo>): Result<Versions, ParseError> {
    if BadAlias(vs).Some? then Err(AliasWithFields(BadAlias(vs).value))
    else
      match WithAliases(RealMap(vs), Aliases(vs))
      case Err(e) => Err(e)
      case Ok(m) =>
        var list := Reals(vs);
        var newest := if |list| > 0 then list[0].name else "";
        var base := if |list| > 1 then list[1].name else "";
        Ok(Versions(list, newest, base, newest, m, Aliases(vs), EolNames(vs)))
  }

  /** `mustParseVersionsYaml`, on the entries of the file. */
  method MustParse(vs: seq<VersionInfo>) returns (r: Result<Versions, ParseError>)
    ensures r == Parse(vs)
  {
    var list: seq<VersionInfo>, byName: VersionMap, aliases: seq<AliasInfo>, eol: seq<string> := [], map[], [], [];
    var i := 0;
    while i < |vs|
      invariant 0 <= i <= |vs|
      invariant list == Reals(vs[..i]) && byName == RealMap(vs[..i])
      invariant aliases == Aliases(vs[..i]) && eol == EolNames(vs[..i])
      invariant BadAlias(vs[..i]).None?
    {
      var v := vs[i];
      PrefixStep(vs, i);
      i := i + 1;
      if v.eol {
        eol := eol + [v.name];
        continue;
      }
      if v.ref == "" {
        list := list + [v];
        byName := byName[v.name := v];
      } else {
        if HasOtherFields(v) {
          BadAliasStays(vs, i);
          return Err(AliasWithFields(v.name));
        }
        aliases := aliases + [AliasInfo(v.name, v.ref)];
      }
    }
    assert vs[..|vs|] == vs;
    var m := AddAliases(byName, aliases);
    match m
    case Err(e) => r := Err(e);
    case Ok(all) =>
      var newest, base := "", "";
      if |list| > 0 {
        newest := list[0].name;
        if |list| > 1 {
          base := list[1].name;
        }
      }
      r := Ok(Versions(list, newest, base, newest, all, aliases, eol));
  }

  lemma PrefixStep(vs: seq<VersionInfo>, i: nat)
    requires i < |vs|
    ensures var (was, now, v) := (vs[..i], vs[..i + 1], vs[i]);
            && Reals(now) == (if IsReal(v) then Reals(was) + [v] else Reals(was))
            && RealMap(now) == (if IsReal(v) then RealMap(was)[v.name := v] else RealMap(was))
            && Aliases(now) == (if IsAlias(v) then Aliases(was) + [AliasInfo(v.name, v.ref)] else Aliases(was))
            && EolNames(now) == (if v.eol then EolNames(was) + [v.name] else EolNames(was))
            && (BadAlias(was).None? ==>
                  BadAlias(now) == if IsAlias(v) && HasOtherFields(v) then Some(v.name) else None)
  {
    OneMore(vs[..i], vs[i]);
    assert vs[..i + 1] == vs[..i] + [vs[i]];
  }

  lemma {:induction false} BadAliasStays(vs: seq<VersionInfo>, i: nat)
    requires i <= |vs| && BadAlias(vs[..i]).Some?
    ensures BadAlias(vs) == BadAlias(vs[..i])
    decreases |vs|
  {
    if i < |vs| {
      assert Front(vs)[..i] == vs[..i];
      BadAliasStays(Front(vs), i);
    } else {
      assert vs[..i] == vs;
    }
  }

  method AddAliases(m: VersionMap, aliases: seq<AliasInfo>) returns (r: Result<VersionMap, ParseError>)
    ensures r == WithAliases(m, aliases)
  {
    var all := m;
    for i := 0 to |aliases|
      invariant WithAliases(m, aliases[..i]) == Ok(all)
    {
      var a := aliases[i];
      assert Front(aliases[..i + 1]) == aliases[..i] && Last(aliases[..i + 1]) == a;
      if a.ref !in all {
        UnknownRefStays(m, aliases, i + 1);
        return Err(RefNotFound(a.ref));
      }
      all := all[a.name := all[a.ref]];
    }
    assert aliases[..|aliases|] == aliases;
    r := Ok(all);
  }

  lemma {:induction false} UnknownRefStays(m: VersionMap, aliases: seq<AliasInfo>, i: nat)
    requires i <= |aliases| && WithAliases(m, aliases[..i]).Err?
    ensures WithAliases(m, aliases) == WithAliases(m, aliases[..i])
    decreases |aliases|
  {
    if i < |aliases| {
      assert Front(aliases)[..i] == aliases[..i];
      UnknownRefStays(m, Front(aliases), i);
    } else {
      assert aliases[..i] == aliases;
    }
  }

  function Resolve(versions: Versions, name: string): Option<string> {
    if name in versions.byName then Some(versions.byName[name].name) else None
  }

  // ----- What the tables hold, in terms of the file -----

  /** The positions, in ascending order, are those in the set. */
  ghost predicate Lists(at: seq<nat>, positions: set<nat>) {
    (forall i, j | 0 <= i < j < |at| :: at[i] < at[j]) && (forall n :: n in at <==> n in positions)
  }

  lemma ListsOneMore(at: seq<nat>, positions: set<nat>, n: nat)
    requires Lists(at, positions) && forall p | p in positions :: p < n
    ensures Lists(at + [n], positions + {n})
  {
    forall i | 0 <= i < |at|
      ensures at[i] < n
    {
      assert at[i] in positions;
    }
  }

  /** Where the supported versions, the aliases and the versions out of support are. */
  ghost function RealPositions(vs: seq<VersionInfo>): set<nat> {
    set i: nat | i < |vs| && !vs[i].eol && vs[i].ref == ""
  }

  ghost function AliasPositions(vs: seq<VersionInfo>): set<nat> {
    set i: nat | i < |vs| && !vs[i].eol && vs[i].ref != ""
  }

  ghost function EolPositions(vs: seq<VersionInfo>): set<nat> {
    set i: nat | i < |vs| && vs[i].eol
  }

  lemma {:induction false} RealsAreListed(vs: seq<VersionInfo>) returns (at: seq<nat>)
    ensures Lists(at, RealPositions(vs)) && |at| == |Reals(vs)|
    ensures forall k | 0 <= k < |at| :: at[k] < |vs| && Reals(vs)[k] == vs[at[k]]
    decreases |vs|
  {
    if vs == [] {
      at := [];
    } else {
      at := RealsAreListed(Front(vs));
      var was, n := RealPositions(Front(vs)), |vs| - 1;
      assert RealPositions(vs) == if IsReal(vs[n]) then was + {n} else was;
      if IsReal(vs[n]) {
        ListsOneMore(at, was, n);
        at := at + [n];
      }
    }
  }

  /** The positions are those of the aliases, which are these. */
  ghost predicate ListsAliases(at: seq<nat>, vs: seq<VersionInfo>, aliases: seq<AliasInfo>) {
    && Lists(at, AliasPositions(vs)) && |at| == |aliases|
    && forall k | 0 <= k < |at| :: at[k] < |vs| && aliases[k] == AliasInfo(vs[at[k]].name, vs[at[k]].ref)
  }

  lemma OneMoreAlias(at: seq<nat>, vs: seq<VersionInfo>, aliases: seq<AliasInfo>, v: VersionInfo)
    requires ListsAliases(at, vs, aliases)
    ensures if IsAlias(v) then ListsAliases(at + [|vs|], vs + [v], aliases + [AliasInfo(v.name, v.ref)])
            else ListsAliases(at, vs + [v], aliases)
  {
    PositionsOneMore({}, vs, v);
    ListsOneMore(at, AliasPositions(vs), |vs|);
  }

  lemma {:induction false} AliasesAreListed(vs: seq<VersionInfo>) returns (at: seq<nat>)
    ensures ListsAliases(at, vs, Aliases(vs))
    decreases |vs|
  {
    if vs == [] {
      at := [];
    } else {
      at := AliasesAreListed(Front(vs));
      OneMoreAlias(at, Front(vs), Aliases(Front(vs)), Last(vs));
      assert vs == Front(vs) + [Last(vs)];
      if IsAlias(Last(vs)) {
        at := at + [|vs| - 1];
      } else {
        assert Aliases(vs) == Aliases(Front(vs));
      }
    }
  }

  lemma {:induction false} EolNamesAreListed(vs: seq<VersionInfo>) returns (at: seq<nat>)
    ensures Lists(at, EolPositions(vs)) && |at| == |EolNames(vs)|
    ensures forall k | 0 <= k < |at| :: at[k] < |vs| && EolNames(vs)[k] == vs[at[k]].name
    decreases |vs|
  {
    if vs == [] {
      at := [];
    } else {
      at := EolNamesAreListed(Front(vs));
      var was, n := EolPositions(Front(vs)), |vs| - 1;
      assert EolPositions(vs) == if vs[n].eol then was + {n} else was;
      if vs[n].eol {
        ListsOneMore(at, was, n);
        at := at + [n];
      }
    }
  }

  /**
   What the tables hold, given the positions of the three kinds of entries: each list has them all in
   the order of the file; the first supported version is the newest one and the default, and the
   second one is the base.
   */
  lemma TablesOfFile(vs: seq<VersionInfo>) returns (reals: seq<nat>, aliases: seq<nat>, eol: seq<nat>)
    requires Parse(vs).Ok?
    ensures Lists(reals, RealPositions(vs)) && Lists(aliases, AliasPositions(vs)) && Lists(eol, EolPositions(vs))
    ensures var t := Parse(vs).value;
            && |t.list| == |reals| && (forall k | 0 <= k < |reals| :: reals[k] < |vs| && t.list[k] == vs[reals[k]])
            && |t.aliases| == |aliases|
            && (forall k | 0 <= k < |aliases| ::
                  aliases[k] < |vs| && t.aliases[k] == AliasInfo(vs[aliases[k]].name, vs[aliases[k]].ref))
            && |t.eol| == |eol| && (forall k | 0 <= k < |eol| :: eol[k] < |vs| && t.eol[k] == vs[eol[k]].name)
            && t.newest == t.default_ == (if reals == [] then "" else vs[reals[0]].name)
            && t.base == (if |reals| < 2 then "" else vs[reals[1]].name)
  {
    reals := RealsAreListed(vs);
    aliases := AliasesAreListed(vs);
    eol := EolNamesAreListed(vs);
  }

  /** The entry is an alias and has more than a name and a reference. */
  ghost predicate SaysTooMuch(vs: seq<VersionInfo>, i: nat) {
    && i in AliasPositions(vs)
    && (vs[i].version, vs[i].repo, vs[i].branch, vs[i].commit, vs[i].charts) != (None, "", "", "", [])
  }

  /** The alias refers to none of the names, and to no alias before it. */
  ghost predicate Dangles(names: set<string>, vs: seq<VersionInfo>, i: nat) {
    && i in AliasPositions(vs) && vs[i].ref !in names
    && forall j | 0 <= j < i && j in AliasPositions(vs) :: vs[j].name != vs[i].ref
  }

  lemma {:induction false} BadAliasMeans(vs: seq<VersionInfo>)
    ensures BadAlias(vs).None? <==> forall i: nat :: !SaysTooMuch(vs, i)
    ensures BadAlias(vs).Some? ==>
              exists i: nat ::
                SaysTooMuch(vs, i) && vs[i].name == BadAlias(vs).value && forall j: nat | j < i :: !SaysTooMuch(vs, j)
    decreases |vs|
  {
    if vs != [] {
      var was, n := Front(vs), |vs| - 1;
      BadAliasMeans(was);
      assert forall i: nat | i < n :: SaysTooMuch(vs, i) <==> SaysTooMuch(was, i);
      assert SaysTooMuch(vs, n) <==> IsAlias(vs[n]) && HasOtherFields(vs[n]);
    }
  }

  /** What the pass over the aliases of the file answers. */
  ghost predicate AliasesAnswer(m: VersionMap, vs: seq<VersionInfo>, r: Result<VersionMap, ParseError>) {
    match r
    case Ok(all) =>
      && (forall i: nat :: !Dangles(m.Keys, vs, i))
      && all.Keys == m.Keys + set i | i in AliasPositions(vs) :: vs[i].name
    case Err(e) =>
      exists i: nat ::
        Dangles(m.Keys, vs, i) && e == RefNotFound(vs[i].ref) && forall j: nat | j < i :: !Dangles(m.Keys, vs, j)
  }

  lemma PositionsOneMore(names: set<string>, vs: seq<VersionInfo>, v: VersionInfo)
    ensures AliasPositions(vs + [v]) == if IsAlias(v) then AliasPositions(vs) + {|vs|} else AliasPositions(vs)
    ensures forall i: nat | i < |vs| :: Dangles(names, vs + [v], i) <==> Dangles(names, vs, i)
  {
    forall i: nat | i < |vs|
      ensures i in AliasPositions(vs + [v]) <==> i in AliasPositions(vs)
      ensures (vs + [v])[i] == vs[i]
    {
    }
  }

  lemma AnswerStays(m: VersionMap, vs: seq<VersionInfo>, v: VersionInfo, r: Result<VersionMap, ParseError>)
    requires AliasesAnswer(m, vs, r) && (r.Err? || !IsAlias(v))
    ensures AliasesAnswer(m, vs + [v], r)
  {
    var all := vs + [v];
    PositionsOneMore(m.Keys, vs, v);
    if r.Err? {
      var i: nat :| Dangles(m.Keys, vs, i) && r.error == RefNotFound(vs[i].ref)
                    && forall j: nat | j < i :: !Dangles(m.Keys, vs, j);
      assert Dangles(m.Keys, all, i) && all[i] == vs[i];
    } else {
      assert (set i | i in AliasPositions(all) :: all[i].name) == set i | i in AliasPositions(vs) :: vs[i].name;
    }
  }

  lemma AnswerOneMore(m: VersionMap, vs: seq<VersionInfo>, v: VersionInfo, known: VersionMap)
    requires AliasesAnswer(m, vs, Ok(known)) && IsAlias(v)
    ensures AliasesAnswer(
              m, vs + [v], if v.ref in known then Ok(known[v.name := known[v.ref]]) else Err(RefNotFound(v.ref)))
  {
    var all, n := vs + [v], |vs|;
    var names := set i | i in AliasPositions(vs) :: vs[i].name;
    PositionsOneMore(m.Keys, vs, v);
    assert all[n] == v;
    assert Dangles(m.Keys, all, n) <==> v.ref !in known by {
      assert v.ref in names <==> exists j :: j in AliasPositions(vs) && vs[j].name == v.ref;
    }
    assert (set i | i in AliasPositions(all) :: all[i].name) == names + {v.name};
  }

  lemma {:induction false} WithAliasesMeans(m: VersionMap, vs: seq<VersionInfo>)
    ensures AliasesAnswer(m, vs, WithAliases(m, Aliases(vs)))
    decreases |vs|
  {
    if vs != [] {
      var was, v := Front(vs), Last(vs);
      var before := WithAliases(m, Aliases(was));
      WithAliasesMeans(m, was);
      assert vs == was + [v];
      if IsAlias(v) {
        assert Front(Aliases(vs)) == Aliases(was) && Last(Aliases(vs)) == AliasInfo(v.name, v.ref);
      } else {
        assert Aliases(vs) == Aliases(was);
      }
      if before.Ok? && IsAlias(v) {
        AnswerOneMore(m, was, v, before.value);
        assert WithAliases(m, Aliases(vs)) ==
               if v.ref !in before.value then Err(RefNotFound(v.ref))
               else Ok(before.value[v.name := before.value[v.ref]]);
      } else {
        AnswerStays(m, was, v, before);
        assert WithAliases(m, Aliases(vs)) == before;
      }
    }
  }

  /** Why a file is refused: the first alias that says too much, or else the first one that refers to nothing. */
  lemma RefusedIff(vs: seq<VersionInfo>)
    ensures var names := set i | i in RealPositions(vs) :: vs[i].name;
            match Parse(vs)
            case Ok(_) => forall i: nat :: !SaysTooMuch(vs, i) && !Dangles(names, vs, i)
            case Err(AliasWithFields(n)) =>
              exists i: nat :: SaysTooMuch(vs, i) && n == vs[i].name && forall j: nat | j < i :: !SaysTooMuch(vs, j)
            case Err(RefNotFound(r)) =>
              && (forall i: nat :: !SaysTooMuch(vs, i))
              && exists i: nat ::
                   Dangles(names, vs, i) && r == vs[i].ref && forall j: nat | j < i :: !Dangles(names, vs, j)
  {
    BadAliasMeans(vs);
    WithAliasesMeans(RealMap(vs), vs);
    RealMapHoldsReals(vs);
    assert RealMap(vs).Keys == set i | i in RealPositions(vs) :: vs[i].name;
  }

  // ----- What an alias stands for -----

  ghost predicate UniqueNames(vs: seq<VersionInfo>) {
    forall i, j | 0 <= i < j < |vs| :: vs[i].name != vs[j].name
  }

  ghost predicate RefersTo(vs: seq<VersionInfo>, name: string, ref: string) {
    exists a | a in vs :: IsAlias(a) && a.name == name && a.ref == ref
  }

  /** A chain of references from the first name to the real version `v`. */
  ghost predicate IsChain(vs: seq<VersionInfo>, chain: seq<string>, v: VersionInfo) {
    && chain != []
    && v in vs && IsReal(v) && v.name == Last(chain)
    && forall i | 0 <= i < |chain| - 1 :: RefersTo(vs, chain[i], chain[i + 1])
  }

  ghost predicate LeadsTo(vs: seq<VersionInfo>, name: string, v: VersionInfo) {
    exists chain :: IsChain(vs, chain, v) && chain[0] == name
  }

  lemma {:induction false} RealMapHoldsReals(vs: seq<VersionInfo>)
    ensures forall n | n in RealMap(vs) :: RealMap(vs)[n] in vs && IsReal(RealMap(vs)[n]) && RealMap(vs)[n].name == n
    ensures forall v | v in vs && IsReal(v) :: v.name in RealMap(vs)
  {
    if vs != [] {
      RealMapHoldsReals(Front(vs));
      assert vs == Front(vs) + [Last(vs)];
    }
  }

  lemma {:induction false} AliasesAreEntries(vs: seq<VersionInfo>)
    ensures forall a | a in Aliases(vs) :: RefersTo(vs, a.name, a.ref)
    ensures forall v | v in vs && IsAlias(v) :: AliasInfo(v.name, v.ref) in Aliases(vs)
  {
    if vs != [] {
      AliasesAreEntries(Front(vs));
      assert vs == Front(vs) + [Last(vs)];
      forall a | a in Aliases(vs)
        ensures RefersTo(vs, a.name, a.ref)
      {
        if a in Aliases(Front(vs)) {
          var v :| v in Front(vs) && IsAlias(v) && v.name == a.name && v.ref == a.ref;
          assert v in vs;
        } else {
          assert Last(vs) in vs;
        }
      }
    }
  }

  lemma EntriesAreUnique(vs: seq<VersionInfo>, v: VersionInfo, w: VersionInfo)
    requires UniqueNames(vs) && v in vs && w in vs && v.name == w.name
    ensures v == w
  {
  }

  /** What the alias pass has entered so far are ends of chains. */
  lemma {:induction false} EntriesLead(vs: seq<VersionInfo>, aliases: seq<AliasInfo>)
    requires forall a | a in aliases :: RefersTo(vs, a.name, a.ref)
    requires WithAliases(RealMap(vs), aliases).Ok?
    ensures var m := WithAliases(RealMap(vs), aliases).value;
            forall n | n in m :: LeadsTo(vs, n, m[n])
    decreases |aliases|
  {
    var m := WithAliases(RealMap(vs), aliases).value;
    if aliases == [] {
      RealMapHoldsReals(vs);
      forall n | n in m
        ensures LeadsTo(vs, n, m[n])
      {
        assert IsChain(vs, [n], m[n]);
      }
    } else {
      EntriesLead(vs, Front(aliases));
      var before, a := WithAliases(RealMap(vs), Front(aliases)).value, Last(aliases);
      var chain :| IsChain(vs, chain, before[a.ref]) && chain[0] == a.ref;
      assert RefersTo(vs, a.name, a.ref);
      assert IsChain(vs, [a.name] + chain, before[a.ref]);
    }
  }

  lemma OnlyAliasesRefer(vs: seq<VersionInfo>, v: VersionInfo, name: string, ref: string)
    requires UniqueNames(vs) && v in vs && !IsAlias(v) && RefersTo(vs, name, ref)
    ensures name != v.name
  {
    var a :| a in vs && IsAlias(a) && a.name == name;
    if name == v.name {
      EntriesAreUnique(vs, v, a);
    }
  }

  /** With unique names a chain has one end only. */
  lemma {:induction false} ChainsAgree(
      vs: seq<VersionInfo>, c: seq<string>, v: VersionInfo, d: seq<string>, w: VersionInfo)
    requires UniqueNames(vs) && IsChain(vs, c, v) && IsChain(vs, d, w) && c[0] == d[0]
    ensures v == w
    decreases |c|
  {
    if |c| == 1 && |d| == 1 {
      EntriesAreUnique(vs, v, w);
    } else if |c| == 1 {
      OnlyAliasesRefer(vs, v, d[0], d[1]);
    } else {
      assert RefersTo(vs, c[0], c[1]);
      var a :| a in vs && IsAlias(a) && a.name == c[0] && a.ref == c[1];
      if |d| == 1 {
        EntriesAreUnique(vs, w, a);
      } else {
        assert RefersTo(vs, d[0], d[1]);
        var b :| b in vs && IsAlias(b) && b.name == d[0] && b.ref == d[1];
        EntriesAreUnique(vs, a, b);
        ChainStep(vs, c, v);
        ChainStep(vs, d, w);
        ChainsAgree(vs, c[1..], v, d[1..], w);
      }
    }
  }

  lemma ChainStep(vs: seq<VersionInfo>, c: seq<string>, v: VersionInfo)
    requires IsChain(vs, c, v) && |c| > 1
    ensures IsChain(vs, c[1..], v)
  {
  }

  lemma {:induction false} AliasNamesAreEntered(m: VersionMap, aliases: seq<AliasInfo>)
    requires WithAliases(m, aliases).Ok?
    ensures forall n | n in m :: n in WithAliases(m, aliases).value
    ensures forall a | a in aliases :: a.name in WithAliases(m, aliases).value
    ensures forall n | n in WithAliases(m, aliases).value :: n in m || exists a :: a in aliases && a.name == n
    decreases |aliases|
  {
    if aliases != [] {
      AliasNamesAreEntered(m, Front(aliases));
      assert aliases == Front(aliases) + [Last(aliases)];
    }
  }

  /** A name is mapped to exactly the real version at the end of its chain of references. */
  lemma NamesMapToEndOfChain(vs: seq<VersionInfo>, name: string, v: VersionInfo)
    requires UniqueNames(vs) && Parse(vs).Ok?
    ensures var m := Parse(vs).value.byName;
            name in m && m[name] == v <==> LeadsTo(vs, name, v)
  {
    var m := Parse(vs).value.byName;
    AliasesAreEntries(vs);
    EntriesLead(vs, Aliases(vs));
    if LeadsTo(vs, name, v) {
      var chain :| IsChain(vs, chain, v) && chain[0] == name;
      AliasNamesAreEntered(RealMap(vs), Aliases(vs));
      RealMapHoldsReals(vs);
      if |chain| > 1 {
        assert RefersTo(vs, chain[0], chain[1]);
        var a :| a in vs && IsAlias(a) && a.name == name;
        assert AliasInfo(a.name, a.ref) in Aliases(vs);
      }
      assert name in m;
      var other :| IsChain(vs, other, m[name]) && other[0] == name;
      ChainsAgree(vs, chain, v, other, m[name]);
    }
  }

  /** A resolved name resolves to itself, and it is the name of a real version that has not gone out of support. */
  lemma ResolveIsIdempotent(vs: seq<VersionInfo>, name: string)
    requires UniqueNames(vs) && Parse(vs).Ok? && Resolve(Parse(vs).value, name).Some?
    ensures var r := Resolve(Parse(vs).value, name).value;
            && Resolve(Parse(vs).value, r) == Some(r)
            && exists v :: v in vs && IsReal(v) && v.name == r
  {
    var m := Parse(vs).value.byName;
    var v := m[name];
    NamesMapToEndOfChain(vs, name, v);
    var chain :| IsChain(vs, chain, v) && chain[0] == name;
    assert IsChain(vs, [v.name], v);
    NamesMapToEndOfChain(vs, v.name, v);
  }

  /** A version out of support does not resolve. */
  lemma EolDoesNotResolve(vs: seq<VersionInfo>, v: VersionInfo)
    requires UniqueNames(vs) && Parse(vs).Ok? && v in vs && v.eol
    ensures Resolve(Parse(vs).value, v.name).None?
  {
    var m := Parse(vs).value.byName;
    if v.name in m {
      NamesMapToEndOfChain(vs, v.name, m[v.name]);
      var chain :| IsChain(vs, chain, m[v.name]) && chain[0] == v.name;
      EolStartsNoChain(vs, v, chain, m[v.name]);
      assert false;
    }
  }

  lemma EolStartsNoChain(vs: seq<VersionInfo>, v: VersionInfo, chain: seq<string>, w: VersionInfo)
    requires UniqueNames(vs) && v in vs && v.eol && IsChain(vs, chain, w)
    ensures chain[0] != v.name
  {
    if |chain| > 1 {
      OnlyAliasesRefer(vs, v, chain[0], chain[1]);
    } else if w.name == v.name {
      EntriesAreUnique(vs, v, w);
    }
  }

  lemma OneMore(vs: seq<VersionInfo>, v: VersionInfo)
    ensures Reals(vs + [v]) == if IsReal(v) then Reals(vs) + [v] else Reals(vs)
    ensures RealMap(vs + [v]) == if IsReal(v) then RealMap(vs)[v.name := v] else RealMap(vs)
    ensures Aliases(vs + [v]) == if IsAlias(v) then Aliases(vs) + [AliasInfo(v.name, v.ref)] else Aliases(vs)
    ensures EolNames(vs + [v]) == if v.eol then EolNames(vs) + [v.name] else EolNames(vs)
    ensures BadAlias(vs).None? && !(IsAlias(v) && HasOtherFields(v)) ==> BadAlias(vs + [v]).None?
    ensures BadAlias(vs).None? && IsAlias(v) && HasOtherFields(v) ==> BadAlias(vs + [v]) == Some(v.name)
  {
  }

  function Entry(name: string, ref: string): VersionInfo {
    VersionInfo(name, ref, None, "", "", "", [], false)
  }

  /** Without unique names resolving twice can lead further: an alias may take the name of a real version. */
  lemma RepeatedNamesResolveFurther(a: string, b: string, c: string) returns (vs: seq<VersionInfo>)
    requires a != "" && c != "" && a != b && b != c && a != c
    ensures Parse(vs).Ok?
    ensures Resolve(Parse(vs).value, b) == Some(a) && Resolve(Parse(vs).value, a) == Some(c)
  {
    var m;
    vs, m := RepeatedNames(a, b, c);
    TwoAliases(m, AliasInfo(b, a), AliasInfo(a, c));
  }

  lemma TwoReals(a: string, c: string) returns (vs: seq<VersionInfo>)
    ensures RealMap(vs) == map[a := Entry(a, "")][c := Entry(c, "")] && Aliases(vs) == [] && BadAlias(vs).None?
  {
    var first := [] + [Entry(a, "")];
    OneMore([], Entry(a, ""));
    OneMore(first, Entry(c, ""));
    vs := first + [Entry(c, "")];
  }

  /** Two real versions, and two aliases, the second with the name of the first version. */
  lemma RepeatedNames(a: string, b: string, c: string) returns (vs: seq<VersionInfo>, m: VersionMap)
    requires a != "" && c != ""
    ensures m == map[a := Entry(a, "")][c := Entry(c, "")] && RealMap(vs) == m
    ensures Aliases(vs) == [AliasInfo(b, a), AliasInfo(a, c)] && BadAlias(vs).None?
  {
    var reals := TwoReals(a, c);
    m := RealMap(reals);
    OneMore(reals, Entry(b, a));
    OneMore(reals + [Entry(b, a)], Entry(a, c));
    vs := reals + [Entry(b, a)] + [Entry(a, c)];
  }

  lemma TwoAliases(m: VersionMap, x: AliasInfo, y: AliasInfo)
    requires x.ref in m && y.ref in m
    ensures WithAliases(m, [x, y]) ==
            var m1 := m[x.name := m[x.ref]];
            Ok(m1[y.name := m1[y.ref]])
  {
    assert Front([x, y]) == [x] && Front([x]) == [];
    assert WithAliases(m, [x]) == Ok(m[x.name := m[x.ref]]);
  }

  // ----- The newest patch of each minor version -----

  /** The version of an entry of the list; the program would panic without one. */
  ghost predicate HaveVersions(list: seq<VersionInfo>) {
    forall v | v in list :: v.version.Some?
  }

  function MinorOf(v: VersionInfo): (nat, nat)
    requires v.version.Some?
  {
    (v.version.value.major, v.version.value.minor)
  }

  predicate Above(v: VersionInfo, w: VersionInfo)
    requires v.version.Some? && w.version.Some?
  {
    Precedes(w.version.value, v.version.value)
  }

  /** Entry `i` is the first of the highest among the first `n` of its minor version. */
  ghost predicate IsLatest(list: seq<VersionInfo>, n: nat, i: nat)
    requires i < n <= |list| && HaveVersions(list)
  {
    forall j | 0 <= j < n && MinorOf(list[j]) == MinorOf(list[i]) ::
      !Above(list[j], list[i]) && (j < i ==> Above(list[i], list[j]))
  }

  /** The map has the latest of each minor version among the first `n` entries. */
  ghost predicate HasLatest(latest: map<(nat, nat), VersionInfo>, list: seq<VersionInfo>, n: nat)
    requires n <= |list| && HaveVersions(list)
  {
    && (forall i | 0 <= i < n :: MinorOf(list[i]) in latest)
    && (forall k | k in latest :: IsLatestFor(list, n, k, latest[k]))
  }

  ghost predicate IsLatestFor(list: seq<VersionInfo>, n: nat, k: (nat, nat), v: VersionInfo)
    requires n <= |list| && HaveVersions(list)
  {
    exists i | 0 <= i < n :: list[i] == v && MinorOf(list[i]) == k && IsLatest(list, n, i)
  }

  /** How the next entry changes what is latest for its minor version. */
  lemma LatestStep(list: seq<VersionInfo>, n: nat, k: (nat, nat), v: VersionInfo)
    requires n < |list| && HaveVersions(list) && IsLatestFor(list, n, k, v)
    ensures MinorOf(list[n]) != k || !Above(list[n], v) ==> IsLatestFor(list, n + 1, k, v)
    ensures MinorOf(list[n]) == k && Above(list[n], v) ==> IsLatestFor(list, n + 1, k, list[n])
  {
    var i :| 0 <= i < n && list[i] == v && MinorOf(list[i]) == k && IsLatest(list, n, i);
    if MinorOf(list[n]) == k && Above(list[n], v) {
      forall j | 0 <= j < n && MinorOf(list[j]) == k
        ensures !Above(list[j], list[n]) && Above(list[n], list[j])
      {
        PrecedesIsTotal(list[j].version.value, v.version.value);
        NotAboveThenBelow(list[j].version.value, v.version.value, list[n].version.value);
        PrecedesIsTotal(list[j].version.value, list[n].version.value);
      }
      PrecedesIsTotal(list[n].version.value, list[n].version.value);
      assert IsLatest(list, n + 1, n);
    } else {
      assert IsLatest(list, n + 1, i);
    }
  }

  method LatestByMinor(list: seq<VersionInfo>) returns (latest: map<(nat, nat), VersionInfo>)
    requires HaveVersions(list)
    ensures HasLatest(latest, list, |list|)
  {
    latest := map[];
    for n := 0 to |list|
      invariant HasLatest(latest, list, n)
    {
      var v := list[n];
      var k := MinorOf(v);
      forall l | l in latest && l != k
        ensures IsLatestFor(list, n + 1, l, latest[l])
      {
        LatestStep(list, n, l, latest[l]);
      }
      if k !in latest {
        FirstOfMinor(list, n);
        latest := latest[k := v];
      } else {
        LatestStep(list, n, k, latest[k]);
        if Above(v, latest[k]) {
          latest := latest[k := v];
        }
      }
    }
  }

  lemma FirstOfMinor(list: seq<VersionInfo>, n: nat)
    requires n < |list| && HaveVersions(list)
    requires forall j | 0 <= j < n :: MinorOf(list[j]) != MinorOf(list[n])
    ensures IsLatestFor(list, n + 1, MinorOf(list[n]), list[n])
  {
    PrecedesIsTotal(list[n].version.value, list[n].version.value);
    assert IsLatest(list, n + 1, n);
  }

  ghost predicate Descending(s: seq<VersionInfo>)
    requires HaveVersions(s)
  {
    forall i, j | 0 <= i < j < |s| :: Above(s[i], s[j])
  }

  /** A version of which no other among the keys is above. */
  method Highest(latest: map<(nat, nat), VersionInfo>, keys: set<(nat, nat)>) returns (k: (nat, nat))
    requires keys != {} && keys <= latest.Keys
    requires forall l | l in latest :: latest[l].version.Some? && MinorOf(latest[l]) == l
    ensures k in keys && forall l | l in keys && l != k :: Above(latest[k], latest[l])
  {
    k :| k in keys;
    var rest := keys - {k};
    while rest != {}
      invariant rest <= keys && k in keys - rest
      invariant forall l | l in keys - rest && l != k :: Above(latest[k], latest[l])
      decreases rest
    {
      var l :| l in rest;
      rest := rest - {l};
      DifferentMinors(latest[k], latest[l]);
      if Above(latest[l], latest[k]) {
        forall m | m in keys - rest && m != k && m != l
          ensures Above(latest[l], latest[m])
        {
          PrecedesIsTransitive(latest[m].version.value, latest[k].version.value, latest[l].version.value);
        }
        k := l;
      }
    }
  }

  lemma DifferentMinors(v: VersionInfo, w: VersionInfo)
    requires v.version.Some? && w.version.Some? && MinorOf(v) != MinorOf(w)
    ensures Above(v, w) <==> !Above(w, v)
  {
  }

  ghost predicate SameMinor(v: VersionInfo, w: VersionInfo) {
    && v.version.Some? && w.version.Some?
    && v.version.value.major == w.version.value.major && v.version.value.minor == w.version.value.minor
  }

  /** The first of the highest patches of its minor version. */
  ghost predicate IsNewestPatch(list: seq<VersionInfo>, v: VersionInfo) {
    exists i | 0 <= i < |list| ::
      && list[i] == v
      && forall j | 0 <= j < |list| && SameMinor(list[j], v) ::
           && !Precedes(v.version.value, list[j].version.value)
           && (j < i ==> Precedes(list[j].version.value, v.version.value))
  }

  lemma LatestIsNewest(list: seq<VersionInfo>, v: VersionInfo)
    requires HaveVersions(list) && v.version.Some? && IsLatestFor(list, |list|, MinorOf(v), v)
    ensures IsNewestPatch(list, v)
  {
    var i :| 0 <= i < |list| && list[i] == v && IsLatest(list, |list|, i);
    assert forall j | 0 <= j < |list| :: SameMinor(list[j], v) <==> MinorOf(list[j]) == MinorOf(v);
  }

  /** Exactly one version for each minor version in the list, its newest patch, in descending order. */
  method GetLatestPatchVersions(list: seq<VersionInfo>) returns (r: seq<VersionInfo>)
    requires HaveVersions(list)
    ensures HaveVersions(r)
    ensures forall i, j | 0 <= i < j < |r| :: Precedes(r[j].version.value, r[i].version.value) && !SameMinor(r[i], r[j])
    ensures forall v | v in r :: IsNewestPatch(list, v)
    ensures forall v | v in list :: exists w :: w in r && SameMinor(w, v)
  {
    var latest := LatestByMinor(list);
    forall k | k in latest
      ensures latest[k].version.Some? && MinorOf(latest[k]) == k
    {
      assert IsLatestFor(list, |list|, k, latest[k]);
    }
    r := [];
    var todo := latest.Keys;
    while todo != {}
      invariant todo <= latest.Keys
      invariant forall v | v in r :: v.version.Some? && MinorOf(v) in latest.Keys - todo && latest[MinorOf(v)] == v
      invariant forall k | k in latest.Keys - todo :: latest[k] in r
      invariant forall v, k | v in r && k in todo :: Above(v, latest[k])
      invariant Descending(r)
      invariant forall i, j | 0 <= i < j < |r| :: MinorOf(r[i]) != MinorOf(r[j])
      decreases todo
    {
      var k := Highest(latest, todo);
      todo := todo - {k};
      r := r + [latest[k]];
    }
    forall v | v in list
      ensures exists w :: w in r && SameMinor(w, v)
    {
      assert latest[MinorOf(v)] in r && SameMinor(latest[MinorOf(v)], v);
    }
    forall v | v in r
      ensures IsNewestPatch(list, v)
    {
      LatestIsNewest(list, v);
    }
  }
}
