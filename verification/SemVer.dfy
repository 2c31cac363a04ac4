/** Precedence of versions, section 11 of Semantic Versioning 2.0.0. Build metadata does not count. */
module SemVer {

  datatype Identifier = Numeric(n: nat) | Alphanumeric(s: string)

  datatype Version = Version(major: nat, minor: nat, patch: nat, pre: seq<Identifier>, metadata: string)

  predicate StringLess(a: string, b: string) {
    if b == "" then false
    else if a == "" then true
    else if a[0] != b[0] then a[0] < b[0]
    else StringLess(a[1..], b[1..])
  }

  /** Numbers come before other identifiers. */
  predicate IdentifierLess(a: Identifier, b: Identifier) {
    match (a, b)
    case (Numeric(m), Numeric(n)) => m < n
    case (Numeric(_), Alphanumeric(_)) => true
    case (Alphanumeric(_), Numeric(_)) => false
    case (Alphanumeric(s), Alphanumeric(t)) => StringLess(s, t)
  }

  predicate PreLess(a: seq<Identifier>, b: seq<Identifier>) {
    if b == [] then false
    else if a == [] then true
    else if a[0] != b[0] then IdentifierLess(a[0], b[0])
    else PreLess(a[1..], b[1..])
  }

  /** `a` has lower precedence than `b`; a pre-release comes before its release. */
  predicate Precedes(a: Version, b: Version) {
    if a.major != b.major then a.major < b.major
    else if a.minor != b.minor then a.minor < b.minor
    else if a.patch != b.patch then a.patch < b.patch
    else if a.pre == [] then false
    else if b.pre == [] then true
    else PreLess(a.pre, b.pre)
  }

  lemma {:induction false} StringLessIsTotal(a: string, b: string)
    ensures !(StringLess(a, b) && StringLess(b, a))
    ensures a == b <==> !StringLess(a, b) && !StringLess(b, a)
  {
    if a != "" && b != "" && a[0] == b[0] {
      StringLessIsTotal(a[1..], b[1..]);
      assert a == [a[0]] + a[1..] && b == [b[0]] + b[1..];
    }
  }

  lemma {:induction false} StringLessIsTransitive(a: string, b: string, c: string)
    requires StringLess(a, b) && StringLess(b, c)
    ensures StringLess(a, c)
  {
    if a != "" && a[0] == b[0] == c[0] {
      StringLessIsTransitive(a[1..], b[1..], c[1..]);
    }
  }

  lemma IdentifierLessIsTotal(a: Identifier, b: Identifier)
    ensures !(IdentifierLess(a, b) && IdentifierLess(b, a))
    ensures a == b <==> !IdentifierLess(a, b) && !IdentifierLess(b, a)
  {
    if a.Alphanumeric? && b.Alphanumeric? {
      StringLessIsTotal(a.s, b.s);
    }
  }

  lemma IdentifierLessIsTransitive(a: Identifier, b: Identifier, c: Identifier)
    requires IdentifierLess(a, b) && IdentifierLess(b, c)
    ensures IdentifierLess(a, c)
  {
    if a.Alphanumeric? {
      StringLessIsTransitive(a.s, b.s, c.s);
    }
  }

  lemma {:induction false} PreLessIsTotal(a: seq<Identifier>, b: seq<Identifier>)
    ensures !(PreLess(a, b) && PreLess(b, a))
    ensures a == b <==> !PreLess(a, b) && !PreLess(b, a)
  {
    if a != [] && b != [] {
      if a[0] == b[0] {
        PreLessIsTotal(a[1..], b[1..]);
        assert a == [a[0]] + a[1..] && b == [b[0]] + b[1..];
      } else {
        IdentifierLessIsTotal(a[0], b[0]);
      }
    }
  }

  lemma {:induction false} PreLessIsTransitive(a: seq<Identifier>, b: seq<Identifier>, c: seq<Identifier>)
    requires PreLess(a, b) && PreLess(b, c)
    ensures PreLess(a, c)
  {
    if a != [] {
      if a[0] == b[0] == c[0] {
        PreLessIsTransitive(a[1..], b[1..], c[1..]);
      } else if a[0] != b[0] && b[0] != c[0] {
        IdentifierLessIsTransitive(a[0], b[0], c[0]);
        IdentifierLessIsTotal(a[0], b[0]);
      }
    }
  }

  // ----- The rules, spelled out -----

  /** The first place where the two differ decides; the shorter one comes first if there is none. */
  ghost predicate StringBefore(a: string, b: string) {
    exists i :: 0 <= i <= |a| && i < |b| && a[..i] == b[..i] && (i == |a| || a[i] < b[i])
  }

  ghost predicate IdentifierBefore(x: Identifier, y: Identifier) {
    if x.Numeric? then y.Numeric? ==> x.n < y.n else y.Alphanumeric? && StringBefore(x.s, y.s)
  }

  ghost predicate PreBefore(a: seq<Identifier>, b: seq<Identifier>) {
    exists i :: 0 <= i <= |a| && i < |b| && a[..i] == b[..i] && (i == |a| || IdentifierBefore(a[i], b[i]))
  }

  lemma PrefixesShareFirst<T>(a: seq<T>, b: seq<T>)
    ensures forall i | 0 < i <= |a| && i < |b| && a[..i] == b[..i] :: a[0] == b[0]
  {
    forall i | 0 < i <= |a| && i < |b| && a[..i] == b[..i]
      ensures a[0] == b[0]
    {
      assert a[0] == a[..i][0] && b[0] == b[..i][0];
    }
  }

  lemma {:induction false} StringLessMeans(a: string, b: string)
    ensures StringLess(a, b) <==> StringBefore(a, b)
  {
    if a != "" && b != "" && a[0] == b[0] {
      var (x, y) := (a[1..], b[1..]);
      StringLessMeans(x, y);
      if i :| 0 <= i <= |x| && i < |y| && x[..i] == y[..i] && (i == |x| || x[i] < y[i]) {
        assert a[..i + 1] == [a[0]] + x[..i] && b[..i + 1] == [b[0]] + y[..i];
        assert i + 1 == |a| || a[i + 1] < b[i + 1];
      }
      if i :| 0 <= i <= |a| && i < |b| && a[..i] == b[..i] && (i == |a| || a[i] < b[i]) {
        assert x[..i - 1] == a[..i][1..] && y[..i - 1] == b[..i][1..];
        assert i - 1 == |x| || x[i - 1] < y[i - 1];
      }
    } else {
      PrefixesShareFirst(a, b);
      assert a[..0] == b[..0];
    }
  }

  lemma IdentifierLessMeans(x: Identifier, y: Identifier)
    ensures IdentifierLess(x, y) <==> IdentifierBefore(x, y)
    ensures !IdentifierBefore(x, x)
  {
    IdentifierLessIsTotal(x, x);
    if x.Alphanumeric? {
      StringLessMeans(x.s, x.s);
      if y.Alphanumeric? {
        StringLessMeans(x.s, y.s);
      }
    }
  }

  lemma {:induction false} PreLessMeans(a: seq<Identifier>, b: seq<Identifier>)
    ensures PreLess(a, b) <==> PreBefore(a, b)
  {
    if a != [] && b != [] && a[0] == b[0] {
      var (x, y) := (a[1..], b[1..]);
      PreLessMeans(x, y);
      if i :| 0 <= i <= |x| && i < |y| && x[..i] == y[..i] && (i == |x| || IdentifierBefore(x[i], y[i])) {
        assert a[..i + 1] == [a[0]] + x[..i] && b[..i + 1] == [b[0]] + y[..i];
        assert i + 1 == |a| || IdentifierBefore(a[i + 1], b[i + 1]);
      }
      if i :| 0 <= i <= |a| && i < |b| && a[..i] == b[..i] && (i == |a| || IdentifierBefore(a[i], b[i])) {
        IdentifierLessMeans(a[0], a[0]);
        assert x[..i - 1] == a[..i][1..] && y[..i - 1] == b[..i][1..];
        assert i - 1 == |x| || IdentifierBefore(x[i - 1], y[i - 1]);
      }
    } else {
      if a != [] && b != [] {
        IdentifierLessMeans(a[0], b[0]);
      }
      PrefixesShareFirst(a, b);
      assert a[..0] == b[..0];
    }
  }

  /** A lower major version precedes, then a lower minor version, then a lower patch, then a pre-release. */
  lemma PrecedesMeans(a: Version, b: Version)
    ensures Precedes(a, b) <==>
            || a.major < b.major
            || (a.major == b.major && a.minor < b.minor)
            || ((a.major, a.minor) == (b.major, b.minor) && a.patch < b.patch)
            || (&& (a.major, a.minor, a.patch) == (b.major, b.minor, b.patch)
                && a.pre != [] && (b.pre == [] || PreBefore(a.pre, b.pre)))
  {
    PreLessMeans(a.pre, b.pre);
  }

  // ----- A total order -----

  /** The same precedence: all that counts is equal. */
  predicate SamePrecedence(a: Version, b: Version) {
    a.(metadata := "") == b.(metadata := "")
  }

  /** Any two versions are ordered, one way, unless they differ in metadata only. */
  lemma PrecedesIsTotal(a: Version, b: Version)
    ensures !(Precedes(a, b) && Precedes(b, a))
    ensures SamePrecedence(a, b) <==> !Precedes(a, b) && !Precedes(b, a)
  {
    PreLessIsTotal(a.pre, b.pre);
  }

  lemma PrecedesIsTransitive(a: Version, b: Version, c: Version)
    requires Precedes(a, b) && Precedes(b, c)
    ensures Precedes(a, c)
  {
    if a.pre != [] && b.pre != [] && c.pre != [] && PreLess(a.pre, b.pre) && PreLess(b.pre, c.pre) {
      PreLessIsTransitive(a.pre, b.pre, c.pre);
    }
  }

  /** `a` is not above `b` and `b` is below `c`. */
  lemma NotAboveThenBelow(a: Version, b: Version, c: Version)
    requires !Precedes(b, a) && Precedes(b, c)
    ensures Precedes(a, c)
  {
    PrecedesIsTotal(a, b);
    if Precedes(a, b) {
      PrecedesIsTransitive(a, b, c);
    }
  }
}
