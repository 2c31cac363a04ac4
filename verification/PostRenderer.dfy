/**
 The post-renderer that every rendered chart goes through: it gives each manifest an owner and the
 label of the operator, and on updates takes the failure policy out of validating webhooks.
 */
module PostRenderer {
  import opened Wrappers
  import opened JsonTree
  import opened NestedFields
  import opened Schema

  datatype OwnerReference = OwnerReference(apiVersion: string, kind: string, name: string, encoded: Val)

  datatype Renderer = Renderer(owner: Option<OwnerReference>, ownerNamespace: string, isUpdate: bool)

  /** One document of the rendered chart. */
  datatype Document = Unreadable | Empty | Manifest(fields: Fields)

  datatype RenderError = NotYaml | BadField(error: PathError) | NotASlice | WebhooksNotAList | WebhookNotAMap

  const OWNERS_PATH := ["metadata", "ownerReferences"]
  const NAMESPACE_PATH := ["metadata", "namespace"]
  const MANAGED_BY_PATH := ["metadata", "labels", "managed-by"]
  const PRIMARY_TYPE_PATH := ["metadata", "annotations", "operator-sdk/primary-resource-type"]
  const PRIMARY_PATH := ["metadata", "annotations", "operator-sdk/primary-resource"]
  const FAILURE_POLICY := "failurePolicy"

  function SetAt(m: Fields, path: seq<string>, v: Val): Result<Fields, RenderError>
    requires path != []
  {
    match Set(m, path, v)
    case Ok(r) => Ok(r)
    case Err(e) => Err(BadField(e))
  }

  /** The part before the first slash. */
  function BeforeSlash(s: string): (r: string)
    ensures |r| <= |s| && r == s[..|r|] && '/' !in r && (|r| < |s| ==> s[|r|] == '/')
  {
    if s == "" || s[0] == '/' then "" else [s[0]] + BeforeSlash(s[1..])
  }

  function AddOwnerReference(r: Renderer, m: Fields): Result<Fields, RenderError> {
    if r.owner.None? then Ok(m)
    else
      var namespace := Get(m, NAMESPACE_PATH);
      if namespace.NotAMap? then Err(BadField(CannotGet(NAMESPACE_PATH)))
      else if r.ownerNamespace == "" || namespace == Found(Str(r.ownerNamespace)) then
        match Get(m, OWNERS_PATH)
        case NotAMap => Err(BadField(CannotGet(OWNERS_PATH)))
        case Missing => SetAt(m, OWNERS_PATH, List([r.owner.value.encoded]))
        case Found(List(refs)) => SetAt(m, OWNERS_PATH, List(refs + [r.owner.value.encoded]))
        case Found(_) => Err(NotASlice)
      else
        var ownerType := r.owner.value.kind + "." + BeforeSlash(r.owner.value.apiVersion);
        match SetAt(m, PRIMARY_TYPE_PATH, Str(ownerType))
        case Err(e) => Err(e)
        case Ok(m1) => SetAt(m1, PRIMARY_PATH, Str(r.ownerNamespace + "/" + r.owner.value.name))
  }

  predicate IsValidatingWebhook(m: Fields) {
    && At(m, ["apiVersion"]) == Some(Str("admissionregistration.k8s.io/v1"))
    && At(m, ["kind"]) == Some(Str("ValidatingWebhookConfiguration"))
  }

  function WithoutPolicies(webhooks: seq<Val>): seq<Val>
    requires forall w | w in webhooks :: w.Obj?
  {
    seq(|webhooks|, i requires 0 <= i < |webhooks| && webhooks[i].Obj? => Obj(webhooks[i].fields - {FAILURE_POLICY}))
  }

  function StripFailurePolicy(m: Fields): Result<Fields, RenderError> {
    if !IsValidatingWebhook(m) || "webhooks" !in m then Ok(m)
    else
      match m["webhooks"]
      case List(webhooks) =>
        if exists w | w in webhooks :: !w.Obj? then Err(WebhookNotAMap)
        else Ok(m["webhooks" := List(WithoutPolicies(webhooks))])
      case _ => Err(WebhooksNotAList)
  }

  function Render(r: Renderer, m: Fields): Result<Fields, RenderError> {
    match AddOwnerReference(r, m)
    case Err(e) => Err(e)
    case Ok(owned) =>
      match SetAt(owned, MANAGED_BY_PATH, Str("sail-operator"))
      case Err(e) => Err(e)
      case Ok(labeled) => if r.isUpdate then StripFailurePolicy(labeled) else Ok(labeled)
  }

  /** The manifests of a stream, without the empty documents. */
  function Manifests(docs: seq<Document>): seq<Fields> {
    if docs == [] then []
    else
      var last := docs[|docs| - 1];
      Manifests(docs[..|docs| - 1]) + if last.Manifest? then [last.fields] else []
  }

  /** The picks are the positions of all manifests in ascending order, and the fields are theirs. */
  ghost predicate Picks(picks: seq<nat>, docs: seq<Document>, manifests: seq<Fields>) {
    && |picks| == |manifests|
    && (forall k, l | 0 <= k < l < |picks| :: picks[k] < picks[l])
    && (forall k | 0 <= k < |picks| :: picks[k] < |docs| && docs[picks[k]] == Manifest(manifests[k]))
    && (forall i | 0 <= i < |docs| && docs[i].Manifest? :: i in picks)
  }

  lemma PicksOneMore(picks: seq<nat>, docs: seq<Document>, manifests: seq<Fields>, doc: Document)
    requires Picks(picks, docs, manifests)
    ensures if doc.Manifest? then Picks(picks + [|docs|], docs + [doc], manifests + [doc.fields])
            else Picks(picks, docs + [doc], manifests)
  {
  }

  /** Each manifest of the stream once, in order, and nothing else. */
  lemma {:induction false} ManifestsExactly(docs: seq<Document>) returns (picks: seq<nat>)
    ensures Picks(picks, docs, Manifests(docs))
    decreases |docs|
  {
    if docs == [] {
      picks := [];
    } else {
      var front, last := docs[..|docs| - 1], docs[|docs| - 1];
      picks := ManifestsExactly(front);
      PicksOneMore(picks, front, Manifests(front), last);
      assert docs == front + [last];
      if last.Manifest? {
        picks := picks + [|front|];
      }
    }
  }

  /** The webhooks with the policies of the first `n` of them removed. */
  method RemovePolicies(webhooks: seq<Val>) returns (r: Result<seq<Val>, RenderError>)
    ensures r == if exists w | w in webhooks :: !w.Obj? then Err(WebhookNotAMap) else Ok(WithoutPolicies(webhooks))
  {
    var done: seq<Val> := [];
    for i := 0 to |webhooks|
      invariant forall j | 0 <= j < i :: webhooks[j].Obj?
      invariant |done| == i
      invariant forall j | 0 <= j < i :: done[j] == Obj(webhooks[j].fields - {FAILURE_POLICY})
    {
      match webhooks[i] {
        case Obj(fields) => done := done + [Obj(fields - {FAILURE_POLICY})];
        case _ =>
          assert webhooks[i] in webhooks;
          return Err(WebhookNotAMap);
      }
    }
    assert done == WithoutPolicies(webhooks);
    r := Ok(done);
  }

  /** Why a document cannot be rendered, if it cannot. */
  function FailureOf(r: Renderer, doc: Document): Option<RenderError> {
    match doc
    case Unreadable => Some(NotYaml)
    case Empty => None
    case Manifest(m) => match Render(r, m) case Ok(_) => None case Err(e) => Some(e)
  }

  /** `Run`: every manifest rendered, in order, or the error of the first document that cannot be. */
  method Run(r: Renderer, docs: seq<Document>) returns (res: Result<seq<Fields>, RenderError>)
    ensures res.Ok? <==> forall doc | doc in docs :: FailureOf(r, doc).None?
    ensures res.Ok? ==>
              && |res.value| == |Manifests(docs)|
              && forall i | 0 <= i < |res.value| :: Render(r, Manifests(docs)[i]) == Ok(res.value[i])
    ensures res.Err? ==> exists k | 0 <= k < |docs| ::
              && FailureOf(r, docs[k]) == Some(res.error)
              && forall l | 0 <= l < k :: FailureOf(r, docs[l]).None?
  {
    var out: seq<Fields> := [];
    for k := 0 to |docs|
      invariant forall l | 0 <= l < k :: FailureOf(r, docs[l]).None?
      invariant |out| == |Manifests(docs[..k])|
      invariant forall i | 0 <= i < |out| :: Render(r, Manifests(docs[..k])[i]) == Ok(out[i])
    {
      assert docs[..k + 1][..k] == docs[..k];
      match docs[k] {
        case Unreadable =>
          assert FailureOf(r, docs[k]) == Some(NotYaml);
          return Err(NotYaml);
        case Empty =>
        case Manifest(m) =>
          var rendered := RenderOne(r, m);
          match rendered {
            case Err(e) =>
              assert FailureOf(r, docs[k]) == Some(e);
              return Err(e);
            case Ok(n) =>
              out := out + [n];
          }
      }
    }
    assert docs[..|docs|] == docs;
    res := Ok(out);
  }

  method RenderOne(r: Renderer, m: Fields) returns (res: Result<Fields, RenderError>)
    ensures res == Render(r, m)
  {
    var owned := AddOwnerReference(r, m);
    if owned.Err? {
      return owned;
    }
    var labeled := SetAt(owned.value, MANAGED_BY_PATH, Str("sail-operator"));
    if labeled.Err? || !r.isUpdate {
      return labeled;
    }
    var n := labeled.value;
    if !IsValidatingWebhook(n) || "webhooks" !in n {
      return Ok(n);
    }
    match n["webhooks"] {
      case List(webhooks) =>
        var stripped := RemovePolicies(webhooks);
        match stripped {
          case Err(e) => res := Err(e);
          case Ok(l) => res := Ok(n["webhooks" := List(l)]);
        }
      case _ =>
        res := Err(WebhooksNotAList);
    }
  }

  // ----- What rendering changes -----

  predicate IsPrefix(p: seq<string>, q: seq<string>) {
    |p| <= |q| && q[..|p|] == p
  }

  lemma PrefixOfTail(p: seq<string>, q: seq<string>)
    requires p != [] && q != [] && p[0] == q[0]
    ensures IsPrefix(p, q) <==> IsPrefix(p[1..], q[1..])
  {
  }

  /** Setting a leaf changes nothing at any path that does not begin with it, except for making maps on the way. */
  lemma {:induction false} SetChangesOnePath(m: Fields, path: seq<string>, v: Val, q: seq<string>)
    requires path != [] && q != [] && Set(m, path, v).Ok? && !v.Obj? && !IsPrefix(path, q)
    ensures var r := Set(m, path, v).value;
            if IsPrefix(q, path) then At(r, q).Some? && At(r, q).value.Obj? && (At(m, q).Some? ==> At(m, q).value.Obj?)
            else At(r, q) == At(m, q)
    decreases |path|
  {
    if |path| > 1 && path[0] == q[0] {
      var sub: Fields := if path[0] in m then m[path[0]].fields else map[];
      if |q| > 1 {
        PrefixOfTail(path, q);
        PrefixOfTail(q, path);
        SetChangesOnePath(sub, path[1..], v, q[1..]);
      }
    } else if |path| == 1 {
      assert path == [path[0]] && q[..1] == [q[0]];
    }
  }

  lemma {:induction false} SetIsFound(m: Fields, path: seq<string>, v: Val)
    requires path != [] && Set(m, path, v).Ok?
    ensures At(Set(m, path, v).value, path) == Some(v)
    decreases |path|
  {
    if |path| > 1 {
      SetIsFound(if path[0] in m then m[path[0]].fields else map[], path[1..], v);
    }
  }

  lemma SetKeepsLeaves(m: Fields, path: seq<string>, v: Val, q: seq<string>)
    requires path != [] && q != [] && Set(m, path, v).Ok? && !v.Obj? && !IsPrefix(path, q)
    ensures IsLeaf(m, q) || IsLeaf(Set(m, path, v).value, q) ==> At(Set(m, path, v).value, q) == At(m, q)
  {
    SetChangesOnePath(m, path, v, q);
  }

  lemma SetTouchesOneKey(m: Fields, path: seq<string>, v: Val)
    requires path != [] && Set(m, path, v).Ok?
    ensures Set(m, path, v).value - {path[0]} == m - {path[0]}
  {
  }

  datatype Leaf = Leaf(path: seq<string>, value: Val)

  function SetAll(m: Fields, leaves: seq<Leaf>): Result<Fields, RenderError>
    requires forall l | l in leaves :: l.path != []
    decreases |leaves|
  {
    if leaves == [] then Ok(m)
    else
      match SetAll(m, leaves[..|leaves| - 1])
      case Err(e) => Err(e)
      case Ok(r) => SetAt(r, leaves[|leaves| - 1].path, leaves[|leaves| - 1].value)
  }

  /** Leaves of the metadata of which none is on the way to another. */
  ghost predicate AreApart(leaves: seq<Leaf>) {
    && (forall l | l in leaves :: l.path != [] && l.path[0] == "metadata" && !l.value.Obj?)
    && (forall i, j | 0 <= i < |leaves| && 0 <= j < |leaves| && i != j :: !IsPrefix(leaves[i].path, leaves[j].path))
  }

  /** Setting such leaves sets them all, and no other leaf changes, appears or disappears. */
  lemma {:induction false} SetAllMeaning(m: Fields, leaves: seq<Leaf>, q: seq<string>)
    requires AreApart(leaves) && SetAll(m, leaves).Ok? && q != []
    ensures var r := SetAll(m, leaves).value;
            && r - {"metadata"} == m - {"metadata"}
            && (forall i | 0 <= i < |leaves| :: At(r, leaves[i].path) == Some(leaves[i].value))
            && ((forall i | 0 <= i < |leaves| :: !IsPrefix(leaves[i].path, q)) ==>
                  IsLeaf(m, q) || IsLeaf(r, q) ==> At(r, q) == At(m, q))
    decreases |leaves|
  {
    if leaves != [] {
      var n := |leaves| - 1;
      var (before, last) := (SetAll(m, leaves[..n]).value, leaves[n]);
      SetAllMeaning(m, leaves[..n], q);
      SetTouchesOneKey(before, last.path, last.value);
      SetIsFound(before, last.path, last.value);
      forall i | 0 <= i < n
        ensures At(SetAll(m, leaves).value, leaves[i].path) == Some(leaves[i].value)
      {
        assert leaves[..n][i] == leaves[i];
        SetChangesOnePath(before, last.path, last.value, leaves[i].path);
      }
      if forall i | 0 <= i < |leaves| :: !IsPrefix(leaves[i].path, q) {
        assert forall i | 0 <= i < n :: leaves[..n][i] == leaves[i];
        SetKeepsLeaves(before, last.path, last.value, q);
      }
    }
  }

  /** The manifest's owner references so far. */
  ghost function OwnersOf(m: Fields): seq<Val> {
    match At(m, ["metadata", "ownerReferences"])
    case Some(List(refs)) => refs
    case _ => []
  }

  /** A manifest in another namespace than its owner refers to it in annotations. */
  ghost function OwnerLeaves(r: Renderer, m: Fields): seq<Leaf> {
    match r.owner
    case None => []
    case Some(owner) =>
      if r.ownerNamespace == "" || At(m, ["metadata", "namespace"]) == Some(Str(r.ownerNamespace)) then
        [Leaf(["metadata", "ownerReferences"], List(OwnersOf(m) + [owner.encoded]))]
      else [
        Leaf(["metadata", "annotations", "operator-sdk/primary-resource-type"],
             Str(owner.kind + "." + BeforeSlash(owner.apiVersion))),
        Leaf(["metadata", "annotations", "operator-sdk/primary-resource"],
             Str(r.ownerNamespace + "/" + owner.name))]
  }

  /** The leaves that rendering sets. */
  ghost function LeavesOf(r: Renderer, m: Fields): seq<Leaf> {
    OwnerLeaves(r, m) + [Leaf(["metadata", "labels", "managed-by"], Str("sail-operator"))]
  }

  ghost predicate Strips(r: Renderer, m: Fields) {
    && r.isUpdate && "webhooks" in m
    && At(m, ["apiVersion"]) == Some(Str("admissionregistration.k8s.io/v1"))
    && At(m, ["kind"]) == Some(Str("ValidatingWebhookConfiguration"))
  }

  lemma DifferHere(p: seq<string>, q: seq<string>, k: nat)
    requires k < |p| && k < |q| && p[k] != q[k]
    ensures !IsPrefix(p, q)
  {
    assert |p| <= |q| ==> q[..|p|][k] == q[k];
  }

  lemma LeavesAreApart(r: Renderer, m: Fields)
    ensures AreApart(LeavesOf(r, m))
  {
    forall i, j | 0 <= i < |LeavesOf(r, m)| && 0 <= j < |LeavesOf(r, m)| && i != j
      ensures !IsPrefix(LeavesOf(r, m)[i].path, LeavesOf(r, m)[j].path)
    {
      var (p, q) := (LeavesOf(r, m)[i].path, LeavesOf(r, m)[j].path);
      DifferHere(p, q, if p[1] != q[1] then 1 else 2);
    }
  }

  lemma OwnerIsSet(r: Renderer, m: Fields)
    requires AddOwnerReference(r, m).Ok?
    ensures AreApart(LeavesOf(r, m))
    ensures SetAll(m, OwnerLeaves(r, m)) == AddOwnerReference(r, m)
  {
    LeavesAreApart(r, m);
    FoundIffAt(m, NAMESPACE_PATH);
    FoundIffAt(m, OWNERS_PATH);
    var leaves := OwnerLeaves(r, m);
    if |leaves| > 0 {
      assert leaves[..0] == [];
      assert SetAll(m, leaves[..1]) == SetAt(m, leaves[0].path, leaves[0].value) by {
        assert leaves[..1][..0] == [];
      }
      assert |leaves| == 1 ==> leaves[..1] == leaves;
    }
    if |leaves| == 1 {
      assert [] + [r.owner.value.encoded] == [r.owner.value.encoded];
    }
  }

  lemma SameOutsideMetadata(m: Fields, n: Fields, r: Renderer)
    requires m - {"metadata"} == n - {"metadata"}
    ensures forall k | k in {"apiVersion", "kind", "webhooks"} :: (k in m <==> k in n) && (k in m ==> m[k] == n[k])
    ensures Strips(r, m) <==> Strips(r, n)
  {
    forall k | k in {"apiVersion", "kind", "webhooks"}
      ensures (k in m <==> k in n) && (k in m ==> m[k] == n[k])
    {
      assert k != "metadata";
      assert k in m <==> k in m - {"metadata"};
      assert k in n <==> k in n - {"metadata"};
    }
  }

  /** The leaves are set, and then policies may be stripped. */
  lemma RenderStages(r: Renderer, m: Fields)
    requires Render(r, m).Ok?
    ensures AreApart(LeavesOf(r, m)) && SetAll(m, LeavesOf(r, m)).Ok?
    ensures var labeled := SetAll(m, LeavesOf(r, m)).value;
            && (if Strips(r, labeled) then StripFailurePolicy(labeled) else Ok(labeled)) == Render(r, m)
  {
    var leaves := LeavesOf(r, m);
    OwnerIsSet(r, m);
    assert leaves[..|leaves| - 1] == OwnerLeaves(r, m);
  }

  /** The tree has the leaves. */
  ghost predicate AllSet(n: Fields, leaves: seq<Leaf>)
    requires forall l | l in leaves :: l.path != []
  {
    forall i | 0 <= i < |leaves| :: At(n, leaves[i].path) == Some(leaves[i].value)
  }

  ghost predicate SameLeaf(m: Fields, n: Fields, q: seq<string>)
    requires q != []
  {
    IsLeaf(m, q) || IsLeaf(n, q) ==> At(n, q) == At(m, q)
  }

  /** The webhooks are the same but for their failure policies. */
  ghost predicate PoliciesGone(m: Fields, n: Fields)
    requires "webhooks" in m
  {
    && "webhooks" in n && m["webhooks"].List? && n["webhooks"].List?
    && var (was, now) := (m["webhooks"].items, n["webhooks"].items);
       |now| == |was| && forall i | 0 <= i < |was| :: was[i].Obj? && now[i] == Obj(was[i].fields - {"failurePolicy"})
  }

  /**
   What rendering changes: the leaves that refer to the owner and the label of the operator are set;
   on updates, failure policies go from the webhooks of a ValidatingWebhookConfiguration; and no
   other leaf changes, appears or disappears.
   */
  lemma RenderFrame(r: Renderer, m: Fields, q: seq<string>)
    requires Render(r, m).Ok? && q != []
    ensures AreApart(LeavesOf(r, m)) && AllSet(Render(r, m).value, LeavesOf(r, m))
    ensures Strips(r, m) ==> PoliciesGone(m, Render(r, m).value)
    ensures (forall l | l in LeavesOf(r, m) :: !IsPrefix(l.path, q)) && (Strips(r, m) ==> q != ["webhooks"]) ==>
              SameLeaf(m, Render(r, m).value, q)
  {
    RenderStages(r, m);
    var leaves, n := LeavesOf(r, m), Render(r, m).value;
    var labeled := SetAll(m, leaves).value;
    SetAllMeaning(m, leaves, q);
    SameOutsideMetadata(m, labeled, r);
    if Strips(r, labeled) {
      StripKeepsOthers(labeled, n, q);
      StripKeepsLeaves(labeled, n, leaves);
    }
  }

  lemma StripKeepsLeaves(m: Fields, n: Fields, leaves: seq<Leaf>)
    requires StripFailurePolicy(m) == Ok(n) && AreApart(leaves) && AllSet(m, leaves)
    ensures AllSet(n, leaves)
  {
    forall i | 0 <= i < |leaves|
      ensures At(n, leaves[i].path) == Some(leaves[i].value)
    {
      assert leaves[i] in leaves;
      StripKeepsOthers(m, n, leaves[i].path);
    }
  }

  lemma StripKeepsOthers(m: Fields, n: Fields, q: seq<string>)
    requires q != [] && StripFailurePolicy(m) == Ok(n)
    ensures q != ["webhooks"] ==> SameLeaf(m, n, q)
    ensures q[0] != "webhooks" ==> At(n, q) == At(m, q)
    ensures Strips(Renderer(None, "", true), m) ==> PoliciesGone(m, n)
  {
    assert |q| == 1 ==> q == [q[0]];
  }
}
