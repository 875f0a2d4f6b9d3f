/** Keyword classification of scene-graph nodes into organ groups
    (processLoadedModel, setupSimpleMode, setupAdvancedMode). */
module Classifier {
  import opened Text
  import opened Scene

  /** The organ groups, in the definition order of `organDefinitions`. */
  const OrganNames: seq<string> :=
    ["liver", "heart", "lungs", "kidneys", "stomach",
     "brain", "intestines", "pancreas", "spleen", "bladder"]

  const OrganKeywords: seq<seq<string>> := [
    ["liver", "hepatic"],
    ["heart", "cardiac", "atrium", "ventricle"],
    ["lung", "pulmonary"],
    ["kidney", "renal"],
    ["stomach", "gastric"],
    ["brain", "cerebral", "cerebellum"],
    ["intestine", "bowel", "colon", "duodenum"],
    ["pancreas", "pancreatic"],
    ["spleen", "splenic"],
    ["bladder", "urinary"]
  ]

  const OrganCount: nat := 10
  const Intestines: nat := 6

  /** Names of parts that hide, with their subtree, the organs behind them. */
  const ObstructParts: seq<string> :=
    ["taenia", "rib", "mesocolon", "sternum", "cartilages", "xiphoid", "bronchi", "mesocolic", "thymus"]

  /** The flat word list of advanced mode. */
  const AdvancedOrganNames: seq<string> :=
    ["heart", "liver", "lung", "kidney", "stomach",
     "brain", "intestine", "pancreas", "spleen", "bladder",
     "esophagus", "trachea", "gallbladder", "appendix", "thyroid"]

  /** `keywords.some(keyword => name.includes(keyword.toLowerCase()))`. */
  predicate AnyKeyword(name: string, keywords: seq<string>) {
    exists i :: 0 <= i < |keywords| && Contains(name, Lower(keywords[i]))
  }

  /** Organ `k` claims the lower-cased name `lname`. */
  predicate MatchesOrgan(lname: string, k: nat)
    requires k < OrganCount
  {
    AnyKeyword(lname, OrganKeywords[k])
  }

  /** The first organ, at or after `k` in definition order, whose keywords match. */
  function FirstOrganFrom(lname: string, k: nat): (r: Option<nat>)
    requires k <= OrganCount
    ensures r.Some? ==> k <= r.value < OrganCount && MatchesOrgan(lname, r.value)
    ensures r.Some? ==> forall j :: k <= j < r.value ==> !MatchesOrgan(lname, j)
    ensures r.None? ==> forall j :: k <= j < OrganCount ==> !MatchesOrgan(lname, j)
    decreases OrganCount - k
  {
    if k == OrganCount then None
    else if MatchesOrgan(lname, k) then Some(k)
    else FirstOrganFrom(lname, k + 1)
  }

  /** The organ group a node named `name` joins, if any: processObject lower-cases
      the name and the first organ in table order with a matching keyword wins. */
  function OrganOf(name: string): Option<nat> {
    FirstOrganFrom(Lower(name), 0)
  }

  /** First match wins: the organ chosen matches, and no earlier organ does;
      no organ is chosen only when none matches. */
  lemma OrganOfIsFirstMatch(name: string, k: nat)
    requires k < OrganCount
    ensures OrganOf(name) == Some(k) <==>
      MatchesOrgan(Lower(name), k) && forall j :: 0 <= j < k ==> !MatchesOrgan(Lower(name), j)
  {
    var r := OrganOf(name);
    if MatchesOrgan(Lower(name), k) && forall j :: 0 <= j < k ==> !MatchesOrgan(Lower(name), j) {
      assert r.Some? && r.value <= k;
    }
  }

  /** The loop of processObject/setupSimpleMode over `Object.entries(organDefinitions)`,
      which stops at the first organ whose keywords match the lower-cased name. */
  method MatchOrgan(name: string) returns (organ: Option<nat>)
    ensures organ == OrganOf(name)
    ensures organ.Some? ==> organ.value < OrganCount
  {
    var lname := Lower(name);
    organ := None;
    var k := 0;
    while k < OrganCount
      invariant 0 <= k <= OrganCount
      invariant forall j :: 0 <= j < k ==> !MatchesOrgan(lname, j)
    {
      if AnyKeyword(lname, OrganKeywords[k]) {
        organ := Some(k);
        OrganOfIsFirstMatch(name, k);
        return;
      }
      k := k + 1;
    }
  }

  // ---------------------------------------------------------------------
  // Group membership

  /** The nodes of `nodes`, in order, that join organ group `k`. */
  function Members(nodes: seq<Node>, k: nat): seq<Node> {
    if nodes == [] then []
    else
      var last := nodes[|nodes| - 1];
      Members(nodes[..|nodes| - 1], k) + (if OrganOf(last.name) == Some(k) then [last] else [])
  }

  lemma {:induction false} MembersAppend(a: seq<Node>, b: seq<Node>, k: nat)
    ensures Members(a + b, k) == Members(a, k) + Members(b, k)
    decreases |b|
  {
    if b == [] {
      assert a + b == a;
    } else {
      assert (a + b)[..|a + b| - 1] == a + b[..|b| - 1];
      assert (a + b)[|a + b| - 1] == b[|b| - 1];
      MembersAppend(a, b[..|b| - 1], k);
    }
  }

  /** A visited node is in group `k` exactly when `k` is its first matching organ,
      so it is in at most one group. */
  lemma {:induction false} MembersIff(nodes: seq<Node>, k: nat, n: Node)
    ensures n in Members(nodes, k) <==> n in nodes && OrganOf(n.name) == Some(k)
  {
    if nodes != [] {
      MembersIff(nodes[..|nodes| - 1], k, n);
      assert nodes == nodes[..|nodes| - 1] + [nodes[|nodes| - 1]];
    }
  }

  /** One more node of a traversal joins the matched nodes exactly when it has an organ. */
  lemma MatchedSnoc(nodes: seq<Node>, i: nat)
    requires i < |nodes|
    ensures Matched(nodes[..i + 1]) == Matched(nodes[..i]) + (if OrganOf(nodes[i].name).Some? then [nodes[i]] else [])
  {
    assert nodes[..i + 1][..i] == nodes[..i];
  }

  lemma MembersSingleton(n: Node, k: nat)
    ensures Members([n], k) == if OrganOf(n.name) == Some(k) then [n] else []
  {
    assert [n][..0] == [];
  }

  // ---------------------------------------------------------------------
  // The `organGroups` table as it is filled

  /** No group has a part yet: the table right after `organGroups.set(name, {parts: []})`. */
  const NoGroups: seq<seq<Node>> := seq(OrganCount, k => [])

  /** `organGroups.get(organName).parts.push(n)` for the node's organ, if it has one. */
  function AddToGroup(groups: seq<seq<Node>>, organ: Option<nat>, n: Node): (r: seq<seq<Node>>)
    requires |groups| == OrganCount
    ensures |r| == OrganCount
    ensures organ.Some? && organ.value < OrganCount ==> r[organ.value] == groups[organ.value] + [n]
    ensures forall k :: 0 <= k < OrganCount && organ != Some(k) ==> r[k] == groups[k]
  {
    if organ.Some? && organ.value < OrganCount then groups[organ.value := groups[organ.value] + [n]] else groups
  }

  /** `after` is `before` with the members of `nodes` appended to each group, in order. */
  ghost predicate Extends(after: seq<seq<Node>>, before: seq<seq<Node>>, nodes: seq<Node>) {
    |after| == OrganCount && |before| == OrganCount
    && forall k :: 0 <= k < OrganCount ==> after[k] == before[k] + Members(nodes, k)
  }

  lemma ExtendsEmpty(groups: seq<seq<Node>>)
    requires |groups| == OrganCount
    ensures Extends(groups, groups, [])
  {
    forall k | 0 <= k < OrganCount ensures groups[k] == groups[k] + Members([], k) {
      assert groups[k] + [] == groups[k];
    }
  }

  /** Pushing a node into its organ's group appends exactly its own membership. */
  lemma ExtendsOne(groups: seq<seq<Node>>, n: Node)
    requires |groups| == OrganCount
    ensures Extends(AddToGroup(groups, OrganOf(n.name), n), groups, [n])
  {
    var after := AddToGroup(groups, OrganOf(n.name), n);
    forall k | 0 <= k < OrganCount ensures after[k] == groups[k] + Members([n], k) {
      MembersSingleton(n, k);
    }
  }

  lemma ExtendsTrans(g0: seq<seq<Node>>, g1: seq<seq<Node>>, g2: seq<seq<Node>>, a: seq<Node>, b: seq<Node>)
    requires Extends(g1, g0, a) && Extends(g2, g1, b)
    ensures Extends(g2, g0, a + b)
  {
    forall k | 0 <= k < OrganCount ensures g2[k] == g0[k] + Members(a + b, k) {
      MembersAppend(a, b, k);
    }
  }

  lemma MembersDisjoint(nodes: seq<Node>, k1: nat, k2: nat, n: Node)
    requires n in Members(nodes, k1) && n in Members(nodes, k2)
    ensures k1 == k2
  {
    MembersIff(nodes, k1, n);
    MembersIff(nodes, k2, n);
  }

  /** The nodes of `nodes` that join some organ group (set invisible by setupSimpleMode). */
  function Matched(nodes: seq<Node>): seq<Node> {
    if nodes == [] then []
    else
      var last := nodes[|nodes| - 1];
      Matched(nodes[..|nodes| - 1]) + (if OrganOf(last.name).Some? then [last] else [])
  }

  lemma {:induction false} MatchedIff(nodes: seq<Node>, n: Node)
    ensures n in Matched(nodes) <==> n in nodes && OrganOf(n.name).Some?
  {
    if nodes != [] {
      MatchedIff(nodes[..|nodes| - 1], n);
      assert nodes == nodes[..|nodes| - 1] + [nodes[|nodes| - 1]];
    }
  }

  // ---------------------------------------------------------------------
  // Obstruction hiding

  /** A node on which processObject calls hideObjectAndChildren: it matches no
      organ but its lower-cased name contains an obstruction keyword. */
  predicate ObstructionRoot(n: Node) {
    OrganOf(n.name).None? && AnyKeyword(Lower(n.name), ObstructParts)
  }

  /** The ids processObject(t) hides: the whole subtree of every obstruction root. */
  function ObstructedIds(t: Node): set<NodeId>
    decreases t
  {
    (if ObstructionRoot(t) then IdsOf(PreOrder(t)) else {}) + ObstructedIdsAll(t.children)
  }

  function ObstructedIdsAll(ts: seq<Node>): set<NodeId>
    decreases ts
  {
    if ts == [] then {} else ObstructedIdsAll(ts[..|ts| - 1]) + ObstructedIds(ts[|ts| - 1])
  }

  lemma ObstructedIdsAllSnoc(ts: seq<Node>, i: nat)
    requires i < |ts|
    ensures ObstructedIdsAll(ts[..i + 1]) == ObstructedIdsAll(ts[..i]) + ObstructedIds(ts[i])
  {
    assert ts[..i + 1][..i] == ts[..i];
  }

  /** Every obstruction root met in the walk ends with itself and all its
      descendants hidden, including descendants that join an organ group. */
  lemma {:induction false} ObstructionHidesSubtree(t: Node, m: Node)
    requires m in PreOrder(t) && ObstructionRoot(m)
    ensures IdsOf(PreOrder(m)) <= ObstructedIds(t)
    decreases t
  {
    if m != t {
      assert m in PreOrderAll(t.children);
      ObstructionHidesSubtreeAll(t.children, m);
    }
  }

  lemma {:induction false} ObstructionHidesSubtreeAll(ts: seq<Node>, m: Node)
    requires m in PreOrderAll(ts) && ObstructionRoot(m)
    ensures IdsOf(PreOrder(m)) <= ObstructedIdsAll(ts)
    decreases ts
  {
    var init, last := ts[..|ts| - 1], ts[|ts| - 1];
    if m in PreOrderAll(init) {
      ObstructionHidesSubtreeAll(init, m);
    } else {
      ObstructionHidesSubtree(last, m);
    }
  }

  /** Conversely, a hidden id belongs to the subtree of some obstruction root. */
  lemma {:induction false} ObstructedOnlyBelowRoots(t: Node, id: NodeId)
    requires id in ObstructedIds(t)
    ensures exists m :: m in PreOrder(t) && ObstructionRoot(m) && id in IdsOf(PreOrder(m))
    decreases t
  {
    if !(ObstructionRoot(t) && id in IdsOf(PreOrder(t))) {
      var m := ObstructedOnlyBelowRootsAll(t.children, id);
      assert m in PreOrder(t);
    }
  }

  lemma {:induction false} ObstructedOnlyBelowRootsAll(ts: seq<Node>, id: NodeId) returns (m: Node)
    requires id in ObstructedIdsAll(ts)
    ensures m in PreOrderAll(ts) && ObstructionRoot(m) && id in IdsOf(PreOrder(m))
    decreases ts
  {
    var init, last := ts[..|ts| - 1], ts[|ts| - 1];
    if id in ObstructedIdsAll(init) {
      m := ObstructedOnlyBelowRootsAll(init, id);
    } else {
      ObstructedOnlyBelowRoots(last, id);
      m :| m in PreOrder(last) && ObstructionRoot(m) && id in IdsOf(PreOrder(m));
    }
  }

  /** A node whose name contains "mesocolon" also contains "colon", so it joins the
      intestines group (or an earlier organ) and is never an obstruction root:
      the "mesocolon" entry of the obstruction list never fires. */
  lemma MesocolonIsNeverObstruction(name: string)
    requires Contains(Lower(name), "mesocolon")
    ensures OrganOf(name).Some? && OrganOf(name).value <= Intestines
    ensures !ObstructionRoot(Node(0, name, false, []))
  {
    var lname := Lower(name);
    var i: nat :| i <= |lname| && OccursAt(lname, "mesocolon", i);
    assert OccursAt("mesocolon", "colon", 4);
    ContainsTransitive(lname, "mesocolon", "colon", i, 4);
    assert Lower("colon") == "colon";
    assert OrganKeywords[Intestines][2] == "colon";
    assert MatchesOrgan(lname, Intestines);
  }

  // ---------------------------------------------------------------------
  // Advanced mode

  /** `organNames.some(organName => name.toLowerCase().includes(organName))`. */
  predicate AdvancedMatch(name: string) {
    AnyKeyword(Lower(name), AdvancedOrganNames)
  }
}
