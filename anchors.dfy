/** Anchor positions: the mean world center of an organ group's geometry-bearing
    parts (simple mode) or a single node's world center (advanced mode), and the
    play targets built from them. */
module Anchors {
  import opened Scene
  import opened Classifier

  /** An entry of `mainOrgans`: a whole organ group (simple mode, and the list
      processLoadedModel builds) or one scene node (advanced mode). */
  datatype Target = Group(name: string, parts: seq<Node>) | Single(node: Node)

  /** The key of `originalOrganPositions`: the organ name, or the node object itself. */
  datatype Key = ByName(organ: string) | ByNode(id: NodeId)

  function KeyOf(t: Target): Key {
    match t
    case Group(name, _) => ByName(name)
    case Single(node) => ByNode(node.id)
  }

  /** The nodes whose visibility a target controls (`organ.parts`, or the node). */
  function TargetIds(t: Target): set<NodeId> {
    match t
    case Group(_, parts) => IdsOf(parts)
    case Single(node) => {node.id}
  }

  /** The union of TargetIds over a queue. */
  function AllTargetIds(ts: seq<Target>): set<NodeId> {
    if ts == [] then {} else AllTargetIds(ts[..|ts| - 1]) + TargetIds(ts[|ts| - 1])
  }

  lemma {:induction false} AllTargetIdsCover(ts: seq<Target>, i: nat)
    requires i < |ts|
    ensures TargetIds(ts[i]) <= AllTargetIds(ts)
    decreases |ts|
  {
    if i < |ts| - 1 {
      AllTargetIdsCover(ts[..|ts| - 1], i);
    }
  }

  // ---------------------------------------------------------------------
  // The center loop over one group's parts

  /** Number of parts that carry geometry (`totalPoints`). */
  function GeometryCount(parts: seq<Node>): (r: nat)
    ensures r <= |parts|
  {
    if parts == [] then 0
    else GeometryCount(parts[..|parts| - 1]) + (if parts[|parts| - 1].hasGeometry then 1 else 0)
  }

  /** No part counts exactly when none carries geometry, and every part counts
      exactly when all of them do. */
  lemma {:induction false} GeometryCountIff(parts: seq<Node>)
    ensures GeometryCount(parts) == 0 <==> forall i :: 0 <= i < |parts| ==> !parts[i].hasGeometry
    ensures GeometryCount(parts) == |parts| <==> forall i :: 0 <= i < |parts| ==> parts[i].hasGeometry
  {
    if parts != [] {
      var init := parts[..|parts| - 1];
      GeometryCountIff(init);
      assert forall i :: 0 <= i < |init| ==> init[i] == parts[i];
    }
  }

  /** Sum of the world centers of the parts that carry geometry (`centerSum`). */
  function CenterSum(parts: seq<Node>, wc: CenterOracle): Vec3 {
    if parts == [] then Zero
    else
      var last := parts[|parts| - 1];
      var s := CenterSum(parts[..|parts| - 1], wc);
      if last.hasGeometry then Add(s, wc(last.id)) else s
  }

  /** The anchor of a group: the mean of its geometry-bearing parts' world
      centers, or nothing when no part carries geometry. */
  function Anchor(parts: seq<Node>, wc: CenterOracle): Option<Vec3> {
    var n := GeometryCount(parts);
    if n > 0 then Some(Div(CenterSum(parts, wc), n as real)) else None
  }

  /** The accumulation loop of processLoadedModel and setupSimpleMode. */
  method SumCenters(parts: seq<Node>, wc: CenterOracle) returns (centerSum: Vec3, totalPoints: nat)
    ensures totalPoints == GeometryCount(parts) && centerSum == CenterSum(parts, wc)
  {
    centerSum, totalPoints := Zero, 0;
    var i := 0;
    while i < |parts|
      invariant 0 <= i <= |parts|
      invariant totalPoints == GeometryCount(parts[..i])
      invariant centerSum == CenterSum(parts[..i], wc)
    {
      assert parts[..i + 1][..i] == parts[..i];
      if parts[i].hasGeometry {
        centerSum := Add(centerSum, wc(parts[i].id));
        totalPoints := totalPoints + 1;
      }
      i := i + 1;
    }
    assert parts[..i] == parts;
  }

  /** An axis-aligned box, used to state where an anchor can lie. */
  datatype Box = Box(lo: Vec3, hi: Vec3)

  predicate InBox(p: Vec3, b: Box) {
    b.lo.x <= p.x <= b.hi.x && b.lo.y <= p.y <= b.hi.y && b.lo.z <= p.z <= b.hi.z
  }

  predicate CentersInBox(parts: seq<Node>, wc: CenterOracle, b: Box) {
    forall i :: 0 <= i < |parts| && parts[i].hasGeometry ==> InBox(wc(parts[i].id), b)
  }

  function Coord(v: Vec3, axis: nat): real {
    if axis == 0 then v.x else if axis == 1 then v.y else v.z
  }

  lemma {:induction false} SumWithinBounds(parts: seq<Node>, wc: CenterOracle, b: Box, axis: nat)
    requires CentersInBox(parts, wc, b)
    ensures var n := GeometryCount(parts);
      Times(n, Coord(b.lo, axis)) <= Coord(CenterSum(parts, wc), axis) <= Times(n, Coord(b.hi, axis))
    decreases |parts|
  {
    if parts != [] {
      var init, last := parts[..|parts| - 1], parts[|parts| - 1];
      assert CentersInBox(init, wc, b) by {
        forall i | 0 <= i < |init| && init[i].hasGeometry ensures InBox(wc(init[i].id), b) {
          assert init[i] == parts[i];
        }
      }
      SumWithinBounds(init, wc, b, axis);
      if last.hasGeometry {
        assert InBox(wc(last.id), b);
      }
    }
  }

  /** The anchor lies within the bounding box of the part centers it averages
      (so within any box, and along each axis within the extreme centers). */
  lemma AnchorInBox(parts: seq<Node>, wc: CenterOracle, b: Box)
    requires CentersInBox(parts, wc, b)
    requires Anchor(parts, wc).Some?
    ensures InBox(Anchor(parts, wc).value, b)
  {
    var s, n := CenterSum(parts, wc), GeometryCount(parts);
    SumWithinBounds(parts, wc, b, 0);
    SumWithinBounds(parts, wc, b, 1);
    SumWithinBounds(parts, wc, b, 2);
    MeanBounds(s.x, n, b.lo.x, b.hi.x);
    MeanBounds(s.y, n, b.lo.y, b.hi.y);
    MeanBounds(s.z, n, b.lo.z, b.hi.z);
  }

  lemma MeanBounds(s: real, n: nat, lo: real, hi: real)
    requires n > 0 && Times(n, lo) <= s <= Times(n, hi)
    ensures lo <= s / n as real <= hi
  {
    TimesIsProduct(n, lo);
    TimesIsProduct(n, hi);
    DivBounds(s, n as real, lo, hi);
  }

  lemma DivBounds(s: real, n: real, lo: real, hi: real)
    requires n > 0.0 && n * lo <= s <= n * hi
    ensures lo <= s / n <= hi
  {
    var q := s / n;
    assert q * n == s;
  }

  /** `n * v`, written as repeated addition so that the sum lemma stays linear. */
  function Times(n: nat, v: real): real {
    if n == 0 then 0.0 else Times(n - 1, v) + v
  }

  lemma {:induction false} TimesIsProduct(n: nat, v: real)
    ensures Times(n, v) == n as real * v
  {
    if n > 0 {
      TimesIsProduct(n - 1, v);
      assert (n - 1) as real * v + v == n as real * v;
    }
  }

  /** A group whose geometry parts all sit at one point is anchored at that point. */
  lemma AnchorOfCoincidentCenters(parts: seq<Node>, wc: CenterOracle, p: Vec3)
    requires forall i :: 0 <= i < |parts| && parts[i].hasGeometry ==> wc(parts[i].id) == p
    requires GeometryCount(parts) > 0
    ensures Anchor(parts, wc) == Some(p)
  {
    AnchorInBox(parts, wc, Box(p, p));
  }

  /** An anchor exists exactly when some part carries geometry. */
  lemma {:induction false} AnchorExistsIff(parts: seq<Node>, wc: CenterOracle)
    ensures Anchor(parts, wc).Some? <==> exists i :: 0 <= i < |parts| && parts[i].hasGeometry
    decreases |parts|
  {
    if parts != [] {
      var init := parts[..|parts| - 1];
      AnchorExistsIff(init, wc);
      if exists i :: 0 <= i < |init| && init[i].hasGeometry {
        var i :| 0 <= i < |init| && init[i].hasGeometry;
        assert parts[i] == init[i];
      }
      if exists i :: 0 <= i < |parts| && parts[i].hasGeometry {
        var i :| 0 <= i < |parts| && parts[i].hasGeometry;
        if i < |init| { assert init[i] == parts[i]; }
      }
    }
  }

  // ---------------------------------------------------------------------
  // The group loop: which groups become targets, and where they are anchored

  /** The targets built from the first `n` groups of `organGroups`, in definition
      order: exactly those with a geometry-bearing part. */
  function GroupTargets(groups: seq<seq<Node>>, wc: CenterOracle, n: nat): seq<Target>
    requires n <= |groups| <= OrganCount
  {
    if n == 0 then []
    else
      GroupTargets(groups, wc, n - 1)
      + (if Anchor(groups[n - 1], wc).Some? then [Group(OrganNames[n - 1], groups[n - 1])] else [])
  }

  /** The `originalOrganPositions` entries built from the first `n` groups. */
  function GroupPositions(groups: seq<seq<Node>>, wc: CenterOracle, n: nat): map<Key, Vec3>
    requires n <= |groups| <= OrganCount
  {
    if n == 0 then map[]
    else
      var prev := GroupPositions(groups, wc, n - 1);
      var a := Anchor(groups[n - 1], wc);
      if a.Some? then prev[ByName(OrganNames[n - 1]) := a.value] else prev
  }

  lemma OrganNamesDistinct()
    ensures forall i, j :: 0 <= i < j < OrganCount ==> OrganNames[i] != OrganNames[j]
  {
    assert forall i :: 0 <= i < OrganCount ==> OrganNames[i][0] == "lhlksbipsb"[i];
    assert OrganNames[3][1] != OrganNames[9][1] && OrganNames[3][1] != OrganNames[5][1];
    assert OrganNames[0][1] != OrganNames[2][1];
    assert OrganNames[4][1] != OrganNames[8][1];
  }

  /** Group `k` enters the position table exactly when it has a geometry-bearing
      part, and its position is then its anchor. */
  lemma {:induction false} GroupPositionsIff(groups: seq<seq<Node>>, wc: CenterOracle, n: nat, k: nat)
    requires n <= |groups| <= OrganCount && k < |groups|
    ensures ByName(OrganNames[k]) in GroupPositions(groups, wc, n) <==> k < n && Anchor(groups[k], wc).Some?
    ensures ByName(OrganNames[k]) in GroupPositions(groups, wc, n) ==>
      GroupPositions(groups, wc, n)[ByName(OrganNames[k])] == Anchor(groups[k], wc).value
    decreases n
  {
    OrganNamesDistinct();
    if n > 0 {
      GroupPositionsIff(groups, wc, n - 1, k);
    }
  }

  /** Group `k` enters the target list exactly when it has a geometry-bearing part. */
  lemma {:induction false} GroupTargetsIff(groups: seq<seq<Node>>, wc: CenterOracle, n: nat, k: nat)
    requires n <= |groups| <= OrganCount && k < |groups|
    ensures Group(OrganNames[k], groups[k]) in GroupTargets(groups, wc, n) <==> k < n && Anchor(groups[k], wc).Some?
    decreases n
  {
    OrganNamesDistinct();
    if n > 0 {
      GroupTargetsIff(groups, wc, n - 1, k);
    }
  }

  /** Every group target has its position recorded under its name. */
  lemma {:induction false} GroupTargetsKeyed(groups: seq<seq<Node>>, wc: CenterOracle, n: nat)
    requires n <= |groups| <= OrganCount
    ensures forall t :: t in GroupTargets(groups, wc, n) ==> t.Group? && KeyOf(t) in GroupPositions(groups, wc, n)
    decreases n
  {
    if n > 0 {
      GroupTargetsKeyed(groups, wc, n - 1);
    }
  }

  // ---------------------------------------------------------------------
  // Advanced mode

  /** getobjectPos: the node's world center, or the origin for a node without geometry. */
  function ObjectPos(n: Node, wc: CenterOracle): Vec3 {
    if n.hasGeometry then wc(n.id) else Zero
  }

  /** The nodes of a traversal that advanced mode turns into targets, in order. */
  function AdvancedTargets(nodes: seq<Node>): seq<Target> {
    if nodes == [] then []
    else
      var last := nodes[|nodes| - 1];
      AdvancedTargets(nodes[..|nodes| - 1]) + (if AdvancedMatch(last.name) then [Single(last)] else [])
  }

  function AdvancedPositions(nodes: seq<Node>, wc: CenterOracle): map<Key, Vec3> {
    if nodes == [] then map[]
    else
      var last := nodes[|nodes| - 1];
      var prev := AdvancedPositions(nodes[..|nodes| - 1], wc);
      if AdvancedMatch(last.name) then prev[ByNode(last.id) := ObjectPos(last, wc)] else prev
  }

  /** One more node of a traversal in advanced mode. */
  lemma AdvancedSnoc(nodes: seq<Node>, wc: CenterOracle, i: nat)
    requires i < |nodes|
    ensures AdvancedTargets(nodes[..i + 1])
      == AdvancedTargets(nodes[..i]) + (if AdvancedMatch(nodes[i].name) then [Single(nodes[i])] else [])
    ensures AdvancedPositions(nodes[..i + 1], wc) == (if AdvancedMatch(nodes[i].name)
      then AdvancedPositions(nodes[..i], wc)[ByNode(nodes[i].id) := ObjectPos(nodes[i], wc)]
      else AdvancedPositions(nodes[..i], wc))
    ensures AllTargetIds(AdvancedTargets(nodes[..i + 1]))
      == AllTargetIds(AdvancedTargets(nodes[..i])) + (if AdvancedMatch(nodes[i].name) then {nodes[i].id} else {})
  {
    assert nodes[..i + 1][..i] == nodes[..i];
    var prev := AdvancedTargets(nodes[..i]);
    if AdvancedMatch(nodes[i].name) {
      var next := prev + [Single(nodes[i])];
      assert next[..|next| - 1] == prev;
      assert AllTargetIds(next) == AllTargetIds(prev) + TargetIds(Single(nodes[i]));
    } else {
      assert AdvancedTargets(nodes[..i + 1]) == prev + [];
      assert prev + [] == prev;
    }
  }

  /** A visited node is an advanced target exactly when its name carries a listed word. */
  lemma {:induction false} AdvancedTargetsIff(nodes: seq<Node>, n: Node)
    ensures Single(n) in AdvancedTargets(nodes) <==> n in nodes && AdvancedMatch(n.name)
    ensures forall t :: t in AdvancedTargets(nodes) ==> t.Single?
  {
    if nodes != [] {
      AdvancedTargetsIff(nodes[..|nodes| - 1], n);
      assert nodes == nodes[..|nodes| - 1] + [nodes[|nodes| - 1]];
    }
  }

  /** Each advanced target is positioned at its own world center, or at the origin
      when it has no geometry (it is not excluded). */
  lemma {:induction false} AdvancedPositionOf(nodes: seq<Node>, wc: CenterOracle, i: nat)
    requires UniqueIds(nodes) && i < |nodes| && AdvancedMatch(nodes[i].name)
    ensures ByNode(nodes[i].id) in AdvancedPositions(nodes, wc)
    ensures AdvancedPositions(nodes, wc)[ByNode(nodes[i].id)] == ObjectPos(nodes[i], wc)
    decreases |nodes|
  {
    if i < |nodes| - 1 {
      AdvancedPositionOf(nodes[..|nodes| - 1], wc, i);
    }
  }

  lemma {:induction false} AdvancedTargetsKeyed(nodes: seq<Node>, wc: CenterOracle)
    ensures forall t :: t in AdvancedTargets(nodes) ==> KeyOf(t) in AdvancedPositions(nodes, wc)
  {
    if nodes != [] {
      AdvancedTargetsKeyed(nodes[..|nodes| - 1], wc);
    }
  }
}
