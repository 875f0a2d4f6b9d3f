/** The loaded anatomy model as a tree of named nodes, and the geometry the game
    reads from it. Each node is identified by its id (object identity in the
    scene graph); its `visible` flag is kept by the game as the set of hidden ids. */
module Scene {

  type NodeId = nat

  datatype Option<T> = None | Some(value: T) {
    function GetOr(default: T): T {
      if Some? then value else default
    }
  }

  /** A world-space point or vector (three.js Vector3, here over the reals). */
  datatype Vec3 = Vec3(x: real, y: real, z: real)

  const Zero: Vec3 := Vec3(0.0, 0.0, 0.0)

  function Add(a: Vec3, b: Vec3): Vec3 {
    Vec3(a.x + b.x, a.y + b.y, a.z + b.z)
  }

  /** Vector3.divideScalar. */
  function Div(a: Vec3, k: real): Vec3
    requires k != 0.0
  {
    Vec3(a.x / k, a.y / k, a.z / k)
  }

  /** A scene-graph node: its name, whether it carries geometry (a mesh) and its children. */
  datatype Node = Node(id: NodeId, name: string, hasGeometry: bool, children: seq<Node>)

  /** The world-space center of a node's bounding box, as three.js computes it
      (computeBoundingBox, getCenter, localToWorld) for the model's current pose. */
  type CenterOracle = NodeId -> Vec3

  /** Depth-first pre-order: the order of Object3D.traverse and of processObject. */
  function PreOrder(t: Node): (r: seq<Node>)
    ensures |r| >= 1 && r[0] == t
    decreases t
  {
    [t] + PreOrderAll(t.children)
  }

  function PreOrderAll(ts: seq<Node>): seq<Node>
    decreases ts
  {
    if ts == [] then [] else PreOrderAll(ts[..|ts| - 1]) + PreOrder(ts[|ts| - 1])
  }

  lemma PreOrderAllSnoc(ts: seq<Node>, i: nat)
    requires i < |ts|
    ensures PreOrderAll(ts[..i + 1]) == PreOrderAll(ts[..i]) + PreOrder(ts[i])
  {
    assert ts[..i + 1][..i] == ts[..i];
  }

  /** The ids of a sequence of nodes. */
  function IdsOf(nodes: seq<Node>): set<NodeId> {
    if nodes == [] then {} else IdsOf(nodes[..|nodes| - 1]) + {nodes[|nodes| - 1].id}
  }

  /** An id is in IdsOf(nodes) exactly when some node of `nodes` carries it. */
  lemma {:induction false} IdsOfIff(nodes: seq<Node>, id: NodeId)
    ensures id in IdsOf(nodes) <==> exists i :: 0 <= i < |nodes| && nodes[i].id == id
  {
    if nodes != [] {
      var init := nodes[..|nodes| - 1];
      IdsOfIff(init, id);
      if exists i :: 0 <= i < |init| && init[i].id == id {
        var i :| 0 <= i < |init| && init[i].id == id;
        assert nodes[i] == init[i];
      }
    }
  }

  lemma {:induction false} IdsOfAppend(a: seq<Node>, b: seq<Node>)
    ensures IdsOf(a + b) == IdsOf(a) + IdsOf(b)
    decreases |b|
  {
    if b == [] {
      assert a + b == a;
    } else {
      assert (a + b)[..|a + b| - 1] == a + b[..|b| - 1];
      IdsOfAppend(a, b[..|b| - 1]);
    }
  }

  /** The ids of a sequence of nodes, in order. */
  function IdSeq(nodes: seq<Node>): (r: seq<NodeId>)
    ensures |r| == |nodes| && forall i :: 0 <= i < |nodes| ==> r[i] == nodes[i].id
    ensures forall id :: id in r <==> id in IdsOf(nodes)
  {
    var r := seq(|nodes|, i requires 0 <= i < |nodes| => nodes[i].id);
    assert forall id :: id in IdsOf(nodes) ==> id in r by {
      forall id | id in IdsOf(nodes) ensures id in r {
        IdsOfIff(nodes, id);
        var i :| 0 <= i < |nodes| && nodes[i].id == id;
        assert r[i] == id;
      }
    }
    assert forall id :: id in r ==> id in IdsOf(nodes) by {
      forall id | id in r ensures id in IdsOf(nodes) {
        IdsOfIff(nodes, id);
        var i :| 0 <= i < |nodes| && r[i] == id;
      }
    }
    r
  }

  /** Every descendant of `t` (and `t` itself) is visited by its pre-order walk. */
  lemma {:induction false} ChildInPreOrder(t: Node, i: nat)
    requires i < |t.children|
    ensures forall m :: m in PreOrder(t.children[i]) ==> m in PreOrder(t)
  {
    PreOrderAllMember(t.children, i);
  }

  lemma {:induction false} PreOrderAllMember(ts: seq<Node>, i: nat)
    requires i < |ts|
    ensures forall m :: m in PreOrder(ts[i]) ==> m in PreOrderAll(ts)
    decreases |ts|
  {
    if i < |ts| - 1 {
      PreOrderAllMember(ts[..|ts| - 1], i);
    }
  }

  /** Node ids are object identities: no two visited nodes share one. */
  predicate UniqueIds(nodes: seq<Node>) {
    forall i, j :: 0 <= i < j < |nodes| ==> nodes[i].id != nodes[j].id
  }
}
