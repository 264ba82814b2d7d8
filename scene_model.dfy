/** The state that GameScene's touch handlers read and write, as a value, and
    the effect of each handler as a function of that value.

    SpriteKit nodes are objects: a node removed from the scene still exists,
    keeps its zPosition and can still be the selected node. The model keeps
    every node ever created in an arena (`nodes`, keyed by a fresh id) and the
    scene's children as an ordered sequence of ids. */
module SceneModel {

  type NodeId = nat

  /** A touch location. Locations are only assigned and compared. */
  datatype Point = Point(x: int, y: int)

  /** The three ways a touch can act on the scene (`controls.addMethod`). */
  datatype AddMethod = Clear | Add | Paint

  /** What the handlers observe of a node: its zPosition, its position and
      whether renderNode gave it a physics body. */
  datatype NodeState = NodeState(z: real, position: Point, hasPhysics: bool)

  datatype Option<T> = None | Some(value: T)

  /** The flags the UI sets on the shared controls object. */
  datatype Settings = Settings(addMethod: AddMethod, pourOn: bool, removeOn: bool)

  /** The scene together with the selection bookkeeping kept in the controls
      object. `selectedNode == None` is the detached `SKNode()` placeholder;
      `published` records that the scene has stored itself in
      `controls.gameScene`. */
  datatype World = World(
    nodes: map<NodeId, NodeState>,
    children: seq<NodeId>,
    nextId: NodeId,
    selectedNodes: seq<NodeId>,
    selectedNode: Option<NodeId>,
    published: bool)

  /** The zPosition that marks a paint node. */
  const PaintZ: real := -5.0

  /** zPosition of a detached `SKNode()`: SpriteKit's default. */
  const PlaceholderZ: real := 0.0

  /** Swift's `Int(_: CGFloat)`: truncation toward zero. */
  function Trunc(z: real): (r: int)
    ensures 0.0 <= z ==> r as real <= z < r as real + 1.0
    ensures z < 0.0 ==> r as real - 1.0 < z <= r as real
  {
    if z >= 0.0 then z.Floor else -((-z).Floor)
  }

  /** Swift's `Int`-truncation test in the paint branch of touchesBegan holds
      exactly for zPositions in (-6, -5]. */
  lemma TruncatesToPaintRange(z: real)
    ensures Trunc(z) == -5 <==> -6.0 < z <= -5.0
  {
  }

  ghost predicate Distinct(s: seq<NodeId>)
  {
    forall i, j :: 0 <= i < j < |s| ==> s[i] != s[j]
  }

  /** The scene invariant: ids are fresh below `nextId`, every child and every
      selected id names a node, and no node is a child twice. */
  ghost predicate WellFormed(w: World)
  {
    && (forall id :: id in w.nodes ==> id < w.nextId)
    && (forall i :: 0 <= i < |w.children| ==> w.children[i] in w.nodes)
    && Distinct(w.children)
    && (forall i :: 0 <= i < |w.selectedNodes| ==> w.selectedNodes[i] in w.nodes)
    && (w.selectedNode.Some? ==> w.selectedNode.value in w.nodes)
  }

  /** The hit list is what `nodes(at:)` returns: nodes of the scene. */
  ghost predicate HitsInScene(w: World, hits: seq<NodeId>)
  {
    forall i :: 0 <= i < |hits| ==> hits[i] in w.children
  }

  /** `r` is `w` with one new child per location appended, in order, each a
      fresh node at that location; the nodes that existed are untouched. */
  ghost predicate Appended(w: World, r: World, locs: seq<Point>, hasPhysics: bool, z: real)
  {
    && r.nextId == w.nextId + |locs|
    && |r.children| == |w.children| + |locs|
    && r.children[..|w.children|] == w.children
    && (forall i :: |w.children| <= i < |r.children| ==> r.children[i] == w.nextId + (i - |w.children|))
    && (forall i :: 0 <= i < |locs| ==>
          w.nextId + i in r.nodes && r.nodes[w.nextId + i] == NodeState(z, locs[i], hasPhysics))
    && (forall id :: id in r.nodes <==> id in w.nodes || w.nextId <= id < w.nextId + |locs|)
    && (forall id :: id in w.nodes ==> r.nodes[id] == w.nodes[id])
  }

  /** The selection bookkeeping and the published flag are the same. */
  ghost predicate SameSelection(w: World, r: World)
  {
    r.selectedNodes == w.selectedNodes && r.selectedNode == w.selectedNode && r.published == w.published
  }

  /** `s` without `id`: the children after `id.removeFromParent()`. */
  function Without(s: seq<NodeId>, id: NodeId): (r: seq<NodeId>)
    ensures forall x :: x in r <==> x in s && x != id
    ensures |r| <= |s|
    ensures id !in s ==> r == s
    ensures Distinct(s) ==> Distinct(r)
    ensures Distinct(s) && id in s ==> |r| == |s| - 1
  {
    if s == [] then []
    else
      assert Distinct(s) ==> Distinct(s[1..]) && s[0] !in s[1..];
      if s[0] == id then Without(s[1..], id)
      else [s[0]] + Without(s[1..], id)
  }

  /** `r` is `s` with the entry `id` cut out of its place: the other children
      keep their order (SpriteKit's draw order). */
  ghost predicate CutOut(s: seq<NodeId>, r: seq<NodeId>, id: NodeId)
  {
    exists k :: 0 <= k < |s| && s[k] == id && r == s[..k] + s[k + 1..]
  }

  /** In a list without repeats, removing the entry at `k` cuts it out of its
      place and keeps the order of the rest. */
  lemma {:induction false} WithoutAt(s: seq<NodeId>, k: nat)
    requires Distinct(s) && k < |s|
    ensures Without(s, s[k]) == s[..k] + s[k + 1..]
    ensures CutOut(s, Without(s, s[k]), s[k])
  {
    if k == 0 {
      assert s[0] !in s[1..];
    } else {
      assert s[0] != s[k];
      assert Distinct(s[1..]) && s[1..][k - 1] == s[k];
      WithoutAt(s[1..], k - 1);
      assert [s[0]] + (s[1..][..k - 1] + s[1..][k..]) == s[..k] + s[k + 1..];
    }
  }

  /** `renderNode(location:hasPhysics:zPosition:)` followed by `addChild`. */
  function Spawn(w: World, loc: Point, hasPhysics: bool, z: real): (r: World)
    requires WellFormed(w)
    ensures WellFormed(r)
    ensures Appended(w, r, [loc], hasPhysics, z) && SameSelection(w, r)
  {
    w.(nodes := w.nodes[w.nextId := NodeState(z, loc, hasPhysics)],
       children := w.children + [w.nextId],
       nextId := w.nextId + 1)
  }

  /** `node.removeFromParent()`: a no-op on the detached placeholder and on a
      node that is no longer a child. The node itself survives. */
  function RemoveFromParent(w: World, node: Option<NodeId>): (r: World)
    requires WellFormed(w)
    ensures WellFormed(r)
    ensures r.nodes == w.nodes && r.nextId == w.nextId && SameSelection(w, r)
    ensures forall id :: id in r.children <==> id in w.children && node != Some(id)
    ensures node.Some? && node.value in w.children ==> |r.children| == |w.children| - 1
    ensures node.None? ==> r.children == w.children
  {
    match node
    case None => w
    case Some(id) =>
      var r := w.(children := Without(w.children, id));
      assert forall i :: 0 <= i < |r.children| ==> r.children[i] in w.children;
      r
  }

  /** `node.position = loc`, seen through the arena. */
  function SetPosition(w: World, node: Option<NodeId>, loc: Point): (r: World)
    requires WellFormed(w)
    requires node.Some? ==> node.value in w.nodes
    ensures WellFormed(r)
    ensures r.children == w.children && r.nextId == w.nextId && SameSelection(w, r)
    ensures r.nodes.Keys == w.nodes.Keys
    ensures forall id :: id in w.nodes && node != Some(id) ==> r.nodes[id] == w.nodes[id]
    ensures node.Some? ==> r.nodes[node.value] == w.nodes[node.value].(position := loc)
  {
    match node
    case None => w
    case Some(id) => w.(nodes := w.nodes[id := w.nodes[id].(position := loc)])
  }

  /** zPosition of `controls.selectedNode`. */
  function SelectedZ(w: World): real
    requires WellFormed(w)
  {
    match w.selectedNode
    case None => PlaceholderZ
    case Some(id) => w.nodes[id].z
  }

  /** touchesBegan(_:with:) on the first touch, given the hit list of
      `nodes(at:)` for that touch. */
  function Began(w: World, s: Settings, spawnZ: real, touches: seq<Point>, hits: seq<NodeId>): (r: World)
    requires WellFormed(w) && HitsInScene(w, hits)
    ensures WellFormed(r)
  {
    if touches == [] then w
    else
      var loc := touches[0];
      var r := match s.addMethod
        case Clear =>
          var selected := if |hits| > 0 then Some(hits[0]) else None;
          RemoveFromParent(w.(selectedNodes := hits, selectedNode := selected), selected)
        case Add =>
          var w1 := w.(selectedNodes := hits);
          if |hits| > 0 then
            if w.nodes[hits[0]].z != PaintZ then
              var w2 := w1.(selectedNode := Some(hits[0]));
              if s.removeOn then RemoveFromParent(w2, w2.selectedNode) else w2
            else
              Spawn(w1, loc, true, spawnZ)
          else
            Spawn(w1, loc, true, spawnZ)
        case Paint =>
          if |hits| > 0 then
            var w1 := w.(selectedNodes := hits);
            if Trunc(w.nodes[hits[0]].z) == -5 && s.addMethod == Paint && s.removeOn then
              var w2 := w1.(selectedNode := Some(hits[0]));
              RemoveFromParent(w2, w2.selectedNode)
            else
              w1
          else
            Spawn(w, loc, false, PaintZ);
      r.(published := true)
  }

  /** One iteration of the add-mode loop of touchesMoved(_:with:). */
  function AddDragStep(w: World, pourOn: bool, spawnZ: real, loc: Point): (r: World)
    requires WellFormed(w)
    ensures WellFormed(r)
  {
    if |w.selectedNodes| > 0 then
      if SelectedZ(w) != PaintZ then SetPosition(w, w.selectedNode, loc)
      else Spawn(w, loc, true, spawnZ)
    else if pourOn then Spawn(w, loc, true, spawnZ)
    else w
  }

  /** The add-mode loop of touchesMoved over `touches`, in order. */
  function AddDrag(w: World, pourOn: bool, spawnZ: real, touches: seq<Point>): (r: World)
    requires WellFormed(w)
    ensures WellFormed(r)
    ensures SameSelection(w, r)
    decreases |touches|
  {
    if touches == [] then w
    else
      var m := AddDrag(w, pourOn, spawnZ, touches[..|touches| - 1]);
      AddDragStep(m, pourOn, spawnZ, touches[|touches| - 1])
  }

  /** The paint-mode loop of touchesMoved over `touches`, in order. */
  function PaintStrokes(w: World, touches: seq<Point>): (r: World)
    requires WellFormed(w)
    ensures WellFormed(r)
    ensures SameSelection(w, r)
    decreases |touches|
  {
    if touches == [] then w
    else Spawn(PaintStrokes(w, touches[..|touches| - 1]), touches[|touches| - 1], false, PaintZ)
  }

  /** touchesMoved(_:with:). */
  function Moved(w: World, s: Settings, spawnZ: real, touches: seq<Point>): (r: World)
    requires WellFormed(w)
    ensures WellFormed(r)
  {
    var r := match s.addMethod
      case Clear => w
      case Add => AddDrag(w, s.pourOn, spawnZ, touches)
      case Paint => PaintStrokes(w, touches);
    r.(published := true)
  }
}
