/** GameScene's touch handlers, written as in PhysicsEnv.swift: they update the
    shared controls object and the scene's children in place. Each handler is
    proved to have the effect that SceneModel.Began or SceneModel.Moved
    gives, so the properties proved in SceneProperties hold of it. */
module PhysicsEnv {
  import opened SceneModel

  /** The shared controls object, as far as the touch handlers use it. */
  class Controls {
    var addMethod: AddMethod
    var pourOn: bool
    var removeOn: bool
    var selectedNodes: seq<NodeId>
    var selectedNode: Option<NodeId>
    var gameScene: GameScene?

    constructor (addMethod: AddMethod, pourOn: bool, removeOn: bool)
      ensures this.addMethod == addMethod && this.pourOn == pourOn && this.removeOn == removeOn
      ensures selectedNodes == [] && selectedNode == None && gameScene == null
    {
      this.addMethod := addMethod;
      this.pourOn := pourOn;
      this.removeOn := removeOn;
      selectedNodes := [];
      selectedNode := None;
      gameScene := null;
    }

    /** The mode and the two flags, as one value. */
    function CurrentSettings(): Settings
      reads this
    {
      Settings(addMethod, pourOn, removeOn)
    }
  }

  class GameScene {
    const controls: Controls
    /** The zPosition renderNode gives a node when none is passed. */
    const spawnZ: real
    /** Every node created so far, in the scene or not. */
    var nodes: map<NodeId, NodeState>
    /** The scene's children, in the order they were added. */
    var children: seq<NodeId>
    var nextId: NodeId

    /** The scene and the controls' selection as one value. */
    function State(): World
      reads this, controls
    {
      World(nodes, children, nextId, controls.selectedNodes, controls.selectedNode, controls.gameScene == this)
    }

    ghost predicate Valid()
      reads this, controls
    {
      WellFormed(State())
    }

    constructor (controls: Controls, spawnZ: real)
      requires controls.selectedNodes == [] && controls.selectedNode == None
      ensures Valid()
      ensures this.controls == controls && this.spawnZ == spawnZ
      ensures nodes == map[] && children == [] && nextId == 0
    {
      this.controls := controls;
      this.spawnZ := spawnZ;
      nodes := map[];
      children := [];
      nextId := 0;
    }

    /** renderNode: a new node at `location`, not yet in the scene. */
    method RenderNode(location: Point, hasPhysics: bool, z: real) returns (node: NodeId)
      requires Valid()
      modifies this
      ensures Valid()
      ensures node == old(nextId) && node !in old(nodes) && nextId == node + 1
      ensures nodes == old(nodes)[node := NodeState(z, location, hasPhysics)]
      ensures children == old(children)
    {
      node := nextId;
      nodes := nodes[node := NodeState(z, location, hasPhysics)];
      nextId := nextId + 1;
    }

    /** addChild: `node` becomes the last child of the scene. */
    method AddChild(node: NodeId)
      requires Valid() && node in nodes && node !in children
      modifies this`children
      ensures Valid()
      ensures children == old(children) + [node]
    {
      children := children + [node];
    }

    /** `node.removeFromParent()`. */
    method Detach(node: Option<NodeId>)
      requires Valid()
      modifies this`children
      ensures Valid()
      ensures State() == RemoveFromParent(old(State()), node)
    {
      if node.Some? {
        children := Without(children, node.value);
      }
      assert State() == RemoveFromParent(old(State()), node);
    }

    /** `node.position = location`. */
    method MoveNode(node: Option<NodeId>, location: Point)
      requires Valid() && (node.Some? ==> node.value in nodes)
      modifies this`nodes
      ensures Valid()
      ensures State() == SetPosition(old(State()), node, location)
    {
      if node.Some? {
        nodes := nodes[node.value := nodes[node.value].(position := location)];
      }
    }

    /** renderNode followed by addChild. */
    method Drop(location: Point, hasPhysics: bool, z: real)
      requires Valid()
      modifies this
      ensures Valid()
      ensures State() == Spawn(old(State()), location, hasPhysics, z)
    {
      var newNode := RenderNode(location, hasPhysics, z);
      AddChild(newNode);
    }

    /** touchesBegan(_:with:): only the first touch counts; `hits` is what
        `nodes(at:)` returns for its location, in its order. */
    method TouchesBegan(touches: seq<Point>, hits: seq<NodeId>)
      requires Valid() && HitsInScene(State(), hits)
      modifies this, controls
      ensures Valid()
      ensures controls.CurrentSettings() == old(controls.CurrentSettings())
      ensures State() == Began(old(State()), old(controls.CurrentSettings()), spawnZ, touches, hits)
      ensures touches == [] ==> controls.gameScene == old(controls.gameScene)
      ensures touches != [] ==> controls.gameScene == this
    {
      if touches == [] {
        return;
      }
      var location := touches[0];
      match controls.addMethod {
      case Clear =>
        var touchedNodes := hits;
        controls.selectedNodes := touchedNodes;
        if |touchedNodes| > 0 {
          controls.selectedNode := Some(touchedNodes[0]);
        } else {
          controls.selectedNode := None;
        }
        Detach(controls.selectedNode);
      case Add =>
        var touchedNodes := hits;
        controls.selectedNodes := touchedNodes;
        if |touchedNodes| > 0 {
          if nodes[touchedNodes[0]].z != PaintZ {
            controls.selectedNode := Some(touchedNodes[0]);
            if controls.removeOn {
              Detach(controls.selectedNode);
            }
          } else {
            Drop(location, true, spawnZ);
          }
        } else {
          Drop(location, true, spawnZ);
        }
      case Paint =>
        var touchedNodes := hits;
        if |touchedNodes| > 0 {
          var selectedNode := touchedNodes[0];
          controls.selectedNodes := touchedNodes;
          if Trunc(nodes[selectedNode].z) == -5 && controls.addMethod == Paint && controls.removeOn {
            controls.selectedNode := Some(selectedNode);
            Detach(controls.selectedNode);
          }
        } else {
          Drop(location, false, PaintZ);
        }
      }
      controls.gameScene := this;
    }

    /** touchesMoved(_:with:): every touch, in order. */
    method TouchesMoved(touches: seq<Point>)
      requires Valid()
      modifies this, controls
      ensures Valid()
      ensures controls.CurrentSettings() == old(controls.CurrentSettings())
      ensures State() == Moved(old(State()), old(controls.CurrentSettings()), spawnZ, touches)
      ensures controls.gameScene == this
    {
      match controls.addMethod {
      case Clear =>
      case Add =>
        for i := 0 to |touches|
          invariant Valid()
          invariant controls.CurrentSettings() == old(controls.CurrentSettings())
          invariant State() == AddDrag(old(State()), controls.pourOn, spawnZ, touches[..i])
        {
          var location := touches[i];
          if |controls.selectedNodes| > 0 {
            if SelectedZ(State()) != PaintZ {
              MoveNode(controls.selectedNode, location);
            } else {
              Drop(location, true, spawnZ);
            }
          } else if controls.pourOn {
            Drop(location, true, spawnZ);
          }
          assert touches[..i + 1][..i] == touches[..i];
        }
        assert touches[..|touches|] == touches;
      case Paint =>
        for i := 0 to |touches|
          invariant Valid()
          invariant controls.CurrentSettings() == old(controls.CurrentSettings())
          invariant State() == PaintStrokes(old(State()), touches[..i])
        {
          var location := touches[i];
          Drop(location, false, PaintZ);
          assert touches[..i + 1][..i] == touches[..i];
        }
        assert touches[..|touches|] == touches;
      }
      controls.gameScene := this;
    }
  }
}
