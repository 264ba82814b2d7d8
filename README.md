# Touch dispatch of PhysicsTest's GameScene

PhysicsTest is an iOS app that lets the user drop, paint, drag and erase
shapes in a SpriteKit physics scene. The scene class `GameScene` has two touch
handlers, and they decide what a touch does:

- `touchesBegan` looks at the first touch only. It asks SpriteKit which nodes
  lie under the finger (`nodes(at:)`). Then, depending on the shared
  `addMethod` (`.clear`, `.add`, `.paint`) and the `removeOn` flag, it
  selects, removes or spawns a node. A node with `zPosition == -5` is a
  "paint node".
- `touchesMoved` handles every touch of a drag, with no hit test of its own.
  In add mode each touch either moves the selected node, spawns a physics
  node, or does nothing. It spawns when the selection is non-empty and
  `selectedNode` is a paint node (add mode never selects one, so this is a
  paint node that an earlier clear-mode or paint-mode tap erased), or when
  nothing is selected and `pourOn` is set. In paint mode each touch paints
  one node. In clear mode nothing happens.

Both handlers record their decisions in a shared controls object
(`selectedNodes`, `selectedNode`, `gameScene`).

The project has three modules:

- `SceneModel` (scene_model.dfy) holds the state as a value. SpriteKit nodes
  are objects, so every node ever created stays in an arena (`nodes`, keyed by
  a fresh id). The scene's children are an ordered sequence of ids. A removed
  node therefore still exists, keeps its zPosition, and can still be the
  selected node. `selectedNode == None` is the detached `SKNode()`
  placeholder: its zPosition is SpriteKit's default 0, and moving or removing
  it has no visible effect. `Began` and `Moved` give the effect of the two
  handlers as functions of that value.
- `SceneProperties` (scene_properties.dfy) proves what each mode does to the
  children, the arena and the selection. It also proves two quirks that only
  show across a tap followed by a drag.
- `PhysicsEnv` (game_scene.dfy) holds the classes `Controls` (the shared
  controls object) and `GameScene`. Their handlers update fields in place,
  with the source's branches and loops. Each handler is proved to leave
  exactly the state that `Began` / `Moved` give, so every lemma of
  `SceneProperties` holds of the imperative code.

Inputs that come from SpriteKit or UIKit are parameters:

- The touch set is a sequence of locations, in the set's iteration order.
  `touches.first` is element 0.
- The result of `nodes(at:)` for the first touch is a sequence of ids,
  in the order `nodes(at:)` returns them; the code acts on element 0. It
  must name children of the scene.
- The zPosition that `renderNode` gives a node by default is the constant
  `spawnZ` of the scene.

zPosition is a `CGFloat` and is modelled as a `real`. Add mode and the drag
loop compare it with -5 exactly. The paint branch of `touchesBegan` compares
`Int(zPosition)` with -5. Swift's `Int(_:)` truncates toward zero, so that
test holds for every zPosition in (-6, -5]. The model keeps both tests as
written (`SceneModel.Trunc`, `SceneModel.TruncatesToPaintRange`).

What the two handlers of PhysicsEnv.swift do, and so what the model does:

- in add mode a node is spawned on press, under `touchesBegan`
  (PhysicsEnv.swift:96-102);
- `.clear` is a third `addMethod`, next to `.add` and `.paint`
  (PhysicsEnv.swift:69-79);
- `removeOn` erases only on press, in add mode (PhysicsEnv.swift:90-92) and
  in paint mode (PhysicsEnv.swift:111-113);
- a drag in paint mode only paints and never erases (PhysicsEnv.swift:52-57);
- `GameScene` has no release handler: nothing happens when a finger lifts.

## Model

| member | source | states |
|---|---|---|
| SceneModel.Trunc | PhysicsTest/PhysicsTest/PhysicsEnv.swift:111 | `Int(zPosition)` truncates toward zero: the result is within one of the argument, on the zero side |
| SceneModel.Without | PhysicsTest/PhysicsTest/PhysicsEnv.swift:79 | removing a node from the children keeps exactly the other children, keeps them distinct, and shortens the list by one when the node was a child |
| SceneModel.Spawn | PhysicsTest/PhysicsTest/PhysicsEnv.swift:101-102 | `renderNode` + `addChild` appends one fresh node with the given location, physics flag and zPosition; existing nodes and the selection are untouched; the scene invariant holds |
| SceneModel.RemoveFromParent | PhysicsTest/PhysicsTest/PhysicsEnv.swift:79 | `removeFromParent` drops exactly that node from the children and keeps it in the arena; on the placeholder it changes nothing |
| SceneModel.SetPosition | PhysicsTest/PhysicsTest/PhysicsEnv.swift:37 | setting `selectedNode.position` changes that node's position and nothing else; on the placeholder it changes nothing |
| SceneModel.Began | PhysicsTest/PhysicsTest/PhysicsEnv.swift:64-122 | touchesBegan keeps the scene invariant (fresh ids, distinct children, selection names existing nodes) |
| SceneModel.AddDragStep | PhysicsTest/PhysicsTest/PhysicsEnv.swift:31-50 | one add-mode drag iteration keeps the scene invariant |
| SceneModel.AddDrag | PhysicsTest/PhysicsTest/PhysicsEnv.swift:29-51 | the add-mode drag loop keeps the scene invariant and never changes `selectedNodes` or `selectedNode` |
| SceneModel.PaintStrokes | PhysicsTest/PhysicsTest/PhysicsEnv.swift:52-57 | the paint-mode drag loop keeps the scene invariant and never changes the selection |
| SceneModel.Moved | PhysicsTest/PhysicsTest/PhysicsEnv.swift:25-61 | touchesMoved keeps the scene invariant |
| SceneModel.WithoutAt | PhysicsTest/PhysicsTest/PhysicsEnv.swift:79 | removing a child from children without repeats cuts it out of its place: the children before and after it keep their order |
| SceneModel.TruncatesToPaintRange | PhysicsTest/PhysicsTest/PhysicsEnv.swift:111 | the paint test of touchesBegan, `Int(zPosition) == -5`, holds exactly for zPosition in (-6, -5] |
| SceneProperties.PaintStrokesAppend | PhysicsTest/PhysicsTest/PhysicsEnv.swift:52-57 | the paint loop appends one paint node (no physics, zPosition -5) per touch, in touch order, at that touch's location |
| SceneProperties.AddDragStepEffect | PhysicsTest/PhysicsTest/PhysicsEnv.swift:30-51 | each add-mode drag touch does exactly one thing: moves the selected node (non-empty selection, selected node not paint), spawns one physics node (paint selected node, or empty selection with pourOn), or nothing; it does not change which of the three the next touch does |
| SceneProperties.AddDragKeepsAction | PhysicsTest/PhysicsTest/PhysicsEnv.swift:29-51 | the outcome of an add-mode drag touch is the same for every touch of the gesture: moving or spawning never changes the selection or the selected node's zPosition |
| SceneProperties.AddDragMovesSelected | PhysicsTest/PhysicsTest/PhysicsEnv.swift:33-39 | a drag that moves the selected node leaves it at the last touch, and changes no other node, no child and no id |
| SceneProperties.AddDragSpawns | PhysicsTest/PhysicsTest/PhysicsEnv.swift:40-49 | a drag that spawns appends one physics node per touch, in touch order, at that touch, with the default zPosition |
| SceneProperties.AddDragIgnores | PhysicsTest/PhysicsTest/PhysicsEnv.swift:44-50 | a drag with an empty selection and pouring off changes nothing |
| SceneProperties.MovedKeepsChildrenAndSelection | PhysicsTest/PhysicsTest/PhysicsEnv.swift:25-61 | touchesMoved only appends children (never removes), never changes `selectedNodes` or `selectedNode`, publishes the scene, and in clear mode changes nothing else |
| SceneProperties.PaintMovedPaintsEveryTouch | PhysicsTest/PhysicsTest/PhysicsEnv.swift:52-57 | in paint mode touchesMoved adds exactly as many paint nodes as there are touches, whatever `removeOn` is |
| SceneProperties.AddMovedByAction | PhysicsTest/PhysicsTest/PhysicsEnv.swift:29-51 | in add mode touchesMoved moves the selected node to the last touch, or pours one physics node per touch, or only publishes the scene, according to the selection and `pourOn` |
| SceneProperties.PourSpawnsPerTouch | PhysicsTest/PhysicsTest/PhysicsEnv.swift:44-49 | pouring with an empty selection spawns one physics node per touch, at that touch, with the default zPosition |
| SceneProperties.BeganWithoutTouches | PhysicsTest/PhysicsTest/PhysicsEnv.swift:65 | touchesBegan with no touch changes nothing: not the scene, not the selection, not whether the scene is published |
| SceneProperties.BeganPublishes | PhysicsTest/PhysicsTest/PhysicsEnv.swift:121 | touchesBegan with a touch publishes the scene in every mode, whatever was hit |
| SceneProperties.ClearBegan | PhysicsTest/PhysicsTest/PhysicsEnv.swift:69-79 | clear mode: `selectedNodes` becomes the hit list; with a hit exactly the first hit is removed, whatever its zPosition, and becomes `selectedNode`, and the other children keep their order; with no hit the scene is unchanged and the placeholder is selected; nothing is added |
| SceneProperties.AddBeganOnMissOrPaint | PhysicsTest/PhysicsTest/PhysicsEnv.swift:80-103 | add mode, no hit or a paint node first: exactly one physics node is spawned at the touch, nothing is removed, `selectedNodes` becomes the hit list and `selectedNode` keeps its old, possibly stale value |
| SceneProperties.AddBeganOnPhysicsHit | PhysicsTest/PhysicsTest/PhysicsEnv.swift:84-92 | add mode, a non-paint node first: nothing is spawned, the first hit becomes `selectedNode` and stays selected, and it is removed if and only if `removeOn` is set, cut out of its place with the other children in order; otherwise the children are unchanged |
| SceneProperties.AddBeganKeepsPaint | PhysicsTest/PhysicsTest/PhysicsEnv.swift:80-103 | add mode never removes a paint node, and removes nothing when `removeOn` is off |
| SceneProperties.PaintBeganRemoval | PhysicsTest/PhysicsTest/PhysicsEnv.swift:104-114 | paint mode: a child disappears if and only if it is the first hit, its zPosition truncates to -5 and `removeOn` is set; a node with zPosition outside (-6, -5] is never removed; with a hit, the children are either unchanged or the first hit cut out of its place with the rest in order |
| SceneProperties.PaintBeganSpawnAndSelection | PhysicsTest/PhysicsTest/PhysicsEnv.swift:104-118 | paint mode: one paint node is spawned at the touch exactly when nothing was hit; `selectedNodes` is replaced only when something was hit; `selectedNode` changes only when the hit is erased |
| SceneProperties.DragAfterRemovalMovesDetachedNode | PhysicsTest/PhysicsTest/PhysicsEnv.swift:86-92 | after an add-mode tap with `removeOn` removes a node, that node stays selected and a following drag moves the detached node without changing the scene's children |
| SceneProperties.DragAfterPaintHitMovesStaleSelection | PhysicsTest/PhysicsTest/PhysicsEnv.swift:93-98 | after an add-mode tap on a paint node spawns a node, the previous `selectedNode` is still selected, and a following drag keeps it selected, adds no child, and moves that earlier node to the last touch |
| SceneProperties.BeganKeepsPaintSelectionDetached | PhysicsTest/PhysicsTest/PhysicsEnv.swift:64-122 | touchesBegan keeps the invariant that a selected paint node is not a child: add mode selects only non-paint nodes (:86-88), and clear and paint mode remove the node they select (:75-79, :112-113) |
| SceneProperties.AddDragKeepsPaintSelectionDetached | PhysicsTest/PhysicsTest/PhysicsEnv.swift:29-51 | the add-mode drag loop keeps that invariant: it moves nodes without changing their zPosition and spawns only fresh nodes |
| SceneProperties.PaintStrokesKeepPaintSelectionDetached | PhysicsTest/PhysicsTest/PhysicsEnv.swift:52-57 | the paint-mode drag loop keeps that invariant: the paint nodes it adds are fresh, never the selected node |
| SceneProperties.MovedKeepsPaintSelectionDetached | PhysicsTest/PhysicsTest/PhysicsEnv.swift:25-61 | touchesMoved keeps that invariant in every mode |
| SceneProperties.AddDragSpawnsOnlyOnErasedPaint | PhysicsTest/PhysicsTest/PhysicsEnv.swift:33-49 | under that invariant an add-mode drag spawns only when nothing is selected and `pourOn` is set, or when the selected node is a paint node already off the scene |
| PhysicsEnv.GameScene.RenderNode | PhysicsTest/PhysicsTest/PhysicsEnv.swift:96 | `renderNode` creates a node with a fresh id at the location, with the given physics flag and zPosition, not yet in the scene |
| PhysicsEnv.GameScene.AddChild | PhysicsTest/PhysicsTest/PhysicsEnv.swift:97 | `addChild` appends the node to the scene's children |
| PhysicsEnv.GameScene.Detach | PhysicsTest/PhysicsTest/PhysicsEnv.swift:79 | `removeFromParent` on the scene's fields has the effect of `RemoveFromParent` |
| PhysicsEnv.GameScene.MoveNode | PhysicsTest/PhysicsTest/PhysicsEnv.swift:37 | assigning a node's position has the effect of `SetPosition` |
| PhysicsEnv.GameScene.Drop | PhysicsTest/PhysicsTest/PhysicsEnv.swift:101-102 | `renderNode` followed by `addChild` has the effect of `Spawn` |
| PhysicsEnv.GameScene.TouchesBegan | PhysicsTest/PhysicsTest/PhysicsEnv.swift:64-122 | the in-place handler leaves the scene and the controls' selection exactly as `Began` gives, keeps the mode and flags, and keeps the scene invariant; with no touch `controls.gameScene` keeps its old value, and with a touch it is this scene |
| PhysicsEnv.GameScene.TouchesMoved | PhysicsTest/PhysicsTest/PhysicsEnv.swift:25-61 | the in-place handler, with its per-touch loops, leaves the state exactly as `Moved` gives, keeps the mode and flags, keeps the scene invariant, and sets `controls.gameScene` to this scene |

## Left out

- The physics body set up in `didMove` (an edge loop around the frame) and the physics simulation itself: SpriteKit does them.
- `renderNode`'s shape, size, colour, density, damping and static flag. Its code is not part of this model. A spawned node is modelled only by its location, its physics flag and its zPosition.
- The `print` calls in both handlers (debug output only).
- `touch.location(in:)`: the touch is given directly as its location in the scene.
- `nodes(at:)` is not modelled. Its result is an input, and it must name current children of the scene. Nested descendants are not modelled: the scene's children are flat.
- The order of a `Set<UITouch>` is not modelled. The touches are taken in one fixed order, and `touches.first` is its first element.
- CGFloat's NaN, infinities and rounding are not modelled: zPosition is an exact `real`. Swift's `Int(_:)` traps on NaN, on the infinities and on any value outside `Int`'s range; that trap is not modelled either, and `Trunc` is defined on every real.
- `controls.gameScene = self` is modelled as storing the scene in `Controls.gameScene`. What other code does with that reference is not part of this model.
- The rest of the shared controls object is not modelled (colours, shape kind, density, mass, camera and the figure/dataset mode). Its initial mode and flags are not part of this model either, so `Controls` takes them as constructor arguments; it starts with an empty selection and no scene, which is the state the `PhysicsEnv.GameScene.constructor` line below relies on.
- The SwiftUI views, app lifecycle, persisted settings, camera gestures and dataset-driven figures are UI or are not implemented in PhysicsEnv.swift.
- PhysicsEnv.GameScene.constructor: starts from an empty scene and an empty selection. ContentView.swift:286-318 builds a fresh `GameScene()` each time its `scene` property is evaluated and adds an `SKCameraNode` child (ContentView.swift:313), while the shared controls object keeps the selection of the previous scene. A selection naming another scene's nodes cannot be expressed, because the scene invariant ties the selection to this scene's nodes; the camera child is not modelled.
