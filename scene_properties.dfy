/** What touchesBegan and touchesMoved promise, stated over the functions of
    SceneModel: which nodes appear, which disappear, what is selected. */
module SceneProperties {
  import opened SceneModel

  /** The three outcomes of one iteration of the add-mode drag loop. */
  datatype DragAction = MoveSelected | SpawnPhysics | Ignore

  /** Which outcome a drag touch has in add mode, read off the selection:
      move the selected node when something was hit and the selected node is
      not a paint node; spawn a physics node when the selected node is a paint
      node, or when nothing was hit and pouring is on; otherwise nothing. */
  function AddDragAction(w: World, pourOn: bool): DragAction
    requires WellFormed(w)
  {
    if w.selectedNodes != [] && SelectedZ(w) != PaintZ then MoveSelected
    else if (w.selectedNodes != [] && SelectedZ(w) == PaintZ) || (w.selectedNodes == [] && pourOn) then SpawnPhysics
    else Ignore
  }

  /** The node positions after moving the selected node to `loc`: only the
      selected node (if it is a real node) changes, and only its position. */
  ghost predicate MovedSelectedTo(w: World, r: World, loc: Point)
  {
    && r.nodes.Keys == w.nodes.Keys
    && (forall id :: id in w.nodes && w.selectedNode != Some(id) ==> r.nodes[id] == w.nodes[id])
    && (w.selectedNode.Some? && w.selectedNode.value in w.nodes ==>
          r.nodes[w.selectedNode.value] == w.nodes[w.selectedNode.value].(position := loc))
  }

  // ---------------------------------------------------------------------
  // Appending nodes

  /** Appending `a` and then one more location appends `a + [loc]`. */
  lemma AppendedChain(w: World, m: World, r: World, a: seq<Point>, loc: Point, hasPhysics: bool, z: real)
    requires Appended(w, m, a, hasPhysics, z)
    requires Appended(m, r, [loc], hasPhysics, z)
    ensures Appended(w, r, a + [loc], hasPhysics, z)
  {
  }

  /** Paint strokes append one paint node per touch, at that touch. */
  lemma {:induction false} PaintStrokesAppend(w: World, touches: seq<Point>)
    requires WellFormed(w)
    ensures Appended(w, PaintStrokes(w, touches), touches, false, PaintZ)
    decreases |touches|
  {
    if touches != [] {
      var init := touches[..|touches| - 1];
      var last := touches[|touches| - 1];
      PaintStrokesAppend(w, init);
      var m := PaintStrokes(w, init);
      AppendedChain(w, m, Spawn(m, last, false, PaintZ), init, last, false, PaintZ);
      assert init + [last] == touches;
    }
  }

  // ---------------------------------------------------------------------
  // The add-mode drag loop

  /** One drag touch in add mode has exactly the effect its action names, and
      does not change which action the next touch takes. */
  lemma AddDragStepEffect(w: World, pourOn: bool, spawnZ: real, loc: Point)
    requires WellFormed(w)
    ensures var r := AddDragStep(w, pourOn, spawnZ, loc);
      && AddDragAction(r, pourOn) == AddDragAction(w, pourOn)
      && SameSelection(w, r)
      && (AddDragAction(w, pourOn) == MoveSelected ==>
            r.children == w.children && r.nextId == w.nextId && MovedSelectedTo(w, r, loc))
      && (AddDragAction(w, pourOn) == SpawnPhysics ==> Appended(w, r, [loc], true, spawnZ))
      && (AddDragAction(w, pourOn) == Ignore ==> r == w)
  {
  }

  /** The action a drag touch takes is the same for every touch of a gesture. */
  lemma {:induction false} AddDragKeepsAction(w: World, pourOn: bool, spawnZ: real, touches: seq<Point>)
    requires WellFormed(w)
    ensures AddDragAction(AddDrag(w, pourOn, spawnZ, touches), pourOn) == AddDragAction(w, pourOn)
    decreases |touches|
  {
    if touches != [] {
      var init := touches[..|touches| - 1];
      AddDragKeepsAction(w, pourOn, spawnZ, init);
      AddDragStepEffect(AddDrag(w, pourOn, spawnZ, init), pourOn, spawnZ, touches[|touches| - 1]);
    }
  }

  /** A drag that moves the selected node leaves it at the last touch and
      changes nothing else. */
  lemma {:induction false} AddDragMovesSelected(w: World, pourOn: bool, spawnZ: real, touches: seq<Point>)
    requires WellFormed(w) && AddDragAction(w, pourOn) == MoveSelected && touches != []
    ensures var r := AddDrag(w, pourOn, spawnZ, touches);
      r.children == w.children && r.nextId == w.nextId && MovedSelectedTo(w, r, touches[|touches| - 1])
    decreases |touches|
  {
    var init := touches[..|touches| - 1];
    var last := touches[|touches| - 1];
    var m := AddDrag(w, pourOn, spawnZ, init);
    AddDragKeepsAction(w, pourOn, spawnZ, init);
    AddDragStepEffect(m, pourOn, spawnZ, last);
    if init != [] {
      AddDragMovesSelected(w, pourOn, spawnZ, init);
    }
  }

  /** A drag that spawns appends one physics node per touch, at that touch. */
  lemma {:induction false} AddDragSpawns(w: World, pourOn: bool, spawnZ: real, touches: seq<Point>)
    requires WellFormed(w) && AddDragAction(w, pourOn) == SpawnPhysics
    ensures Appended(w, AddDrag(w, pourOn, spawnZ, touches), touches, true, spawnZ)
    decreases |touches|
  {
    if touches != [] {
      var init := touches[..|touches| - 1];
      var last := touches[|touches| - 1];
      var m := AddDrag(w, pourOn, spawnZ, init);
      AddDragSpawns(w, pourOn, spawnZ, init);
      AddDragKeepsAction(w, pourOn, spawnZ, init);
      AddDragStepEffect(m, pourOn, spawnZ, last);
      AppendedChain(w, m, AddDragStep(m, pourOn, spawnZ, last), init, last, true, spawnZ);
      assert init + [last] == touches;
    }
  }

  /** A drag that neither moves nor spawns changes nothing. */
  lemma {:induction false} AddDragIgnores(w: World, pourOn: bool, spawnZ: real, touches: seq<Point>)
    requires WellFormed(w) && AddDragAction(w, pourOn) == Ignore
    ensures AddDrag(w, pourOn, spawnZ, touches) == w
    decreases |touches|
  {
    if touches != [] {
      AddDragIgnores(w, pourOn, spawnZ, touches[..|touches| - 1]);
    }
  }

  // ---------------------------------------------------------------------
  // touchesMoved

  /** touchesMoved never removes a child (it only appends), never changes the
      selection, and publishes the scene; in clear mode it changes nothing
      else. */
  lemma MovedKeepsChildrenAndSelection(w: World, s: Settings, spawnZ: real, touches: seq<Point>)
    requires WellFormed(w)
    ensures var r := Moved(w, s, spawnZ, touches);
      && |w.children| <= |r.children| && r.children[..|w.children|] == w.children
      && r.selectedNodes == w.selectedNodes && r.selectedNode == w.selectedNode
      && r.published
      && (s.addMethod == Clear ==> r == w.(published := true))
  {
    match s.addMethod
    case Clear =>
    case Add =>
      match AddDragAction(w, s.pourOn) {
        case MoveSelected =>
          if touches != [] {
            AddDragMovesSelected(w, s.pourOn, spawnZ, touches);
          }
        case SpawnPhysics =>
          AddDragSpawns(w, s.pourOn, spawnZ, touches);
        case Ignore =>
          AddDragIgnores(w, s.pourOn, spawnZ, touches);
      }
    case Paint =>
      PaintStrokesAppend(w, touches);
  }

  /** In paint mode touchesMoved adds exactly one paint node (no physics,
      zPosition -5) per touch, at that touch, whatever removeOn says. */
  lemma PaintMovedPaintsEveryTouch(w: World, s: Settings, spawnZ: real, touches: seq<Point>)
    requires WellFormed(w) && s.addMethod == Paint
    ensures var r := Moved(w, s, spawnZ, touches);
      && Appended(w, r, touches, false, PaintZ)
      && |r.children| == |w.children| + |touches|
  {
    PaintStrokesAppend(w, touches);
  }

  /** In add mode every touch of touchesMoved takes the action AddDragAction
      names: the selected node follows the finger, or one physics node is
      poured per touch, or nothing happens. */
  lemma AddMovedByAction(w: World, s: Settings, spawnZ: real, touches: seq<Point>)
    requires WellFormed(w) && s.addMethod == Add
    ensures var r := Moved(w, s, spawnZ, touches);
      && (AddDragAction(w, s.pourOn) == MoveSelected ==>
            && r.children == w.children && r.nextId == w.nextId
            && (touches != [] ==> MovedSelectedTo(w, r, touches[|touches| - 1])))
      && (AddDragAction(w, s.pourOn) == SpawnPhysics ==>
            Appended(w, r, touches, true, spawnZ) && |r.children| == |w.children| + |touches|)
      && (AddDragAction(w, s.pourOn) == Ignore ==> r == w.(published := true))
  {
    var d := AddDrag(w, s.pourOn, spawnZ, touches);
    assert Moved(w, s, spawnZ, touches) == d.(published := true);
    match AddDragAction(w, s.pourOn)
    case MoveSelected =>
      if touches != [] {
        AddDragMovesSelected(w, s.pourOn, spawnZ, touches);
      }
    case SpawnPhysics =>
      AddDragSpawns(w, s.pourOn, spawnZ, touches);
    case Ignore =>
      AddDragIgnores(w, s.pourOn, spawnZ, touches);
  }

  /** Pouring with nothing selected drops one physics node per touch, at that
      touch. The second conjunct reads the new nodes through the scene's
      children, as SpriteKit code sees them, rather than through their ids. */
  lemma PourSpawnsPerTouch(w: World, s: Settings, spawnZ: real, touches: seq<Point>)
    requires WellFormed(w) && s.addMethod == Add && s.pourOn && w.selectedNodes == []
    ensures var r := Moved(w, s, spawnZ, touches);
      && Appended(w, r, touches, true, spawnZ)
      && (forall i :: 0 <= i < |touches| ==>
            r.children[|w.children| + i] in r.nodes &&
            r.nodes[r.children[|w.children| + i]] == NodeState(spawnZ, touches[i], true))
  {
    AddMovedByAction(w, s, spawnZ, touches);
  }

  // ---------------------------------------------------------------------
  // touchesBegan

  /** With no touch, touchesBegan returns before doing anything. */
  lemma BeganWithoutTouches(w: World, s: Settings, spawnZ: real, hits: seq<NodeId>)
    requires WellFormed(w) && HitsInScene(w, hits)
    ensures Began(w, s, spawnZ, [], hits) == w
  {
  }

  /** With a touch, touchesBegan always stores the scene in the controls
      object, whatever the mode and whatever was hit. */
  lemma BeganPublishes(w: World, s: Settings, spawnZ: real, touches: seq<Point>, hits: seq<NodeId>)
    requires WellFormed(w) && HitsInScene(w, hits)
    requires touches != []
    ensures Began(w, s, spawnZ, touches, hits).published
  {
  }

  /** Clear mode: the hit list becomes `selectedNodes`; the first hit, paint
      node or not, is selected and removed from the scene; with no hit the
      placeholder is selected and the scene is unchanged; nothing is added. */
  lemma ClearBegan(w: World, s: Settings, spawnZ: real, touches: seq<Point>, hits: seq<NodeId>)
    requires WellFormed(w) && HitsInScene(w, hits)
    requires s.addMethod == Clear && touches != []
    ensures var r := Began(w, s, spawnZ, touches, hits);
      && r.selectedNodes == hits && r.nodes == w.nodes && r.nextId == w.nextId
      && (hits != [] ==>
            && r.selectedNode == Some(hits[0])
            && (forall id :: id in r.children <==> id in w.children && id != hits[0])
            && |r.children| == |w.children| - 1
            && CutOut(w.children, r.children, hits[0]))
      && (hits == [] ==> r.selectedNode == None && r.children == w.children)
  {
    if hits != [] {
      assert hits[0] in w.children;
      var k :| 0 <= k < |w.children| && w.children[k] == hits[0];
      WithoutAt(w.children, k);
    }
  }

  /** Add mode, a miss or a paint node under the finger: exactly one physics
      node is spawned at the touch; `selectedNode` keeps its old value (which
      may be stale) and only `selectedNodes` changes; nothing is removed. */
  lemma AddBeganOnMissOrPaint(w: World, s: Settings, spawnZ: real, touches: seq<Point>, hits: seq<NodeId>)
    requires WellFormed(w) && HitsInScene(w, hits)
    requires s.addMethod == Add && touches != []
    requires hits == [] || w.nodes[hits[0]].z == PaintZ
    ensures var r := Began(w, s, spawnZ, touches, hits);
      && Appended(w, r, [touches[0]], true, spawnZ)
      && r.selectedNodes == hits && r.selectedNode == w.selectedNode
  {
  }

  /** Add mode, a non-paint node under the finger: nothing is spawned, the
      first hit becomes `selectedNode`, and it is removed exactly when
      removeOn is set; it stays selected when removed. */
  lemma AddBeganOnPhysicsHit(w: World, s: Settings, spawnZ: real, touches: seq<Point>, hits: seq<NodeId>)
    requires WellFormed(w) && HitsInScene(w, hits)
    requires s.addMethod == Add && touches != []
    requires hits != [] && w.nodes[hits[0]].z != PaintZ
    ensures var r := Began(w, s, spawnZ, touches, hits);
      && r.nodes == w.nodes && r.nextId == w.nextId
      && r.selectedNodes == hits && r.selectedNode == Some(hits[0])
      && (forall id :: id in r.children <==> id in w.children && (id != hits[0] || !s.removeOn))
      && (!s.removeOn ==> r.children == w.children)
      && (s.removeOn ==> CutOut(w.children, r.children, hits[0]))
  {
    assert hits[0] in w.children;
    var k :| 0 <= k < |w.children| && w.children[k] == hits[0];
    WithoutAt(w.children, k);
  }

  /** Add mode never removes a paint node, and removes anything at all only
      when removeOn is set. */
  lemma AddBeganKeepsPaint(w: World, s: Settings, spawnZ: real, touches: seq<Point>, hits: seq<NodeId>)
    requires WellFormed(w) && HitsInScene(w, hits)
    requires s.addMethod == Add
    ensures var r := Began(w, s, spawnZ, touches, hits);
      && (forall id :: id in w.children && w.nodes[id].z == PaintZ ==> id in r.children)
      && (!s.removeOn ==> forall id :: id in w.children ==> id in r.children)
  {
  }

  /** Paint mode: a child disappears exactly when it is the first hit, its
      zPosition truncates to -5, and removeOn is set. In particular a node
      whose zPosition lies outside (-6, -5] is never removed. */
  lemma PaintBeganRemoval(w: World, s: Settings, spawnZ: real, touches: seq<Point>, hits: seq<NodeId>)
    requires WellFormed(w) && HitsInScene(w, hits)
    requires s.addMethod == Paint && touches != []
    ensures var r := Began(w, s, spawnZ, touches, hits);
      && (forall id :: id in w.children ==>
            (id !in r.children <==> hits != [] && id == hits[0] && Trunc(w.nodes[id].z) == -5 && s.removeOn))
      && (forall id :: id in w.children && !(-6.0 < w.nodes[id].z <= -5.0) ==> id in r.children)
      && (hits != [] ==>
            if Trunc(w.nodes[hits[0]].z) == -5 && s.removeOn
            then CutOut(w.children, r.children, hits[0])
            else r.children == w.children)
  {
    if hits != [] {
      assert hits[0] in w.children;
      var k :| 0 <= k < |w.children| && w.children[k] == hits[0];
      WithoutAt(w.children, k);
    }
  }

  /** Paint mode: one paint node (no physics, zPosition -5) is spawned at the
      touch exactly when nothing was hit; `selectedNodes` is replaced only when
      something was hit, and `selectedNode` only when that hit is erased. */
  lemma PaintBeganSpawnAndSelection(w: World, s: Settings, spawnZ: real, touches: seq<Point>, hits: seq<NodeId>)
    requires WellFormed(w) && HitsInScene(w, hits)
    requires s.addMethod == Paint && touches != []
    ensures var r := Began(w, s, spawnZ, touches, hits);
      && (hits == [] ==> Appended(w, r, [touches[0]], false, PaintZ) && r.selectedNodes == w.selectedNodes)
      && (hits != [] ==> r.nodes == w.nodes && r.nextId == w.nextId && r.selectedNodes == hits)
      && r.selectedNode == (if hits != [] && Trunc(w.nodes[hits[0]].z) == -5 && s.removeOn
                            then Some(hits[0]) else w.selectedNode)
  {
  }

  // ---------------------------------------------------------------------
  // Quirks across a tap and a drag

  /** Add mode with removeOn: the tapped node is removed but stays selected,
      so a following drag moves the detached node and leaves the scene's
      children as they are. */
  lemma {:induction false} DragAfterRemovalMovesDetachedNode(
    w: World, s: Settings, spawnZ: real, tap: seq<Point>, hits: seq<NodeId>, drag: seq<Point>)
    requires WellFormed(w) && HitsInScene(w, hits)
    requires s.addMethod == Add && s.removeOn && tap != []
    requires hits != [] && w.nodes[hits[0]].z != PaintZ
    ensures var b := Began(w, s, spawnZ, tap, hits);
      var r := Moved(b, s, spawnZ, drag);
      && hits[0] !in r.children
      && r.children == b.children
      && r.selectedNode == Some(hits[0])
      && (drag != [] ==> r.nodes[hits[0]].position == drag[|drag| - 1])
  {
    var b := Began(w, s, spawnZ, tap, hits);
    AddBeganOnPhysicsHit(w, s, spawnZ, tap, hits);
    assert AddDragAction(b, s.pourOn) == MoveSelected;
    AddMovedByAction(b, s, spawnZ, drag);
  }

  /** Add mode: tapping a paint node spawns a node but leaves the previous
      `selectedNode` in place while `selectedNodes` is now non-empty, so a
      following drag moves that earlier node, wherever it is. */
  lemma {:induction false} DragAfterPaintHitMovesStaleSelection(
    w: World, s: Settings, spawnZ: real, tap: seq<Point>, hits: seq<NodeId>, drag: seq<Point>, stale: NodeId)
    requires WellFormed(w) && HitsInScene(w, hits)
    requires s.addMethod == Add && tap != [] && drag != []
    requires hits != [] && w.nodes[hits[0]].z == PaintZ
    requires w.selectedNode == Some(stale) && w.nodes[stale].z != PaintZ
    ensures var b := Began(w, s, spawnZ, tap, hits);
      var r := Moved(b, s, spawnZ, drag);
      && |b.children| == |w.children| + 1
      && r.children == b.children
      && r.selectedNode == Some(stale)
      && r.nodes[stale].position == drag[|drag| - 1]
  {
    var b := Began(w, s, spawnZ, tap, hits);
    AddBeganOnMissOrPaint(w, s, spawnZ, tap, hits);
    assert AddDragAction(b, s.pourOn) == MoveSelected;
    AddMovedByAction(b, s, spawnZ, drag);
  }

  // ---------------------------------------------------------------------
  // A selected paint node is always off the scene

  /** If `selectedNode` is a paint node, it is no longer a child. Add mode
      never selects a paint node; only a clear-mode or paint-mode tap does,
      and it removes that node in the same step. */
  ghost predicate PaintSelectionDetached(w: World)
    requires WellFormed(w)
  {
    w.selectedNode.Some? && SelectedZ(w) == PaintZ ==> w.selectedNode.value !in w.children
  }

  /** touchesBegan keeps a selected paint node off the scene. */
  lemma BeganKeepsPaintSelectionDetached(w: World, s: Settings, spawnZ: real, touches: seq<Point>, hits: seq<NodeId>)
    requires WellFormed(w) && HitsInScene(w, hits) && PaintSelectionDetached(w)
    ensures PaintSelectionDetached(Began(w, s, spawnZ, touches, hits))
  {
  }

  /** The add-mode drag loop keeps a selected paint node off the scene. */
  lemma {:induction false} AddDragKeepsPaintSelectionDetached(w: World, pourOn: bool, spawnZ: real, touches: seq<Point>)
    requires WellFormed(w) && PaintSelectionDetached(w)
    ensures PaintSelectionDetached(AddDrag(w, pourOn, spawnZ, touches))
    decreases |touches|
  {
    if touches != [] {
      AddDragKeepsPaintSelectionDetached(w, pourOn, spawnZ, touches[..|touches| - 1]);
    }
  }

  /** The paint-mode drag loop keeps a selected paint node off the scene. */
  lemma {:induction false} PaintStrokesKeepPaintSelectionDetached(w: World, touches: seq<Point>)
    requires WellFormed(w) && PaintSelectionDetached(w)
    ensures PaintSelectionDetached(PaintStrokes(w, touches))
    decreases |touches|
  {
    if touches != [] {
      PaintStrokesKeepPaintSelectionDetached(w, touches[..|touches| - 1]);
    }
  }

  /** touchesMoved keeps a selected paint node off the scene. */
  lemma MovedKeepsPaintSelectionDetached(w: World, s: Settings, spawnZ: real, touches: seq<Point>)
    requires WellFormed(w) && PaintSelectionDetached(w)
    ensures PaintSelectionDetached(Moved(w, s, spawnZ, touches))
  {
    AddDragKeepsPaintSelectionDetached(w, s.pourOn, spawnZ, touches);
    PaintStrokesKeepPaintSelectionDetached(w, touches);
  }

  /** So an add-mode drag spawns in two cases only: nothing is selected and
      pouring is on, or the selected node is a paint node that an earlier
      tap already erased. */
  lemma AddDragSpawnsOnlyOnErasedPaint(w: World, pourOn: bool)
    requires WellFormed(w) && PaintSelectionDetached(w)
    requires AddDragAction(w, pourOn) == SpawnPhysics
    ensures w.selectedNodes == [] ==> pourOn
    ensures w.selectedNodes != [] ==>
      w.selectedNode.Some? && w.nodes[w.selectedNode.value].z == PaintZ && w.selectedNode.value !in w.children
  {
  }
}
