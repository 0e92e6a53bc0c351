/** Properties that relate several operations of the collision-warning
    logic: the playing-list invariant and the aggregate flag it implies,
    idempotence of event handling, the colour round trip of rebinding, and
    the behaviours the program shows when a model reference is missing or
    the second model is rebound. */
module CollisionWarningProperties {
  import opened Types
  import opened PlayingList
  import opened CollisionWarningNode
  import opened CollisionWarningLogic

  // ---------------------------------------------------------------------
  // The aggregate flag

  /** Under the invariant, the warning sound is wanted exactly when some
      watcher in the scene has the sound switched on and is colliding. */
  lemma {:induction false} ValidFlagIsAggregate(s: System)
    requires Valid(s)
    ensures s.warningSoundPlaying <==>
      exists id :: id in s.watchers && s.watchers[id].playWarningSound && s.watchers[id].collision
  {
    if s.warningSoundPlaying {
      var id := s.playing[0];
      assert id in s.watchers && ShouldPlay(s.watchers[id]);
    }
    if exists id :: id in s.watchers && s.watchers[id].playWarningSound && s.watchers[id].collision {
      var id :| id in s.watchers && s.watchers[id].playWarningSound && s.watchers[id].collision;
      assert ShouldPlay(s.watchers[id]);
      assert id in s.playing;
    }
  }

  /** A freshly created logic over a scene where no watcher wants the sound
      satisfies the invariant. */
  lemma NewIsValid(watchers: map<NodeId, Watcher>, displays: map<NodeId, Color>)
    requires forall id :: id in watchers ==> !ShouldPlay(watchers[id])
    ensures Valid(CollisionWarningLogic.New(watchers, displays))
  {
  }

  // ---------------------------------------------------------------------
  // The invariant is kept by every operation

  lemma {:induction false} InputDataModifiedKeepsValid(s: System, wid: NodeId, geo: Geometry)
    requires Valid(s) && wid in s.watchers
    ensures Valid(InputDataModified(s, wid, geo))
  {
    var r := InputDataModified(s, wid, geo);
    forall i | 0 <= i < |r.playing|
      ensures r.playing[i] in r.watchers && ShouldPlay(r.watchers[r.playing[i]])
    {
      var y := r.playing[i];
      if y != wid {
        assert y in s.playing;
      }
    }
    forall id | id in r.watchers && ShouldPlay(r.watchers[id])
      ensures id in r.playing
    {
      if id != wid {
        assert id in s.playing;
      }
    }
  }

  lemma ProcessMRMLNodesEventsKeepsValid(s: System, caller: Option<NodeId>, event: Event, geo: Geometry)
    requires Valid(s)
    ensures Valid(ProcessMRMLNodesEvents(s, caller, event, geo))
  {
    if caller.Some? && caller.value in s.watchers && event == InputDataModifiedEvent {
      InputDataModifiedKeepsValid(s, caller.value, geo);
    }
  }

  /** Storing a changed watcher keeps the invariant when the change either
      fired `InputDataModifiedEvent` or left the sound condition as it was.
      Every setter of the node satisfies this; a collision flag changed
      silently (by reading XML or by `Copy`) does not. */
  lemma {:induction false} NotifyKeepsValid(s: System, wid: NodeId, w: Watcher, geo: Geometry)
    requires Valid(s) && wid in s.watchers
    requires w.inputEvents != s.watchers[wid].inputEvents || ShouldPlay(w) == ShouldPlay(s.watchers[wid])
    ensures Valid(Notify(s, wid, w, geo))
  {
    var s1 := s.(watchers := s.watchers[wid := w]);
    if w.inputEvents != s.watchers[wid].inputEvents {
      assert NoDup(s1.playing);
      var r := InputDataModified(s1, wid, geo);
      forall i | 0 <= i < |r.playing|
        ensures r.playing[i] in r.watchers && ShouldPlay(r.watchers[r.playing[i]])
      {
        var y := r.playing[i];
        if y != wid {
          assert y in r.playing;
          assert y in s.playing;
          var j :| 0 <= j < |s.playing| && s.playing[j] == y;
        }
      }
      forall id | id in r.watchers && ShouldPlay(r.watchers[id])
        ensures id in r.playing
      {
        if id != wid {
          assert id in s.playing;
        }
      }
    } else {
      forall i | 0 <= i < |s1.playing|
        ensures s1.playing[i] in s1.watchers && ShouldPlay(s1.watchers[s1.playing[i]])
      {
      }
    }
  }

  /** Every change-guarded setter of the node, followed by the logic's
      handling of what it fires, keeps the invariant. */
  lemma ValueSettersKeepValid(s: System, wid: NodeId, b: bool, c: Color, geo: Geometry)
    requires Valid(s) && wid in s.watchers
    ensures Valid(Notify(s, wid, SetDisplayWarningColor(s.watchers[wid], b), geo))
    ensures Valid(Notify(s, wid, SetPlayWarningSound(s.watchers[wid], b), geo))
    ensures Valid(Notify(s, wid, SetWarningColor(s.watchers[wid], c), geo))
    ensures Valid(Notify(s, wid, SetOriginalColor(s.watchers[wid], c), geo))
  {
    var w := s.watchers[wid];
    NotifyKeepsValid(s, wid, SetDisplayWarningColor(w, b), geo);
    NotifyKeepsValid(s, wid, SetPlayWarningSound(w, b), geo);
    NotifyKeepsValid(s, wid, SetWarningColor(w, c), geo);
    NotifyKeepsValid(s, wid, SetOriginalColor(w, c), geo);
  }

  /** The same for the three reference setters. */
  lemma ReferenceSettersKeepValid(s: System, wid: NodeId, id: Option<NodeId>, geo: Geometry)
    requires Valid(s) && wid in s.watchers
    ensures Valid(Notify(s, wid, SetAndObserveWatchedModelNodeID(s.watchers[wid], id), geo))
    ensures Valid(Notify(s, wid, SetAndObserveSecondModelNodeID(s.watchers[wid], id), geo))
    ensures Valid(Notify(s, wid, SetAndObserveToolTransformNodeId(s.watchers[wid], id), geo))
  {
    var w := s.watchers[wid];
    NotifyKeepsValid(s, wid, SetAndObserveWatchedModelNodeID(w, id), geo);
    NotifyKeepsValid(s, wid, SetAndObserveSecondModelNodeID(w, id), geo);
    NotifyKeepsValid(s, wid, SetAndObserveToolTransformNodeId(w, id), geo);
  }

  lemma ReferencedNodeEventKeepsValid(s: System, wid: NodeId, caller: Option<NodeId>, event: Event, geo: Geometry)
    requires Valid(s) && wid in s.watchers
    ensures Valid(ReferencedNodeEvent(s, wid, caller, event, geo))
  {
    NotifyKeepsValid(s, wid, ProcessMRMLEvents(s.watchers[wid], caller, event), geo);
  }

  /** Adding a collision-warning node under a fresh ID keeps the invariant. */
  lemma {:induction false} NodeAddedKeepsValid(s: System, id: NodeId, node: Option<SceneNode>)
    requires Valid(s)
    requires id !in s.watchers
    ensures Valid(OnMRMLSceneNodeAdded(s, id, node))
  {
    var r := OnMRMLSceneNodeAdded(s, id, node);
    if node.Some? && node.value.WarningNode? {
      var w := node.value.w;
      if ShouldPlay(w) {
        InsertKeepsNoDup(s.playing, id);
        forall i | 0 <= i < |r.playing|
          ensures r.playing[i] in r.watchers && ShouldPlay(r.watchers[r.playing[i]])
        {
          if i < |s.playing| {
            assert r.playing[i] == s.playing[i];
            assert s.playing[i] != id;
          }
        }
      } else {
        forall i | 0 <= i < |r.playing|
          ensures r.playing[i] in r.watchers && ShouldPlay(r.watchers[r.playing[i]])
        {
          assert s.playing[i] != id;
        }
      }
    }
  }

  lemma {:induction false} NodeRemovedKeepsValid(s: System, node: Option<NodeId>)
    requires Valid(s)
    ensures Valid(OnMRMLSceneNodeRemoved(s, node))
    ensures node.Some? ==> node.value !in OnMRMLSceneNodeRemoved(s, node).playing
  {
    var r := OnMRMLSceneNodeRemoved(s, node);
    if node.Some? && node.value in s.watchers {
      var x := node.value;
      RemoveKeepsNoDup(s.playing, x);
      RemoveErasesAll(s.playing, x);
      RemoveOthersUnchanged(s.playing, x);
      forall i | 0 <= i < |r.playing|
        ensures r.playing[i] in r.watchers && ShouldPlay(r.watchers[r.playing[i]])
      {
        var y := r.playing[i];
        assert y in r.playing && y != x;
        assert y in s.playing;
        var j :| 0 <= j < |s.playing| && s.playing[j] == y;
      }
    } else if node.Some? {
      forall j | 0 <= j < |s.playing|
        ensures s.playing[j] != node.value
      {
        assert s.playing[j] in s.watchers;
      }
    }
  }

  lemma RestoreColorKeepsValid(s: System, model: Option<NodeId>, c: Color)
    requires Valid(s)
    ensures Valid(RestoreColor(s, model, c))
  {
  }

  lemma SaveOriginalColorKeepsValid(s: System, wid: NodeId, newModel: Option<NodeId>, geo: Geometry)
    requires Valid(s) && wid in s.watchers
    ensures Valid(SaveOriginalColor(s, wid, newModel, geo))
  {
    if newModel.Some? {
      NotifyKeepsValid(s, wid, SetOriginalColor(s.watchers[wid], CurrentColor(s.displays, newModel.value)), geo);
    }
  }

  /** The last two steps of rebinding: storing the rebound watcher (and
      handling the event it fires), then restoring a colour. */
  lemma RebindTailKeepsValid(s: System, wid: NodeId, w: Watcher, previous: Option<NodeId>, c: Color, geo: Geometry)
    requires Valid(s) && wid in s.watchers
    requires ShouldPlay(w) == ShouldPlay(s.watchers[wid])
    ensures Valid(RestoreColor(Notify(s, wid, w, geo), previous, c))
  {
    NotifyKeepsValid(s, wid, w, geo);
    RestoreColorKeepsValid(Notify(s, wid, w, geo), previous, c);
  }

  lemma {:induction false} SetWatchedModelNodeKeepsValid(s: System, newModel: Option<NodeId>, moduleNode: Option<NodeId>, geo: Geometry)
    requires Valid(s)
    ensures Valid(SetWatchedModelNode(s, newModel, moduleNode, geo))
  {
    if moduleNode.Some? && moduleNode.value in s.watchers {
      var wid := moduleNode.value;
      var w := s.watchers[wid];
      var previous := w.watchedModel;
      if previous != newModel {
        var previousOriginal := if previous.Some? then w.originalColor else Grey;
        var s1 := SaveOriginalColor(s, wid, newModel, geo);
        SaveOriginalColorKeepsValid(s, wid, newModel, geo);
        var w1 := SetAndObserveWatchedModelNodeID(s1.watchers[wid], newModel);
        RebindTailKeepsValid(s1, wid, w1, previous, previousOriginal, geo);
        SetWatchedModelNodeSteps(s, newModel, wid, geo);
      }
    }
  }

  /** `SetWatchedModelNode` on an existing watcher and a different model is
      the colour snapshot, the rebinding with its event, and the restore. */
  lemma SetWatchedModelNodeSteps(s: System, newModel: Option<NodeId>, wid: NodeId, geo: Geometry)
    requires wid in s.watchers && s.watchers[wid].watchedModel != newModel
    ensures var w := s.watchers[wid];
      var s1 := SaveOriginalColor(s, wid, newModel, geo);
      SetWatchedModelNode(s, newModel, Some(wid), geo)
        == RestoreColor(
             Notify(s1, wid, SetAndObserveWatchedModelNodeID(s1.watchers[wid], newModel), geo),
             w.watchedModel, if w.watchedModel.Some? then w.originalColor else Grey)
  {
  }

  lemma {:induction false} SetSecondModelNodeKeepsValid(s: System, newModel: Option<NodeId>, moduleNode: Option<NodeId>, geo: Geometry)
    requires Valid(s)
    ensures Valid(SetSecondModelNode(s, newModel, moduleNode, geo))
  {
    if moduleNode.Some? && moduleNode.value in s.watchers {
      var wid := moduleNode.value;
      var w := s.watchers[wid];
      var previous := w.secondModel;
      if previous != newModel {
        var previousOriginal := if previous.Some? then w.originalColor else Grey;
        var s1 := SaveOriginalColor(s, wid, newModel, geo);
        SaveOriginalColorKeepsValid(s, wid, newModel, geo);
        var w1 := SetAndObserveSecondModelNodeID(s1.watchers[wid], newModel);
        RebindTailKeepsValid(s1, wid, w1, previous, previousOriginal, geo);
        SetSecondModelNodeSteps(s, newModel, wid, geo);
      }
    }
  }

  /** `SetSecondModelNode` on an existing watcher and a different model is
      the colour snapshot, the rebinding with its event, and the restore. */
  lemma SetSecondModelNodeSteps(s: System, newModel: Option<NodeId>, wid: NodeId, geo: Geometry)
    requires wid in s.watchers && s.watchers[wid].secondModel != newModel
    ensures var w := s.watchers[wid];
      var s1 := SaveOriginalColor(s, wid, newModel, geo);
      SetSecondModelNode(s, newModel, Some(wid), geo)
        == RestoreColor(
             Notify(s1, wid, SetAndObserveSecondModelNodeID(s1.watchers[wid], newModel), geo),
             w.secondModel, if w.secondModel.Some? then w.originalColor else Grey)
  {
  }

  /** When no other watcher wants the sound, the event that ends the
      collision (or switches the sound off) of the last one empties the
      list, clears the flag and notifies the sound player once. */
  lemma {:induction false} LastWarningStops(s: System, a: NodeId, geo: Geometry)
    requires Valid(s) && a in s.watchers
    requires forall id :: id in s.watchers && id != a ==> !ShouldPlay(s.watchers[id])
    requires !ShouldPlay(UpdateToolState(s.watchers[a], geo))
    ensures var r := InputDataModified(s, a, geo);
      && r.playing == [] && !r.warningSoundPlaying
      && r.modifiedEvents == s.modifiedEvents + (if s.warningSoundPlaying then 1 else 0)
  {
    var r := InputDataModified(s, a, geo);
    forall i | 0 <= i < |s.playing|
      ensures s.playing[i] == a
    {
      assert s.playing[i] in s.watchers && ShouldPlay(s.watchers[s.playing[i]]);
    }
    WithoutOnly(s.playing, a);
    assert a !in r.playing;
    WithoutAbsent(r.playing, a);
  }

  // ---------------------------------------------------------------------
  // Idempotence of event handling

  lemma UpdateToolStateIdempotent(w: Watcher, geo: Geometry)
    ensures UpdateToolState(UpdateToolState(w, geo), geo) == UpdateToolState(w, geo)
  {
  }

  /** Handling the same `InputDataModifiedEvent` twice gives the state of
      handling it once: no duplicate entry, no second removal, no second
      notification of the sound player. */
  lemma {:induction false} InputDataModifiedIdempotent(s: System, wid: NodeId, geo: Geometry)
    requires wid in s.watchers && NoDup(s.playing)
    ensures InputDataModified(InputDataModified(s, wid, geo), wid, geo) == InputDataModified(s, wid, geo)
  {
    var r1 := InputDataModified(s, wid, geo);
    var w := UpdateToolState(s.watchers[wid], geo);
    UpdateToolStateIdempotent(s.watchers[wid], geo);
    assert r1.watchers[wid] == w;
    assert UpdateToolState(r1.watchers[wid], geo) == w;
    var displays := if w.displayWarningColor then UpdateModelColor(w, r1.displays) else r1.displays;
    assert displays == r1.displays;
    if ShouldPlay(w) {
      InsertIdempotent(s.playing, wid);
      assert Update(r1.playing, wid, true) == r1.playing;
    } else {
      RemoveKeepsNoDup(s.playing, wid);
      RemoveIdempotent(s.playing, wid);
      assert Update(r1.playing, wid, false) == r1.playing;
    }
    var r2 := InputDataModified(r1, wid, geo);
    assert r2.playing == r1.playing;
    assert r2.displays == r1.displays;
    assert r2.watchers == r1.watchers;
  }

  // ---------------------------------------------------------------------
  // Colour round trip of rebinding

  /** A series of `InputDataModifiedEvent`s of watcher `wid`, handled in
      order, each with the geometry of its moment. */
  function Replay(s: System, wid: NodeId, geos: seq<Geometry>): (r: System)
    requires wid in s.watchers
    ensures wid in r.watchers && r.displays.Keys == s.displays.Keys
    ensures r.watchers[wid].watchedModel == s.watchers[wid].watchedModel
    ensures r.watchers[wid].secondModel == s.watchers[wid].secondModel
    ensures r.watchers[wid].originalColor == s.watchers[wid].originalColor
    decreases |geos|
  {
    if |geos| == 0 then s
    else Replay(InputDataModified(s, wid, geos[0]), wid, geos[1..])
  }

  /** Colour restoration round trip: bind a watcher to model `n`, let its
      collision state change any number of times, then bind it to another
      model (or to none). Model `n` ends with exactly the colour it had
      before it was bound, whatever was painted on it in between. */
  lemma {:induction false} RebindRoundTrip(
    s: System, wid: NodeId, n: NodeId, m: Option<NodeId>,
    geo1: Geometry, geos: seq<Geometry>, geo2: Geometry)
    requires wid in s.watchers && s.watchers[wid].watchedModel != Some(n)
    requires n in s.displays && m != Some(n)
    ensures var r1 := SetWatchedModelNode(s, Some(n), Some(wid), geo1);
      var r2 := Replay(r1, wid, geos);
      var r3 := SetWatchedModelNode(r2, m, Some(wid), geo2);
      n in r3.displays && r3.displays[n] == s.displays[n]
  {
    var r1 := SetWatchedModelNode(s, Some(n), Some(wid), geo1);
    assert r1.watchers[wid].originalColor == s.displays[n];
    var r2 := Replay(r1, wid, geos);
    assert r2.watchers[wid].watchedModel == Some(n);
  }

  /** Binding a model that does not collide leaves its colour as it was:
      the snapshot is taken before any warning colour is applied. */
  lemma {:induction false} BindingKeepsColorWithoutCollision(s: System, wid: NodeId, n: NodeId, geo: Geometry)
    requires wid in s.watchers && s.watchers[wid].watchedModel != Some(n) && n in s.displays
    ensures var r := SetWatchedModelNode(s, Some(n), Some(wid), geo);
      !r.watchers[wid].collision ==> r.displays[n] == s.displays[n]
  {
    var w := s.watchers[wid];
    var previous := w.watchedModel;
    var previousOriginal := if previous.Some? then w.originalColor else Grey;
    var s1 := SaveOriginalColor(s, wid, Some(n), geo);
    assert s1.watchers[wid].originalColor == s.displays[n];
    assert s1.watchers[wid].watchedModel == previous;
    assert s1.displays[n] == s.displays[n];
    var w1 := SetAndObserveWatchedModelNodeID(s1.watchers[wid], Some(n));
    assert w1.inputEvents != s1.watchers[wid].inputEvents;
    var s1' := s1.(watchers := s1.watchers[wid := w1]);
    var s2 := InputDataModified(s1', wid, geo);
    assert s2 == Notify(s1, wid, w1, geo);
    assert s2.watchers[wid].originalColor == s.displays[n];
    assert !s2.watchers[wid].collision ==> s2.displays[n] == s.displays[n];
    SetWatchedModelNodeSteps(s, Some(n), wid, geo);
    var r := RestoreColor(s2, previous, previousOriginal);
    assert r.displays[n] == s2.displays[n] && r.watchers == s2.watchers;
  }

  // ---------------------------------------------------------------------
  // Behaviours of the program around missing references and the second model

  /** With a model reference missing, an event resets the distance but keeps
      the collision flag, so a watcher that was sounding keeps sounding. */
  lemma {:induction false} MissingReferenceKeepsCollision(s: System, wid: NodeId, geo: Geometry)
    requires Valid(s) && wid in s.watchers
    requires s.watchers[wid].watchedModel.None? || s.watchers[wid].secondModel.None?
    ensures var r := InputDataModified(s, wid, geo);
      && r.watchers[wid].collision == s.watchers[wid].collision
      && r.watchers[wid].closestDistance == 0.0
      && (ShouldPlay(s.watchers[wid]) ==> wid in r.playing && r.warningSoundPlaying)
  {
    var r := InputDataModified(s, wid, geo);
    assert ShouldPlay(r.watchers[wid]) == ShouldPlay(s.watchers[wid]);
  }

  /** Clearing the second model of a colliding watcher that plays the sound
      leaves the collision flag set and the sound wanted. */
  lemma {:induction false} ClearingSecondModelKeepsAlarm(s: System, wid: NodeId, geo: Geometry)
    requires Valid(s) && wid in s.watchers
    requires ShouldPlay(s.watchers[wid]) && s.watchers[wid].secondModel.Some?
    ensures var r := SetSecondModelNode(s, None, Some(wid), geo);
      r.watchers[wid].collision && wid in r.playing && r.warningSoundPlaying
  {
    var w := s.watchers[wid];
    var w1 := SetAndObserveSecondModelNodeID(w, None);
    assert w1.inputEvents != w.inputEvents;
    var s2 := Notify(s, wid, w1, geo);
    assert s2 == InputDataModified(s.(watchers := s.watchers[wid := w1]), wid, geo);
    assert s2.watchers[wid].collision;
    assert ShouldPlay(s2.watchers[wid]);
    SetSecondModelNodeSteps(s, None, wid, geo);
  }

  /** Binding a second model writes its colour into the one original-colour
      slot of the watcher, so a non-colliding watched model with colouring
      enabled is repainted with the second model's colour. */
  lemma {:induction false} SecondModelRecolorsWatched(s: System, wid: NodeId, n: NodeId, geo: Geometry)
    requires wid in s.watchers
    requires var w := s.watchers[wid];
      && w.displayWarningColor
      && w.watchedModel.Some? && w.watchedModel.value in s.displays
      && w.secondModel != Some(n) && w.secondModel != w.watchedModel
      && n in s.displays
    ensures var r := SetSecondModelNode(s, Some(n), Some(wid), geo);
      var watched := s.watchers[wid].watchedModel.value;
      !r.watchers[wid].collision ==> r.displays[watched] == s.displays[n]
  {
    var w := s.watchers[wid];
    var watched := w.watchedModel.value;
    var s1 := SaveOriginalColor(s, wid, Some(n), geo);
    assert s1.watchers[wid].originalColor == s.displays[n];
    assert s1.watchers[wid].displayWarningColor;
    assert s1.watchers[wid].watchedModel == Some(watched);
    var w2 := SetAndObserveSecondModelNodeID(s1.watchers[wid], Some(n));
    assert w2.inputEvents != s1.watchers[wid].inputEvents;
    var s2 := Notify(s1, wid, w2, geo);
    assert !s2.watchers[wid].collision ==> s2.displays[watched] == s.displays[n];
    SetSecondModelNodeSteps(s, Some(n), wid, geo);
    var r := RestoreColor(s2, w.secondModel, if w.secondModel.Some? then w.originalColor else Grey);
    assert r.displays[watched] == s2.displays[watched] && r.watchers == s2.watchers;
  }
}
