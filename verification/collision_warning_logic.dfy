/** The module logic: per-watcher collision update, watched-model colouring,
    the list of watchers whose warning sound is wanted with its aggregate
    flag, the scene add/remove handlers and the rebinding of the watched and
    second models.

    Everything the logic touches is one immutable `System` value: the
    collision-warning nodes in the scene (all observed by the logic), the
    display colour of every model node that has a display, the playing list
    and flag, and a count of the logic's own `ModifiedEvent`s, which is what
    the sound player listens to. Observer calls are synchronous in the
    program, so a node setter that fires `InputDataModifiedEvent` is
    followed at once by the logic's handler (see `Notify`). */
module CollisionWarningLogic {
  import opened Types
  import opened PlayingList
  import opened CollisionWarningNode

  /** What the collision test sees of the scene: whether a model has a
      surface to test, and whether the watched and the second model,
      brought into world coordinates, touch. Triangulation, transforms and
      the collision filter are not modelled beyond this oracle. */
  datatype Geometry = Geometry(hasSurface: NodeId -> bool, collides: (NodeId, NodeId) -> bool)

  datatype System = System(
    watchers: map<NodeId, Watcher>,   // collision-warning nodes in the scene
    displays: map<NodeId, Color>,     // models with a display node, and its colour
    playing: seq<NodeId>,             // WarningSoundPlayingNodes
    warningSoundPlaying: bool,        // WarningSoundPlaying
    modifiedEvents: nat)              // ModifiedEvents of the logic itself

  /** A node added to the scene, as the scene handlers see it. */
  datatype SceneNode = WarningNode(w: Watcher) | OtherNode

  /** The condition under which a watcher wants the warning sound. */
  predicate ShouldPlay(w: Watcher): (play: bool)
    ensures play <==> w.playWarningSound && w.collision
  {
    w.playWarningSound && IsToolTipInsideModel(w)
  }

  /** The playing list holds exactly the watchers that want the sound,
      each once, and the flag says whether it is non-empty. */
  ghost predicate Valid(s: System)
  {
    && NoDup(s.playing)
    && (forall i :: 0 <= i < |s.playing| ==>
          s.playing[i] in s.watchers && ShouldPlay(s.watchers[s.playing[i]]))
    && (forall id :: id in s.watchers && ShouldPlay(s.watchers[id]) ==> id in s.playing)
    && (s.warningSoundPlaying <==> |s.playing| > 0)
  }

  /** A newly created logic: nothing playing. */
  function New(watchers: map<NodeId, Watcher>, displays: map<NodeId, Color>): (s: System)
    ensures !s.warningSoundPlaying && s.playing == [] && s.modifiedEvents == 0
    ensures s.watchers == watchers && s.displays == displays
  {
    System(watchers, displays, [], false, 0)
  }

  /** The flag's setter: the logic is marked modified, which is what the
      sound player reacts to, only when the flag really changes. */
  function SetWarningSoundPlaying(s: System, v: bool): (r: System)
    ensures r.warningSoundPlaying == v
    ensures r.modifiedEvents == s.modifiedEvents + Fired(s.warningSoundPlaying, v)
    ensures r.(warningSoundPlaying := s.warningSoundPlaying, modifiedEvents := s.modifiedEvents) == s
  {
    if s.warningSoundPlaying != v then
      s.(warningSoundPlaying := v, modifiedEvents := s.modifiedEvents + 1)
    else s
  }

  // ---------------------------------------------------------------------
  // Per-watcher update

  /** Recomputes the collision flag. With either model reference unset, only
      the distance is reset and the collision flag keeps its old value; with
      a model lacking a surface nothing changes; otherwise the flag becomes
      the oracle's answer. No `InputDataModifiedEvent` is fired. */
  function UpdateToolState(w: Watcher, geo: Geometry): (r: Watcher)
    ensures r.(collision := w.collision, closestDistance := w.closestDistance) == w
    ensures r.collision ==
      if w.watchedModel.Some? && w.secondModel.Some?
         && geo.hasSurface(w.watchedModel.value) && geo.hasSurface(w.secondModel.value)
      then geo.collides(w.watchedModel.value, w.secondModel.value)
      else w.collision
    ensures r.closestDistance ==
      if w.watchedModel.None? || w.secondModel.None? then 0.0 else w.closestDistance
  {
    if w.watchedModel.None? || w.secondModel.None? then
      w.(closestDistance := 0.0)
    else if !geo.hasSurface(w.watchedModel.value) then
      w
    else if !geo.hasSurface(w.secondModel.value) then
      w
    else
      w.(collision := geo.collides(w.watchedModel.value, w.secondModel.value))
  }

  /** Paints the watched model: the warning colour while colliding, the
      stored original colour otherwise. A watcher without a watched model,
      or a model without a display, leaves every colour as it was. */
  function UpdateModelColor(w: Watcher, displays: map<NodeId, Color>): (r: map<NodeId, Color>)
    ensures r.Keys == displays.Keys
    ensures forall k :: k in displays && Some(k) != w.watchedModel ==> r[k] == displays[k]
    ensures w.watchedModel.Some? && w.watchedModel.value in displays ==>
      r[w.watchedModel.value] == if w.collision then w.warningColor else w.originalColor
  {
    if w.watchedModel.None? then displays
    else if w.watchedModel.value !in displays then displays
    else if IsToolTipInsideModel(w) then displays[w.watchedModel.value := w.warningColor]
    else displays[w.watchedModel.value := w.originalColor]
  }

  /** The handling of one `InputDataModifiedEvent` of watcher `wid`:
      collision update, colouring when enabled, then the playing list and
      the flag. Only watcher `wid`, the colour of its watched model and the
      list entries for `wid` can change. */
  function InputDataModified(s: System, wid: NodeId, geo: Geometry): (r: System)
    requires wid in s.watchers
    ensures r.watchers == s.watchers[wid := UpdateToolState(s.watchers[wid], geo)]
    ensures r.displays.Keys == s.displays.Keys
    ensures forall k :: k in s.displays && Some(k) != s.watchers[wid].watchedModel ==>
      r.displays[k] == s.displays[k]
    ensures !s.watchers[wid].displayWarningColor ==> r.displays == s.displays
    ensures var w := r.watchers[wid];
      w.displayWarningColor && w.watchedModel.Some? && w.watchedModel.value in s.displays ==>
        r.displays[w.watchedModel.value] == if w.collision then w.warningColor else w.originalColor
    ensures ShouldPlay(r.watchers[wid]) ==> wid in r.playing
    ensures NoDup(s.playing) ==> NoDup(r.playing) && (wid in r.playing <==> ShouldPlay(r.watchers[wid]))
    ensures Without(r.playing, wid) == Without(s.playing, wid)
    ensures r.warningSoundPlaying <==> |r.playing| > 0
    ensures r.modifiedEvents == s.modifiedEvents + Fired(s.warningSoundPlaying, r.warningSoundPlaying)
  {
    var w := UpdateToolState(s.watchers[wid], geo);
    var displays := if w.displayWarningColor then UpdateModelColor(w, s.displays) else s.displays;
    var playing := Update(s.playing, wid, ShouldPlay(w));
    SetWarningSoundPlaying(
      s.(watchers := s.watchers[wid := w], displays := displays, playing := playing),
      |playing| > 0)
  }

  /** The logic's observer callback. Only an `InputDataModifiedEvent` of a
      collision-warning node in the scene does anything; a null caller, any
      other caller and any other event leave the whole state untouched. */
  function ProcessMRMLNodesEvents(s: System, caller: Option<NodeId>, event: Event, geo: Geometry): (r: System)
    ensures caller.None? || caller.value !in s.watchers || event != InputDataModifiedEvent ==> r == s
    ensures caller.Some? && caller.value in s.watchers && event == InputDataModifiedEvent ==>
      r == InputDataModified(s, caller.value, geo)
    ensures r.watchers.Keys == s.watchers.Keys && r.displays.Keys == s.displays.Keys
  {
    if caller.None? then s
    else if caller.value !in s.watchers then s
    else if event != InputDataModifiedEvent then s
    else InputDataModified(s, caller.value, geo)
  }

  /** Stores a changed watcher; if the change fired `InputDataModifiedEvent`
      the logic's handler runs straight away, as the synchronous observer
      call does in the program. */
  function Notify(s: System, wid: NodeId, w: Watcher, geo: Geometry): (r: System)
    requires wid in s.watchers
    ensures w.inputEvents == s.watchers[wid].inputEvents ==>
      r == s.(watchers := s.watchers[wid := w])
    ensures w.inputEvents != s.watchers[wid].inputEvents ==>
      r == InputDataModified(s.(watchers := s.watchers[wid := w]), wid, geo)
    ensures r.watchers.Keys == s.watchers.Keys && r.displays.Keys == s.displays.Keys
  {
    var s1 := s.(watchers := s.watchers[wid := w]);
    if w.inputEvents != s.watchers[wid].inputEvents then
      ProcessMRMLNodesEvents(s1, Some(wid), InputDataModifiedEvent, geo)
    else s1
  }

  /** A referenced model or transform node emitted `event`: the watcher
      forwards it or not, and the logic handles what it forwards. */
  function ReferencedNodeEvent(s: System, wid: NodeId, caller: Option<NodeId>, event: Event, geo: Geometry): (r: System)
    requires wid in s.watchers
    ensures caller.Some? && (caller == s.watchers[wid].toolTransform || caller == s.watchers[wid].watchedModel) ==>
      r == InputDataModified(s.(watchers := s.watchers[wid := ProcessMRMLEvents(s.watchers[wid], caller, event)]), wid, geo)
    ensures caller.None? || (caller != s.watchers[wid].toolTransform && caller != s.watchers[wid].watchedModel) ==>
      r == s
  {
    Notify(s, wid, ProcessMRMLEvents(s.watchers[wid], caller, event), geo)
  }

  // ---------------------------------------------------------------------
  // Scene handlers

  /** A node was added to the scene. A collision-warning node is observed
      from now on and, if it already wants the sound, enters the list (once)
      and switches the flag on; the flag is not otherwise recomputed. */
  function OnMRMLSceneNodeAdded(s: System, id: NodeId, node: Option<SceneNode>): (r: System)
    ensures node.None? || node.value.OtherNode? ==> r == s
    ensures node.Some? && node.value.WarningNode? ==>
      && r.watchers == s.watchers[id := node.value.w]
      && r.displays == s.displays
      && (ShouldPlay(node.value.w) ==> r.playing == Insert(s.playing, id) && r.warningSoundPlaying)
      && (!ShouldPlay(node.value.w) ==>
            r.playing == s.playing && r.warningSoundPlaying == s.warningSoundPlaying)
    ensures r.modifiedEvents == s.modifiedEvents + Fired(s.warningSoundPlaying, r.warningSoundPlaying)
  {
    if node.None? then s
    else match node.value
      case OtherNode => s
      case WarningNode(w) =>
        var s1 := s.(watchers := s.watchers[id := w]);
        if ShouldPlay(w) then
          SetWarningSoundPlaying(s1.(playing := Insert(s1.playing, id)), true)
        else s1
  }

  /** A node was removed from the scene. For a collision-warning node the
      first list entry for it is erased, the others keep their order, and
      the flag is recomputed. No colour is restored. */
  function OnMRMLSceneNodeRemoved(s: System, node: Option<NodeId>): (r: System)
    ensures node.None? || node.value !in s.watchers ==> r == s
    ensures node.Some? && node.value in s.watchers ==>
      && r.watchers == s.watchers - {node.value}
      && r.playing == Remove(s.playing, node.value)
      && (r.warningSoundPlaying <==> |r.playing| > 0)
    ensures r.displays == s.displays
    ensures r.modifiedEvents == s.modifiedEvents + Fired(s.warningSoundPlaying, r.warningSoundPlaying)
  {
    if node.None? then s
    else if node.value !in s.watchers then s
    else
      var playing := Remove(s.playing, node.value);
      SetWarningSoundPlaying(
        s.(watchers := s.watchers - {node.value}, playing := playing), |playing| > 0)
  }

  // ---------------------------------------------------------------------
  // Rebinding the models of a watcher

  /** The colour a model shows, or grey when it has no display. */
  function CurrentColor(displays: map<NodeId, Color>, model: NodeId): (c: Color)
    ensures model !in displays ==> c == Grey
    ensures model in displays ==> c == displays[model]
  {
    if model in displays then displays[model] else Grey
  }

  /** Writes colour `c` to the display of `model`, if there is one. */
  function RestoreColor(s: System, model: Option<NodeId>, c: Color): (r: System)
    ensures r.(displays := s.displays) == s
    ensures r.displays.Keys == s.displays.Keys
    ensures forall k :: k in s.displays && Some(k) != model ==> r.displays[k] == s.displays[k]
    ensures model.Some? && model.value in s.displays ==> r.displays[model.value] == c
  {
    if model.Some? && model.value in s.displays then
      s.(displays := s.displays[model.value := c])
    else s
  }

  /** The first step of rebinding: a non-null new model's current colour,
      grey when it has no display, becomes the watcher's original colour
      (and the handler runs if that changed the colour). The watcher's
      references and switches stay as they were. */
  function SaveOriginalColor(s: System, wid: NodeId, newModel: Option<NodeId>, geo: Geometry): (r: System)
    requires wid in s.watchers
    ensures r.watchers.Keys == s.watchers.Keys && r.displays.Keys == s.displays.Keys
    ensures r.watchers[wid].originalColor ==
      if newModel.Some? then CurrentColor(s.displays, newModel.value) else s.watchers[wid].originalColor
    ensures var w := s.watchers[wid]; var w' := r.watchers[wid];
      && w'.watchedModel == w.watchedModel && w'.secondModel == w.secondModel
      && w'.toolTransform == w.toolTransform && w'.displayWarningColor == w.displayWarningColor
      && w'.playWarningSound == w.playWarningSound && w'.warningColor == w.warningColor
    ensures forall k :: k in s.displays && Some(k) != s.watchers[wid].watchedModel ==>
      r.displays[k] == s.displays[k]
    ensures forall k :: k in s.watchers && k != wid ==> r.watchers[k] == s.watchers[k]
  {
    if newModel.Some? then
      Notify(s, wid, SetOriginalColor(s.watchers[wid], CurrentColor(s.displays, newModel.value)), geo)
    else s
  }

  /** Makes `newModel` the watched model of watcher `moduleNode`. Rebinding
      to the current model, or a missing watcher, is a no-op. Otherwise the
      new model's current colour (grey without a display) becomes the
      stored original colour before the node is rebound, and the previous
      model gets back the original colour stored before the call. */
  function SetWatchedModelNode(s: System, newModel: Option<NodeId>, moduleNode: Option<NodeId>, geo: Geometry): (r: System)
    ensures moduleNode.None? || moduleNode.value !in s.watchers ==> r == s
    ensures (moduleNode.Some? && moduleNode.value in s.watchers &&
             s.watchers[moduleNode.value].watchedModel == newModel) ==> r == s
    ensures r.watchers.Keys == s.watchers.Keys && r.displays.Keys == s.displays.Keys
    ensures moduleNode.Some? && moduleNode.value in s.watchers ==>
      var wid := moduleNode.value;
      var previous := s.watchers[wid].watchedModel;
      && r.watchers[wid].watchedModel == newModel
      && r.watchers[wid].originalColor ==
           (if previous != newModel && newModel.Some? then CurrentColor(s.displays, newModel.value)
            else s.watchers[wid].originalColor)
      && (previous != newModel && previous.Some? && previous.value in s.displays ==>
            r.displays[previous.value] == s.watchers[wid].originalColor)
    ensures moduleNode.Some? && moduleNode.value in s.watchers ==>
      var wid := moduleNode.value;
      var w := s.watchers[wid];
      var w' := r.watchers[wid];
      && (forall k :: k in s.watchers && k != wid ==> r.watchers[k] == s.watchers[k])
      && w'.secondModel == w.secondModel && w'.toolTransform == w.toolTransform
      && w'.warningColor == w.warningColor && w'.displayWarningColor == w.displayWarningColor
      && w'.playWarningSound == w.playWarningSound
      && (forall k :: k in s.displays && Some(k) != w.watchedModel && Some(k) != newModel ==>
            r.displays[k] == s.displays[k])
  {
    if moduleNode.None? || moduleNode.value !in s.watchers then s
    else
      var wid := moduleNode.value;
      var previous := s.watchers[wid].watchedModel;
      if previous == newModel then s
      else
        var previousOriginal := if previous.Some? then s.watchers[wid].originalColor else Grey;
        var s1 := SaveOriginalColor(s, wid, newModel, geo);
        var s2 := Notify(s1, wid, SetAndObserveWatchedModelNodeID(s1.watchers[wid], newModel), geo);
        RestoreColor(s2, previous, previousOriginal)
  }

  /** Makes `newModel` the second model of watcher `moduleNode`, with the
      same colour bookkeeping as `SetWatchedModelNode` and on the same
      stored original colour: the new second model's colour becomes the
      watcher's original colour, and the previous second model is painted
      with the original colour stored before the call. */
  function SetSecondModelNode(s: System, newModel: Option<NodeId>, moduleNode: Option<NodeId>, geo: Geometry): (r: System)
    ensures moduleNode.None? || moduleNode.value !in s.watchers ==> r == s
    ensures (moduleNode.Some? && moduleNode.value in s.watchers &&
             s.watchers[moduleNode.value].secondModel == newModel) ==> r == s
    ensures r.watchers.Keys == s.watchers.Keys && r.displays.Keys == s.displays.Keys
    ensures moduleNode.Some? && moduleNode.value in s.watchers ==>
      var wid := moduleNode.value;
      var previous := s.watchers[wid].secondModel;
      && r.watchers[wid].secondModel == newModel
      && r.watchers[wid].watchedModel == s.watchers[wid].watchedModel
      && r.watchers[wid].originalColor ==
           (if previous != newModel && newModel.Some? then CurrentColor(s.displays, newModel.value)
            else s.watchers[wid].originalColor)
      && (previous != newModel && previous.Some? && previous.value in s.displays ==>
            r.displays[previous.value] == s.watchers[wid].originalColor)
    ensures moduleNode.Some? && moduleNode.value in s.watchers ==>
      var wid := moduleNode.value;
      var w := s.watchers[wid];
      var w' := r.watchers[wid];
      && (forall k :: k in s.watchers && k != wid ==> r.watchers[k] == s.watchers[k])
      && w'.toolTransform == w.toolTransform
      && w'.warningColor == w.warningColor && w'.displayWarningColor == w.displayWarningColor
      && w'.playWarningSound == w.playWarningSound
      && (forall k :: k in s.displays && Some(k) != w.secondModel && Some(k) != w.watchedModel ==>
            r.displays[k] == s.displays[k])
  {
    if moduleNode.None? || moduleNode.value !in s.watchers then s
    else
      var wid := moduleNode.value;
      var previous := s.watchers[wid].secondModel;
      if previous == newModel then s
      else
        var previousOriginal := if previous.Some? then s.watchers[wid].originalColor else Grey;
        var s1 := SaveOriginalColor(s, wid, newModel, geo);
        var s2 := Notify(s1, wid, SetAndObserveSecondModelNodeID(s1.watchers[wid], newModel), geo);
        RestoreColor(s2, previous, previousOriginal)
  }
}
