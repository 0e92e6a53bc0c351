/** The collision-warning parameter node: the per-watcher record holding the
    two watched models, the tool transform, the colours, the two feedback
    switches and the computed collision state, together with its setters,
    its reaction to events of the nodes it references, its XML attributes
    and `Copy`.

    The node's observers are modelled by a counter: `inputEvents` is the
    number of times the node has invoked `InputDataModifiedEvent`. The
    generic `ModifiedEvent` is not counted, since nothing in the core reacts
    to it. */
module CollisionWarningNode {
  import opened Types

  datatype Watcher = Watcher(
    watchedModel: Option<NodeId>,   // reference role "watchedModelNode"
    secondModel: Option<NodeId>,    // reference role "secondModelNode"
    toolTransform: Option<NodeId>,  // reference role "toolTransformNode"
    warningColor: Color,
    originalColor: Color,
    displayWarningColor: bool,
    playWarningSound: bool,
    closestDistance: real,          // ClosestDistanceToModelFromToolTip
    collision: bool,
    inputEvents: nat)

  /** A freshly constructed node. */
  function New(): (w: Watcher)
    ensures w.originalColor == Color(0.5, 0.5, 0.5)
    ensures w.warningColor == Color(1.0, 0.0, 0.0)
    ensures w.displayWarningColor && !w.playWarningSound
    ensures w.closestDistance == 0.0 && !w.collision
    ensures w.watchedModel.None? && w.secondModel.None? && w.toolTransform.None?
    ensures w.inputEvents == 0
  {
    Watcher(None, None, None, Red, Grey, true, false, 0.0, false, 0)
  }

  /** The collision query the logic uses. The signed-distance test it once
      stood for is disabled: a negative distance no longer counts as
      inside, only the collision flag does. */
  function IsToolTipInsideModel(w: Watcher): (inside: bool)
    ensures inside <==> w.collision
  {
    w.collision
  }

  // ---------------------------------------------------------------------
  // Change-guarded setters

  /** The number of `InputDataModifiedEvent`s a guarded setter fires: one
      when the stored value really changes, none otherwise. */
  function Fired<T(==)>(before: T, after: T): nat
  {
    if before != after then 1 else 0
  }

  function SetDisplayWarningColor(w: Watcher, v: bool): (r: Watcher)
    ensures r.displayWarningColor == v
    ensures r.inputEvents == w.inputEvents + Fired(w.displayWarningColor, v)
    ensures r.(displayWarningColor := w.displayWarningColor, inputEvents := w.inputEvents) == w
  {
    if w.displayWarningColor != v then
      w.(displayWarningColor := v, inputEvents := w.inputEvents + 1)
    else w
  }

  function SetPlayWarningSound(w: Watcher, v: bool): (r: Watcher)
    ensures r.playWarningSound == v
    ensures r.inputEvents == w.inputEvents + Fired(w.playWarningSound, v)
    ensures r.(playWarningSound := w.playWarningSound, inputEvents := w.inputEvents) == w
  {
    if w.playWarningSound != v then
      w.(playWarningSound := v, inputEvents := w.inputEvents + 1)
    else w
  }

  /** The three-component setter; the component-wise `!=` of the program is
      equality of the triples here. */
  function SetWarningColor(w: Watcher, c: Color): (r: Watcher)
    ensures r.warningColor == c
    ensures r.inputEvents == w.inputEvents + Fired(w.warningColor, c)
    ensures r.(warningColor := w.warningColor, inputEvents := w.inputEvents) == w
  {
    if w.warningColor.r != c.r || w.warningColor.g != c.g || w.warningColor.b != c.b then
      w.(warningColor := c, inputEvents := w.inputEvents + 1)
    else w
  }

  function SetOriginalColor(w: Watcher, c: Color): (r: Watcher)
    ensures r.originalColor == c
    ensures r.inputEvents == w.inputEvents + Fired(w.originalColor, c)
    ensures r.(originalColor := w.originalColor, inputEvents := w.inputEvents) == w
  {
    if w.originalColor.r != c.r || w.originalColor.g != c.g || w.originalColor.b != c.b then
      w.(originalColor := c, inputEvents := w.inputEvents + 1)
    else w
  }

  /** Setting a value the node already holds changes nothing, so every
      guarded setter is idempotent. */
  lemma SettersIdempotent(w: Watcher, b: bool, c: Color)
    ensures SetDisplayWarningColor(w, w.displayWarningColor) == w
    ensures SetPlayWarningSound(w, w.playWarningSound) == w
    ensures SetWarningColor(w, w.warningColor) == w
    ensures SetOriginalColor(w, w.originalColor) == w
    ensures SetDisplayWarningColor(SetDisplayWarningColor(w, b), b) == SetDisplayWarningColor(w, b)
    ensures SetPlayWarningSound(SetPlayWarningSound(w, b), b) == SetPlayWarningSound(w, b)
    ensures SetWarningColor(SetWarningColor(w, c), c) == SetWarningColor(w, c)
    ensures SetOriginalColor(SetOriginalColor(w, c), c) == SetOriginalColor(w, c)
  {
  }

  // ---------------------------------------------------------------------
  // Reference setters

  /** The guard shared by the three reference setters: the request is
      ignored only when both the new and the current ID are non-null and
      equal. A null request is never ignored. */
  predicate SameReference(current: Option<NodeId>, id: Option<NodeId>): (same: bool)
    ensures same <==> id.Some? && id == current
    ensures id.None? ==> !same
  {
    id.Some? && current.Some? && id.value == current.value
  }

  function SetAndObserveWatchedModelNodeID(w: Watcher, id: Option<NodeId>): (r: Watcher)
    ensures r.watchedModel == id
    ensures id.Some? && id == w.watchedModel ==> r == w
    ensures id.None? || id != w.watchedModel ==> r.inputEvents == w.inputEvents + 1
    ensures r.(watchedModel := w.watchedModel, inputEvents := w.inputEvents) == w
  {
    if SameReference(w.watchedModel, id) then w
    else w.(watchedModel := id, inputEvents := w.inputEvents + 1)
  }

  function SetAndObserveSecondModelNodeID(w: Watcher, id: Option<NodeId>): (r: Watcher)
    ensures r.secondModel == id
    ensures id.Some? && id == w.secondModel ==> r == w
    ensures id.None? || id != w.secondModel ==> r.inputEvents == w.inputEvents + 1
    ensures r.(secondModel := w.secondModel, inputEvents := w.inputEvents) == w
  {
    if SameReference(w.secondModel, id) then w
    else w.(secondModel := id, inputEvents := w.inputEvents + 1)
  }

  function SetAndObserveToolTransformNodeId(w: Watcher, id: Option<NodeId>): (r: Watcher)
    ensures r.toolTransform == id
    ensures id.Some? && id == w.toolTransform ==> r == w
    ensures id.None? || id != w.toolTransform ==> r.inputEvents == w.inputEvents + 1
    ensures r.(toolTransform := w.toolTransform, inputEvents := w.inputEvents) == w
  {
    if SameReference(w.toolTransform, id) then w
    else w.(toolTransform := id, inputEvents := w.inputEvents + 1)
  }

  /** Setting a reference twice in a row: the second call is a no-op for a
      non-null ID, but clearing an already cleared reference fires the event
      again. */
  lemma {:induction false} SetReferenceTwice(w: Watcher, id: Option<NodeId>)
    ensures id.Some? ==>
      SetAndObserveWatchedModelNodeID(SetAndObserveWatchedModelNodeID(w, id), id)
        == SetAndObserveWatchedModelNodeID(w, id)
    ensures id.None? ==>
      SetAndObserveWatchedModelNodeID(SetAndObserveWatchedModelNodeID(w, id), id).inputEvents
        == w.inputEvents + 2
  {
  }

  // ---------------------------------------------------------------------
  // Events of referenced nodes

  /** The node's reaction to an event of a node it observes: it forwards
      the event as `InputDataModifiedEvent` only when the caller is its
      tool transform or its watched model, whatever the event is. Events of
      the second model and of any other node are dropped. */
  function ProcessMRMLEvents(w: Watcher, caller: Option<NodeId>, event: Event): (r: Watcher)
    ensures r.(inputEvents := w.inputEvents) == w
    ensures r.inputEvents == w.inputEvents + 1 <==>
      caller.Some? && (caller == w.toolTransform || caller == w.watchedModel)
    ensures r.inputEvents == w.inputEvents <==>
      caller.None? || (caller != w.toolTransform && caller != w.watchedModel)
  {
    if caller.None? then w
    else if w.toolTransform.Some? && w.toolTransform == caller then
      w.(inputEvents := w.inputEvents + 1)
    else if w.watchedModel.Some? && w.watchedModel == caller then
      w.(inputEvents := w.inputEvents + 1)
    else w
  }

  /** Moving or editing the second model does not make the node ask for a
      recomputation, unless the same node is also its tool or watched model. */
  lemma SecondModelEventsDropped(w: Watcher, event: Event)
    requires w.secondModel.Some?
    requires w.secondModel != w.watchedModel && w.secondModel != w.toolTransform
    ensures ProcessMRMLEvents(w, w.secondModel, event) == w
  {
  }

  // ---------------------------------------------------------------------
  // XML attributes

  /** One `name="value"` attribute of the node's XML element. */
  datatype Attribute = Attribute(name: string, value: string)

  /** The number-to-text conversions of the standard stream library used for
      the colours and the distance; they are parameters of the model. */
  datatype NumberText = NumberText(
    formatColor: Color -> string,
    parseColor: string -> Color,
    formatReal: real -> string,
    parseReal: string -> real)

  /** The text written for a boolean attribute. */
  function BoolText(b: bool): (s: string)
    ensures s == "true" || s == "false"
    ensures ParseBool(s) == b
  {
    if b then "true" else "false"
  }

  /** A boolean attribute is true exactly when its text is `true`; every
      other text, `false` included, reads as false. */
  function ParseBool(s: string): (b: bool)
    ensures b <==> s == "true"
  {
    s == "true"
  }

  lemma BoolTextRoundTrip(b: bool, s: string)
    ensures ParseBool(BoolText(b)) == b
    ensures ParseBool(s) <==> s == BoolText(true)
  {
  }

  /** The attributes the node itself adds to its XML element, in order
      (the references are written by the generic node code). */
  function WriteXML(w: Watcher, t: NumberText): (atts: seq<Attribute>)
    ensures |atts| == 6
    ensures forall i :: 0 <= i < |atts| ==> atts[i].name in KnownNames
  {
    [ Attribute("warningColor", t.formatColor(w.warningColor)),
      Attribute("originalColor", t.formatColor(w.originalColor)),
      Attribute("displayWarningColor", BoolText(w.displayWarningColor)),
      Attribute("playWarningSound", BoolText(w.playWarningSound)),
      Attribute("collision", BoolText(w.collision)),
      Attribute("closestDistanceToModelFromToolTip", t.formatReal(w.closestDistance)) ]
  }

  const KnownNames: set<string> :=
    {"warningColor", "originalColor", "displayWarningColor", "playWarningSound",
     "collision", "closestDistanceToModelFromToolTip"}

  /** The value of the last attribute called `name`, if any: the one whose
      assignment survives when attributes are read in order. */
  function Lookup(atts: seq<Attribute>, name: string): (v: Option<string>)
    ensures v.None? <==> forall i :: 0 <= i < |atts| ==> atts[i].name != name
    ensures v.Some? ==>
      exists i :: (&& 0 <= i < |atts| && atts[i].name == name && atts[i].value == v.value
                   && forall j :: i < j < |atts| ==> atts[j].name != name)
  {
    if |atts| == 0 then None
    else
      var rest := Lookup(atts[1..], name);
      if rest.Some? then
        var k :| 0 <= k < |atts[1..]| && atts[1..][k].name == name && atts[1..][k].value == rest.value
          && forall j :: k < j < |atts[1..]| ==> atts[1..][j].name != name;
        assert atts[k + 1] == atts[1..][k];
        rest
      else if atts[0].name == name then Some(atts[0].value)
      else None
  }

  /** Reading a single attribute: a known name sets its field, any other
      name is ignored. */
  function ReadAttribute(w: Watcher, a: Attribute, t: NumberText): (r: Watcher)
    ensures r.warningColor == if a.name == "warningColor" then t.parseColor(a.value) else w.warningColor
    ensures r.originalColor == if a.name == "originalColor" then t.parseColor(a.value) else w.originalColor
    ensures r.displayWarningColor ==
      if a.name == "displayWarningColor" then ParseBool(a.value) else w.displayWarningColor
    ensures r.playWarningSound ==
      if a.name == "playWarningSound" then ParseBool(a.value) else w.playWarningSound
    ensures r.collision == if a.name == "collision" then ParseBool(a.value) else w.collision
    ensures r.closestDistance ==
      if a.name == "closestDistanceToModelFromToolTip" then t.parseReal(a.value) else w.closestDistance
    ensures r.(warningColor := w.warningColor, originalColor := w.originalColor,
               displayWarningColor := w.displayWarningColor, playWarningSound := w.playWarningSound,
               collision := w.collision, closestDistance := w.closestDistance) == w
  {
    if a.name == "warningColor" then w.(warningColor := t.parseColor(a.value))
    else if a.name == "originalColor" then w.(originalColor := t.parseColor(a.value))
    else if a.name == "displayWarningColor" then w.(displayWarningColor := ParseBool(a.value))
    else if a.name == "playWarningSound" then w.(playWarningSound := ParseBool(a.value))
    else if a.name == "collision" then w.(collision := ParseBool(a.value))
    else if a.name == "closestDistanceToModelFromToolTip" then
      w.(closestDistance := t.parseReal(a.value))
    else w
  }

  /** Reads the attribute list front to back. Each field ends up with the
      value of the last attribute of its name, and keeps its prior value
      when no attribute names it; references and events are untouched. */
  function ReadXMLAttributes(w: Watcher, atts: seq<Attribute>, t: NumberText): (r: Watcher)
    ensures r.warningColor ==
      (var v := Lookup(atts, "warningColor"); if v.Some? then t.parseColor(v.value) else w.warningColor)
    ensures r.originalColor ==
      (var v := Lookup(atts, "originalColor"); if v.Some? then t.parseColor(v.value) else w.originalColor)
    ensures r.displayWarningColor ==
      (var v := Lookup(atts, "displayWarningColor"); if v.Some? then ParseBool(v.value) else w.displayWarningColor)
    ensures r.playWarningSound ==
      (var v := Lookup(atts, "playWarningSound"); if v.Some? then ParseBool(v.value) else w.playWarningSound)
    ensures r.collision ==
      (var v := Lookup(atts, "collision"); if v.Some? then ParseBool(v.value) else w.collision)
    ensures r.closestDistance ==
      (var v := Lookup(atts, "closestDistanceToModelFromToolTip");
       if v.Some? then t.parseReal(v.value) else w.closestDistance)
    ensures r.watchedModel == w.watchedModel && r.secondModel == w.secondModel
    ensures r.toolTransform == w.toolTransform && r.inputEvents == w.inputEvents
    decreases |atts|
  {
    if |atts| == 0 then w
    else ReadXMLAttributes(ReadAttribute(w, atts[0], t), atts[1..], t)
  }

  /** Attributes the node does not know leave it as it was. */
  lemma ReadIgnoresUnknown(w: Watcher, atts: seq<Attribute>, t: NumberText)
    requires forall i :: 0 <= i < |atts| ==> atts[i].name !in KnownNames
    ensures ReadXMLAttributes(w, atts, t) == w
  {
  }

  /** Writing the node and reading the attributes back into any node `w0`
      restores the three booleans exactly and gives each colour and the
      distance the value its written text reads back as; the references
      and the event count stay those of `w0`. When those texts read back
      as the values written, every attribute field is restored. */
  lemma {:induction false} WriteReadRoundTrip(w0: Watcher, w: Watcher, t: NumberText)
    ensures var r := ReadXMLAttributes(w0, WriteXML(w, t), t);
      && r.displayWarningColor == w.displayWarningColor
      && r.playWarningSound == w.playWarningSound
      && r.collision == w.collision
      && r.warningColor == t.parseColor(t.formatColor(w.warningColor))
      && r.originalColor == t.parseColor(t.formatColor(w.originalColor))
      && r.closestDistance == t.parseReal(t.formatReal(w.closestDistance))
      && r.watchedModel == w0.watchedModel && r.secondModel == w0.secondModel
      && r.toolTransform == w0.toolTransform && r.inputEvents == w0.inputEvents
    ensures
      (&& t.parseColor(t.formatColor(w.warningColor)) == w.warningColor
       && t.parseColor(t.formatColor(w.originalColor)) == w.originalColor
       && t.parseReal(t.formatReal(w.closestDistance)) == w.closestDistance) ==>
      ReadXMLAttributes(w0, WriteXML(w, t), t) ==
        w.(watchedModel := w0.watchedModel, secondModel := w0.secondModel,
           toolTransform := w0.toolTransform, inputEvents := w0.inputEvents)
  {
    LookupWritten(w, t);
  }

  /** When exactly one attribute carries `name`, the lookup finds its value. */
  lemma {:induction false} LookupUnique(atts: seq<Attribute>, name: string, i: nat)
    requires i < |atts| && atts[i].name == name
    requires forall j :: 0 <= j < |atts| && j != i ==> atts[j].name != name
    ensures Lookup(atts, name) == Some(atts[i].value)
    decreases |atts|
  {
    if i > 0 {
      LookupUnique(atts[1..], name, i - 1);
    }
  }

  /** The attributes written for a node carry pairwise different names. */
  lemma WrittenNamesDistinct(w: Watcher, t: NumberText)
    ensures forall i, j :: 0 <= i < j < 6 ==> WriteXML(w, t)[i].name != WriteXML(w, t)[j].name
  {
    var atts := WriteXML(w, t);
    assert atts[0].name[0] == 'w' && atts[1].name[0] == 'o' && atts[2].name[0] == 'd';
    assert atts[3].name[0] == 'p' && atts[4].name[0] == 'c' && atts[5].name[0] == 'c';
    assert |atts[4].name| != |atts[5].name|;
  }

  lemma LookupWritten(w: Watcher, t: NumberText)
    ensures Lookup(WriteXML(w, t), "warningColor") == Some(t.formatColor(w.warningColor))
    ensures Lookup(WriteXML(w, t), "originalColor") == Some(t.formatColor(w.originalColor))
    ensures Lookup(WriteXML(w, t), "displayWarningColor") == Some(BoolText(w.displayWarningColor))
    ensures Lookup(WriteXML(w, t), "playWarningSound") == Some(BoolText(w.playWarningSound))
    ensures Lookup(WriteXML(w, t), "collision") == Some(BoolText(w.collision))
    ensures Lookup(WriteXML(w, t), "closestDistanceToModelFromToolTip")
      == Some(t.formatReal(w.closestDistance))
  {
    var atts := WriteXML(w, t);
    WrittenNamesDistinct(w, t);
    LookupUnique(atts, atts[0].name, 0);
    LookupUnique(atts, atts[1].name, 1);
    LookupUnique(atts, atts[2].name, 2);
    LookupUnique(atts, atts[3].name, 3);
    LookupUnique(atts, atts[4].name, 4);
    LookupUnique(atts, atts[5].name, 5);
  }

  // ---------------------------------------------------------------------
  // Copy

  /** Copies another collision-warning node: both colours and the three
      flags are taken from `src`; the references come along through the
      generic node copy; the computed distance and the event count stay
      those of `dst`. No `InputDataModifiedEvent` is fired. */
  function Copy(dst: Watcher, src: Watcher): (r: Watcher)
    ensures r.warningColor == src.warningColor && r.originalColor == src.originalColor
    ensures r.playWarningSound == src.playWarningSound
    ensures r.collision == src.collision
    ensures r.displayWarningColor == src.displayWarningColor
    ensures r.closestDistance == dst.closestDistance
    ensures r.inputEvents == dst.inputEvents
    ensures r.watchedModel == src.watchedModel && r.secondModel == src.secondModel
    ensures r.toolTransform == src.toolTransform
  {
    src.(closestDistance := dst.closestDistance, inputEvents := dst.inputEvents)
  }

  /** A copy saves like its source except for the computed distance, which
      is the one attribute `Copy` leaves out. */
  lemma CopySavesLikeSource(dst: Watcher, src: Watcher, t: NumberText)
    ensures WriteXML(Copy(dst, src), t)[..5] == WriteXML(src, t)[..5]
    ensures WriteXML(Copy(dst, src), t)[5] == WriteXML(dst, t)[5]
  {
  }
}
