# CollisionWarning — a Dafny model of the collision-warning core

The CollisionWarning module watches pairs of surface models in a medical
imaging scene. Each *collision-warning node* (a parameter node, called a
*watcher* below) refers to a watched model, a second model and a tool
transform. It holds a warning colour, an original colour, two feedback
switches ("display warning colour", "play warning sound") and the computed
collision state. The module *logic* observes every such node. When a
node's inputs change, the logic:

- recomputes whether the two models collide;
- paints the watched model with the warning colour or the original colour;
- keeps a list of the nodes that currently want the warning sound;
- keeps a single flag that says whether that list is non-empty.

When a model is rebound, the logic records the new model's colour and
gives the previous model its stored colour back.

The model is purely functional:

- A `Watcher` record stands for the node.
- `InputDataModifiedEvent`s are counted in its `inputEvents` field.
- A `System` record stands for the logic: the watchers in the scene, the
  display colour of each model, the playing list, the flag and a count of
  the logic's own `ModifiedEvent`s.
- Observer calls are synchronous in the program. They are modelled by
  `Notify`, which stores a changed watcher and runs the logic's handler
  whenever the change fired `InputDataModifiedEvent`.

Modules:

- `Types`: node IDs, `Option`, colours, events, the two colour constants.
- `PlayingList`: the linear search, the guarded `push_back` and the
  first-match `erase` on the playing list.
- `CollisionWarningNode`: the node, covering its defaults, setters,
  reference setters, event forwarding, XML attributes and `Copy`.
- `CollisionWarningLogic`: the logic's handlers and the rebinding
  operations.
- `CollisionWarningProperties`: lemmas that relate several operations.
  They cover the playing-list invariant `Valid`, the colour round trip,
  idempotence, and the program's behaviour around missing references and
  the second model.

Five behaviours of the code look unintended. The model keeps them as
written:

1. **Missing reference.** With a model reference missing, the handler
   resets only the distance. The collision flag keeps its value, and so a
   sounding watcher keeps sounding. See `MissingReferenceKeepsCollision`.
2. **Node removal.** Removing a collision-warning node restores no model
   colour.
3. **Second model colour.** `SetSecondModelNode` stores the second model's
   colour in the one `OriginalColor` slot that the watched model uses. See
   `SecondModelRecolorsWatched`.
4. **Node added.** Adding a node only ever switches the flag on. The flag
   is not recomputed when the new node does not want the sound.
5. **Clearing a reference.** Clearing an already cleared reference still
   fires `InputDataModifiedEvent`. See `SetReferenceTwice`.

Paths below are relative to the repository root. `Logic/…` stands for
`CollisionWarning/Logic/vtkSlicerCollisionWarningLogic.bam_pre62.cpp` and
`MRML/…` for `CollisionWarning/MRML/vtkMRMLCollisionWarningNode.cxx`.

## Model

| member | source | states |
|---|---|---|
| CollisionWarningNode.New | CollisionWarning/MRML/vtkMRMLCollisionWarningNode.cxx:27-53 | A new node has original colour grey (0.5,0.5,0.5), warning colour red, colour display on, sound off, distance 0, no collision, no references and no events fired. |
| CollisionWarningNode.IsToolTipInsideModel | CollisionWarning/MRML/vtkMRMLCollisionWarningNode.cxx:308-312 | The tool counts as inside exactly when the collision flag is set. |
| CollisionWarningNode.SetDisplayWarningColor | CollisionWarning/MRML/vtkMRMLCollisionWarningNode.cxx:314-323 | The switch takes the new value and nothing else changes. One InputDataModifiedEvent fires if the value changed, none otherwise. |
| CollisionWarningNode.SetPlayWarningSound | CollisionWarning/MRML/vtkMRMLCollisionWarningNode.cxx:325-334 | The same change guard, for the sound switch. |
| CollisionWarningNode.SetWarningColor | CollisionWarning/MRML/vtkMRMLCollisionWarningNode.cxx:336-347 | The colour is replaced. The event fires only if some component differs. Other fields are kept. |
| CollisionWarningNode.SetOriginalColor | CollisionWarning/MRML/vtkMRMLCollisionWarningNode.cxx:354-365 | The same change guard, for the original colour. |
| CollisionWarningNode.SettersIdempotent | CollisionWarning/MRML/vtkMRMLCollisionWarningNode.cxx:314-365 | Calling a value setter again with the same value is a no-op that fires nothing. |
| CollisionWarningNode.SetAndObserveWatchedModelNodeID | CollisionWarning/MRML/vtkMRMLCollisionWarningNode.cxx:212-233 | The reference becomes the given ID. Re-setting the same non-null ID is a complete no-op; any other call fires exactly one event, including clearing a reference that is already null. Other fields are kept. |
| CollisionWarningNode.SetAndObserveSecondModelNodeID | CollisionWarning/MRML/vtkMRMLCollisionWarningNode.cxx:235-256 | The same guard, for the second-model role. |
| CollisionWarningNode.SetAndObserveToolTransformNodeId | CollisionWarning/MRML/vtkMRMLCollisionWarningNode.cxx:267-289 | The same guard, for the tool-transform role. |
| CollisionWarningNode.SameReference | CollisionWarning/MRML/vtkMRMLCollisionWarningNode.cxx:219-227 | A reference request is ignored exactly when the new ID is non-null and equal to the current one. A null request is never ignored. |
| CollisionWarningNode.SetReferenceTwice | CollisionWarning/MRML/vtkMRMLCollisionWarningNode.cxx:219-232 | Setting a non-null reference twice equals setting it once. Clearing twice fires two events. |
| CollisionWarningNode.ProcessMRMLEvents | CollisionWarning/MRML/vtkMRMLCollisionWarningNode.cxx:291-306 | The node forwards an event, whatever its kind, exactly when the caller is non-null and is its tool transform or its watched model. Only the event count changes. |
| CollisionWarningNode.SecondModelEventsDropped | CollisionWarning/MRML/vtkMRMLCollisionWarningNode.cxx:298-305 | An event from a second model that is neither the tool nor the watched model leaves the node unchanged. |
| CollisionWarningNode.BoolText | CollisionWarning/MRML/vtkMRMLCollisionWarningNode.cxx:69-71 | A boolean is written as `true` or `false`, and its text reads back as the same boolean. |
| CollisionWarningNode.ParseBool | CollisionWarning/MRML/vtkMRMLCollisionWarningNode.cxx:114-145 | A boolean attribute reads as true exactly when its text is `true`. |
| CollisionWarningNode.BoolTextRoundTrip | CollisionWarning/MRML/vtkMRMLCollisionWarningNode.cxx:69-71 | A written boolean reads back as itself. Any text other than `true` reads as false. |
| CollisionWarningNode.WriteXML | CollisionWarning/MRML/vtkMRMLCollisionWarningNode.cxx:60-73 | Six attributes are written, all with names the reader knows. |
| CollisionWarningNode.Lookup | CollisionWarning/MRML/vtkMRMLCollisionWarningNode.cxx:85-88 | The lookup finds no value exactly when no attribute carries the name. Otherwise it returns the value of the last attribute with that name, the one whose assignment survives a front-to-back read. |
| CollisionWarningNode.ReadAttribute | CollisionWarning/MRML/vtkMRMLCollisionWarningNode.cxx:90-154 | A known name sets exactly its own field from the text, and any other name changes nothing. |
| CollisionWarningNode.ReadXMLAttributes | CollisionWarning/MRML/vtkMRMLCollisionWarningNode.cxx:75-157 | Each field ends with the value of the last attribute of its name. It keeps its value when no attribute names it. References and events are untouched. |
| CollisionWarningNode.ReadIgnoresUnknown | CollisionWarning/MRML/vtkMRMLCollisionWarningNode.cxx:85-156 | A list made only of unknown attribute names leaves the node unchanged. |
| CollisionWarningNode.WriteReadRoundTrip | CollisionWarning/MRML/vtkMRMLCollisionWarningNode.cxx:60-157 | Reading back what was written restores the three booleans exactly. Each colour and the distance become what their written text parses back to. References and the event count stay those of the node read into. When those three texts parse back to the values written, every attribute field is restored. |
| CollisionWarningNode.LookupUnique | CollisionWarning/MRML/vtkMRMLCollisionWarningNode.cxx:85-88 | When exactly one attribute carries a name, the lookup returns its value. |
| CollisionWarningNode.LookupWritten | CollisionWarning/MRML/vtkMRMLCollisionWarningNode.cxx:67-72 | Each of the six written names looks up to the text written for its field. |
| CollisionWarningNode.Copy | CollisionWarning/MRML/vtkMRMLCollisionWarningNode.cxx:159-178 | A copy takes both colours, the three flags and the references from the source. It keeps its own distance and fires no InputDataModifiedEvent. |
| CollisionWarningNode.CopySavesLikeSource | CollisionWarning/MRML/vtkMRMLCollisionWarningNode.cxx:159-178 | A copy writes the same first five attributes as its source. It writes the distance of the destination. |
| PlayingList.Without | CollisionWarning/Logic/vtkSlicerCollisionWarningLogic.bam_pre62.cpp:520-544 | Taking a node out of the list removes it and keeps every other member. |
| PlayingList.Find | CollisionWarning/Logic/vtkSlicerCollisionWarningLogic.bam_pre62.cpp:520-528 | The search returns the first position holding the node, or the end when the node is absent. |
| PlayingList.EraseAt | CollisionWarning/Logic/vtkSlicerCollisionWarningLogic.bam_pre62.cpp:361 | Erasing one position shortens the list by one. Entries before it stay, and entries after it move up by one. |
| PlayingList.Insert | CollisionWarning/Logic/vtkSlicerCollisionWarningLogic.bam_pre62.cpp:531-535 | The node is appended at the back only when the search fails. Otherwise the list is unchanged. |
| PlayingList.Remove | CollisionWarning/Logic/vtkSlicerCollisionWarningLogic.bam_pre62.cpp:357-364 | When the node is present, the entry erased is its first occurrence: the list is split at the first match and rejoined without it, so the multiset loses one copy. Otherwise the list is unchanged. |
| PlayingList.RemoveErasesAll | CollisionWarning/Logic/vtkSlicerCollisionWarningLogic.bam_pre62.cpp:537-544 | On a list without duplicates, the node is gone after the erase. |
| PlayingList.Update | CollisionWarning/Logic/vtkSlicerCollisionWarningLogic.bam_pre62.cpp:520-544 | Afterwards the node is listed exactly when it should play, no duplicate appears, and the other entries keep their order. |
| PlayingList.WithoutAppend | CollisionWarning/Logic/vtkSlicerCollisionWarningLogic.bam_pre62.cpp:534 | Taking a node out of a concatenation is taking it out of each part. |
| PlayingList.WithoutAbsent | CollisionWarning/Logic/vtkSlicerCollisionWarningLogic.bam_pre62.cpp:540 | Taking out an absent node leaves the list as it was. |
| PlayingList.WithoutOnly | CollisionWarning/Logic/vtkSlicerCollisionWarningLogic.bam_pre62.cpp:545 | A list holding only one node is empty once that node is taken out. |
| PlayingList.InsertOthersUnchanged | CollisionWarning/Logic/vtkSlicerCollisionWarningLogic.bam_pre62.cpp:531-535 | Insertion leaves the entries of every other node as they were. |
| PlayingList.RemoveOthersUnchanged | CollisionWarning/Logic/vtkSlicerCollisionWarningLogic.bam_pre62.cpp:357-364 | Erasure leaves the entries of every other node as they were, in order. |
| PlayingList.InsertKeepsNoDup | CollisionWarning/Logic/vtkSlicerCollisionWarningLogic.bam_pre62.cpp:531-535 | The guarded `push_back` never creates a duplicate. |
| PlayingList.InsertIdempotent | CollisionWarning/Logic/vtkSlicerCollisionWarningLogic.bam_pre62.cpp:331-334 | Inserting a node twice is inserting it once. |
| PlayingList.RemoveIdempotent | CollisionWarning/Logic/vtkSlicerCollisionWarningLogic.bam_pre62.cpp:540-543 | On a list without duplicates, erasing a node twice is erasing it once. |
| PlayingList.RemoveKeepsNoDup | CollisionWarning/Logic/vtkSlicerCollisionWarningLogic.bam_pre62.cpp:537-544 | Erasing keeps the list free of duplicates. |
| CollisionWarningLogic.New | CollisionWarning/Logic/vtkSlicerCollisionWarningLogic.bam_pre62.cpp:48-51 | A new logic has an empty playing list, the flag off and no events. |
| CollisionWarningLogic.ShouldPlay | CollisionWarning/Logic/vtkSlicerCollisionWarningLogic.bam_pre62.cpp:529 | A watcher wants the sound exactly when its sound switch is on and its collision flag is set. |
| CollisionWarningLogic.SetWarningSoundPlaying | CollisionWarning/Logic/vtkSlicerCollisionWarningLogic.h:72-73 | The flag takes the value. The logic is marked modified only if the value changed. |
| CollisionWarningLogic.UpdateToolState | CollisionWarning/Logic/vtkSlicerCollisionWarningLogic.bam_pre62.cpp:154-190 | With either model unset, the distance becomes 0 and the collision flag is kept. With a model lacking a surface, nothing changes. Otherwise collision is the geometry's answer for the two models. No other field changes. |
| CollisionWarningLogic.UpdateModelColor | CollisionWarning/Logic/vtkSlicerCollisionWarningLogic.bam_pre62.cpp:271-298 | Only the watched model's display changes: warning colour while colliding, original colour otherwise. With no model or no display, nothing changes. |
| CollisionWarningLogic.InputDataModified | CollisionWarning/Logic/vtkSlicerCollisionWarningLogic.bam_pre62.cpp:511-546 | Only this watcher and its watched model's colour change, and colours only when display is on. The watcher is listed exactly when it plays and collides; the other entries are untouched. The flag says whether the list is non-empty. |
| CollisionWarningLogic.ProcessMRMLNodesEvents | CollisionWarning/Logic/vtkSlicerCollisionWarningLogic.bam_pre62.cpp:497-547 | A null caller, a caller that is not a collision-warning node, or any event other than InputDataModifiedEvent leaves the state unchanged. Otherwise the event is handled for that node. |
| CollisionWarningLogic.Notify | CollisionWarning/MRML/vtkMRMLCollisionWarningNode.cxx:320-321 | A node change that fired InputDataModifiedEvent is handled by the logic at once. A change that fired none is only stored. |
| CollisionWarningLogic.ReferencedNodeEvent | CollisionWarning/MRML/vtkMRMLCollisionWarningNode.cxx:291-306 | An event from the tool or the watched model triggers the logic's handler. Any other caller leaves the whole state unchanged. |
| CollisionWarningLogic.OnMRMLSceneNodeAdded | CollisionWarning/Logic/vtkSlicerCollisionWarningLogic.bam_pre62.cpp:301-338 | A null or foreign node changes nothing. A new watcher that wants the sound is listed once and the flag is set. Otherwise the list and the flag are kept. |
| CollisionWarningLogic.OnMRMLSceneNodeRemoved | CollisionWarning/Logic/vtkSlicerCollisionWarningLogic.bam_pre62.cpp:344-367 | The watcher is dropped, its first list entry is erased and the flag is recomputed. No display colour changes, and a null or foreign node changes nothing. |
| CollisionWarningLogic.CurrentColor | CollisionWarning/Logic/vtkSlicerCollisionWarningLogic.bam_pre62.cpp:396-400 | The colour read is the model's display colour, or grey without a display. |
| CollisionWarningLogic.RestoreColor | CollisionWarning/Logic/vtkSlicerCollisionWarningLogic.bam_pre62.cpp:407-411 | Only the previous model's display receives the colour, and only if it has one. |
| CollisionWarningLogic.SaveOriginalColor | CollisionWarning/Logic/vtkSlicerCollisionWarningLogic.bam_pre62.cpp:393-402 | A non-null new model's current colour becomes the original colour. References and switches stay as they were, and no other model's colour changes. |
| CollisionWarningLogic.SetWatchedModelNode | CollisionWarning/Logic/vtkSlicerCollisionWarningLogic.bam_pre62.cpp:369-412 | A missing module node or an unchanged model is a no-op. Otherwise the reference is replaced and the new model's colour is saved. The previous model gets the original colour stored before the call. Other watchers are unchanged, and so are this watcher's other references, warning colour and switches. No model other than the previous and the new one changes colour. |
| CollisionWarningLogic.SetSecondModelNode | CollisionWarning/Logic/vtkSlicerCollisionWarningLogic.bam_pre62.cpp:414-456 | The same bookkeeping for the second model, through the shared original-colour slot. Other watchers are unchanged, and so are this watcher's watched model, tool, warning colour and switches. No model other than the previous second model and the watched model changes colour. |
| CollisionWarningProperties.ValidFlagIsAggregate | CollisionWarning/Logic/vtkSlicerCollisionWarningLogic.bam_pre62.cpp:545 | Under the invariant, the flag is on exactly when some watcher has sound on and is colliding. |
| CollisionWarningProperties.NewIsValid | CollisionWarning/Logic/vtkSlicerCollisionWarningLogic.bam_pre62.cpp:48-51 | A new logic over watchers none of which wants the sound satisfies the invariant. |
| CollisionWarningProperties.InputDataModifiedKeepsValid | CollisionWarning/Logic/vtkSlicerCollisionWarningLogic.bam_pre62.cpp:511-546 | Handling an input change preserves the invariant: the list is duplicate-free and holds exactly the watchers that want the sound, and the flag means it is non-empty. |
| CollisionWarningProperties.ProcessMRMLNodesEventsKeepsValid | CollisionWarning/Logic/vtkSlicerCollisionWarningLogic.bam_pre62.cpp:497-547 | Any event the logic receives preserves the invariant. |
| CollisionWarningProperties.NotifyKeepsValid | CollisionWarning/MRML/vtkMRMLCollisionWarningNode.cxx:314-365 | A node change preserves the invariant when it either fired the event or left "wants the sound" unchanged. |
| CollisionWarningProperties.ValueSettersKeepValid | CollisionWarning/MRML/vtkMRMLCollisionWarningNode.cxx:314-365 | Each of the four value setters, with the logic's reaction, preserves the invariant. |
| CollisionWarningProperties.ReferenceSettersKeepValid | CollisionWarning/MRML/vtkMRMLCollisionWarningNode.cxx:212-289 | Each of the three reference setters, with the logic's reaction, preserves the invariant. |
| CollisionWarningProperties.ReferencedNodeEventKeepsValid | CollisionWarning/MRML/vtkMRMLCollisionWarningNode.cxx:291-306 | Events of referenced nodes preserve the invariant. |
| CollisionWarningProperties.NodeAddedKeepsValid | CollisionWarning/Logic/vtkSlicerCollisionWarningLogic.bam_pre62.cpp:301-338 | Adding a node under a new ID preserves the invariant. |
| CollisionWarningProperties.NodeRemovedKeepsValid | CollisionWarning/Logic/vtkSlicerCollisionWarningLogic.bam_pre62.cpp:344-367 | Removing a node preserves the invariant and leaves no list entry for it. |
| CollisionWarningProperties.RestoreColorKeepsValid | CollisionWarning/Logic/vtkSlicerCollisionWarningLogic.bam_pre62.cpp:407-411 | Repainting the previous model preserves the invariant. |
| CollisionWarningProperties.SaveOriginalColorKeepsValid | CollisionWarning/Logic/vtkSlicerCollisionWarningLogic.bam_pre62.cpp:393-402 | Saving the new model's colour preserves the invariant. |
| CollisionWarningProperties.RebindTailKeepsValid | CollisionWarning/Logic/vtkSlicerCollisionWarningLogic.bam_pre62.cpp:404-411 | Switching the reference and then repainting the previous model preserves the invariant. |
| CollisionWarningProperties.SetWatchedModelNodeKeepsValid | CollisionWarning/Logic/vtkSlicerCollisionWarningLogic.bam_pre62.cpp:369-412 | Rebinding the watched model preserves the invariant. |
| CollisionWarningProperties.SetSecondModelNodeKeepsValid | CollisionWarning/Logic/vtkSlicerCollisionWarningLogic.bam_pre62.cpp:414-456 | Rebinding the second model preserves the invariant. |
| CollisionWarningProperties.LastWarningStops | CollisionWarning/Logic/vtkSlicerCollisionWarningLogic.bam_pre62.cpp:537-545 | Suppose no other watcher wants the sound and this one stops wanting it. Then the list empties, the flag clears, and the logic is marked modified once if the flag was on. |
| CollisionWarningProperties.UpdateToolStateIdempotent | CollisionWarning/Logic/vtkSlicerCollisionWarningLogic.bam_pre62.cpp:154-268 | Recomputing the collision twice on the same geometry equals recomputing it once. |
| CollisionWarningProperties.InputDataModifiedIdempotent | CollisionWarning/Logic/vtkSlicerCollisionWarningLogic.bam_pre62.cpp:511-546 | Handling the same input change twice leaves the state of handling it once. |
| CollisionWarningProperties.Replay | CollisionWarning/Logic/vtkSlicerCollisionWarningLogic.bam_pre62.cpp:511-546 | Any series of input changes keeps the watcher's references and its stored original colour. |
| CollisionWarningProperties.RebindRoundTrip | CollisionWarning/Logic/vtkSlicerCollisionWarningLogic.bam_pre62.cpp:387-411 | Bind a model, handle any number of changes, then bind another model: the first model ends with exactly its colour from before it was bound. |
| CollisionWarningProperties.BindingKeepsColorWithoutCollision | CollisionWarning/Logic/vtkSlicerCollisionWarningLogic.bam_pre62.cpp:393-405 | Binding a model that is not colliding leaves its colour as it was. |
| CollisionWarningProperties.MissingReferenceKeepsCollision | CollisionWarning/Logic/vtkSlicerCollisionWarningLogic.bam_pre62.cpp:165-169 | With a model unset, an event zeroes the distance and keeps the collision flag, so a sounding watcher keeps sounding. |
| CollisionWarningProperties.ClearingSecondModelKeepsAlarm | CollisionWarning/Logic/vtkSlicerCollisionWarningLogic.bam_pre62.cpp:165-169 | Clearing the second model of a sounding, colliding watcher leaves it colliding and the sound on. |
| CollisionWarningProperties.SecondModelRecolorsWatched | CollisionWarning/Logic/vtkSlicerCollisionWarningLogic.bam_pre62.cpp:431-446 | Binding a second model stores its colour in the shared slot. A non-colliding watched model with display on is then painted in the second model's colour. |

## Left out

- Collision geometry is a parameter: `Geometry.collides` answers whether two models collide, and `Geometry.hasSurface` says whether a model has a surface. No geometric correctness is claimed. The triangulation, the parent transforms and the collision filter (Logic 171-258) are therefore not modelled. In that code both bodies are fed to input 0 of the filter, and the filter is never updated before its contacts are counted.
- The commented-out earlier versions of UpdateToolState and ProcessMRMLNodesEvents (Logic 86-152 and 459-494) are dead code.
- The text form of numbers is a parameter (`NumberText`). The standard stream writes six significant digits, so a colour or distance need not read back as the value written.
- CollisionWarningNode.WriteReadRoundTrip: colours and the distance come back as their written text parses, not necessarily as written, because the model does not fix the stream's digit count.
- The node's own generic `ModifiedEvent` is not counted. Nothing in the modelled core reacts to it.
- References are copied, read and written by the generic node code (the superclass calls at MRML 64, 79 and 163). The model assumes `Copy` brings the references along and leaves them out of the XML attributes.
- References always resolve to nodes in the scene. A dangling weak pointer, and a module node that is not in the scene, are treated as missing.
- The `GetMRMLScene() == NULL` branches of the scene handlers are not modelled: there is always a scene.
- SetMRMLSceneInternal, RegisterNodes, PrintSelf, the observer registration macros and weak-pointer bookkeeping are not modelled. They have no effect on the modelled state.
- The sound player, its timer and the module widget are outside the logic. They are represented only by the logic's modification count.
- A change to a model's display colour made outside the module does not trigger recomputation. The module does not observe display nodes.
- The logic only ever resets `closestDistance` to 0. The distance computation it once had is commented out.
