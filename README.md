# Fabric timeline editor: layer list, stacking order, play-head and canvas bridge

This project models the sequential core of a browser timeline editor built on
React and Fabric.js. The editor shows a drawing canvas with a timeline of
layers under it. Each layer is bound to one canvas object by id and carries
keyframes. The model covers four pieces:

- **The layer list** (`LayersPanel`). A layer can move up or down by trading
  places with its neighbour. Its visibility can be toggled, which also sets the
  `visible` field of the bound canvas object. A layer can be deleted, which
  also removes the bound object from the canvas.
- **The stacking-order buttons** (`ZOrder`, `CommonControls`, `ContextMenu`).
  Bring-forward, send-backward and remove act on the canvas's live object
  array with `indexOf` and `splice`. The context menu also picks a text, image
  or shape menu for the selected object.
- **The play-head clock** (`TimelineControl`). While playing, every animation
  frame moves the time half a unit on, and back to 0 once it reaches 100. The
  slider sets the time directly. Play/pause toggles playback and the reset
  button only stops it.
- **The session bootstrap** (`CanvasInitialization`). Start-up creates the
  welcome text and its timeline layer. Selected and added objects get a
  `customId` when they lack one. Layers broadcast by other panels are
  appended. A visibility pass hides the objects of layers whose flag is
  `false`.

Supporting modules:

- `Animation` holds the layer and keyframe records.
- `ArrayOps` holds the JavaScript array primitives as ECMA-262 defines them
  (section 23.1.3): `indexOf`, and `splice` with its negative-start
  normalisation.
- `Fabric` holds the slice of the Fabric canvas the code touches. The
  canvas's `objects` sequence is the live array that `getObjects()` returns.
  The `customId` and `visible` fields of objects are maps keyed by object
  identity. A missing `customId` entry means `undefined`. A missing `visible`
  entry means Fabric's default, `true`.

State that the source changes in place is a class: `Fabric.Canvas`,
`TimelineControl.PlaybackClock` and `CanvasInitialization.Session`. Each React
state updater becomes a method from the previous list to the next one. It is
specified by a pure function, and lemmas state what that function guarantees.

Times are modelled as exact reals (see "Left out"). The slider
position is passed as a count of tenths.

## Model

| member | source | states |
|---|---|---|
| Animation.Negated | src/components/Canvas/panels/LayersPanel.tsx:45 | `!isVisible` differs from a defined flag, and an undefined flag negates to true |
| ArrayOps.IndexOf | src/components/Canvas/controls/CommonControls.tsx:17 | the result is the first position holding the object, or -1 exactly when the object is absent |
| ArrayOps.SpliceStart | src/components/Canvas/controls/CommonControls.tsx:22 | a negative splice start counts from the end and is clamped at 0; a start past the end is clamped to the length |
| ArrayOps.SpliceRemove | src/components/Canvas/controls/CommonControls.tsx:22 | `splice(start, 1)` drops exactly the element at the normalised start and keeps the rest in order; past the end it changes nothing |
| ArrayOps.SpliceInsert | src/components/Canvas/controls/CommonControls.tsx:23 | `splice(start, 0, x)` puts `x` at the normalised start and shifts the rest up by one |
| ArrayOps.RemoveFirst | src/components/Canvas/controls/CommonControls.tsx:44 | removing an absent object changes nothing; removing a present one cuts out its first occurrence and keeps every other object in order |
| ArrayOps.Swap | src/components/Canvas/panels/LayersPanel.tsx:20-22 | the swap through a temporary exchanges two neighbours, leaves every other slot alone and permutes the elements |
| ArrayOps.SwappedIsSwap | src/components/Canvas/panels/LayersPanel.tsx:20-22 | a sequence with the two neighbours exchanged and the rest untouched is exactly that swap |
| ArrayOps.SwapTwice | src/components/Canvas/panels/LayersPanel.tsx:21-22 | swapping the same neighbours twice restores the sequence |
| Fabric.IndexOfCustomId | src/components/Canvas/panels/LayersPanel.tsx:49 | the first object whose `customId` equals the id, or -1 when none does |
| Fabric.FindByCustomId | src/components/Canvas/panels/LayersPanel.tsx:49 | `find` returns the first object on the canvas that carries the id, and returns nothing exactly when no object carries it |
| Fabric.Canvas.constructor | src/hooks/useCanvasInitialization.tsx:26-30 | a new canvas has no objects and no object fields set |
| Fabric.Canvas.Add | src/hooks/useCanvasInitialization.tsx:43 | `add` puts the object on top of the stacking order |
| Fabric.Canvas.Remove | src/components/Canvas/controls/CommonControls.tsx:44 | `remove` drops the first occurrence of the object and ignores an absent one |
| Fabric.Canvas.SpliceRemove | src/components/Canvas/controls/CommonControls.tsx:22 | splicing the live array removes one element from the canvas order |
| Fabric.Canvas.SpliceInsert | src/components/Canvas/controls/CommonControls.tsx:23 | splicing the live array inserts the object into the canvas order |
| Fabric.Canvas.SetVisible | src/components/Canvas/panels/LayersPanel.tsx:51 | writing `visible` changes that one object's flag only |
| Fabric.Canvas.SetCustomId | src/hooks/useCanvasInitialization.tsx:42 | writing `customId` changes that one object's id only |
| ZOrder.BringForward | src/components/Canvas/controls/CommonControls.tsx:13-26 | bring-forward keeps the array length |
| ZOrder.SendBackward | src/components/Canvas/controls/CommonControls.tsx:28-41 | send-backward keeps the array length |
| ZOrder.BringForwardTopIsNoOp | src/components/Canvas/controls/CommonControls.tsx:18-20 | bring-forward of the top object changes nothing |
| ZOrder.SpliceUpIsSwap | src/components/Canvas/controls/CommonControls.tsx:22-23 | splicing an element out and back in one slot higher swaps it with its upper neighbour |
| ZOrder.SpliceDownIsSwap | src/components/Canvas/controls/CommonControls.tsx:37-38 | splicing an element out and back in one slot lower swaps it with its lower neighbour |
| ZOrder.BringForwardSwaps | src/components/Canvas/controls/CommonControls.tsx:17-23 | bring-forward of a present object below the top swaps it with the next one; every other slot is unchanged |
| ZOrder.BringForwardAbsent | src/components/Canvas/controls/CommonControls.tsx:17-23 | bring-forward of an absent object on a non-empty array drops the top object and inserts the absent one at the bottom, so the multiset loses the top object and gains the absent one |
| ZOrder.SendBackwardBottomIsNoOp | src/components/Canvas/controls/CommonControls.tsx:35 | send-backward of the bottom object or of an absent one changes nothing |
| ZOrder.SendBackwardSwaps | src/components/Canvas/controls/CommonControls.tsx:33-38 | send-backward of an object above the bottom swaps it with the previous one |
| ZOrder.ReorderIsPermutation | src/components/Canvas/ContextMenu.tsx:52-68 | for a present object both moves keep the multiset of objects |
| ZOrder.IndexOfAfterSwapUp | src/components/Canvas/controls/CommonControls.tsx:17-23 | after moving up, the object's first position is one higher |
| ZOrder.IndexOfAfterSwapDown | src/components/Canvas/controls/CommonControls.tsx:32-38 | after moving down, the object's first position is one lower |
| ZOrder.ForwardThenBackward | src/components/Canvas/controls/CommonControls.tsx:13-41 | for a present object below the top whose upper neighbour is a different object, bring-forward then send-backward restores the array |
| ZOrder.BackwardThenForward | src/components/Canvas/controls/CommonControls.tsx:13-41 | for an object above the bottom, send-backward then bring-forward restores the array |
| ZOrder.BringForwardIntended | src/components/Canvas/controls/CommonControls.tsx:13-26 | the intended bring-forward: it always permutes the array, leaves it alone for an absent or top object, and otherwise swaps the object up |
| CommonControls.HandleBringForward | src/components/Canvas/controls/CommonControls.tsx:13-26 | without a canvas or a selection nothing happens; otherwise the live array becomes the bring-forward of the selection, which is the intended move for a present object; ids and visibility are untouched |
| CommonControls.HandleSendBackward | src/components/Canvas/controls/CommonControls.tsx:28-41 | without a canvas or a selection nothing happens; otherwise the live array becomes the send-backward of the selection |
| CommonControls.HandleRemove | src/components/Canvas/controls/CommonControls.tsx:43-46 | the canvas loses the first occurrence of the selected object and keeps every other object in its stacking order; nothing happens when it is absent |
| ContextMenu.Classify | src/components/Canvas/ContextMenu.tsx:33-35 | the text, image and shape menus are chosen exactly when `isText`, `isImage` and `isShape` hold, so exactly one of them holds |
| ContextMenu.HandleRemove | src/components/Canvas/ContextMenu.tsx:38-41 | removes the first occurrence of the selected object, keeping the rest of the stacking order, as the common controls do |
| ContextMenu.HandleBringForward | src/components/Canvas/ContextMenu.tsx:43-56 | the same bring-forward as the common controls |
| ContextMenu.HandleSendBackward | src/components/Canvas/ContextMenu.tsx:58-71 | the same send-backward as the common controls |
| LayersPanel.FindLayerIndex | src/components/Canvas/panels/LayersPanel.tsx:16 | `findIndex` gives the first layer with the id, or -1 exactly when no layer has it |
| LayersPanel.FindLayer | src/components/Canvas/panels/LayersPanel.tsx:64 | `find` gives the first layer of the list with the id, and nothing exactly when no layer has it |
| LayersPanel.FindLayerIndexIs | src/components/Canvas/panels/LayersPanel.tsx:16 | the first position holding the id is the one `findIndex` reports |
| LayersPanel.MovedUp | src/components/Canvas/panels/LayersPanel.tsx:14-26 | the first layer or an unknown id leaves the list unchanged; otherwise the layer swaps with its predecessor and the multiset of layers is kept |
| LayersPanel.MovedDown | src/components/Canvas/panels/LayersPanel.tsx:28-40 | the last layer or an unknown id leaves the list unchanged; otherwise the layer swaps with its successor and the multiset of layers is kept |
| LayersPanel.MoveLayerUp | src/components/Canvas/panels/LayersPanel.tsx:14-26 | the copy-and-swap updater returns the moved-up list |
| LayersPanel.MoveLayerDown | src/components/Canvas/panels/LayersPanel.tsx:28-40 | the copy-and-swap updater returns the moved-down list |
| LayersPanel.DownThenUp | src/components/Canvas/panels/LayersPanel.tsx:14-40 | with unique ids, moving a layer that is not last down and then up restores the list |
| LayersPanel.UpThenDown | src/components/Canvas/panels/LayersPanel.tsx:14-40 | with unique ids, moving a layer that is not first up and then down restores the list |
| LayersPanel.Toggled | src/components/Canvas/panels/LayersPanel.tsx:45-56 | the toggled layer has a defined flag that differs from the old one, an undefined flag becomes true, and no other field changes |
| LayersPanel.ToggledLayers | src/components/Canvas/panels/LayersPanel.tsx:43-59 | only the layers with the id are toggled; all other layers and the length are kept |
| LayersPanel.ToggleWrites | src/components/Canvas/panels/LayersPanel.tsx:47-53 | the `visible` writes of the toggle, in list order; objects that are not on the canvas are never written |
| LayersPanel.ToggleLayerVisibility | src/components/Canvas/panels/LayersPanel.tsx:42-60 | the updater returns the toggled list even when no canvas or no bound object exists; the canvas gets only the `visible` writes of the toggled layers |
| LayersPanel.ToggleTwice | src/components/Canvas/panels/LayersPanel.tsx:45 | toggling twice restores every defined flag; an undefined flag ends up `false` |
| LayersPanel.ToggleWritesNoMatch | src/components/Canvas/panels/LayersPanel.tsx:44-58 | layers without the id write nothing to the canvas |
| LayersPanel.ToggleWritesUnique | src/components/Canvas/panels/LayersPanel.tsx:47-56 | with unique ids, the bound object's `visible` becomes the layer's new flag and nothing else changes; with no bound object nothing is written |
| LayersPanel.WithoutLayer | src/components/Canvas/panels/LayersPanel.tsx:73 | the filtered list holds exactly the layers without the id; an unknown id leaves the list unchanged |
| LayersPanel.WithoutLayerConcat | src/components/Canvas/panels/LayersPanel.tsx:73 | the filter keeps the relative order of the remaining layers |
| LayersPanel.DeleteTarget | src/components/Canvas/panels/LayersPanel.tsx:64-68 | the object to delete is the first object bound to the first layer with the id, when both exist; an unknown id or a missing object selects nothing |
| LayersPanel.DeleteLayer | src/components/Canvas/panels/LayersPanel.tsx:62-75 | the updater returns the filtered list; the canvas loses one occurrence of the bound object when the layer and the object are both found, and nothing otherwise |
| TimelineControl.NextTime | src/components/Canvas/TimelineControl.tsx:21 | a tick either resets to 0 or adds 0.5, and it adds 0.5 exactly when the time is below 100 |
| TimelineControl.AfterTicks | src/components/Canvas/TimelineControl.tsx:19-24 | any number of ticks from the slider range stays in [0, 100.5) |
| TimelineControl.TickStaysInReach | src/components/Canvas/TimelineControl.tsx:21 | one tick stays in [0, 100.5), and below 100 it moves the time forward |
| TimelineControl.WrapIsReset | src/components/Canvas/TimelineControl.tsx:21 | the wrap is a reset: 100.4 ticks to 0, and 99.9 ticks to 100.4 |
| TimelineControl.TicksAdvance | src/components/Canvas/TimelineControl.tsx:21 | below the wrap point, n ticks add exactly n half-units |
| TimelineControl.TicksCompose | src/components/Canvas/TimelineControl.tsx:19-24 | m ticks followed by n ticks equal m + n ticks |
| TimelineControl.LoopFromZero | src/components/Canvas/TimelineControl.tsx:21 | from 0, 200 ticks reach exactly 100 and the 201st tick returns to 0 |
| TimelineControl.LoopIsPeriodic | src/components/Canvas/TimelineControl.tsx:21 | playback from 0 repeats every 201 frames |
| TimelineControl.PlaybackClock.constructor | src/components/Canvas/Canvas.tsx:12-13 | the clock starts stopped at time 0 with no frame requested |
| TimelineControl.PlaybackClock.RunEffect | src/components/Canvas/TimelineControl.tsx:16-35 | the cleanup cancels the pending frame and a frame is requested again only while playing |
| TimelineControl.PlaybackClock.SetPlaying | src/components/Canvas/TimelineControl.tsx:26-34 | after a play-state change a frame is pending exactly when playing, and the time is kept |
| TimelineControl.PlaybackClock.TogglePlay | src/components/Canvas/AnimationPanel.tsx:29 | play/pause flips the play state and keeps the time (the header button at src/components/Canvas/Timeline/TimelineHeader.tsx:23 is the same) |
| TimelineControl.PlaybackClock.Reset | src/components/Canvas/AnimationPanel.tsx:41 | reset stops playback, leaves no frame pending and does not change the time |
| TimelineControl.PlaybackClock.AnimationFrame | src/components/Canvas/TimelineControl.tsx:19-24 | a frame ticks the time only while playing; when stopped the time is unchanged |
| TimelineControl.PlaybackClock.Scrub | src/components/Canvas/TimelineControl.tsx:50-56 | the slider sets the time to its value in [0, 100], whatever the play state |
| CanvasInitialization.InitialLayer | src/hooks/useCanvasInitialization.tsx:46-59 | the welcome layer carries the welcome name, is visible and has one `move` keyframe from 0 lasting 20 with empty properties, inside the timeline |
| CanvasInitialization.AppendedLayers | src/hooks/useCanvasInitialization.tsx:106-110 | an update message with layers appends them after the existing list in order; any other message leaves the list unchanged |
| CanvasInitialization.EnsureCustomId | src/hooks/useCanvasInitialization.tsx:64-66 | an object ends with a `customId`, which is non-empty when the fresh id is; an existing non-empty id is never overwritten |
| CanvasInitialization.EnsureCustomIdIdempotent | src/hooks/useCanvasInitialization.tsx:87-89 | assigning a missing id a second time changes nothing |
| CanvasInitialization.HiddenTargets | src/hooks/useCanvasInitialization.tsx:131-137 | every object the pass hides is on the canvas |
| CanvasInitialization.HiddenTargetsExactly | src/hooks/useCanvasInitialization.tsx:131-137 | the pass hides exactly the first bound object of each layer whose flag is `false` |
| CanvasInitialization.SyncWrites | src/hooks/useCanvasInitialization.tsx:131-137 | the `visible` writes of the `forEach` pass, in list order; objects that are not on the canvas are never written |
| CanvasInitialization.HideAll | src/hooks/useCanvasInitialization.tsx:131-138 | the target objects end hidden and every other object keeps its visibility |
| CanvasInitialization.SyncIsHideAll | src/hooks/useCanvasInitialization.tsx:131-138 | the pass, in whatever layer order, amounts to hiding its targets |
| CanvasInitialization.SyncNeverShows | src/hooks/useCanvasInitialization.tsx:132-136 | the pass never makes an object visible, and objects it does not target keep their visibility |
| CanvasInitialization.SyncHidesEachHiddenLayer | src/hooks/useCanvasInitialization.tsx:131-137 | after the pass, the first object bound to each layer whose flag is `false` is hidden |
| CanvasInitialization.SyncIgnoresShownLayers | src/hooks/useCanvasInitialization.tsx:132 | layers whose flag is true or undefined cause no change |
| CanvasInitialization.SyncIdempotent | src/hooks/useCanvasInitialization.tsx:131-138 | running the pass twice is the same as running it once |
| CanvasInitialization.Session.constructor | src/hooks/useCanvasInitialization.tsx:42-60 | the canvas holds just the welcome text with its fresh id, and the layer list is replaced by the single welcome layer bound to that id |
| CanvasInitialization.Session.OnSelection | src/hooks/useCanvasInitialization.tsx:62-76 | the active object gets an id if it lacks one and becomes the selection; layers are untouched |
| CanvasInitialization.Session.OnSelectionCleared | src/hooks/useCanvasInitialization.tsx:78-80 | the selection is cleared |
| CanvasInitialization.Session.OnObjectAdded | src/hooks/useCanvasInitialization.tsx:83-93 | a missing target and the welcome text are skipped, other objects get an id if they lack one, and no layer is created |
| CanvasInitialization.Session.HandleMessage | src/hooks/useCanvasInitialization.tsx:106-110 | the list becomes the appended list of the message |
| CanvasInitialization.Session.SyncVisibility | src/hooks/useCanvasInitialization.tsx:122-143 | the loop performs exactly the writes of the visibility pass on the canvas |

## Left out

- Rendering and canvas set-up: `renderAll`, `dispose`, the canvas size and colour, and the resize listener are drawing work.
- Event wiring: the `message`, `resize` and Fabric event subscriptions are modelled by calling the handler methods directly.
- Frame scheduling: `requestAnimationFrame` and `cancelAnimationFrame` are reduced to the `framePending` flag.
- Random ids: `crypto.randomUUID` is a parameter of each operation that needs a fresh id.
- The drag engine and keyframe clamping are not part of this model.
- The property setters of the context menu and the control panels (font, fill, stroke, flip, rotate, opacity) are thin writes to Fabric fields.
- Display formatting of times (`toFixed`) and the pure UI components are left out.
- Keyframe `properties` are an open record in the source. Here they are a map from strings to strings.
- The start-up keyframe literal also has an `effects: []` field. That field is not in the declared `Keyframe` type and is dropped.
- The object kinds of the context menu are `IText` and its subclass `Textbox`, `FabricText` (a text class that is not an `IText`), `FabricImage`, and one generic shape kind; other Fabric classes are not distinguished.
- `Fabric.Canvas`: the model assumes that `getObjects()` returns the live array and that `remove` finds the object with `indexOf`. Fabric's own code is not part of this model.
- CanvasInitialization.Session.SyncVisibility: the effect casts the HTML canvas element to a Fabric canvas (src/hooks/useCanvasInitialization.tsx:125-127). A DOM element has no `getObjects`, so as written the guard probably returns early and nothing is hidden. The model describes the intended pass over the canvas objects.
- CanvasInitialization.Session.constructor: the early return when the canvas element is not mounted is not modelled.
- TimelineControl.PlaybackClock: the source's times are JavaScript doubles and are modelled as exact reals. No `>= 100` wrap decision changes, because every reachable time is a multiple of 0.5 or lies at least 0.1 away from 100.
- TimelineControl.PlaybackClock.Scrub: the slider's 0.1 grid is given as a whole number of tenths, so other values are not modelled.
- React's batching and the double calls of state updaters in development mode are left out. Each updater is applied once, in order.

## Findings

| source | as written | input that shows it | evidently intended | confidence | as-written member | corrected member |
|---|---|---|---|---|---|---|
| src/components/Canvas/controls/CommonControls.tsx:17-23 (also src/components/Canvas/ContextMenu.tsx:47-53) | bring-forward takes `indexOf` without checking for -1, so for an absent object it runs `splice(-1, 1)` then `splice(0, 0, x)` | objects `[a, b]` with a selection `x` that is not in the array, such as the group object of a multi-selection: the result is `[x, a]`, so `b` is lost and `x` is put into the list | an absent selection leaves the array unchanged | medium, not executed | ZOrder.BringForwardAbsent | ZOrder.BringForwardIntended |

The handlers keep the code as written. `CommonControls.HandleBringForward`
also states that, for a selection that is in the array, its result is
`ZOrder.BringForwardIntended`.
