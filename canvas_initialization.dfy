/**
 * Session start-up and the canvas/timeline bridge of
 * src/hooks/useCanvasInitialization.tsx: the initial welcome layer, the
 * `customId` tagging of selected and added objects, the append of layers
 * broadcast by other panels, and the one-way pass that hides the objects of
 * hidden layers. Fresh UUIDs are passed in as parameters.
 */
module CanvasInitialization {
  import opened Animation
  import opened Fabric

  /** Display name of the layer created for the welcome text. */
  const WelcomeLayerName: string := "Karşılama Metni"

  /** The message type that carries layers to append. */
  const UpdateTimelineLayers: string := "UPDATE_TIMELINE_LAYERS"

  /** The layer created at start-up for the welcome text. */
  function InitialLayer(layerId: string, elementId: string, keyframeId: string): (l: Layer)
    ensures l.id == layerId && l.elementId == elementId && l.isVisible == Some(true)
    ensures l.name == WelcomeLayerName
    ensures |l.keyframes| == 1
    ensures l.keyframes[0].id == keyframeId && l.keyframes[0].animationType == Move
    ensures l.keyframes[0].startTime == 0.0 && l.keyframes[0].duration == 20.0
    ensures l.keyframes[0].properties == map[]
    ensures WithinTimeline(l.keyframes[0])
  {
    Layer(layerId, elementId, WelcomeLayerName, [Keyframe(keyframeId, 0.0, 20.0, Move, map[])], Some(true))
  }

  // ---------------------------------------------------------------------
  // Messages from other panels

  /** `event.data`: a type tag and an optional array of layers. */
  datatype Message = Message(messageType: string, layers: Option<seq<Layer>>)

  /** The message asks for an append: the right type and a `layers` array (an empty array is truthy). */
  predicate IsLayerUpdate(msg: Message) {
    msg.messageType == UpdateTimelineLayers && msg.layers.Some?
  }

  /** The list after `handleMessage`: the incoming layers go after the existing ones. */
  function AppendedLayers(prev: seq<Layer>, msg: Message): (r: seq<Layer>)
    ensures |r| >= |prev| && r[..|prev|] == prev
    ensures IsLayerUpdate(msg) ==> r[|prev|..] == msg.layers.value
    ensures !IsLayerUpdate(msg) ==> r == prev
  {
    if IsLayerUpdate(msg) then prev + msg.layers.value else prev
  }

  // ---------------------------------------------------------------------
  // customId tagging

  /** `!obj.customId`: undefined, or the empty string, which is falsy too. */
  predicate LacksCustomId(customId: map<ObjectId, string>, o: ObjectId) {
    o !in customId || customId[o] == ""
  }

  /** Assigns `freshId` to `o` only when it lacks a `customId`. */
  function EnsureCustomId(customId: map<ObjectId, string>, o: ObjectId, freshId: string): (r: map<ObjectId, string>)
    ensures o in r
    ensures freshId != "" ==> !LacksCustomId(r, o)
    ensures !LacksCustomId(customId, o) ==> r == customId
    ensures LacksCustomId(customId, o) ==> r == customId[o := freshId]
  {
    if LacksCustomId(customId, o) then customId[o := freshId] else customId
  }

  /** Tagging is idempotent: once an object has a (non-empty) id, a second pass keeps it. */
  lemma EnsureCustomIdIdempotent(customId: map<ObjectId, string>, o: ObjectId, first: string, second: string)
    requires first != ""
    ensures EnsureCustomId(EnsureCustomId(customId, o, first), o, second) == EnsureCustomId(customId, o, first)
  {
  }

  // ---------------------------------------------------------------------
  // The visibility pass

  /** Layer `l` hides object `o`: its flag is explicitly `false` and `o` is the first object bound to it. */
  predicate HidesObject(objects: seq<ObjectId>, customId: map<ObjectId, string>, l: Layer, o: ObjectId) {
    l.isVisible == Some(false) && FindByCustomId(objects, customId, l.elementId) == Some(o)
  }

  /** The objects the pass hides. */
  function HiddenTargets(objects: seq<ObjectId>, customId: map<ObjectId, string>, s: seq<Layer>): (r: set<ObjectId>)
    ensures forall o :: o in r ==> o in objects
  {
    if s == [] then {}
    else
      var before := HiddenTargets(objects, customId, s[..|s| - 1]);
      var l := s[|s| - 1];
      if l.isVisible == Some(false) then
        match FindByCustomId(objects, customId, l.elementId)
        case None => before
        case Some(o) => before + {o}
      else before
  }

  /** The hidden targets are exactly the objects some layer of the list hides. */
  lemma {:induction false} HiddenTargetsExactly(objects: seq<ObjectId>, customId: map<ObjectId, string>,
                                                s: seq<Layer>, o: ObjectId)
    ensures o in HiddenTargets(objects, customId, s) <==> exists l :: l in s && HidesObject(objects, customId, l, o)
  {
    if s != [] {
      var init, last := s[..|s| - 1], s[|s| - 1];
      assert s == init + [last];
      HiddenTargetsExactly(objects, customId, init, o);
      if o in HiddenTargets(objects, customId, s) && !HidesObject(objects, customId, last, o) {
        var l :| l in init && HidesObject(objects, customId, l, o);
        assert l in s;
      }
      if exists l :: l in s && HidesObject(objects, customId, l, o) {
        var l :| l in s && HidesObject(objects, customId, l, o);
        if l != last {
          assert l in init;
        }
      }
    }
  }

  /** The writes of the `forEach` pass, in list order: each hidden layer's object gets `visible = false`. */
  function SyncWrites(visible: map<ObjectId, bool>, objects: seq<ObjectId>, customId: map<ObjectId, string>,
                      s: seq<Layer>): (r: map<ObjectId, bool>)
    ensures forall o :: o !in objects ==> (o in r <==> o in visible) && (o in r ==> r[o] == visible[o])
  {
    if s == [] then visible
    else
      var before := SyncWrites(visible, objects, customId, s[..|s| - 1]);
      var l := s[|s| - 1];
      if l.isVisible == Some(false) then
        match FindByCustomId(objects, customId, l.elementId)
        case None => before
        case Some(o) => before[o := false]
      else before
  }

  /** `visible` with every object of `targets` set to false and nothing else changed. */
  function HideAll(visible: map<ObjectId, bool>, targets: set<ObjectId>): (r: map<ObjectId, bool>)
    ensures r.Keys == visible.Keys + targets
    ensures forall o :: o in targets ==> !Shown(r, o)
    ensures forall o :: o !in targets ==> Shown(r, o) == Shown(visible, o)
  {
    map o | o in visible.Keys + targets :: if o in targets then false else visible[o]
  }

  /** The pass, whatever the order of the layers, amounts to hiding its targets. */
  lemma {:induction false} SyncIsHideAll(visible: map<ObjectId, bool>, objects: seq<ObjectId>,
                                         customId: map<ObjectId, string>, s: seq<Layer>)
    ensures SyncWrites(visible, objects, customId, s) == HideAll(visible, HiddenTargets(objects, customId, s))
  {
    if s == [] {
      assert HideAll(visible, {}) == visible;
    } else {
      var init := s[..|s| - 1];
      SyncIsHideAll(visible, objects, customId, init);
      var l := s[|s| - 1];
      var t := HiddenTargets(objects, customId, init);
      if l.isVisible == Some(false) {
        match FindByCustomId(objects, customId, l.elementId)
        case None =>
        case Some(o) =>
          assert HideAll(visible, t)[o := false] == HideAll(visible, t + {o});
      }
    }
  }

  /**
   * The pass never makes an object visible: an object shown afterwards was
   * shown before, and an object no hidden layer is bound to keeps its state.
   */
  lemma SyncNeverShows(visible: map<ObjectId, bool>, objects: seq<ObjectId>,
                       customId: map<ObjectId, string>, s: seq<Layer>)
    ensures var r := SyncWrites(visible, objects, customId, s);
      forall o :: (Shown(r, o) ==> Shown(visible, o)) &&
        (o !in HiddenTargets(objects, customId, s) ==> Shown(r, o) == Shown(visible, o))
  {
    SyncIsHideAll(visible, objects, customId, s);
  }

  /** Every layer whose flag is `false` has its bound object hidden afterwards, when there is one. */
  lemma SyncHidesEachHiddenLayer(visible: map<ObjectId, bool>, objects: seq<ObjectId>,
                                 customId: map<ObjectId, string>, s: seq<Layer>, l: Layer)
    requires l in s && l.isVisible == Some(false)
    ensures match FindByCustomId(objects, customId, l.elementId)
      case None => true
      case Some(o) => !Shown(SyncWrites(visible, objects, customId, s), o)
  {
    SyncIsHideAll(visible, objects, customId, s);
    match FindByCustomId(objects, customId, l.elementId)
    case None =>
    case Some(o) => HiddenTargetsExactly(objects, customId, s, o);
  }

  /** Layers whose flag is true or undefined cause no change. */
  lemma SyncIgnoresShownLayers(visible: map<ObjectId, bool>, objects: seq<ObjectId>,
                               customId: map<ObjectId, string>, s: seq<Layer>)
    requires forall l :: l in s ==> l.isVisible != Some(false)
    ensures SyncWrites(visible, objects, customId, s) == visible
  {
    SyncIsHideAll(visible, objects, customId, s);
    if o :| o in HiddenTargets(objects, customId, s) {
      HiddenTargetsExactly(objects, customId, s, o);
    }
    assert HiddenTargets(objects, customId, s) == {};
    assert HideAll(visible, {}) == visible;
  }

  /** Running the pass twice is running it once. */
  lemma SyncIdempotent(visible: map<ObjectId, bool>, objects: seq<ObjectId>,
                       customId: map<ObjectId, string>, s: seq<Layer>)
    ensures var once := SyncWrites(visible, objects, customId, s);
      SyncWrites(once, objects, customId, s) == once
  {
    var t := HiddenTargets(objects, customId, s);
    SyncIsHideAll(visible, objects, customId, s);
    SyncIsHideAll(HideAll(visible, t), objects, customId, s);
    assert HideAll(HideAll(visible, t), t) == HideAll(visible, t);
  }

  // ---------------------------------------------------------------------
  // The session

  /**
   * The state the hook works on: the Fabric canvas it creates, the welcome
   * text it adds, the timeline layer list and the selected object.
   */
  class Session {
    const canvas: Canvas
    const welcomeText: ObjectId
    var layers: seq<Layer>
    var selected: Option<ObjectId>

    /**
     * Start-up: a new canvas holding the welcome text, tagged with a fresh
     * `customId`, and a layer list replaced by the single welcome layer bound
     * to that id.
     */
    constructor (welcome: ObjectId, welcomeId: string, layerId: string, keyframeId: string)
      ensures fresh(canvas)
      ensures welcomeText == welcome && selected == None
      ensures canvas.objects == [welcome] && canvas.customId == map[welcome := welcomeId] && canvas.visible == map[]
      ensures layers == [InitialLayer(layerId, welcomeId, keyframeId)]
      ensures HasCustomId(canvas.customId, welcomeText, layers[0].elementId)
    {
      var c := new Canvas();
      c.SetCustomId(welcome, welcomeId);
      c.Add(welcome);
      canvas := c;
      welcomeText := welcome;
      layers := [InitialLayer(layerId, welcomeId, keyframeId)];
      selected := None;
    }

    /** `selection:created` and `selection:updated`: tag the active object if needed and select it. */
    method OnSelection(active: ObjectId, freshId: string)
      modifies this`selected, canvas`customId
      ensures canvas.customId == EnsureCustomId(old(canvas.customId), active, freshId)
      ensures selected == Some(active)
      ensures layers == old(layers)
    {
      if LacksCustomId(canvas.customId, active) {
        canvas.SetCustomId(active, freshId);
      }
      selected := Some(active);
    }

    /** `selection:cleared`. */
    method OnSelectionCleared()
      modifies this`selected
      ensures selected == None
    {
      selected := None;
    }

    /**
     * `object:added`: a missing target and the welcome text are skipped;
     * any other object is tagged if needed. No layer is ever created here.
     */
    method OnObjectAdded(added: Option<ObjectId>, freshId: string)
      modifies canvas`customId
      ensures canvas.customId ==
        if added.None? || added.value == welcomeText then old(canvas.customId)
        else EnsureCustomId(old(canvas.customId), added.value, freshId)
      ensures layers == old(layers)
    {
      if added.None? || added.value == welcomeText {
        return;
      }
      if LacksCustomId(canvas.customId, added.value) {
        canvas.SetCustomId(added.value, freshId);
      }
    }

    /** `handleMessage`: appends the layers of an update message. */
    method HandleMessage(msg: Message)
      modifies this`layers
      ensures layers == AppendedLayers(old(layers), msg)
    {
      if msg.messageType == UpdateTimelineLayers && msg.layers.Some? {
        layers := layers + msg.layers.value;
      }
    }

    /** The visibility effect: for each layer whose flag is `false`, hide its bound object. */
    method SyncVisibility()
      modifies canvas`visible
      ensures canvas.visible == SyncWrites(old(canvas.visible), canvas.objects, canvas.customId, layers)
    {
      var objects := canvas.objects;
      var i := 0;
      while i < |layers|
        invariant 0 <= i <= |layers|
        invariant canvas.visible == SyncWrites(old(canvas.visible), objects, canvas.customId, layers[..i])
      {
        var layer := layers[i];
        assert layers[..i + 1][..i] == layers[..i];
        if layer.isVisible == Some(false) {
          var targetObject := FindByCustomId(objects, canvas.customId, layer.elementId);
          if targetObject.Some? {
            canvas.SetVisible(targetObject.value, false);
          }
        }
        i := i + 1;
      }
      assert layers[..|layers|] == layers;
    }
  }
}
