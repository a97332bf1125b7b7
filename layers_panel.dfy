/**
 * The layer list of the sidebar (src/components/Canvas/panels/LayersPanel.tsx):
 * move a layer up or down, toggle its visibility, delete it. Each operation is
 * a React state updater from the previous layer list to the next one; toggle
 * and delete also reach into the canvas object bound to the layer.
 */
module LayersPanel {
  import opened Animation
  import opened Fabric
  import opened ArrayOps

  /** `prev.findIndex(layer => layer.id === layerId)`. */
  function FindLayerIndex(s: seq<Layer>, id: string): (r: int)
    ensures -1 <= r < |s|
    ensures r >= 0 ==> s[r].id == id && forall k :: 0 <= k < r ==> s[k].id != id
    ensures r == -1 <==> forall k :: 0 <= k < |s| ==> s[k].id != id
  {
    if |s| == 0 then -1
    else if s[0].id == id then 0
    else
      var r := FindLayerIndex(s[1..], id);
      if r == -1 then -1 else r + 1
  }

  /** `prev.find(layer => layer.id === layerId)`. */
  function FindLayer(s: seq<Layer>, id: string): (r: Option<Layer>)
    ensures r.Some? ==> r.value in s && r.value.id == id
    ensures r.Some? ==> exists i :: 0 <= i < |s| && s[i] == r.value && forall k :: 0 <= k < i ==> s[k].id != id
    ensures r.None? <==> forall l :: l in s ==> l.id != id
  {
    var i := FindLayerIndex(s, id);
    if i == -1 then None else Some(s[i])
  }

  /** A position reached by `findIndex` is the first one holding the id. */
  lemma FindLayerIndexIs(s: seq<Layer>, id: string, j: nat)
    requires j < |s| && s[j].id == id
    requires forall k :: 0 <= k < j ==> s[k].id != id
    ensures FindLayerIndex(s, id) == j
  {
  }

  // ---------------------------------------------------------------------
  // Moving a layer

  /**
   * The list after `moveLayerUp`: unchanged for the first layer or an unknown
   * id, otherwise the layer trades places with its predecessor.
   */
  function MovedUp(s: seq<Layer>, id: string): (r: seq<Layer>)
    ensures FindLayerIndex(s, id) <= 0 ==> r == s
    ensures FindLayerIndex(s, id) > 0 ==> Swapped(s, r, FindLayerIndex(s, id) - 1)
    ensures multiset(r) == multiset(s)
  {
    var i := FindLayerIndex(s, id);
    if i <= 0 then s else Swap(s, i - 1)
  }

  /**
   * The list after `moveLayerDown`: unchanged for the last layer or an
   * unknown id, otherwise the layer trades places with its successor.
   */
  function MovedDown(s: seq<Layer>, id: string): (r: seq<Layer>)
    ensures FindLayerIndex(s, id) == -1 || FindLayerIndex(s, id) == |s| - 1 ==> r == s
    ensures 0 <= FindLayerIndex(s, id) < |s| - 1 ==> Swapped(s, r, FindLayerIndex(s, id))
    ensures multiset(r) == multiset(s)
  {
    var i := FindLayerIndex(s, id);
    if i == -1 || i == |s| - 1 then s else Swap(s, i)
  }

  /** `moveLayerUp`: copies the list and swaps two slots through a temporary. */
  method MoveLayerUp(prev: seq<Layer>, layerId: string) returns (next: seq<Layer>)
    ensures next == MovedUp(prev, layerId)
  {
    var index := FindLayerIndex(prev, layerId);
    if index <= 0 {
      return prev;
    }
    var newLayers := new Layer[|prev|](k requires 0 <= k < |prev| => prev[k]);
    var temp := newLayers[index];
    newLayers[index] := newLayers[index - 1];
    newLayers[index - 1] := temp;
    next := newLayers[..];
    SwappedIsSwap(prev, next, index - 1);
  }

  /** `moveLayerDown`: copies the list and swaps two slots through a temporary. */
  method MoveLayerDown(prev: seq<Layer>, layerId: string) returns (next: seq<Layer>)
    ensures next == MovedDown(prev, layerId)
  {
    var index := FindLayerIndex(prev, layerId);
    if index == -1 || index == |prev| - 1 {
      return prev;
    }
    var newLayers := new Layer[|prev|](k requires 0 <= k < |prev| => prev[k]);
    var temp := newLayers[index];
    newLayers[index] := newLayers[index + 1];
    newLayers[index + 1] := temp;
    next := newLayers[..];
    SwappedIsSwap(prev, next, index);
  }

  /** With unique ids, moving a layer that is not last down and then up restores the order. */
  lemma DownThenUp(s: seq<Layer>, id: string)
    requires UniqueIds(s)
    requires 0 <= FindLayerIndex(s, id) < |s| - 1
    ensures MovedUp(MovedDown(s, id), id) == s
  {
    var i := FindLayerIndex(s, id);
    var t := Swap(s, i);
    assert MovedDown(s, id) == t;
    FindLayerIndexIs(t, id, i + 1);
    SwapTwice(s, i);
  }

  /** With unique ids, moving a layer that is not first up and then down restores the order. */
  lemma UpThenDown(s: seq<Layer>, id: string)
    requires UniqueIds(s)
    requires FindLayerIndex(s, id) > 0
    ensures MovedDown(MovedUp(s, id), id) == s
  {
    var i := FindLayerIndex(s, id);
    var t := Swap(s, i - 1);
    assert MovedUp(s, id) == t;
    FindLayerIndexIs(t, id, i - 1);
    SwapTwice(s, i - 1);
  }

  // ---------------------------------------------------------------------
  // Toggling visibility

  /** `{ ...layer, isVisible: !layer.isVisible }`. */
  function Toggled(l: Layer): (r: Layer)
    ensures r.isVisible.Some? && r.isVisible != l.isVisible
    ensures l.isVisible.None? ==> r.isVisible == Some(true)
    ensures r == l.(isVisible := r.isVisible)
  {
    l.(isVisible := Some(Negated(l.isVisible)))
  }

  /** The list after `toggleLayerVisibility`: every layer with the id is toggled, the others are kept. */
  function ToggledLayers(s: seq<Layer>, id: string): (r: seq<Layer>)
    ensures |r| == |s|
    ensures forall k :: 0 <= k < |s| ==> r[k] == if s[k].id == id then Toggled(s[k]) else s[k]
  {
    if s == [] then []
    else
      var l := s[|s| - 1];
      ToggledLayers(s[..|s| - 1], id) + [if l.id == id then Toggled(l) else l]
  }

  /**
   * The canvas side of `toggleLayerVisibility`, in list order: for each
   * layer with the id, the first object whose `customId` is the layer's
   * `elementId` gets `visible` set to the layer's new flag; a layer whose
   * object is missing writes nothing.
   */
  function ToggleWrites(visible: map<ObjectId, bool>, objects: seq<ObjectId>, customId: map<ObjectId, string>,
                        s: seq<Layer>, id: string): (r: map<ObjectId, bool>)
    ensures forall o :: o !in objects ==> (o in r <==> o in visible) && (o in r ==> r[o] == visible[o])
  {
    if s == [] then visible
    else
      var before := ToggleWrites(visible, objects, customId, s[..|s| - 1], id);
      var l := s[|s| - 1];
      if l.id != id then before
      else match FindByCustomId(objects, customId, l.elementId)
        case None => before
        case Some(o) => before[o := Negated(l.isVisible)]
  }

  /** `toggleLayerVisibility`: maps over the list, updating the bound object as a side effect. */
  method ToggleLayerVisibility(canvas: Canvas?, prev: seq<Layer>, layerId: string) returns (next: seq<Layer>)
    modifies canvas
    ensures next == ToggledLayers(prev, layerId)
    ensures canvas != null ==> unchanged(canvas`objects, canvas`customId)
    ensures canvas != null ==>
      canvas.visible == ToggleWrites(old(canvas.visible), canvas.objects, canvas.customId, prev, layerId)
  {
    next := [];
    var i := 0;
    while i < |prev|
      invariant 0 <= i <= |prev|
      invariant next == ToggledLayers(prev[..i], layerId)
      invariant canvas != null ==> unchanged(canvas`objects, canvas`customId)
      invariant canvas != null ==>
        canvas.visible == ToggleWrites(old(canvas.visible), canvas.objects, canvas.customId, prev[..i], layerId)
    {
      var layer := prev[i];
      assert prev[..i + 1][..i] == prev[..i];
      if layer.id == layerId {
        var isVisible := Negated(layer.isVisible);
        if canvas != null {
          var target := FindByCustomId(canvas.objects, canvas.customId, layer.elementId);
          if target.Some? {
            canvas.SetVisible(target.value, isVisible);
          }
        }
        next := next + [layer.(isVisible := Some(isVisible))];
      } else {
        next := next + [layer];
      }
      i := i + 1;
    }
    assert prev[..|prev|] == prev;
  }

  /**
   * Toggling twice gives back every defined flag; an undefined flag is not
   * restored but ends up `false`.
   */
  lemma {:induction false} ToggleTwice(s: seq<Layer>, id: string)
    ensures var r := ToggledLayers(ToggledLayers(s, id), id);
      |r| == |s| &&
      forall k :: 0 <= k < |s| ==>
        r[k] == if s[k].id == id && s[k].isVisible.None? then s[k].(isVisible := Some(false)) else s[k]
  {
    var r := ToggledLayers(ToggledLayers(s, id), id);
    forall k | 0 <= k < |s|
      ensures r[k] == if s[k].id == id && s[k].isVisible.None? then s[k].(isVisible := Some(false)) else s[k]
    {
      if s[k].id == id {
        assert Toggled(s[k]).id == id;
      }
    }
  }

  /** Layers without the id write nothing to the canvas. */
  lemma {:induction false} ToggleWritesNoMatch(visible: map<ObjectId, bool>, objects: seq<ObjectId>,
                                               customId: map<ObjectId, string>, s: seq<Layer>, id: string)
    requires forall k :: 0 <= k < |s| ==> s[k].id != id
    ensures ToggleWrites(visible, objects, customId, s, id) == visible
  {
    if s != [] {
      ToggleWritesNoMatch(visible, objects, customId, s[..|s| - 1], id);
    }
  }

  /**
   * With unique ids, toggling the layer at `k` sets its bound object's
   * `visible` to the layer's new flag and leaves every other object alone;
   * when no object carries the layer's `elementId` nothing is written.
   */
  lemma {:induction false} ToggleWritesUnique(visible: map<ObjectId, bool>, objects: seq<ObjectId>,
                                              customId: map<ObjectId, string>, s: seq<Layer>, k: nat)
    requires UniqueIds(s) && k < |s|
    ensures ToggleWrites(visible, objects, customId, s, s[k].id) ==
      match FindByCustomId(objects, customId, s[k].elementId)
      case None => visible
      case Some(o) => visible[o := Toggled(s[k]).isVisible.value]
  {
    var id := s[k].id;
    var init := s[..|s| - 1];
    if k == |s| - 1 {
      ToggleWritesNoMatch(visible, objects, customId, init, id);
    } else {
      assert init[k] == s[k];
      ToggleWritesUnique(visible, objects, customId, init, k);
    }
  }

  // ---------------------------------------------------------------------
  // Deleting a layer

  /** `prev.filter(layer => layer.id !== layerId)`. */
  function WithoutLayer(s: seq<Layer>, id: string): (r: seq<Layer>)
    ensures |r| <= |s|
    ensures forall l :: l in r <==> l in s && l.id != id
    ensures (forall k :: 0 <= k < |s| ==> s[k].id != id) ==> r == s
  {
    if s == [] then []
    else (if s[0].id == id then [] else [s[0]]) + WithoutLayer(s[1..], id)
  }

  /** The filter keeps the relative order: it distributes over concatenation. */
  lemma {:induction false} WithoutLayerConcat(a: seq<Layer>, b: seq<Layer>, id: string)
    ensures WithoutLayer(a + b, id) == WithoutLayer(a, id) + WithoutLayer(b, id)
  {
    if a == [] {
      assert a + b == b;
    } else {
      assert (a + b)[1..] == a[1..] + b;
      WithoutLayerConcat(a[1..], b, id);
    }
  }

  /** The canvas object `deleteLayer` removes: the one bound to the first layer with the id, if both exist. */
  function DeleteTarget(objects: seq<ObjectId>, customId: map<ObjectId, string>, s: seq<Layer>, id: string): (r: Option<ObjectId>)
    ensures r.Some? ==> r.value in objects
    ensures r.Some? ==> exists l :: l in s && l.id == id && HasCustomId(customId, r.value, l.elementId)
    ensures (forall l :: l in s ==> l.id != id) ==> r.None?
    ensures FindLayer(s, id).Some? && (exists o :: o in objects && HasCustomId(customId, o, FindLayer(s, id).value.elementId)) ==>
      r.Some? && HasCustomId(customId, r.value, FindLayer(s, id).value.elementId)
    ensures FindLayer(s, id).Some? ==> r == FindByCustomId(objects, customId, FindLayer(s, id).value.elementId)
  {
    match FindLayer(s, id)
    case None => None
    case Some(l) => FindByCustomId(objects, customId, l.elementId)
  }

  /** `deleteLayer`: removes the bound object from the canvas if it is found, then filters the list. */
  method DeleteLayer(canvas: Canvas?, prev: seq<Layer>, layerId: string) returns (next: seq<Layer>)
    modifies canvas
    ensures next == WithoutLayer(prev, layerId)
    ensures canvas != null ==> unchanged(canvas`customId, canvas`visible)
    ensures canvas != null ==>
      canvas.objects == match DeleteTarget(old(canvas.objects), canvas.customId, prev, layerId)
        case None => old(canvas.objects)
        case Some(o) => RemoveFirst(old(canvas.objects), o)
    ensures canvas != null && DeleteTarget(old(canvas.objects), canvas.customId, prev, layerId).Some? ==>
      |canvas.objects| == |old(canvas.objects)| - 1
  {
    var layerToDelete := FindLayer(prev, layerId);
    if layerToDelete.Some? && canvas != null {
      var targetObject := FindByCustomId(canvas.objects, canvas.customId, layerToDelete.value.elementId);
      if targetObject.Some? {
        canvas.Remove(targetObject.value);
      }
    }
    next := WithoutLayer(prev, layerId);
  }
}
