/**
 * The stacking-order and remove buttons shown for every selected object
 * (src/components/Canvas/controls/CommonControls.tsx). The handlers work on
 * the canvas's live object array in place.
 */
module CommonControls {
  import opened Animation
  import opened Fabric
  import ArrayOps
  import ZOrder

  /**
   * `handleBringForward`: nothing happens without a canvas or a selection;
   * otherwise the selected object is spliced out of its index and spliced
   * back in one slot higher, when that slot is inside the array. For an
   * object that is in the array this is the intended move.
   */
  method HandleBringForward(canvas: Canvas?, selected: Option<ObjectId>)
    modifies canvas
    ensures canvas != null ==> unchanged(canvas`customId, canvas`visible)
    ensures canvas != null ==>
      canvas.objects == if selected.Some? then ZOrder.BringForward(old(canvas.objects), selected.value) else old(canvas.objects)
    ensures canvas != null && selected.Some? && selected.value in old(canvas.objects) ==>
      canvas.objects == ZOrder.BringForwardIntended(old(canvas.objects), selected.value)
  {
    if canvas == null || selected.None? {
      return;
    }
    var objects := canvas.objects;
    var currentIndex := ArrayOps.IndexOf(objects, selected.value);
    var newIndex := currentIndex + 1;
    if newIndex < |objects| {
      canvas.SpliceRemove(currentIndex);
      canvas.SpliceInsert(newIndex, selected.value);
    }
  }

  /**
   * `handleSendBackward`: nothing happens without a canvas or a selection;
   * otherwise an object above the bottom is spliced out and back in one
   * slot lower.
   */
  method HandleSendBackward(canvas: Canvas?, selected: Option<ObjectId>)
    modifies canvas
    ensures canvas != null ==> unchanged(canvas`customId, canvas`visible)
    ensures canvas != null ==>
      canvas.objects == if selected.Some? then ZOrder.SendBackward(old(canvas.objects), selected.value) else old(canvas.objects)
  {
    if canvas == null || selected.None? {
      return;
    }
    var objects := canvas.objects;
    var currentIndex := ArrayOps.IndexOf(objects, selected.value);
    var newIndex := if currentIndex - 1 < 0 then 0 else currentIndex - 1;
    if currentIndex > 0 {
      canvas.SpliceRemove(currentIndex);
      canvas.SpliceInsert(newIndex, selected.value);
    }
  }

  /** `handleRemove`: takes the selected object off the canvas. */
  method HandleRemove(canvas: Canvas, selected: ObjectId)
    modifies canvas
    ensures unchanged(canvas`customId, canvas`visible)
    ensures canvas.objects == ArrayOps.RemoveFirst(old(canvas.objects), selected)
    ensures selected in old(canvas.objects) ==> |canvas.objects| == |old(canvas.objects)| - 1
    ensures multiset(canvas.objects)[selected] == if selected in old(canvas.objects)
      then multiset(old(canvas.objects))[selected] - 1 else 0
  {
    canvas.Remove(selected);
  }
}
