/**
 * The floating context menu of the selected object
 * (src/components/Canvas/ContextMenu.tsx). Apart from the per-kind property
 * setters, which are left out, it classifies the selected object and repeats
 * the remove and stacking-order handlers of the common controls verbatim.
 * The menu renders nothing without a canvas and a selection, so its
 * handlers always have both.
 */
module ContextMenu {
  import opened Animation
  import opened Fabric
  import ArrayOps
  import ZOrder
  import CommonControls

  /** The three menus the context menu can show. */
  datatype Category = TextMenu | ImageMenu | ShapeMenu

  /** `selectedObject instanceof IText` (a `Textbox` is an `IText`). */
  predicate IsText(k: ObjectKind) {
    k.IText? || k.Textbox?
  }

  /** `selectedObject instanceof FabricImage`. */
  predicate IsImage(k: ObjectKind) {
    k.FabricImage?
  }

  /** `!isText && !isImage`. */
  predicate IsShape(k: ObjectKind) {
    !IsText(k) && !IsImage(k)
  }

  /** Picks the menu; exactly one of text, image and shape holds for any object. */
  function Classify(k: ObjectKind): (c: Category)
    ensures c == TextMenu <==> IsText(k)
    ensures c == ImageMenu <==> IsImage(k)
    ensures c == ShapeMenu <==> IsShape(k)
  {
    if k.IText? || k.Textbox? then TextMenu
    else if k.FabricImage? then ImageMenu
    else ShapeMenu
  }

  /** `handleRemove`: takes the selected object off the canvas. */
  method HandleRemove(canvas: Canvas, selected: ObjectId)
    modifies canvas
    ensures unchanged(canvas`customId, canvas`visible)
    ensures canvas.objects == ArrayOps.RemoveFirst(old(canvas.objects), selected)
  {
    CommonControls.HandleRemove(canvas, selected);
  }

  /** `handleBringForward`, the same code as in the common controls. */
  method HandleBringForward(canvas: Canvas, selected: ObjectId)
    modifies canvas
    ensures unchanged(canvas`customId, canvas`visible)
    ensures canvas.objects == ZOrder.BringForward(old(canvas.objects), selected)
  {
    CommonControls.HandleBringForward(canvas, Some(selected));
  }

  /** `handleSendBackward`, the same code as in the common controls. */
  method HandleSendBackward(canvas: Canvas, selected: ObjectId)
    modifies canvas
    ensures unchanged(canvas`customId, canvas`visible)
    ensures canvas.objects == ZOrder.SendBackward(old(canvas.objects), selected)
  {
    CommonControls.HandleSendBackward(canvas, Some(selected));
  }
}
