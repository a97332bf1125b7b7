/**
 * The part of the Fabric.js canvas that the timeline code touches. Fabric is
 * an external library; this is the model of it that the rest of the project
 * relies on:
 *   - `objects` is the live array that `getObjects()` returns, bottom of the
 *     stacking order first, so splicing it reorders the canvas;
 *   - an object is identified by an `ObjectId` (JavaScript reference identity);
 *   - each object's `customId` and `visible` fields are kept in maps keyed by
 *     that identity: a missing `customId` entry is `undefined`, a missing
 *     `visible` entry is Fabric's default, `true`.
 */
module Fabric {
  import opened Animation
  import ArrayOps

  /** The identity of a Fabric object. */
  type ObjectId = nat

  /** The Fabric classes an object can be an instance of (`Textbox` extends `IText`). */
  datatype ObjectKind = IText | Textbox | FabricText | FabricImage | Shape(className: string)

  /** `obj.customId === id`; an undefined `customId` never equals a string. */
  predicate HasCustomId(customId: map<ObjectId, string>, o: ObjectId, id: string) {
    o in customId && customId[o] == id
  }

  /** The position of the first object whose `customId` is `id`, or -1. */
  function IndexOfCustomId(objects: seq<ObjectId>, customId: map<ObjectId, string>, id: string): (r: int)
    ensures -1 <= r < |objects|
    ensures r >= 0 ==> HasCustomId(customId, objects[r], id)
    ensures r >= 0 ==> forall k :: 0 <= k < r ==> !HasCustomId(customId, objects[k], id)
    ensures r == -1 ==> forall k :: 0 <= k < |objects| ==> !HasCustomId(customId, objects[k], id)
  {
    if |objects| == 0 then -1
    else if HasCustomId(customId, objects[0], id) then 0
    else
      var r := IndexOfCustomId(objects[1..], customId, id);
      if r == -1 then -1 else r + 1
  }

  /** `objects.find(obj => obj.customId === id)`. */
  function FindByCustomId(objects: seq<ObjectId>, customId: map<ObjectId, string>, id: string): (r: Option<ObjectId>)
    ensures r.Some? ==> r.value in objects && HasCustomId(customId, r.value, id)
    ensures r.Some? ==>
      exists i :: 0 <= i < |objects| && objects[i] == r.value && forall k :: 0 <= k < i ==> !HasCustomId(customId, objects[k], id)
    ensures r.None? <==> forall o :: o in objects ==> !HasCustomId(customId, o, id)
  {
    var i := IndexOfCustomId(objects, customId, id);
    if i == -1 then None else Some(objects[i])
  }

  /** Whether an object is shown, given the `visible` fields. */
  function Shown(visible: map<ObjectId, bool>, o: ObjectId): bool {
    o !in visible || visible[o]
  }

  class Canvas {
    var objects: seq<ObjectId>
    var customId: map<ObjectId, string>
    var visible: map<ObjectId, bool>

    /** A new, empty canvas. */
    constructor ()
      ensures objects == [] && customId == map[] && visible == map[]
    {
      objects := [];
      customId := map[];
      visible := map[];
    }

    /** `canvas.add(o)`: appends `o` on top of the stacking order. */
    method Add(o: ObjectId)
      modifies this`objects
      ensures objects == old(objects) + [o]
    {
      objects := objects + [o];
    }

    /**
     * `canvas.remove(o)`: Fabric finds `o` with `indexOf` and splices it out;
     * an object that is not on the canvas is ignored.
     */
    method Remove(o: ObjectId)
      modifies this`objects
      ensures objects == ArrayOps.RemoveFirst(old(objects), o)
    {
      var i := ArrayOps.IndexOf(objects, o);
      if i != -1 {
        objects := ArrayOps.SpliceRemove(objects, i);
      }
    }

    /** `objects.splice(start, 1)` on the live object array. */
    method SpliceRemove(start: int)
      modifies this`objects
      ensures objects == ArrayOps.SpliceRemove(old(objects), start)
    {
      objects := ArrayOps.SpliceRemove(objects, start);
    }

    /** `objects.splice(start, 0, o)` on the live object array. */
    method SpliceInsert(start: int, o: ObjectId)
      modifies this`objects
      ensures objects == ArrayOps.SpliceInsert(old(objects), start, o)
    {
      objects := ArrayOps.SpliceInsert(objects, start, o);
    }

    /** `o.visible = v`. */
    method SetVisible(o: ObjectId, v: bool)
      modifies this`visible
      ensures visible == old(visible)[o := v]
    {
      visible := visible[o := v];
    }

    /** `o.customId = id`. */
    method SetCustomId(o: ObjectId, id: string)
      modifies this`customId
      ensures customId == old(customId)[o := id]
    {
      customId := customId[o := id];
    }
  }
}
