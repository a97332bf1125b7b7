/** Layer and keyframe records of the timeline (src/types/animation.ts). */
module Animation {

  /** An optional field; `None` is JavaScript's `undefined`. */
  datatype Option<+T> = None | Some(value: T)

  /** The three animation kinds a keyframe may carry. */
  datatype AnimationType = Move | Scale | Rotate

  /**
   * One scheduled animation segment. Times are in timeline units, where the
   * whole timeline is the interval [0, 100]. `properties` is an open
   * key-to-value record that this model treats as opaque strings.
   */
  datatype Keyframe = Keyframe(
    id: string,
    startTime: real,
    duration: real,
    animationType: AnimationType,
    properties: map<string, string>)

  /**
   * One timeline track, bound by `elementId` to the canvas object whose
   * `customId` carries the same string. `isVisible` is optional.
   */
  datatype Layer = Layer(
    id: string,
    elementId: string,
    name: string,
    keyframes: seq<Keyframe>,
    isVisible: Option<bool>)

  /** Right end of the timeline coordinate space. */
  const TimelineEnd: real := 100.0

  /** A keyframe lies inside the timeline and has a positive length. */
  predicate WithinTimeline(k: Keyframe) {
    0.0 <= k.startTime && 0.0 < k.duration && k.startTime + k.duration <= TimelineEnd
  }

  /** No two layers share an id (ids come from `crypto.randomUUID`). */
  predicate UniqueIds(s: seq<Layer>) {
    forall i, j :: 0 <= i < j < |s| ==> s[i].id != s[j].id
  }

  /** `!layer.isVisible`: an undefined flag is falsy, so it negates to true. */
  function Negated(v: Option<bool>): (b: bool)
    ensures v != Some(b)
    ensures v == None ==> b
  {
    match v
    case None => true
    case Some(x) => !x
  }
}
