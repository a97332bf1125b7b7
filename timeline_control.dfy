/**
 * The play-head clock: the tick loop and scrub slider of
 * src/components/Canvas/TimelineControl.tsx, the play/pause and reset buttons
 * of src/components/Canvas/AnimationPanel.tsx and the play/pause button of
 * src/components/Canvas/Timeline/TimelineHeader.tsx. Times are exact reals
 * in timeline units, so no floating-point rounding arises.
 */
module TimelineControl {

  /** How far one animation frame advances the play-head. */
  const Step: real := 0.5

  /** The time at or beyond which the next frame wraps back to 0. */
  const WrapAt: real := 100.0

  /** One tick: back to exactly 0 once the end is reached, otherwise half a unit on. */
  function NextTime(t: real): (r: real)
    ensures r == 0.0 || r == t + Step
    ensures t < WrapAt <==> r == t + Step
  {
    if t >= WrapAt then 0.0 else t + Step
  }

  /**
   * The values the play-head can take when it starts in the slider range:
   * never negative, and at most one step past the wrap point.
   */
  predicate InReach(t: real) {
    0.0 <= t < WrapAt + Step
  }

  /** The play-head after `n` ticks from `t`. */
  function AfterTicks(t: real, n: nat): (r: real)
    requires InReach(t)
    ensures InReach(r)
    decreases n
  {
    if n == 0 then t else AfterTicks(NextTime(t), n - 1)
  }

  /** A tick keeps the play-head in reach, and below the wrap point it moves forward. */
  lemma TickStaysInReach(t: real)
    requires InReach(t)
    ensures InReach(NextTime(t))
    ensures t < WrapAt ==> NextTime(t) > t
  {
  }

  /** The wrap is a reset, not a modulo: 100.4 ticks to 0, not to 0.9. */
  lemma WrapIsReset()
    ensures NextTime(100.4) == 0.0
    ensures NextTime(99.9) == 100.4
  {
  }

  /** Below the wrap point, `n` ticks advance by exactly `n` steps. */
  lemma {:induction false} TicksAdvance(t: real, n: nat)
    requires InReach(t)
    requires n > 0 ==> t + (n - 1) as real * Step < WrapAt
    ensures AfterTicks(t, n) == t + n as real * Step
    decreases n
  {
    if n > 0 {
      TicksAdvance(NextTime(t), n - 1);
    }
  }

  /** Ticking `m` then `n` times is ticking `m + n` times. */
  lemma {:induction false} TicksCompose(t: real, m: nat, n: nat)
    requires InReach(t)
    ensures AfterTicks(AfterTicks(t, m), n) == AfterTicks(t, m + n)
    decreases m
  {
    if m > 0 {
      TicksCompose(NextTime(t), m - 1, n);
    }
  }

  /** From 0, 200 ticks reach exactly 100 and the 201st returns to 0. */
  lemma LoopFromZero()
    ensures AfterTicks(0.0, 200) == WrapAt
    ensures AfterTicks(0.0, 201) == 0.0
  {
    TicksAdvance(0.0, 200);
    TicksCompose(0.0, 200, 1);
  }

  /** Playback from 0 repeats with a period of 201 frames. */
  lemma {:induction false} LoopIsPeriodic(n: nat)
    ensures AfterTicks(0.0, n) == AfterTicks(0.0, n % 201)
    decreases n
  {
    if n >= 201 {
      LoopFromZero();
      TicksCompose(0.0, 201, n - 201);
      LoopIsPeriodic(n - 201);
      assert n % 201 == (n - 201) % 201;
    }
  }

  /**
   * The clock state. `currentTime` and `isPlaying` are the React state the
   * components share; `framePending` says an animation frame is requested and
   * not cancelled. The effect re-runs whenever `isPlaying` or `currentTime`
   * changes: its cleanup cancels the pending frame and, while playing, it
   * requests a new one.
   */
  class PlaybackClock {
    var currentTime: real
    var isPlaying: bool
    var framePending: bool

    ghost predicate Valid()
      reads this
    {
      InReach(currentTime) && framePending == isPlaying
    }

    /** Initial state: time 0, stopped, no frame requested. */
    constructor ()
      ensures Valid()
      ensures currentTime == 0.0 && !isPlaying && !framePending
    {
      currentTime := 0.0;
      isPlaying := false;
      framePending := false;
    }

    /** One run of the effect: cancel the frame requested before, request one if playing. */
    method RunEffect()
      modifies this`framePending
      ensures framePending == isPlaying
    {
      framePending := false;
      if isPlaying {
        framePending := true;
      }
    }

    /** `setIsPlaying(p)`, followed by the effect. */
    method SetPlaying(p: bool)
      requires Valid()
      modifies this
      ensures Valid()
      ensures isPlaying == p && currentTime == old(currentTime)
    {
      isPlaying := p;
      RunEffect();
    }

    /** The play/pause button: `setIsPlaying(!isPlaying)`. */
    method TogglePlay()
      requires Valid()
      modifies this
      ensures Valid()
      ensures isPlaying == !old(isPlaying) && currentTime == old(currentTime)
    {
      SetPlaying(!isPlaying);
    }

    /** The reset button: only stops playback, the time stays where it is. */
    method Reset()
      requires Valid()
      modifies this
      ensures Valid()
      ensures !isPlaying && !framePending && currentTime == old(currentTime)
    {
      SetPlaying(false);
    }

    /**
     * The browser fires the requested frame. `animate` advances the time only
     * while playing; with no frame pending, nothing runs.
     */
    method AnimationFrame()
      requires Valid()
      modifies this
      ensures Valid()
      ensures isPlaying == old(isPlaying)
      ensures currentTime == if old(isPlaying) then NextTime(old(currentTime)) else old(currentTime)
    {
      if framePending {
        framePending := false;
        if isPlaying {
          currentTime := NextTime(currentTime);
          framePending := true;
          RunEffect();
        }
      }
    }

    /**
     * The slider: `setCurrentTime(value)` with a value in [0, 100] on a 0.1
     * grid, given here as a count of tenths; the play state is kept.
     */
    method Scrub(tenths: nat)
      requires Valid()
      requires tenths <= 1000
      modifies this
      ensures Valid()
      ensures currentTime == tenths as real / 10.0
      ensures 0.0 <= currentTime <= WrapAt
      ensures isPlaying == old(isPlaying)
    {
      currentTime := tenths as real / 10.0;
      RunEffect();
    }
  }
}
