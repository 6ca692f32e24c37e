/** The once-a-second frame-rate sampler of a `PushWidget`. The host's
    cumulative frame counter and the steady clock (in nanoseconds) are
    passed in. */
module Telemetry {

  import opened Wrappers

  /** `total_frames_` is a `uint64_t`: arithmetic on it wraps modulo 2^64. */
  const U64: int := 0x1_0000_0000_0000_0000

  const NanosPerMilli: nat := 1_000_000

  /** The last sample: the frame count seen and the time it was read. */
  datatype Baseline = Baseline(frames: nat, time: nat)

  /** A baseline taken by `ResetInfo`: zero frames, at `now`. */
  function Reset(now: nat): (b: Baseline)
    ensures b.frames == 0 && b.time == now
  {
    Baseline(0, now)
  }

  /** `duration_cast<milliseconds>(now - last)`: the difference in whole
      milliseconds, truncated toward zero. */
  function ElapsedMillis(last: nat, now: nat): (r: int)
    ensures r > 0 <==> now >= last + NanosPerMilli
    ensures now >= last ==> r * NanosPerMilli <= now - last < (r + 1) * NanosPerMilli
    ensures now < last ==> -r * NanosPerMilli <= last - now < (-r + 1) * NanosPerMilli
  {
    if now >= last then (now - last) / NanosPerMilli
    else -((last - now) / NanosPerMilli)
  }

  /** `(new_frames - total_frames_) * 1000 / intervalms` in unsigned 64-bit
      arithmetic. */
  function Rate(prevFrames: nat, newFrames: nat, elapsedMillis: int): (r: nat)
    requires elapsedMillis > 0
    ensures r < U64
    ensures prevFrames <= newFrames && (newFrames - prevFrames) * 1000 < U64 ==>
              r * elapsedMillis <= (newFrames - prevFrames) * 1000 < (r + 1) * elapsedMillis
  {
    ((newFrames - prevFrames) % U64 * 1000 % U64) / elapsedMillis
  }

  /** What one timer tick leaves behind: the new baseline and the figure in
      the fps label (`None` is the empty label). */
  datatype Sampled = Sampled(baseline: Baseline, fps: Option<nat>)

  /** One timer tick. The rate is recomputed only when at least a whole
      millisecond has passed; the baseline always moves to the new reading. */
  function Sample(b: Baseline, fps: Option<nat>, newFrames: nat, now: nat): (r: Sampled)
    ensures r.baseline == Baseline(newFrames, now)
    ensures now < b.time + NanosPerMilli ==> r.fps == fps
    ensures now >= b.time + NanosPerMilli ==> r.fps.Some?
    ensures now >= b.time + NanosPerMilli && b.frames <= newFrames && (newFrames - b.frames) * 1000 < U64 ==>
              r.fps.value * ElapsedMillis(b.time, now) <= (newFrames - b.frames) * 1000 < (r.fps.value + 1) * ElapsedMillis(b.time, now)
  {
    var interval := ElapsedMillis(b.time, now);
    var shown := if interval > 0 then Some(Rate(b.frames, newFrames, interval)) else fps;
    Sampled(Baseline(newFrames, now), shown)
  }

  /** The first sample after a reset divides the host counter's whole
      reading by the time elapsed since the reset, as if the counter had
      stood at 0 at the reset; the baseline moves on to the reading. The
      reset zeroes only the plugin's copy of the count, not the host's. */
  lemma SampleAfterReset(now: nat, fps: Option<nat>, frames: nat, later: nat)
    requires later >= now + NanosPerMilli
    requires frames * 1000 < U64
    ensures var r := Sample(Reset(now), fps, frames, later);
      && r.baseline == Baseline(frames, later)
      && r.fps.Some?
      && r.fps.value * ElapsedMillis(now, later) <= frames * 1000 < (r.fps.value + 1) * ElapsedMillis(now, later)
  {
  }

  /** 100 frames, then 130 frames one second later: 30 frames per second. */
  lemma ThirtyFps(t: nat)
    ensures Sample(Baseline(100, t), None, 130, t + 1_000_000_000).fps == Some(30)
  {
  }

  /** Two readings within the same millisecond divide by nothing: the label
      keeps its figure, whatever the counter says. */
  lemma NoDivisionWithinAMillisecond(b: Baseline, fps: Option<nat>, newFrames: nat, now: nat)
    requires b.time <= now < b.time + NanosPerMilli
    ensures Sample(b, fps, newFrames, now).fps == fps
    ensures Sample(b, fps, newFrames, now).baseline.time == now
  {
  }

  /** A counter that goes backwards wraps: the figure shown is not the
      (negative) true rate but a value near 2^64 / elapsed. */
  lemma BackwardsCounterWraps(prev: nat)
    requires 0 < prev
    ensures Rate(prev, prev - 1, 1) == U64 - 1000
  {
  }
}
