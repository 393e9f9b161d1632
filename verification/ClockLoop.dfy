/** The clock-tracking loop: `frame_pace_trim` steering the ring's fill against a
    sound card whose crystal is off by up to 0.4 percent. Arithmetic is over the
    reals; floating-point rounding is not the point here. */
module ClockLoop {

  const CLOCK_GAIN: real := 0.01
  const MAX_TRIM: real := 0.005

  // Multiplication under a name, so that a proof can hide it and stay linear.
  function Times(x: real, y: real): real {
    x * y
  }

  function Clamp(x: real, low: real, high: real): real {
    if x < low then low else if x > high then high else x
  }

  /** The setpoint: half the capacity, by integer division. */
  function Target(capacity: nat): nat {
    capacity / 2
  }

  function Trim(fill: nat, capacity: nat): (t: real)
    requires capacity >= 2
  {
    var target := Target(capacity) as real;
    var error := (fill as real - target) / target;
    1.0 + Clamp(CLOCK_GAIN * error, -MAX_TRIM, MAX_TRIM)
  }

  // One frame: the machine emits `produced` samples; the card consumes at
  // (1 + drift) times the nominal rate for the trimmed frame period.
  datatype Frame = Frame(produced: real, drift: real)

  ghost predicate FrameOk(f: Frame, capacity: nat) {
    && 0.0 <= f.produced <= Target(capacity) as real
    && -0.004 <= f.drift <= 0.004
  }

  // Samples consumed in an untrimmed frame.
  function Consumed(f: Frame): real {
    Times(f.produced, 1.0 + f.drift)
  }

  /** `fill as usize`: truncation, with negative values saturating at zero. */
  function Truncate(fill: real): nat {
    if fill < 0.0 then 0 else fill.Floor
  }

  function Step(fill: real, capacity: nat, f: Frame): real
    requires capacity >= 2
  {
    fill + f.produced - Times(Consumed(f), Trim(Truncate(fill), capacity))
  }

  ghost predicate Inside(fill: real, capacity: nat) {
    0.0 < fill < capacity as real
  }

  // ---------------------------------------------------------------------------
  // The controller
  // ---------------------------------------------------------------------------

  lemma TrimAuthority(fill: nat, capacity: nat)
    requires capacity >= 2
    ensures 1.0 - MAX_TRIM <= Trim(fill, capacity) <= 1.0 + MAX_TRIM
  {
  }

  /** The trim is pinned at its limits exactly outside the middle half of the ring,
      and proportional inside it. Written without the division. */
  lemma TrimRegions(fill: nat, capacity: nat)
    requires capacity >= 2
    ensures var target := Target(capacity) as real; var t := Trim(fill, capacity);
      && (2.0 * fill as real <= target ==> t == 1.0 - MAX_TRIM)
      && (2.0 * fill as real >= 3.0 * target ==> t == 1.0 + MAX_TRIM)
      && (target <= 2.0 * fill as real <= 3.0 * target ==>
            Times(t - 1.0, target) == CLOCK_GAIN * (fill as real - target))
  {
    var target := Target(capacity) as real;
    ErrorRegions(fill as real, target, (fill as real - target) / target);
  }

  lemma ErrorRegions(n: real, target: real, error: real)
    requires target > 0.0 && error == (n - target) / target
    ensures 2.0 * n <= target ==> error <= -0.5
    ensures 2.0 * n >= 3.0 * target ==> error >= 0.5
    ensures target <= 2.0 * n <= 3.0 * target ==> -0.5 <= error <= 0.5
    ensures Times(CLOCK_GAIN * error, target) == CLOCK_GAIN * (n - target)
  {
    assert Times(error, target) == n - target;
    assert Times(CLOCK_GAIN * error, target) == CLOCK_GAIN * (n - target);
    hide Times;
    AboveLow(error, target);
    BelowHigh(error, target);
  }

  lemma AboveLow(error: real, target: real)
    requires target > 0.0
    ensures Times(error, target) >= -0.5 * target ==> error >= -0.5
    ensures Times(error, target) <= -0.5 * target ==> error <= -0.5
  {
    assert (error + 0.5) * target == error * target + 0.5 * target;
  }

  lemma BelowHigh(error: real, target: real)
    requires target > 0.0
    ensures Times(error, target) <= 0.5 * target ==> error <= 0.5
    ensures Times(error, target) >= 0.5 * target ==> error >= 0.5
  {
    assert (error - 0.5) * target == error * target - 0.5 * target;
  }

  // ---------------------------------------------------------------------------
  // One frame
  // ---------------------------------------------------------------------------

  lemma ConsumedBounds(f: Frame, capacity: nat)
    requires FrameOk(f, capacity)
    ensures 0.996 * f.produced <= Consumed(f) <= 1.004 * f.produced
  {
    FasterCard(f.produced, f.drift);
    SlowerCard(f.produced, f.drift);
  }

  lemma FasterCard(s: real, drift: real)
    requires s >= 0.0 && drift <= 0.004
    ensures Times(s, 1.0 + drift) <= 1.004 * s
  {
    assert s * (0.004 - drift) >= 0.0;
  }

  lemma SlowerCard(s: real, drift: real)
    requires s >= 0.0 && drift >= -0.004
    ensures Times(s, 1.0 + drift) >= 0.996 * s
  {
    assert s * (drift + 0.004) >= 0.0;
  }

  /** What one frame does to the fill, region by region of the ring. */
  ghost predicate MovesAsBounded(moved: real, produced: real, n: real, target: real) {
    && (2.0 * n <= target ==> 0.00102 * produced <= moved <= 0.00898 * produced)
    && (2.0 * n >= 3.0 * target ==> -0.00903 * produced <= moved <= -0.00098 * produced)
    && (n <= 0.6 * target ==> 0.0 <= moved)
    && (n >= 1.41 * target ==> moved <= 0.0)
    && -0.00903 * target <= moved <= 0.00903 * target
    && (n <= target ==> -0.004 * target <= moved)
  }

  lemma StepBounds(fill: real, capacity: nat, f: Frame)
    requires capacity >= 2 && FrameOk(f, capacity)
    ensures MovesAsBounded(Step(fill, capacity, f) - fill, f.produced,
                           Truncate(fill) as real, Target(capacity) as real)
  {
    hide Times, Trim;
    ConsumedBounds(f, capacity);
    TrimByRegion(Truncate(fill), capacity);
    TrimmedBounds(f.produced, Consumed(f), Trim(Truncate(fill), capacity),
                  Truncate(fill) as real, Target(capacity) as real);
  }

  // How strongly the trim pulls at the places the bounds care about.
  ghost predicate Pulls(t: real, n: real, target: real) {
    && 0.995 <= t <= 1.005
    && (2.0 * n <= target ==> t == 0.995)
    && (2.0 * n >= 3.0 * target ==> t == 1.005)
    && (n <= 0.6 * target ==> t <= 0.996)
    && (n <= target ==> t <= 1.0)
    && (n >= 1.41 * target ==> t >= 1.0041)
  }

  lemma TrimByRegion(fill: nat, capacity: nat)
    requires capacity >= 2
    ensures Pulls(Trim(fill, capacity), fill as real, Target(capacity) as real)
  {
    hide Times, Trim;
    var target := Target(capacity) as real;
    TrimRegions(fill, capacity);
    TrimAuthority(fill, capacity);
    if target <= 2.0 * fill as real <= 3.0 * target {
      TrimInTheMiddle(Trim(fill, capacity), fill as real, target);
    }
  }

  lemma TrimmedBounds(s: real, c: real, t: real, n: real, target: real)
    requires target > 0.0 && 0.0 <= s <= target && 0.996 * s <= c <= 1.004 * s
    requires Pulls(t, n, target)
    ensures MovesAsBounded(s - Times(c, t), s, n, target)
  {
    hide Times;
    ScaledAbove(c, t);
    ScaledBelow(c, t);
    if t <= 0.996 { ScaledLow(c, t); }
    if t <= 1.0 { ScaledNeutral(c, t); }
    if t >= 1.0041 { ScaledHigh(c, t); }
    if t == 0.995 { ScaledMin(c, t); }
    if t == 1.005 { ScaledMax(c, t); }
    BoundsFromConsumption(s, c, Times(c, t), n, target);
  }

  lemma BoundsFromConsumption(s: real, c: real, used: real, n: real, target: real)
    requires target > 0.0 && 0.0 <= s <= target && 0.996 * s <= c <= 1.004 * s
    requires 0.995 * c <= used <= 1.005 * c
    requires 2.0 * n <= target ==> used <= 0.995 * c
    requires 2.0 * n >= 3.0 * target ==> used >= 1.005 * c
    requires n <= 0.6 * target ==> used <= 0.996 * c
    requires n <= target ==> used <= c
    requires n >= 1.41 * target ==> used >= 1.0041 * c
    ensures MovesAsBounded(s - used, s, n, target)
  {
  }

  lemma ScaledAbove(c: real, t: real)
    requires c >= 0.0 && 0.995 <= t
    ensures 0.995 * c <= Times(c, t)
  {
    assert c * (t - 0.995) >= 0.0;
  }

  lemma ScaledBelow(c: real, t: real)
    requires c >= 0.0 && t <= 1.005
    ensures Times(c, t) <= 1.005 * c
  {
    assert c * (1.005 - t) >= 0.0;
  }

  lemma ScaledLow(c: real, t: real)
    requires c >= 0.0 && t <= 0.996
    ensures Times(c, t) <= 0.996 * c
  {
    assert c * (0.996 - t) >= 0.0;
  }

  lemma ScaledNeutral(c: real, t: real)
    requires c >= 0.0 && t <= 1.0
    ensures Times(c, t) <= c
  {
    assert c * (1.0 - t) >= 0.0;
  }

  lemma ScaledHigh(c: real, t: real)
    requires c >= 0.0 && t >= 1.0041
    ensures Times(c, t) >= 1.0041 * c
  {
    assert c * (t - 1.0041) >= 0.0;
  }

  lemma ScaledMin(c: real, t: real)
    requires c >= 0.0 && t <= 0.995
    ensures Times(c, t) <= 0.995 * c
  {
    assert c * (0.995 - t) >= 0.0;
  }

  lemma ScaledMax(c: real, t: real)
    requires c >= 0.0 && t >= 1.005
    ensures Times(c, t) >= 1.005 * c
  {
    assert c * (t - 1.005) >= 0.0;
  }

  lemma TrimInTheMiddle(t: real, n: real, target: real)
    requires target > 0.0 && Times(t - 1.0, target) == CLOCK_GAIN * (n - target)
    ensures n <= 0.6 * target ==> t <= 0.996
    ensures n <= target ==> t <= 1.0
    ensures n >= 1.41 * target ==> t >= 1.0041
  {
    if n <= 0.6 * target { PullLow(t - 1.0, target); }
    if n <= target { PullNeutral(t - 1.0, target); }
    if n >= 1.41 * target { PullHigh(t - 1.0, target); }
  }

  lemma PullLow(u: real, target: real)
    requires target > 0.0 && Times(u, target) <= -0.004 * target
    ensures u <= -0.004
  {
    assert (u + 0.004) * target <= 0.0;
  }

  lemma PullNeutral(u: real, target: real)
    requires target > 0.0 && Times(u, target) <= 0.0
    ensures u <= 0.0
  {
  }

  lemma PullHigh(u: real, target: real)
    requires target > 0.0 && Times(u, target) >= 0.0041 * target
    ensures u >= 0.0041
  {
    assert (u - 0.0041) * target >= 0.0;
  }

  // ---------------------------------------------------------------------------
  // Never empty, never full
  // ---------------------------------------------------------------------------

  lemma StepStaysInside(fill: real, capacity: nat, f: Frame)
    requires capacity >= 3 && FrameOk(f, capacity) && Inside(fill, capacity)
    ensures Inside(Step(fill, capacity, f), capacity)
  {
    StepBounds(fill, capacity, f);
    assert Truncate(fill) as real <= fill < Truncate(fill) as real + 1.0;
    assert 2 * Target(capacity) <= capacity <= 2 * Target(capacity) + 1;
    if capacity == 3 {
      assert Target(3) == 1;
    } else if Target(capacity) < 2 * Truncate(fill) < 3 * Target(capacity) {
      assert 2 * Truncate(fill) <= 3 * Target(capacity) - 1;
    }
  }

  /** Holding frame after frame, whatever each frame produces and however the drift
      wanders inside its bound. */
  function Run(fill: real, capacity: nat, frames: seq<Frame>): real
    requires capacity >= 2
    decreases |frames|
  {
    if frames == [] then fill
    else Step(Run(fill, capacity, frames[..|frames| - 1]), capacity, frames[|frames| - 1])
  }

  ghost predicate FramesOk(frames: seq<Frame>, capacity: nat) {
    forall i :: 0 <= i < |frames| ==> FrameOk(frames[i], capacity)
  }

  ghost predicate AlwaysInside(capacity: nat)
    requires capacity >= 2
  {
    forall fill, frames :: Inside(fill, capacity) && FramesOk(frames, capacity) ==>
      Inside(Run(fill, capacity, frames), capacity)
  }

  lemma {:induction false} RunStaysInside(fill: real, capacity: nat, frames: seq<Frame>)
    requires capacity >= 3 && Inside(fill, capacity) && FramesOk(frames, capacity)
    ensures Inside(Run(fill, capacity, frames), capacity)
    decreases |frames|
  {
    if frames != [] {
      RunStaysInside(fill, capacity, frames[..|frames| - 1]);
      StepStaysInside(Run(fill, capacity, frames[..|frames| - 1]), capacity, frames[|frames| - 1]);
    }
  }

  /** The loop keeps the ring from emptying and from filling on every run from every
      start inside it, exactly for capacities of three or more. A ring of two slots
      can be pushed past full by one frame: the quantised fill reads the setpoint
      while the true fill is just under two. */
  lemma NeverEmptiesOrFills(capacity: nat)
    requires capacity >= 2
    ensures AlwaysInside(capacity) <==> capacity >= 3
  {
    if capacity >= 3 {
      forall fill, frames | Inside(fill, capacity) && FramesOk(frames, capacity)
        ensures Inside(Run(fill, capacity, frames), capacity)
      {
        RunStaysInside(fill, capacity, frames);
      }
    } else {
      var f := Frame(1.0, -0.004);
      assert Truncate(1.999) == 1 && Target(2) == 1;
      assert Step(1.999, 2, f) == 1.999 + 1.0 - 0.996;
      assert [f][..0] == [];
      assert Run(1.999, 2, [f]) == Step(1.999, 2, f);
      assert FramesOk([f], 2) && Inside(1.999, 2) && !Inside(Run(1.999, 2, [f]), 2);
    }
  }

  // ---------------------------------------------------------------------------
  // The middle band
  // ---------------------------------------------------------------------------

  /** The unsaturated half of the ring, up to one sample of quantisation. */
  ghost predicate InBand(fill: real, capacity: nat) {
    var target := Target(capacity) as real;
    0.5 * target <= fill < 1.5 * target + 1.0
  }

  lemma BandIsInvariant(fill: real, capacity: nat, f: Frame)
    requires capacity >= 2 && FrameOk(f, capacity) && InBand(fill, capacity)
    ensures InBand(Step(fill, capacity, f), capacity)
  {
    StepBounds(fill, capacity, f);
    assert Truncate(fill) as real <= fill < Truncate(fill) as real + 1.0;
  }

  // How far outside the band a fill is.
  function Excess(fill: real, capacity: nat): real {
    var target := Target(capacity) as real;
    if fill < 0.5 * target then 0.5 * target - fill
    else if fill >= 1.5 * target + 1.0 then fill - (1.5 * target + 1.0)
    else 0.0
  }

  lemma ExcessShrinks(fill: real, capacity: nat, f: Frame)
    requires capacity >= 3 && FrameOk(f, capacity) && Inside(fill, capacity)
    ensures var after := Step(fill, capacity, f);
      InBand(after, capacity) || Excess(after, capacity) <= Excess(fill, capacity) - 0.00098 * f.produced
  {
    if InBand(fill, capacity) {
      BandIsInvariant(fill, capacity, f);
    } else {
      StepBounds(fill, capacity, f);
      assert Truncate(fill) as real <= fill < Truncate(fill) as real + 1.0;
    }
  }

  /** From any start inside the ring the fill is in the band once the frames have
      produced enough samples, and it never leaves the band again. */
  lemma {:induction false} ReachesTheBand(fill: real, capacity: nat, frames: seq<Frame>, least: real)
    requires capacity >= 3 && Inside(fill, capacity) && FramesOk(frames, capacity)
    requires least > 0.0 && forall i :: 0 <= i < |frames| ==> frames[i].produced >= least
    ensures InBand(Run(fill, capacity, frames), capacity)
         || Excess(Run(fill, capacity, frames), capacity)
              <= Excess(fill, capacity) - Times(|frames| as real, 0.00098 * least)
    ensures Times(|frames| as real, 0.00098 * least) >= capacity as real ==>
              InBand(Run(fill, capacity, frames), capacity)
    decreases |frames|
  {
    hide Times, Step;
    ExcessBound(fill, capacity);
    if frames == [] {
      ZeroTimes(0.00098 * least);
    } else {
      var front, last := frames[..|frames| - 1], frames[|frames| - 1];
      var before := Run(fill, capacity, front);
      ReachesTheBand(fill, capacity, front, least);
      RunStaysInside(fill, capacity, front);
      if InBand(before, capacity) {
        BandIsInvariant(before, capacity, last);
      } else {
        ExcessShrinks(before, capacity, last);
        OneMore(|front|, 0.00098 * least);
      }
      OutsideHasExcess(Run(fill, capacity, frames), capacity);
    }
  }

  lemma OutsideHasExcess(fill: real, capacity: nat)
    ensures InBand(fill, capacity) || Excess(fill, capacity) >= 0.0
  {
  }

  lemma OneMore(n: nat, x: real)
    ensures Times((n + 1) as real, x) == Times(n as real, x) + x
  {
  }

  lemma ZeroTimes(x: real)
    ensures Times(0.0, x) == 0.0
  {
  }

  lemma ExcessBound(fill: real, capacity: nat)
    requires capacity >= 3 && Inside(fill, capacity)
    ensures 0.0 <= Excess(fill, capacity) < capacity as real
  {
  }

  // ---------------------------------------------------------------------------
  // Convergence
  // ---------------------------------------------------------------------------

  /** The standing fill that cancels a constant drift. */
  function Equilibrium(capacity: nat, drift: real): real
    requires drift > -1.0
  {
    var target := Target(capacity) as real;
    target - 100.0 * target * drift / (1.0 + drift)
  }

  // The share of the remaining error one frame removes.
  function LoopGain(capacity: nat, f: Frame): real
    requires capacity >= 2
  {
    CLOCK_GAIN * Consumed(f) / Target(capacity) as real
  }

  /** The quantised fill asks for a trim between its limits. */
  predicate Unsaturated(fill: real, capacity: nat) {
    Target(capacity) <= 2 * Truncate(fill) <= 3 * Target(capacity)
  }

  /** While the trim is not pinned one frame moves the fill by the loop gain times the
      distance from the quantised fill to the equilibrium. */
  lemma StepTowardsEquilibrium(fill: real, capacity: nat, f: Frame)
    requires capacity >= 2 && FrameOk(f, capacity) && Unsaturated(fill, capacity)
    ensures var p := Equilibrium(capacity, f.drift); var g := LoopGain(capacity, f);
      && 0.0 <= g <= 0.01004
      && Step(fill, capacity, f) == fill + Times(g, p - Truncate(fill) as real)
  {
    var target, n := Target(capacity) as real, Truncate(fill) as real;
    var p, g, c := Equilibrium(capacity, f.drift), LoopGain(capacity, f), Consumed(f);
    var t := Trim(Truncate(fill), capacity);
    assert Times(g, target) == CLOCK_GAIN * c;
    EquilibriumOffset(capacity, f.drift);
    hide Times, Trim, Equilibrium, LoopGain, Consumed;
    ConsumedBounds(f, capacity);
    TrimRegions(Truncate(fill), capacity);
    GainBound(g, target, c, f.produced);
    TrimPart(c, t, g, n, target);
    DriftPart(f, c, g, p, target);
    Difference(g, p - target, n - target);
  }

  /** In a ring whose setpoint is even the band is exactly where the trim is not pinned. */
  lemma BandIsUnsaturated(fill: real, capacity: nat)
    requires Target(capacity) % 2 == 0 && Target(capacity) > 0
    ensures InBand(fill, capacity) <==> Unsaturated(fill, capacity)
  {
    var half := Target(capacity) / 2;
    assert Target(capacity) == 2 * half;
  }

  ghost predicate StaysUnsaturated(capacity: nat)
    requires capacity >= 2
  {
    forall fill, f :: FrameOk(f, capacity) && Unsaturated(fill, capacity) ==> Unsaturated(Step(fill, capacity, f), capacity)
  }

  // The setpoints from which quantisation cannot push the fill out again.
  predicate Roomy(capacity: nat) {
    Target(capacity) % 2 == 0 || Target(capacity) >= 7
  }

  /** One frame keeps the trim off its limits exactly for even setpoints and odd ones of at
      least seven; at one, three and five a single frame can leave. Every ring of four or
      more slots, a power of two, is among them. */
  lemma StaysUnsaturatedIff(capacity: nat)
    requires capacity >= 2
    ensures StaysUnsaturated(capacity) <==> Roomy(capacity)
  {
    if Roomy(capacity) {
      forall fill, f | FrameOk(f, capacity) && Unsaturated(fill, capacity)
        ensures Unsaturated(Step(fill, capacity, f), capacity)
      {
        RoomyStep(fill, capacity, f);
      }
    } else if Target(capacity) == 1 {
      LeavesBelowOne(capacity);
    } else if Target(capacity) == 3 {
      LeavesBelowTwo(capacity);
    } else {
      LeavesAboveEight(capacity);
    }
  }

  lemma RoomyStep(fill: real, capacity: nat, f: Frame)
    requires capacity >= 2 && Roomy(capacity) && FrameOk(f, capacity) && Unsaturated(fill, capacity)
    ensures Unsaturated(Step(fill, capacity, f), capacity)
  {
    StepBounds(fill, capacity, f);
    hide Step;
    RoomyMove(fill, Step(fill, capacity, f), Truncate(fill), Target(capacity), f.produced);
  }

  lemma RoomyMove(fill: real, after: real, n: nat, target: nat, produced: real)
    requires target > 0 && (target % 2 == 0 || target >= 7) && target <= 2 * n <= 3 * target
    requires n as real <= fill < n as real + 1.0
    requires MovesAsBounded(after - fill, produced, n as real, target as real)
    ensures target <= 2 * Truncate(after) <= 3 * target
  {
    var low, high := (target + 1) / 2, 3 * target / 2;
    assert low as real <= 0.5 * target as real + 0.5 && 1.5 * target as real - 0.5 <= high as real;
    assert target % 2 == 0 ==> low as real == 0.5 * target as real && high as real == 1.5 * target as real;
    assert low <= n <= high;
    assert low as real <= after < high as real + 1.0;
    Floored(after, low, high);
  }

  lemma Floored(x: real, low: nat, high: nat)
    requires low as real <= x < high as real + 1.0
    ensures low <= Truncate(x) <= high
  {
  }

  lemma LeavesBelowOne(capacity: nat)
    requires capacity >= 2 && Target(capacity) == 1
    ensures !StaysUnsaturated(capacity)
  {
    var f := Frame(1.0, 0.004);
    assert Truncate(1.0) == 1 && Step(1.0, capacity, f) == 1.0 + 1.0 - 1.004;
    assert FrameOk(f, capacity) && Unsaturated(1.0, capacity) && !Unsaturated(Step(1.0, capacity, f), capacity);
  }

  lemma LeavesBelowTwo(capacity: nat)
    requires capacity >= 2 && Target(capacity) == 3
    ensures !StaysUnsaturated(capacity)
  {
    var f := Frame(3.0, 0.004);
    assert Truncate(2.0) == 2 && Trim(2, capacity) > 0.9966;
    assert Step(2.0, capacity, f) == 5.0 - Times(3.012, Trim(2, capacity));
    assert FrameOk(f, capacity) && Unsaturated(2.0, capacity) && !Unsaturated(Step(2.0, capacity, f), capacity);
  }

  lemma LeavesAboveEight(capacity: nat)
    requires capacity >= 2 && Target(capacity) == 5
    ensures !StaysUnsaturated(capacity)
  {
    var f := Frame(5.0, -0.004);
    assert Truncate(7.99999) == 7 && Trim(7, capacity) == 1.004;
    assert Step(7.99999, capacity, f) == 12.99999 - Times(4.98, 1.004);
    assert FrameOk(f, capacity) && Unsaturated(7.99999, capacity);
    assert Truncate(Step(7.99999, capacity, f)) == 8;
  }

  lemma GainBound(g: real, target: real, c: real, produced: real)
    requires target > 0.0 && Times(g, target) == CLOCK_GAIN * c
    requires 0.0 <= produced <= target && 0.0 <= c <= 1.004 * produced
    ensures 0.0 <= g <= 0.01004
  {
    assert (0.01004 - g) * target >= 0.0;
  }

  lemma TrimPart(c: real, t: real, g: real, n: real, target: real)
    requires target > 0.0 && Times(g, target) == CLOCK_GAIN * c
    requires Times(t - 1.0, target) == CLOCK_GAIN * (n - target)
    ensures Times(c, t) == c + Times(g, n - target)
  {
    var u, v := t - 1.0, n - target;
    assert (c * u) * target == c * (u * target) == c * (CLOCK_GAIN * v);
    assert (g * v) * target == (g * target) * v == (CLOCK_GAIN * c) * v;
    Cancel(c * u, g * v, target);
    assert c * t == c + c * u;
  }

  lemma EquilibriumOffset(capacity: nat, drift: real)
    requires drift > -1.0
    ensures var target := Target(capacity) as real;
      Times(target - Equilibrium(capacity, drift), 1.0 + drift) == 100.0 * Times(target, drift)
  {
    var target := Target(capacity) as real;
    var q := 100.0 * target * drift / (1.0 + drift);
    assert q * (1.0 + drift) == 100.0 * target * drift;
  }

  lemma DriftPart(f: Frame, c: real, g: real, p: real, target: real)
    requires target > 0.0 && f.drift > -1.0
    requires c == Times(f.produced, 1.0 + f.drift) && Times(g, target) == CLOCK_GAIN * c
    requires Times(target - p, 1.0 + f.drift) == 100.0 * Times(target, f.drift)
    ensures f.produced - c == Times(g, p - target)
  {
    var s, d, q := f.produced, f.drift, target - p;
    assert (g * q) * target == (g * target) * q == (CLOCK_GAIN * c) * q;
    assert c * q == (s * (1.0 + d)) * q == s * (q * (1.0 + d));
    assert s * (100.0 * (target * d)) == 100.0 * ((s * d) * target);
    assert (g * q) * target == (s * d) * target;
    Cancel(g * q, s * d, target);
    assert s - c == -(s * d);
    assert g * (p - target) == -(g * q);
  }

  lemma Cancel(a: real, b: real, m: real)
    requires m > 0.0 && a * m == b * m
    ensures a == b
  {
    assert (a - b) * m == 0.0;
  }

  lemma Difference(g: real, x: real, y: real)
    ensures Times(g, x - y) == Times(g, x) - Times(g, y)
  {
  }

  function Abs(x: real): real {
    if x < 0.0 then -x else x
  }

  function Power(x: real, n: nat): real {
    if n == 0 then 1.0 else Times(x, Power(x, n - 1))
  }

  function Repeat(f: Frame, n: nat): (s: seq<Frame>)
    ensures |s| == n
  {
    seq(n, _ => f)
  }

  /** Under a constant drift the distance to the equilibrium shrinks geometrically,
      down to one sample of quantisation, from anywhere the trim is not pinned. */
  lemma {:induction false} SettlesGeometrically(fill: real, capacity: nat, f: Frame, n: nat)
    requires capacity >= 2 && Roomy(capacity) && FrameOk(f, capacity) && Unsaturated(fill, capacity)
    ensures var after := Run(fill, capacity, Repeat(f, n));
      var p := Equilibrium(capacity, f.drift);
      && Unsaturated(after, capacity)
      && Abs(after - p) - 1.0 <= Times(Power(1.0 - LoopGain(capacity, f), n), Abs(fill - p) - 1.0)
    decreases n
  {
    hide Times, Step, Equilibrium, LoopGain, Unsaturated;
    var p, g := Equilibrium(capacity, f.drift), LoopGain(capacity, f);
    var h, start := 1.0 - g, Abs(fill - p) - 1.0;
    if n == 0 {
      OneTimes(start);
    } else {
      SettlesGeometrically(fill, capacity, f, n - 1);
      assert Repeat(f, n)[..n - 1] == Repeat(f, n - 1);
      var before := Run(fill, capacity, Repeat(f, n - 1));
      RoomyStep(before, capacity, f);
      StepTowardsEquilibrium(before, capacity, f);
      TruncateWithin(before, capacity);
      Contract(before, Step(before, capacity, f), p, g, Truncate(before) as real);
      TimesLe(h, Abs(before - p) - 1.0, Times(Power(h, n - 1), start));
      Associates(h, Power(h, n - 1), start);
    }
  }

  lemma {:induction false} RunInTwo(fill: real, capacity: nat, first: seq<Frame>, second: seq<Frame>)
    requires capacity >= 2
    ensures Run(fill, capacity, first + second) == Run(Run(fill, capacity, first), capacity, second)
    decreases |second|
  {
    if second == [] {
      assert first + second == first;
    } else {
      var front := second[..|second| - 1];
      assert (first + second)[..|first + second| - 1] == first + front;
      RunInTwo(fill, capacity, first, front);
    }
  }

  lemma NothingFromNothing(n: real, x: real)
    ensures x == 0.0 ==> Times(n, x) == 0.0
  {
  }

  /** The whole run: from any start inside a ring of four slots or more with an even
      setpoint, once the first `m` frames have produced enough, the trim is off its limits
      for good and the distance to the equilibrium shrinks geometrically from there, down
      to one sample. */
  lemma SettlesFromAnywhere(fill: real, capacity: nat, f: Frame, m: nat, n: nat)
    requires capacity >= 4 && Target(capacity) % 2 == 0
    requires Inside(fill, capacity) && FrameOk(f, capacity)
    requires Times(m as real, 0.00098 * f.produced) >= capacity as real
    ensures var reached, after := Run(fill, capacity, Repeat(f, m)), Run(fill, capacity, Repeat(f, m + n));
      var p := Equilibrium(capacity, f.drift);
      && Unsaturated(after, capacity)
      && Abs(after - p) - 1.0 <= Times(Power(1.0 - LoopGain(capacity, f), n), Abs(reached - p) - 1.0)
  {
    hide Times, Step, Equilibrium, LoopGain, Power;
    var reached := Run(fill, capacity, Repeat(f, m));
    NothingFromNothing(m as real, 0.00098 * f.produced);
    ReachesTheBand(fill, capacity, Repeat(f, m), f.produced);
    BandIsUnsaturated(reached, capacity);
    SettlesGeometrically(reached, capacity, f, n);
    assert Repeat(f, m + n) == Repeat(f, m) + Repeat(f, n);
    RunInTwo(fill, capacity, Repeat(f, m), Repeat(f, n));
  }

  lemma TruncateWithin(fill: real, capacity: nat)
    requires capacity >= 2 && Unsaturated(fill, capacity)
    ensures Truncate(fill) as real <= fill < Truncate(fill) as real + 1.0
  {
  }

  lemma OneTimes(x: real)
    ensures Times(1.0, x) == x
  {
  }

  lemma TimesLe(h: real, a: real, b: real)
    requires h >= 0.0 && a <= b
    ensures Times(h, a) <= Times(h, b)
  {
  }

  lemma Associates(a: real, b: real, c: real)
    ensures Times(a, Times(b, c)) == Times(Times(a, b), c)
  {
  }

  // The remainder `q` of the fill is what quantisation adds back.
  lemma Contract(before: real, after: real, p: real, g: real, n: real)
    requires 0.0 <= g <= 1.0 && n <= before < n + 1.0
    requires after == before + Times(g, p - n)
    ensures Abs(after - p) - 1.0 <= Times(1.0 - g, Abs(before - p) - 1.0)
  {
    hide Times;
    var d, q := before - p, before - n;
    var e := Abs(d);
    assert p - n == q - d;
    Difference(g, q, d);
    PartOfOne(g, q);
    Negated(g, d);
    Remaining(g, e);
    Remaining(g, e - 1.0);
    Difference(g, e, 1.0);
    PartOfAll(g, e);
    AllOf(g);
    ContractLinear(d, after - p, g, Times(g, d), Times(g, q), Times(g, e));
  }

  lemma ContractLinear(d: real, moved: real, g: real, gd: real, gq: real, ge: real)
    requires moved == d + gq - gd && 0.0 <= gq <= g && ge <= Abs(d)
    requires ge == if d < 0.0 then -gd else gd
    ensures Abs(moved) - 1.0 <= Abs(d) - 1.0 - (ge - g)
  {
  }

  lemma PartOfOne(g: real, q: real)
    requires g >= 0.0 && 0.0 <= q <= 1.0
    ensures 0.0 <= Times(g, q) <= g
  {
    TimesLe(g, 0.0, q);
    TimesLe(g, q, 1.0);
    AllOf(g);
    NoneOf(g);
    hide Times;
  }

  lemma PartOfAll(g: real, e: real)
    requires g <= 1.0 && e >= 0.0
    ensures Times(g, e) <= e
  {
    TimesLe(1.0 - g, 0.0, e);
    Remaining(g, e);
    NoneOf(1.0 - g);
    hide Times;
  }

  lemma AllOf(g: real)
    ensures Times(g, 1.0) == g
  {
  }

  lemma NoneOf(g: real)
    ensures Times(g, 0.0) == 0.0
  {
  }

  lemma Negated(g: real, x: real)
    ensures Times(g, -x) == -Times(g, x)
  {
  }

  lemma Remaining(g: real, x: real)
    ensures Times(1.0 - g, x) == x - Times(g, x)
  {
  }

  /** The equilibrium sits well inside the band: at the 200 ppm the loop is meant to
      cancel it is within about one percent of the capacity from the setpoint. */
  lemma EquilibriumIsClose(capacity: nat, drift: real)
    requires capacity >= 2 && -0.0002 <= drift <= 0.0002
    ensures Abs(Equilibrium(capacity, drift) - Target(capacity) as real) <= 0.0101 * capacity as real
  {
    var target := Target(capacity) as real;
    EquilibriumOffset(capacity, drift);
    OffsetBound(target - Equilibrium(capacity, drift), target, drift, Times(target, drift));
    assert capacity as real >= 2.0 * target;
  }

  lemma OffsetBound(q: real, target: real, drift: real, e: real)
    requires target > 0.0 && -0.0002 <= drift <= 0.0002 && e == Times(target, drift)
    requires Times(q, 1.0 + drift) == 100.0 * e
    ensures -0.0202 * target <= q <= 0.0202 * target
  {
    hide Times;
    var c := 0.0202 * target;
    DriftShare(target, drift);
    OneAndDrift(q, drift);
    LeftDifference(q, c, drift);
    LeftDifference(-c, q, drift);
    Share(target, drift);
    OffsetHigh(q - c, drift);
    OffsetHigh(-c - q, drift);
    OffsetLinear(q, target, Times(q, drift), e);
  }

  lemma OffsetLinear(q: real, target: real, d: real, e: real)
    requires target > 0.0 && -0.0002 * target <= e <= 0.0002 * target && q + d == 100.0 * e
    requires q > 0.0202 * target ==> q - 0.0202 * target + d - 0.0202 * e > 0.0
    requires q < -0.0202 * target ==> -0.0202 * target - q - d - 0.0202 * e > 0.0
    ensures -0.0202 * target <= q <= 0.0202 * target
  {
  }

  lemma OneAndDrift(q: real, drift: real)
    ensures Times(q, 1.0 + drift) == q + Times(q, drift)
  {
  }

  lemma LeftDifference(x: real, y: real, drift: real)
    ensures Times(x - y, drift) == Times(x, drift) - Times(y, drift)
  {
  }

  lemma Share(target: real, drift: real)
    ensures Times(0.0202 * target, drift) == 0.0202 * Times(target, drift)
    ensures Times(-(0.0202 * target), drift) == -(0.0202 * Times(target, drift))
  {
  }

  lemma DriftShare(target: real, drift: real)
    requires target > 0.0 && -0.0002 <= drift <= 0.0002
    ensures -0.0002 * target <= Times(target, drift) <= 0.0002 * target
  {
    TimesLe(target, drift, 0.0002);
    TimesLe(target, -0.0002, drift);
  }

  lemma OffsetHigh(k: real, drift: real)
    requires -0.0002 <= drift <= 0.0002
    ensures k > 0.0 ==> k + Times(k, drift) > 0.0
  {
    if k > 0.0 {
      TimesLe(k, -0.0002, drift);
      assert Times(k, -0.0002) == -0.0002 * k;
    }
  }
}
