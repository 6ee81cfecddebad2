/** Oscillation-angle geometry: turning a sweep described as (width, heading)
    into the device's (lower, upper) angle pair inside its 5°..355° window,
    and decoding a reported pair back into width and heading. */
module Geometry {
  import opened Results
  import Selection

  /** Hardware window: the device accepts only lower >= 5 and upper <= 355. */
  const MinAngle := 5
  const MaxAngle := 355
  /** The narrowest and widest non-zero sweeps the solver accepts. */
  const MinSweep := 45
  const MaxSweep := 350

  /** Reduction modulo 360, the one circular-arithmetic helper the solver and
      the decoder share (non-negative for negative arguments too). */
  function Wrap(a: int): (r: int)
    ensures 0 <= r < 360
    ensures 0 <= a < 360 ==> r == a
    ensures -360 <= a < 0 ==> r == a + 360
    ensures 360 <= a < 720 ==> r == a - 360
    decreases if a < 0 then 360 - a else a
  {
    if a < 0 then Wrap(a + 360) else if a >= 360 then Wrap(a - 360) else a
  }

  /** `Wrap` is the host language's `% 360`, which for a positive modulus is
      the Euclidean remainder (never negative). */
  lemma {:induction false} WrapIsRemainder(a: int)
    ensures Wrap(a) == a % 360
    decreases if a < 0 then 360 - a else a
  {
    if a < 0 {
      WrapIsRemainder(a + 360);
      assert (a + 360) % 360 == a % 360;
    } else if a >= 360 {
      WrapIsRemainder(a - 360);
      assert (a - 360) % 360 == a % 360;
    }
  }

  lemma WrapPeriodic(a: int)
    ensures Wrap(a + 360) == Wrap(a)
  {
    WrapIsRemainder(a);
    WrapIsRemainder(a + 360);
    assert (a + 360) % 360 == a % 360;
  }

  predicate IsAngle(a: int) {
    0 <= a <= 359
  }

  /** A (lower, upper) pair the device can store without wrapping. */
  predicate InWindow(lower: int, upper: int) {
    MinAngle <= lower <= upper <= MaxAngle
  }

  function Abs(x: int): nat {
    if x < 0 then -x else x
  }

  /** Shortest way round the circle between two angles. */
  function CircularDistance(a: int, b: int): (d: int)
    ensures IsAngle(a) && IsAngle(b) ==> 0 <= d <= 180 && (d == 0 <==> a == b)
  {
    var diff := Abs(a - b);
    if diff <= 360 - diff then diff else 360 - diff
  }

  // ---------------------------------------------------------------------
  // Solver
  // ---------------------------------------------------------------------

  /** The errors the solver raises. Only the first two are reachable; see
      `SolveFailsOnlyOnBadInput`. */
  datatype SolveError =
    | InvalidWidth      // width is neither 0 nor in 45..350
    | InvalidHeading    // heading outside 0..359
    | WidthTooLarge     // width over 350 once adjustment is needed
    | WidthUnfittable   // neither edge-anchored heading keeps the sweep inside
    | InternalBounds    // the final window check failed

  /** What the solver settles on. `requested` is the caller's heading for a
      sweep and absent for the stationary (width 0) case. */
  datatype Solution = Solution(
    width: int,
    heading: int,
    lower: int,
    upper: int,
    adjusted: bool,
    requested: Option<int>)

  /** An edge-anchored heading and its distance from the requested one. */
  datatype Candidate = Candidate(heading: int, distance: int)

  function Distance(c: Candidate): int {
    c.distance
  }

  /** The naive sweep centred on `heading`, or its span reduced modulo 360. */
  function NaiveLower(heading: int, half: int): int {
    Wrap(heading - half)
  }

  function NaiveUpper(heading: int, half: int): int {
    Wrap(heading + half)
  }

  /** Heading that puts the lower edge on 5° (candidate A). */
  function LowAnchored(half: int): int {
    Wrap(MinAngle + half)
  }

  /** Heading that puts the upper edge on 355° (candidate B). */
  function HighAnchored(half: int): int {
    Wrap(MaxAngle - half)
  }

  /** The candidates that keep their far edge inside the window, A first. */
  function Candidates(half: int, requested: int): seq<Candidate> {
    var a := LowAnchored(half);
    var b := HighAnchored(half);
    (if Wrap(a + half) <= MaxAngle then [Candidate(a, CircularDistance(requested, a))] else [])
    + (if Wrap(b - half) >= MinAngle then [Candidate(b, CircularDistance(requested, b))] else [])
  }

  /** `set_oscillation_angles` without the device write: validate, try the
      naive sweep, otherwise move the heading to the closer edge-anchored
      candidate, and check the window once more. */
  function Solve(width: int, heading: int): (r: Result<Solution, SolveError>)
    ensures r.Ok? ==> r.value.width == width && IsAngle(r.value.heading)
    ensures r.Ok? ==> IsAngle(r.value.lower) && IsAngle(r.value.upper)
    ensures r.Ok? && width == 0 ==>
      r.value.lower == r.value.upper == r.value.heading == heading && !r.value.adjusted
    ensures r.Ok? && width != 0 ==> InWindow(r.value.lower, r.value.upper)
    ensures r.Ok? && width != 0 ==> r.value.requested == Some(heading)
    ensures r.Ok? ==> (r.value.adjusted <==> r.value.heading != heading)
  {
    if width == 0 then
      if !IsAngle(heading) then Err(InvalidHeading)
      else Ok(Solution(0, heading, heading, heading, false, None))
    else if !(MinSweep <= width <= MaxSweep) then Err(InvalidWidth)
    else if !IsAngle(heading) then Err(InvalidHeading)
    else
      var half := width / 2;
      var lower := NaiveLower(heading, half);
      var upper := NaiveUpper(heading, half);
      if InWindow(lower, upper) then
        Ok(Solution(width, heading, lower, upper, false, Some(heading)))
      else if width > MaxSweep then Err(WidthTooLarge)
      else
        var options := Candidates(half, heading);
        if |options| == 0 then Err(WidthUnfittable)
        else
          var best := options[Selection.FirstMinimum(options, Distance)].heading;
          var lower' := NaiveLower(best, half);
          var upper' := NaiveUpper(best, half);
          if !InWindow(lower', upper') then Err(InternalBounds)
          else Ok(Solution(width, best, lower', upper', best != heading, Some(heading)))
  }

  /** The requests the solver accepts. */
  predicate ValidRequest(width: int, heading: int) {
    (width == 0 || MinSweep <= width <= MaxSweep) && IsAngle(heading)
  }

  /** The solution of a request the solver accepts. */
  function Solved(width: int, heading: int): (s: Solution)
    requires ValidRequest(width, heading)
    ensures Solve(width, heading) == Ok(s)
    ensures s.width == width && IsAngle(s.heading) && IsAngle(s.lower) && IsAngle(s.upper)
  {
    SolveFailsOnlyOnBadInput(width, heading);
    Solve(width, heading).value
  }

  /** The headings whose sweep of `2 * half` fits the window. */
  predicate Fits(heading: int, half: int) {
    MinAngle + half <= heading <= MaxAngle - half
  }

  /** The naive sweep is accepted exactly when the heading sits at least half
      a width inside both window edges. */
  lemma NaiveFitsIffCentred(width: int, heading: int)
    requires MinSweep <= width <= MaxSweep && IsAngle(heading)
    ensures InWindow(NaiveLower(heading, width / 2), NaiveUpper(heading, width / 2))
        <==> Fits(heading, width / 2)
  {
    var half := width / 2;
    if heading - half < 0 {
      assert NaiveLower(heading, half) == heading - half + 360;
      assert NaiveUpper(heading, half) == heading + half;
    } else if heading + half >= 360 {
      assert NaiveLower(heading, half) == heading - half;
      assert NaiveUpper(heading, half) == heading + half - 360;
    } else {
      assert NaiveLower(heading, half) == heading - half;
      assert NaiveUpper(heading, half) == heading + half;
    }
  }

  /** Both edge-anchored candidates are always valid for a legal width. */
  lemma CandidatesBothValid(width: int, heading: int)
    requires MinSweep <= width <= MaxSweep && IsAngle(heading)
    ensures var half := width / 2;
      Candidates(half, heading) == [
        Candidate(MinAngle + half, CircularDistance(heading, MinAngle + half)),
        Candidate(MaxAngle - half, CircularDistance(heading, MaxAngle - half))]
  {
    var half := width / 2;
    assert LowAnchored(half) == MinAngle + half;
    assert HighAnchored(half) == MaxAngle - half;
    assert Wrap(MinAngle + half + half) == MinAngle + 2 * half;
    assert Wrap(MaxAngle - half - half) == MaxAngle - 2 * half;
  }

  /** The bounds invariant: every legal sweep request is solved, keeps its
      width, and lands inside the window with a span of `2 * (width / 2)`. */
  lemma SolveWithinWindow(width: int, heading: int)
    requires MinSweep <= width <= MaxSweep && IsAngle(heading)
    ensures Solve(width, heading).Ok?
    ensures var s := Solve(width, heading).value;
      s.width == width && InWindow(s.lower, s.upper) && s.upper - s.lower == 2 * (width / 2)
      && s.lower + width / 2 == s.heading
  {
    var half := width / 2;
    NaiveFitsIffCentred(width, heading);
    if !InWindow(NaiveLower(heading, half), NaiveUpper(heading, half)) {
      CandidatesBothValid(width, heading);
      var options := Candidates(half, heading);
      var best := options[Selection.FirstMinimum(options, Distance)].heading;
      UnwrappedSweep(best, half);
    } else {
      UnwrappedSweep(heading, half);
    }
  }

  /** A heading the sweep fits around needs no reduction modulo 360. */
  lemma UnwrappedSweep(heading: int, half: int)
    requires 22 <= half <= 175 && Fits(heading, half)
    ensures NaiveLower(heading, half) == heading - half
    ensures NaiveUpper(heading, half) == heading + half
  {
  }

  /** The "too large", "cannot fit" and "internal error" raises are dead code:
      the solver fails exactly on invalid input, and then with the error that
      names the offending argument. */
  lemma SolveFailsOnlyOnBadInput(width: int, heading: int)
    ensures Solve(width, heading).Ok? <==> ValidRequest(width, heading)
    ensures Solve(width, heading).Err? ==>
      Solve(width, heading).error ==
        (if width != 0 && !(MinSweep <= width <= MaxSweep) then InvalidWidth else InvalidHeading)
  {
    if width != 0 && MinSweep <= width <= MaxSweep && IsAngle(heading) {
      SolveWithinWindow(width, heading);
    }
  }

  /** No-adjustment identity: the naive sweep is returned untouched exactly
      when it already fits, and otherwise the heading moves. */
  lemma UnadjustedIffNaiveFits(width: int, heading: int)
    requires MinSweep <= width <= MaxSweep && IsAngle(heading)
    ensures var s := Solve(width, heading).value;
      var half := width / 2;
      (!s.adjusted <==> InWindow(NaiveLower(heading, half), NaiveUpper(heading, half)))
      && (!s.adjusted ==>
            s.heading == heading && s.lower == NaiveLower(heading, half)
            && s.upper == NaiveUpper(heading, half))
  {
    SolveWithinWindow(width, heading);
    NaiveFitsIffCentred(width, heading);
  }

  /** A heading the sweep already fits around is kept as it is. */
  lemma FittingHeadingIsKept(width: int, heading: int)
    requires MinSweep <= width <= MaxSweep && IsAngle(heading) && Fits(heading, width / 2)
    ensures Solved(width, heading).heading == heading && !Solved(width, heading).adjusted
  {
    UnadjustedIffNaiveFits(width, heading);
    NaiveFitsIffCentred(width, heading);
  }

  /** When the heading moves, it moves to candidate A (lower edge on 5°) or B
      (upper edge on 355°), whichever is circularly closer, A on a tie. */
  lemma AdjustedPicksCloserAnchor(width: int, heading: int)
    requires MinSweep <= width <= MaxSweep && IsAngle(heading)
    requires Solve(width, heading).value.adjusted
    ensures var s := Solve(width, heading).value;
      var a := MinAngle + width / 2;
      var b := MaxAngle - width / 2;
      s.heading == (if CircularDistance(heading, a) <= CircularDistance(heading, b) then a else b)
      && (s.heading == a ==> s.lower == MinAngle)
      && (s.heading == b ==> s.upper == MaxAngle)
  {
    var half := width / 2;
    SolveWithinWindow(width, heading);
    NaiveFitsIffCentred(width, heading);
    CandidatesBothValid(width, heading);
    var options := Candidates(half, heading);
    var i := Selection.FirstMinimum(options, Distance);
    assert Distance(options[i]) <= Distance(options[0]);
    assert Distance(options[i]) <= Distance(options[1]);
  }

  /** The adjusted heading is optimal: no heading whose sweep fits the
      window is circularly closer to the requested one. */
  lemma SolveChoosesClosestFit(width: int, heading: int, other: int)
    requires MinSweep <= width <= MaxSweep && IsAngle(heading)
    requires Fits(other, width / 2)
    ensures Fits(Solved(width, heading).heading, width / 2)
    ensures CircularDistance(heading, Solved(width, heading).heading)
         <= CircularDistance(heading, other)
  {
    var half := width / 2;
    var s := Solved(width, heading);
    SolveWithinWindow(width, heading);
    if s.adjusted {
      AdjustedPicksCloserAnchor(width, heading);
      NaiveFitsIffCentred(width, heading);
      UnadjustedIffNaiveFits(width, heading);
      AnchorsAreClosest(heading, half, other);
    }
  }

  /** From a heading outside the fitting range, the nearer end of that range
      is at least as close as any heading inside it. */
  lemma AnchorsAreClosest(heading: int, half: int, other: int)
    requires IsAngle(heading) && 22 <= half <= 175
    requires !Fits(heading, half) && Fits(other, half)
    ensures var da := CircularDistance(heading, MinAngle + half);
      var db := CircularDistance(heading, MaxAngle - half);
      (if da <= db then da else db) <= CircularDistance(heading, other)
  {
  }


  // ---------------------------------------------------------------------
  // Decoder
  // ---------------------------------------------------------------------

  /** The result of `get_oscillation_info`. */
  datatype SweepInfo = SweepInfo(
    width: int,
    heading: int,
    lower: int,
    upper: int,
    wrapAround: bool)

  /** Width of the sweep from `lower` clockwise to `upper`. */
  function Span(lower: int, upper: int): int {
    if lower <= upper then upper - lower else (360 - lower) + upper
  }

  /** Floor midpoint of that sweep. */
  function Midpoint(lower: int, upper: int): int {
    if lower <= upper then (lower + upper) / 2 else Wrap((lower + upper + 360) / 2)
  }

  /** Recovers width and heading from a reported pair. The sweep starts at
      `lower`, runs `width` degrees clockwise to `upper`, and its heading lies
      `width / 2` past `lower`; it wraps exactly when it crosses 0°. */
  function Decode(lower: int, upper: int): (info: SweepInfo)
    ensures info.lower == lower && info.upper == upper
    ensures info.wrapAround <==> lower > upper
    ensures Wrap(lower + info.width) == Wrap(upper)
    ensures !info.wrapAround ==> lower <= info.heading <= upper && info.heading == lower + info.width / 2
    ensures IsAngle(lower) && IsAngle(upper) ==>
      0 <= info.width < 360 && IsAngle(info.heading) && info.heading == Wrap(lower + info.width / 2)
  {
    WrapPeriodic(upper);
    SweepInfo(Span(lower, upper), Midpoint(lower, upper), lower, upper, lower > upper)
  }

  /** Decoding what the solver produced gives back its heading exactly and
      its width rounded down to even (an odd width loses one degree). */
  lemma DecodeInvertsSolve(width: int, heading: int)
    requires ValidRequest(width, heading)
    ensures var s := Solve(width, heading).value;
      Decode(s.lower, s.upper) == SweepInfo(2 * (width / 2), s.heading, s.lower, s.upper, false)
  {
    if width != 0 {
      SolveWithinWindow(width, heading);
    }
  }

  /** The other direction: an even-span pair inside the window that the solver
      accepts as a width is re-solved from its decoded form to the same pair,
      without adjustment. */
  lemma SolveInvertsDecode(lower: int, upper: int)
    requires InWindow(lower, upper) && (upper - lower) % 2 == 0 && upper - lower >= MinSweep
    ensures var d := Decode(lower, upper);
      Solve(d.width, d.heading) == Ok(Solution(d.width, d.heading, lower, upper, false, Some(d.heading)))
  {
    var d := Decode(lower, upper);
    NaiveFitsIffCentred(d.width, d.heading);
    assert d.width / 2 * 2 == d.width;
    assert NaiveLower(d.heading, d.width / 2) == lower;
    assert NaiveUpper(d.heading, d.width / 2) == upper;
  }
}

/** The worked examples in the program's docstrings and test suite for the
    solver and decoder, including the tie at (90, 0) that goes to the
    lower-edge anchor. */
module GeometryExamples {
  import opened Results
  import opened Geometry

  lemma SolverExamples()
    ensures Solve(90, 180) == Ok(Solution(90, 180, 135, 225, false, Some(180)))
    ensures Solve(45, 90) == Ok(Solution(45, 90, 68, 112, false, Some(90)))
    ensures Solve(350, 180) == Ok(Solution(350, 180, 5, 355, false, Some(180)))
    ensures Solve(180, 270) == Ok(Solution(180, 265, 175, 355, true, Some(270)))
    ensures Solve(350, 0) == Ok(Solution(350, 180, 5, 355, true, Some(0)))
    ensures Solve(45, 5) == Ok(Solution(45, 27, 5, 49, true, Some(5)))
    ensures Solve(45, 355) == Ok(Solution(45, 333, 311, 355, true, Some(355)))
    ensures Solve(90, 0) == Ok(Solution(90, 50, 5, 95, true, Some(0)))
    ensures Solve(0, 270) == Ok(Solution(0, 270, 270, 270, false, None))
    ensures Solve(44, 180) == Err(InvalidWidth) && Solve(351, 180) == Err(InvalidWidth)
    ensures Solve(90, -1) == Err(InvalidHeading) && Solve(90, 360) == Err(InvalidHeading)
  {
  }

  lemma DecoderExamples()
    ensures Decode(135, 225) == SweepInfo(90, 180, 135, 225, false)
    ensures Decode(68, 112) == SweepInfo(44, 90, 68, 112, false)
    ensures Decode(175, 355) == SweepInfo(180, 265, 175, 355, false)
    ensures Decode(5, 355) == SweepInfo(350, 180, 5, 355, false)
    ensures Decode(180, 180) == SweepInfo(0, 180, 180, 180, false)
    ensures Decode(350, 10) == SweepInfo(20, 0, 350, 10, true)
  {
  }
}
