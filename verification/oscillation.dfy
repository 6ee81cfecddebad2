/** The oscillation commands: writing a solved sweep to the device
    (`set_oscillation_angles`), reading one back (`get_oscillation_info`),
    and the two compositions that change one of width and heading while
    keeping the other as the device reports it (`set_oscillation_width`,
    `set_oscillation_direction`). The device link and the state snapshot are
    parameters. */
module Oscillation {
  import opened Results
  import opened Text
  import opened Args
  import opened Messages
  import opened Geometry
  import opened Widths

  /** What `send_standalone_command` did with a command: returned `True`,
      returned `False`, or raised. */
  datatype Delivery = Delivered | Refused | Raised

  /** The payload of a STATE-SET command. */
  type Command = map<string, string>

  /** Why a returned report says it failed. */
  datatype Failure =
    | InvalidInput          // width or heading is not an integer
    | InvalidHeadingInput   // the new heading is not an integer
    | HeadingOutOfRange     // the new heading is outside 0..359
    | InvalidWidthInput     // the width is neither a preset name nor an integer
    | SendRefused           // the stationary write was refused
    | SendRaised            // the write raised

  /** The common fields of the returned dictionaries: `success`,
      `actual_width`, `actual_heading`, `lower_angle`, `upper_angle`,
      `adjusted`, `original_heading` and the presence of `error`. */
  datatype Report = Report(
    success: bool,
    width: Option<int>,
    heading: Option<int>,
    lower: Option<int>,
    upper: Option<int>,
    adjusted: bool,
    original: Option<int>,
    failure: Option<Failure>)

  /** A report together with the command handed to the device, if any. */
  datatype Attempt = Attempt(command: Option<Command>, report: Report)

  const NoReport := Report(false, None, None, None, None, false, None, None)

  function Failed(f: Failure): Report {
    NoReport.(failure := Some(f))
  }

  /** Heading-only write for a width of 0: both edges on the heading,
      oscillation off. */
  function StationaryCommand(heading: nat): Command {
    map["osal" := Pad4(heading), "osau" := Pad4(heading), "oscs" := "OFF", "oson" := "OFF"]
  }

  /** Sweep write: oscillation on, custom angles. */
  function SweepCommand(lower: nat, upper: nat): Command {
    map["oscs" := "ON", "oson" := "ON", "osal" := Pad4(lower), "osau" := Pad4(upper), "ancp" := "CUST"]
  }

  /** `stop_oscillation`'s write. */
  const StopCommand: Command := map["oscs" := "OFF", "oson" := "OFF"]

  /** Heading-only write used when oscillation is off: both edges on the
      heading, `oson` on and `oscs` off. */
  function ParkCommand(heading: nat): Command {
    map["osal" := Pad4(heading), "osau" := Pad4(heading), "oson" := "ON", "oscs" := "OFF", "ancp" := "CUST"]
  }

  /** The report for a solved request once the write has had `delivery`. */
  function SolvedReport(s: Solution, delivery: Delivery): (r: Report)
    ensures r.success <==> delivery == Delivered
    ensures r.success ==>
      (r.width == Some(s.width) && r.heading == Some(s.heading)
       && r.lower == Some(s.lower) && r.upper == Some(s.upper))
  {
    if s.width == 0 then
      match delivery
      case Delivered => Report(true, Some(s.width), Some(s.heading), Some(s.lower), Some(s.upper), false, None, None)
      case Refused => Failed(SendRefused)
      case Raised => Failed(SendRaised)
    else
      match delivery
      case Raised =>
        Report(false, Some(s.width), Some(s.heading), None, None, false, s.requested, Some(SendRaised))
      case _ =>
        Report(delivery == Delivered, Some(s.width), Some(s.heading), Some(s.lower), Some(s.upper),
               s.adjusted, s.requested, None)
  }

  /** The command that writes a solution. */
  function SolutionCommand(s: Solution): Command
    requires IsAngle(s.heading) && IsAngle(s.lower) && IsAngle(s.upper)
  {
    if s.width == 0 then StationaryCommand(s.heading) else SweepCommand(s.lower, s.upper)
  }

  /** `set_oscillation_angles`: read both arguments as integers, solve, and
      write the result. A non-integer argument is reported; an invalid
      request raises (the `Err` case). */
  function SetAngles(width: Arg, heading: Arg, delivery: Delivery): (r: Result<Attempt, SolveError>)
    ensures (ParseIntArg(width).Err? || ParseIntArg(heading).Err?) ==>
      r == Ok(Attempt(None, Failed(InvalidInput)))
    ensures ParseIntArg(width).Ok? && ParseIntArg(heading).Ok? ==>
      var w := ParseIntArg(width).value;
      var h := ParseIntArg(heading).value;
      (r.Ok? <==> ValidRequest(w, h))
      && (r.Err? ==> r == Err(Solve(w, h).error))
      && (r.Ok? ==>
            r.value == Attempt(Some(SolutionCommand(Solved(w, h))), SolvedReport(Solved(w, h), delivery)))
  {
    match (ParseIntArg(width), ParseIntArg(heading))
    case (Ok(w), Ok(h)) =>
      SolveFailsOnlyOnBadInput(w, h);
      (match Solve(w, h)
       case Err(e) => Err(e)
       case Ok(s) =>
         Ok(Attempt(Some(SolutionCommand(s)), SolvedReport(s, delivery))))
    case _ => Ok(Attempt(None, Failed(InvalidInput)))
  }

  /** `get_oscillation_info`: read the two angle texts and decode them; a
      text that is not an integer raises (`None`). */
  function OscillationInfo(osal: string, osau: string): (r: Option<SweepInfo>)
    ensures r.Some? <==> ParseInteger(osal).Some? && ParseInteger(osau).Some?
    ensures r.Some? ==> r.value.lower == ParseInteger(osal).value && r.value.upper == ParseInteger(osau).value
    ensures r.Some? ==> r.value == Decode(ParseInteger(osal).value, ParseInteger(osau).value)
  {
    match (ParseInteger(osal), ParseInteger(osau))
    case (Some(l), Some(u)) => Some(Decode(l, u))
    case _ => None
  }

  /** What a sweep write puts under each key. */
  lemma SweepCommandKeys(lower: nat, upper: nat)
    ensures var c := SweepCommand(lower, upper);
      "osal" in c && "osau" in c && c["osal"] == Pad4(lower) && c["osau"] == Pad4(upper)
      && c["oscs"] == "ON" && c["oson"] == "ON"
  {
  }

  /** What a stationary write puts under each key. */
  lemma StationaryCommandKeys(heading: nat)
    ensures var c := StationaryCommand(heading);
      "osal" in c && "osau" in c && c["osal"] == Pad4(heading) && c["osau"] == Pad4(heading)
      && c["oscs"] == "OFF" && c["oson"] == "OFF"
  {
  }

  /** Decoding the texts of two written angles gives the decoder's reading
      of the angles themselves. */
  lemma WrittenAnglesDecode(lower: nat, upper: nat)
    ensures OscillationInfo(Pad4(lower), Pad4(upper)) == Some(Decode(lower, upper))
  {
    Pad4RoundTrip(lower);
    Pad4RoundTrip(upper);
  }

  /** End to end: the angles a sweep command writes read back, through
      `get_oscillation_info`, as the solver's heading and the even-rounded
      width, without wrap-around. */
  lemma SweepCommandReadsBack(width: int, heading: int)
    requires MinSweep <= width <= MaxSweep && IsAngle(heading)
    ensures SetAngles(IntArg(width), IntArg(heading), Delivered).Ok?
    ensures var a := SetAngles(IntArg(width), IntArg(heading), Delivered).value;
      a.command.Some? && a.report.success
      && a.report.lower.Some? && a.report.upper.Some? && a.report.heading.Some?
    ensures var a := SetAngles(IntArg(width), IntArg(heading), Delivered).value;
      var c := a.command.value;
      "osal" in c && "osau" in c && c["oscs"] == "ON" && c["oson"] == "ON"
      && OscillationInfo(c["osal"], c["osau"])
         == Some(SweepInfo(2 * (width / 2), a.report.heading.value, a.report.lower.value, a.report.upper.value, false))
  {
    DecodeInvertsSolve(width, heading);
    var s := Solved(width, heading);
    SweepCommandKeys(s.lower, s.upper);
    WrittenAnglesDecode(s.lower, s.upper);
  }

  /** A width of 0 writes the heading to both edges with oscillation off,
      and the edges read back as the heading. */
  lemma StationaryCommandReadsBack(heading: int)
    requires IsAngle(heading)
    ensures SetAngles(IntArg(0), IntArg(heading), Delivered)
      == Ok(Attempt(Some(StationaryCommand(heading)),
                    Report(true, Some(0), Some(heading), Some(heading), Some(heading), false, None, None)))
    ensures var c := StationaryCommand(heading);
      "osal" in c && "osau" in c
      && OscillationInfo(c["osal"], c["osau"]) == Some(SweepInfo(0, heading, heading, heading, false))
  {
    StationaryCommandKeys(heading);
    WrittenAnglesDecode(heading, heading);
  }

  // ---------------------------------------------------------------------
  // Width change
  // ---------------------------------------------------------------------

  /** Reading a position from one object: found, absent, or `int` raised. */
  datatype Position = Found(heading: int) | Absent | Unreadable

  /** The position an object reports: the midpoint of its sweep when both
      angles are present, otherwise its `apos`. */
  function PositionIn(d: Doc): (p: Position)
    ensures HasAngles(d) ==>
      (p.Found? <==> JsonToInt(d["osal"]).Some? && JsonToInt(d["osau"]).Some?)
    ensures HasAngles(d) && p.Found? ==>
      p.heading == Midpoint(JsonToInt(d["osal"]).value, JsonToInt(d["osau"]).value)
    ensures !HasAngles(d) && "apos" !in d ==> p == Absent
    ensures !HasAngles(d) && "apos" in d ==>
      (p.Found? <==> JsonToInt(d["apos"]).Some?)
    ensures !HasAngles(d) && "apos" in d && p.Found? ==> Some(p.heading) == JsonToInt(d["apos"])
  {
    if HasAngles(d) then
      match (JsonToInt(d["osal"]), JsonToInt(d["osau"]))
      case (Some(l), Some(u)) => Found(Midpoint(l, u))
      case _ => Unreadable
    else if "apos" in d then
      match JsonToInt(d["apos"])
      case Some(a) => Found(a)
      case None => Unreadable
    else Absent
  }

  /** What the `product-state` entry of a snapshot says about the position.
      A missing or falsy entry says nothing. An object is read by
      `PositionIn`. Any other truthy value cannot be indexed by key: text
      and lists answer the `in` tests (substring and element membership)
      and then raise when indexed, and numbers raise at the `in` test
      itself. A float is taken to be non-zero. */
  function ProductStatePosition(state: Doc): (p: Position)
    ensures NestedObject(state, "product-state").Some? ==>
      p == PositionIn(NestedObject(state, "product-state").value)
    ensures "product-state" !in state ==> p == Absent
    ensures NestedObject(state, "product-state").None? ==> !p.Found?
  {
    if "product-state" !in state then Absent
    else
      match state["product-state"]
      case JObj(fields) => if |fields| == 0 then Absent else PositionIn(fields)
      case JStr(s) =>
        if (Contains(s, "osal") && Contains(s, "osau")) || Contains(s, "apos") then Unreadable
        else Absent
      case JList(items) =>
        if (JStr("osal") in items && JStr("osau") in items) || JStr("apos") in items then Unreadable
        else Absent
      case JInt(i) => if i == 0 then Absent else Unreadable
      case JBool(b) => if b then Unreadable else Absent
      case JFloat => Unreadable
      case JNull => Absent
  }

  /** The current position `set_oscillation_width` reads from the state
      snapshot: the `product-state` entry first, the top-level fields only
      when that reports nothing; a failed read gives up. */
  function EstimateHeading(state: Option<Doc>): (h: Option<int>)
    ensures (state.None? || |state.value| == 0) ==> h.None?
    ensures state.Some? && NestedObject(state.value, "product-state").Some? ==>
      var p := PositionIn(NestedObject(state.value, "product-state").value);
      (p.Found? ==> h == Some(p.heading)) && (p.Unreadable? ==> h.None?)
    ensures state.Some? && |state.value| > 0 && ProductStatePosition(state.value).Absent? ==>
      h == (if PositionIn(state.value).Found? then Some(PositionIn(state.value).heading) else None)
    ensures state.Some? && ProductStatePosition(state.value).Unreadable? ==> h.None?
  {
    if state.None? || |state.value| == 0 then None
    else
      match ProductStatePosition(state.value)
      case Found(h) => Some(h)
      case Unreadable => None
      case Absent =>
        (match PositionIn(state.value)
         case Found(h) => Some(h)
         case _ => None)
  }

  /** A `product-state` text that names the angle keys passes the `in`
      tests and then cannot be indexed: the estimate gives up, whatever the
      top-level fields say. */
  lemma KeyedTextGivesUp(d: Doc, s: string)
    requires "product-state" in d && d["product-state"] == JStr(s)
    requires (Contains(s, "osal") && Contains(s, "osau")) || Contains(s, "apos")
    ensures ProductStatePosition(d) == Unreadable
    ensures EstimateHeading(Some(d)) == None
  {
  }

  /** A `product-state` text that names no angle key says nothing, and the
      estimate reads the top-level fields instead. */
  lemma UnkeyedTextFallsThrough(d: Doc, s: string)
    requires "product-state" in d && d["product-state"] == JStr(s)
    requires !Contains(s, "osal") && !Contains(s, "apos")
    ensures ProductStatePosition(d) == Absent
    ensures PositionIn(d).Found? ==> EstimateHeading(Some(d)) == Some(PositionIn(d).heading)
  {
  }

  /** The dictionary `set_oscillation_width` returns: the solver's report
      plus `width_adjusted`, `requested_width` and `adjusted_width`. */
  datatype WidthReport = WidthReport(
    base: Report,
    widthAdjusted: bool,
    requestedWidth: Arg,
    adjustedWidth: Option<string>)

  datatype WidthAttempt = WidthAttempt(command: Option<Command>, report: WidthReport)

  /** `stop_oscillation` followed by `stop_oscillation_dict`. */
  function StopReport(delivery: Delivery): (r: Report)
    ensures r.success <==> delivery == Delivered
    ensures r.width == Some(0) && r.heading.None? && r.lower.None? && r.upper.None?
  {
    Report(delivery == Delivered, Some(0), None, None, None, false, None, None)
  }

  /** `set_oscillation_width`: parse the width, round it up onto a legal
      step, stop oscillating for 0, otherwise re-centre a sweep of that step
      on the position read from `state` (or `fallbackHeading`). */
  function SetWidth(input: Arg, fallbackHeading: int, state: Option<Doc>, delivery: Delivery)
    : (r: Result<WidthAttempt, SolveError>)
    ensures ParseWidthInput(input).Err? ==>
      r == Ok(WidthAttempt(None, WidthReport(Failed(InvalidWidthInput), false, input, None)))
    ensures ParseWidthInput(input).Ok? && SnapUp(ParseWidthInput(input).value) == 0 ==>
      r == Ok(WidthAttempt(Some(StopCommand),
        WidthReport(StopReport(delivery), ParseWidthInput(input).value != 0, input, Some("off"))))
    ensures ParseWidthInput(input).Ok? && SnapUp(ParseWidthInput(input).value) != 0 ==>
      var w := SnapUp(ParseWidthInput(input).value);
      var h := EstimateHeading(state).GetOr(fallbackHeading);
      (r.Ok? <==> IsAngle(h))
      && (r.Ok? ==>
            r.value.command == Some(SolutionCommand(Solved(w, h)))
            && r.value.report.base == SolvedReport(Solved(w, h), delivery)
            && r.value.report.widthAdjusted == (w != ParseWidthInput(input).value)
            && r.value.report.adjustedWidth == DisplayName(w))
  {
    match ParseWidthInput(input)
    case Err(_) => Ok(WidthAttempt(None, WidthReport(Failed(InvalidWidthInput), false, input, None)))
    case Ok(requested) =>
      var w := SnapUp(requested);
      if w == 0 then
        Ok(WidthAttempt(Some(StopCommand), WidthReport(StopReport(delivery), requested != w, input, Some("off"))))
      else
        var h := EstimateHeading(state).GetOr(fallbackHeading);
        match SetAngles(IntArg(w), IntArg(h), delivery)
        case Err(e) => Err(e)
        case Ok(a) => Ok(WidthAttempt(a.command, WidthReport(a.report, requested != w, input, DisplayName(w))))
  }

  /** The fields a device echoes after a sweep write. */
  lemma SweepEchoKeys(lower: nat, upper: nat)
    ensures var ps := Echo(SweepCommand(lower, upper));
      |ps| > 0 && HasAngles(ps) && IsOn(ps, "oscs") && IsOn(ps, "oson")
      && ps["osal"] == JStr(Pad4(lower)) && ps["osau"] == JStr(Pad4(upper))
  {
    SweepCommandKeys(lower, upper);
  }

  /** A snapshot whose `product-state` reports a running sweep with readable
      angles is read back as that sweep: centred on its midpoint, on, and as
      wide as its span. */
  lemma RunningSweepIsObserved(ps: Doc, lower: int, upper: int)
    requires |ps| > 0 && HasAngles(ps) && IsOn(ps, "oscs") && IsOn(ps, "oson")
    requires JsonToInt(ps["osal"]) == Some(lower) && JsonToInt(ps["osau"]) == Some(upper)
    ensures EstimateHeading(Some(Snapshot(ps))) == Some(Midpoint(lower, upper))
    ensures ObserveOscillation(Some(Snapshot(ps))) == Observation(true, Some(Span(lower, upper)))
  {
    assert NestedObject(Snapshot(ps), "product-state") == Some(ps);
  }

  /** What the device reports after a sweep request was written: its
      `product-state` echoes the command. */
  function StateAfter(width: int, heading: int): Doc
    requires MinSweep <= width <= MaxSweep && IsAngle(heading)
  {
    Snapshot(Echo(SolutionCommand(Solved(width, heading))))
  }

  /** Reading back what a sweep write left on the device: the position is
      the heading it was solved to, oscillation is on, and the width is the
      requested one rounded down to even. */
  lemma SweepIsReadBack(width: int, heading: int)
    requires MinSweep <= width <= MaxSweep && IsAngle(heading)
    ensures EstimateHeading(Some(StateAfter(width, heading))) == Some(Solved(width, heading).heading)
    ensures ObserveOscillation(Some(StateAfter(width, heading))) == Observation(true, Some(2 * (width / 2)))
  {
    DecodeInvertsSolve(width, heading);
    var s := Solved(width, heading);
    SweepEchoKeys(s.lower, s.upper);
    PaddedFieldReads(s.lower);
    PaddedFieldReads(s.upper);
    RunningSweepIsObserved(Echo(SweepCommand(s.lower, s.upper)), s.lower, s.upper);
  }

  /** A width change keeps the sweep centred where the device last was:
      after a sweep solved to heading `c`, any new step is solved around `c`,
      and one that fits around `c` is written centred on `c`, unadjusted. */
  lemma WidthChangeKeepsCentre(width: int, heading: int, state: Option<Doc>,
                               input: Arg, fallbackHeading: int, delivery: Delivery)
    requires MinSweep <= width <= MaxSweep && IsAngle(heading)
    requires state == Some(StateAfter(width, heading))
    requires ParseWidthInput(input).Ok? && SnapUp(ParseWidthInput(input).value) != 0
    ensures var c := Solved(width, heading).heading;
      var w := SnapUp(ParseWidthInput(input).value);
      var r := SetWidth(input, fallbackHeading, state, delivery);
      r.Ok? && r.value.report.base == SolvedReport(Solved(w, c), delivery)
      && (Fits(c, w / 2) ==> Solved(w, c).heading == c && !Solved(w, c).adjusted)
  {
    SweepIsReadBack(width, heading);
    var c := Solved(width, heading).heading;
    var w := SnapUp(ParseWidthInput(input).value);
    if Fits(c, w / 2) {
      FittingHeadingIsKept(w, c);
    }
  }

  // ---------------------------------------------------------------------
  // Heading change
  // ---------------------------------------------------------------------

  /** The width assumed when oscillation is on but its width is unknown. */
  const DefaultWidth := 90

  /** What `set_oscillation_direction` learns from the state snapshot:
      whether oscillation is on, and the width of the current sweep if it
      could be read. */
  datatype Observation = Observation(on: bool, width: Option<int>)

  /** The sweep width an object reports: absent without both angles, `Err`
      when `int` raises. */
  function SweepWidthIn(d: Doc): (r: Result<Option<int>, ()>)
    ensures !HasAngles(d) ==> r == Ok(None)
    ensures HasAngles(d) ==>
      (r.Ok? <==> JsonToInt(d["osal"]).Some? && JsonToInt(d["osau"]).Some?)
    ensures HasAngles(d) && r.Ok? ==>
      r == Ok(Some(Span(JsonToInt(d["osal"]).value, JsonToInt(d["osau"]).value)))
  {
    if !HasAngles(d) then Ok(None)
    else
      match (JsonToInt(d["osal"]), JsonToInt(d["osau"]))
      case (Some(l), Some(u)) => Ok(Some(Span(l, u)))
      case _ => Err(())
  }

  /** Oscillation counts as on only when the `product-state` object says so
      in both `oscs` and `oson`; the top-level fields are consulted for the
      width only after that, and only when they say so too. */
  function ObserveOscillation(state: Option<Doc>): (o: Observation)
    ensures o.on <==>
      (state.Some? && |state.value| > 0
       && NestedObject(state.value, "product-state").Some?
       && IsOn(NestedObject(state.value, "product-state").value, "oscs")
       && IsOn(NestedObject(state.value, "product-state").value, "oson"))
    ensures !o.on ==> o.width.None?
  {
    if state.None? || |state.value| == 0 then Observation(false, None)
    else
      match NestedObject(state.value, "product-state")
      case None => Observation(false, None)
      case Some(ps) =>
        if !(IsOn(ps, "oscs") && IsOn(ps, "oson")) then Observation(false, None)
        else
          match SweepWidthIn(ps)
          case Err(_) => Observation(true, None)
          case Ok(Some(w)) => Observation(true, Some(w))
          case Ok(None) =>
            var top := state.value;
            if IsOn(top, "oscs") && IsOn(top, "oson") then
              match SweepWidthIn(top)
              case Ok(Some(w)) => Observation(true, Some(w))
              case _ => Observation(true, None)
            else Observation(true, None)
  }

  /** The dictionary `set_oscillation_direction` returns: the solver's report
      plus `width_preserved`, `current_width`, `requested_heading` (present
      only when a sweep was re-solved) and `oscillation_was_off`. */
  datatype DirectionReport = DirectionReport(
    base: Report,
    widthPreserved: bool,
    currentWidth: Option<int>,
    requestedHeading: Option<int>,
    oscillationWasOff: bool)

  datatype DirectionAttempt = DirectionAttempt(command: Option<Command>, report: DirectionReport)

  /** The width a heading change keeps: the observed width, or 90 when
      unknown, rounded to the nearest legal step. */
  function KeptWidth(o: Observation): (w: int)
    ensures IsStep(w)
    ensures o.width.Some? && IsStep(o.width.value) ==> w == o.width.value
    ensures o.width.None? ==> w == DefaultWidth
    ensures w == 0 || MinSweep <= w <= MaxSweep
  {
    SnapNearest(o.width.GetOr(DefaultWidth))
  }

  /** The report of a heading write made while oscillation is off. */
  function ParkReport(heading: int, delivery: Delivery): (r: DirectionReport)
    ensures r.oscillationWasOff && !r.widthPreserved && r.requestedHeading.None?
    ensures r.base.success <==> delivery == Delivered
    ensures r.base.success ==>
      (r.base.width == Some(0) && r.base.heading == Some(heading)
       && r.base.lower == Some(heading) && r.base.upper == Some(heading))
  {
    match delivery
    case Delivered =>
      DirectionReport(Report(true, Some(0), Some(heading), Some(heading), Some(heading), false, None, None),
                      false, Some(0), None, true)
    case Refused => DirectionReport(Failed(SendRefused), false, None, None, true)
    case Raised => DirectionReport(Failed(SendRaised), false, None, None, true)
  }

  /** `set_oscillation_direction`: validate the heading (failures are
      reported, never raised), then either park the heading with oscillation
      off or re-solve the kept width around the new heading. The re-solve
      never raises, because the kept width is always a legal step. */
  function SetDirection(heading: Arg, state: Option<Doc>, delivery: Delivery): (r: DirectionAttempt)
    ensures ParseIntArg(heading).Err? ==>
      r == DirectionAttempt(None, DirectionReport(Failed(InvalidHeadingInput), false, None, None, false))
    ensures ParseIntArg(heading).Ok? && !IsAngle(ParseIntArg(heading).value) ==>
      r == DirectionAttempt(None, DirectionReport(Failed(HeadingOutOfRange), false, None, None, false))
    ensures ParseIntArg(heading).Ok? && IsAngle(ParseIntArg(heading).value) ==>
      var h := ParseIntArg(heading).value;
      var o := ObserveOscillation(state);
      (!o.on ==> r == DirectionAttempt(Some(ParkCommand(h)), ParkReport(h, delivery)))
      && (o.on ==>
            r.command == Some(SolutionCommand(Solved(KeptWidth(o), h)))
            && r.report == DirectionReport(SolvedReport(Solved(KeptWidth(o), h), delivery),
                                           o.width.Some?, Some(KeptWidth(o)), Some(h), false))
  {
    match ParseIntArg(heading)
    case Err(_) => DirectionAttempt(None, DirectionReport(Failed(InvalidHeadingInput), false, None, None, false))
    case Ok(h) =>
      if !IsAngle(h) then
        DirectionAttempt(None, DirectionReport(Failed(HeadingOutOfRange), false, None, None, false))
      else
        var o := ObserveOscillation(state);
        if !o.on then
          DirectionAttempt(Some(ParkCommand(h)), ParkReport(h, delivery))
        else
          var w := KeptWidth(o);
          var a := SetAngles(IntArg(w), IntArg(h), delivery).value;
          DirectionAttempt(a.command, DirectionReport(a.report, o.width.Some?, Some(w), Some(h), false))
  }

  /** Rounding a step down to even and back to the nearest step gives the
      step again (the 45° step reads back as 44°). */
  lemma EvenRoundedStepSnapsBack(width: int)
    requires IsStep(width) && width != 0
    ensures SnapNearest(2 * (width / 2)) == width
  {
    if width == 45 {
      NearestIs(44, 45);
    }
  }

  /** A heading change keeps the legal step the device is sweeping: after a
      sweep of step `width` was written, turning to any valid heading
      re-solves that same step around the new heading. */
  lemma DirectionChangeKeepsWidth(width: int, heading: int, state: Option<Doc>, newHeading: int, delivery: Delivery)
    requires IsStep(width) && width != 0 && IsAngle(heading) && IsAngle(newHeading)
    requires state == Some(StateAfter(width, heading))
    ensures var r := SetDirection(IntArg(newHeading), state, delivery);
      r.command == Some(SolutionCommand(Solved(width, newHeading)))
      && r.report.base == SolvedReport(Solved(width, newHeading), delivery)
      && r.report.widthPreserved && r.report.currentWidth == Some(width)
      && !r.report.oscillationWasOff
  {
    KeptWidthAfterSweep(width, heading, state);
  }

  /** After a sweep of a legal step was written, oscillation is observed on
      with a width that snaps back to that step. */
  lemma KeptWidthAfterSweep(width: int, heading: int, state: Option<Doc>)
    requires IsStep(width) && width != 0 && IsAngle(heading)
    requires state == Some(StateAfter(width, heading))
    ensures ObserveOscillation(state).on && ObserveOscillation(state).width.Some?
    ensures KeptWidth(ObserveOscillation(state)) == width
  {
    SweepIsReadBack(width, heading);
    var o := ObserveOscillation(state);
    assert o.on && o.width == Some(2 * (width / 2));
    EvenRoundedStepSnapsBack(width);
    assert o.width.GetOr(DefaultWidth) == 2 * (width / 2);
  }

  /** With oscillation off (or no state at all), a heading change parks the
      fan at that heading without starting a sweep, and the parked edges read
      back as the heading. */
  lemma DirectionWhileOffParks(newHeading: int, state: Option<Doc>, delivery: Delivery)
    requires IsAngle(newHeading) && !ObserveOscillation(state).on
    ensures var r := SetDirection(IntArg(newHeading), state, delivery);
      r.command.Some? && r.report.oscillationWasOff
      && (delivery == Delivered <==> r.report.base.success)
    ensures var c := SetDirection(IntArg(newHeading), state, delivery).command.value;
      "osal" in c && "osau" in c && c["oson"] == "ON" && c["oscs"] == "OFF"
      && OscillationInfo(c["osal"], c["osau"]) == Some(SweepInfo(0, newHeading, newHeading, newHeading, false))
  {
    ParkCommandKeys(newHeading);
    WrittenAnglesDecode(newHeading, newHeading);
  }

  /** What a parking write puts under each key. */
  lemma ParkCommandKeys(heading: nat)
    ensures var c := ParkCommand(heading);
      "osal" in c && "osau" in c && c["osal"] == Pad4(heading) && c["osau"] == Pad4(heading)
      && c["oson"] == "ON" && c["oscs"] == "OFF"
  {
  }
}

/** How the heading estimate treats a `product-state` that is not an object. */
module OscillationExamples {
  import opened Results
  import opened Text
  import opened Args
  import opened Messages
  import opened Geometry
  import opened Oscillation

  /** A snapshot whose `product-state` is text naming both angle keys, with
      a readable sweep at the top level. */
  function TextProductState(): Doc {
    map["product-state" := JStr("osal osau"), "osal" := JInt(10), "osau" := JInt(100)]
  }

  /** A top-level sweep from 10 to 100 is centred on 55. */
  lemma TopLevelSweep(d: Doc)
    requires "osal" in d && "osau" in d
    requires d["osal"] == JInt(10) && d["osau"] == JInt(100)
    ensures PositionIn(d) == Found(55)
  {
    assert Midpoint(10, 100) == 55;
  }

  /** Which key names the two texts contain. */
  lemma TextsNameKeys()
    ensures Contains("osal osau", "osal") && Contains("osal osau", "osau")
    ensures !Contains("off", "osal") && !Contains("off", "apos")
  {
    ContainsAt("osal osau", "osal", 0);
    assert "osal osau"[5..9] == "osau";
    ContainsAt("osal osau", "osau", 5);
  }

  /** The text passes both substring tests, indexing it then raises, and the
      estimate gives up instead of reading the top-level sweep (which
      `TopLevelSweep` centres on 55); a width change then centres on the
      fallback heading. */
  lemma TextProductStateGivesUp()
    ensures EstimateHeading(Some(TextProductState())) == None
    ensures EstimateHeading(Some(TextProductState())).GetOr(180) == 180
  {
    TextsNameKeys();
    KeyedTextGivesUp(TextProductState(), "osal osau");
  }

  /** A `product-state` of text naming no angle key says nothing, and the
      top-level sweep is read. */
  lemma UnrelatedTextFallsThrough()
    ensures var d := TextProductState()["product-state" := JStr("off")];
      EstimateHeading(Some(d)) == Some(55)
  {
    var d := TextProductState()["product-state" := JStr("off")];
    TopLevelSweep(d);
    TextsNameKeys();
    UnkeyedTextFallsThrough(d, "off");
  }
}
