# blowcontrol command core, modelled in Dafny

This project models the parts of the blowcontrol / dyson2mqtt fan controller
that turn user input into device writes, and the part that turns device
reports back into what the user sees:

- **Oscillation** (`blowcontrol/commands/oscillation.py`). The sweep solver
  places a (width, heading) request inside the device's 5°–355° window,
  moving the heading to the closer edge-anchored position when the naive
  sweep would not fit. The decoder recovers width and heading from a
  reported `osal`/`osau` pair. Width input may be a number or one of the
  names off/narrow/medium/wide/full and is rounded up onto a legal step.
  `set_oscillation_width` re-centres a sweep on the position read from a
  state snapshot. `set_oscillation_direction` keeps the observed width,
  rounded to the nearest step, or parks the fan when oscillation is off.
- **Sleep timer** (`dyson2mqtt/commands/sleep_timer.py`). The parser reads
  raw minutes, `H:MM`, `2h15m`-style text and `off`, within 0..540. The
  write is `sltm` as four digits, or `OFF`.
- **Boolean input** (`dyson2mqtt/utils/__init__.py`). `parse_boolean` reads
  booleans, the two six-word vocabularies (any case, any surrounding
  whitespace) and the integers 1 and 0.
- **Fan speed** (`blowcontrol/commands/fan_speed.py`). The speed is read
  from text or an integer and checked against 0..10. Speed 0 goes to the
  power-off command. Any other speed is written as a four-digit `fnsp`.
- **Device state** (`dyson2mqtt/state/device_state.py`).
  `format_value` shows each reported field with its unit, the sleep timer
  as hours and minutes, and the signal with its strength class. The state
  listener keeps the last full state and applies STATE-CHANGE messages to
  it: an `[old, new]` pair stores its new half, and keys the change does
  not name are left alone.

Everything is pure. The device link is a parameter saying how far a command
got: delivered, refused or raised for the oscillation commands, and which
step of the broker session failed for the others. The state snapshot that
the program fetches asynchronously is a parameter too. Python's `int(str)`
is modelled as `Text.ParseInteger`: surrounding whitespace, an optional
sign, then ASCII digits. The 4-digit zero padding `f"{n:04d}"` is
`Text.Pad4`. Python's `//` and `%` with a positive divisor agree with
Dafny's, and the model uses them directly.

Modules follow the program: `Text`, `Args` and `Messages` hold the shared
reading of text, arguments and decoded JSON. `Geometry` and `Widths` hold
the solver and the width steps. `Oscillation`, `SleepTimer`, `Booleans`,
`FanSpeed` and `DeviceState` hold one command family each.
`DisplayOfWrites` connects the writes to what the printer shows for them.
The `…Examples` modules pin the worked examples of the docstrings and the
test suite.

## Model

| member | source | states |
|---|---|---|
| Geometry.Wrap | blowcontrol/commands/oscillation.py:120-122 | the `% 360` of the solver: the result is an angle in 0..359; an angle is kept and the turns either side are shifted by one turn |
| Geometry.WrapIsRemainder | blowcontrol/commands/oscillation.py:121-122 | the wrap agrees with the remainder of division by 360 for every integer, negative ones included |
| Geometry.CircularDistance | blowcontrol/commands/oscillation.py:158-161 | between two angles it lies in 0..180 and is 0 exactly when they are equal |
| Geometry.Solve | blowcontrol/commands/oscillation.py:113-217 | an accepted request keeps its width, yields angles in 0..359, keeps a non-zero sweep inside 5..355, and is marked adjusted exactly when the heading moved |
| Geometry.Solved | blowcontrol/commands/oscillation.py:113-200 | every valid request is accepted, with the width kept and all angles in range |
| Geometry.SolveFailsOnlyOnBadInput | blowcontrol/commands/oscillation.py:60-117 | the solver rejects exactly the widths outside {0} ∪ 45..350 and the headings outside 0..359, with the width error taking precedence |
| Geometry.SolveWithinWindow | blowcontrol/commands/oscillation.py:119-200 | every width 45..350 at every heading fits: the sweep lies inside 5..355, spans twice the half width, and the heading is half a width past the lower edge |
| Geometry.NaiveFitsIffCentred | blowcontrol/commands/oscillation.py:119-136 | the naive sweep is accepted exactly when the heading is at least half a width inside both window edges |
| Geometry.UnadjustedIffNaiveFits | blowcontrol/commands/oscillation.py:119-190 | a request is left unadjusted exactly when its naive sweep fits, and then the naive sweep is what is written |
| Geometry.FittingHeadingIsKept | blowcontrol/commands/oscillation.py:119-138 | a heading that already fits is never moved |
| Geometry.CandidatesBothValid | blowcontrol/commands/oscillation.py:149-175 | for every legal width both edge-anchored candidates survive their validity checks, the low anchor first |
| Geometry.AdjustedPicksCloserAnchor | blowcontrol/commands/oscillation.py:149-190 | an adjusted heading is the closer of the two anchors, the low one on a tie, and its sweep touches that edge |
| Geometry.SolveChoosesClosestFit | blowcontrol/commands/oscillation.py:128-190 | the chosen heading fits, and no fitting heading is closer to the requested one round the circle |
| Geometry.AnchorsAreClosest | blowcontrol/commands/oscillation.py:149-185 | when the heading does not fit, the nearer anchor is at least as close as any fitting heading |
| Geometry.Decode | blowcontrol/commands/oscillation.py:296-315 | the decoded width carries the lower angle onto the upper one round the circle; it wraps exactly when lower > upper; an unwrapped heading lies between the edges, half a width past the lower one |
| Geometry.DecodeInvertsSolve | blowcontrol/commands/oscillation.py:120-315 | decoding a solved sweep gives back the even-rounded width and the solved heading, never wrapping |
| Geometry.SolveInvertsDecode | blowcontrol/commands/oscillation.py:120-315 | re-solving a decoded in-window sweep of even width at least 45 writes the same two angles, unadjusted |
| GeometryExamples.SolverExamples | blowcontrol/commands/oscillation.py:26-262 | the docstring and test cases: 90 at 180 gives 135..225, 180 at 270 moves to 265, 90 at 0 goes to the lower anchor 50, 44 and 351 are rejected |
| GeometryExamples.DecoderExamples | blowcontrol/commands/oscillation.py:285-315 | reported pairs decode as the tests expect, including the wrap-around pair 350..10 |
| Widths.StepsListed | blowcontrol/commands/oscillation.py:319 | the step list holds exactly 0, 45, 90, 180, 350 in that order |
| Widths.DisplayName | blowcontrol/commands/oscillation.py:322-325 | a width has a name exactly when it is a step, and the name maps back to that width |
| Widths.NamesAndStepsAgree | blowcontrol/commands/oscillation.py:319-325 | names and steps are in one-to-one correspondence |
| Widths.ParseWidthInput | blowcontrol/commands/oscillation.py:328-357 | text is a name after lower-casing or else an integer literal, and is rejected only when it is neither; the integer literal's value is the width; integers and booleans stand for themselves; other types are rejected |
| Widths.ParseWidthReachesEveryStep | blowcontrol/commands/oscillation.py:328-357 | every step is reached from its name, its upper-cased name and its decimal text |
| Widths.NameParses | blowcontrol/commands/oscillation.py:341-344 | any spelling whose lower-case form is a name reads as that name's width |
| Widths.DecimalWidthParses | blowcontrol/commands/oscillation.py:345-348 | a digit string is never a name and reads as its value |
| Widths.SnapUp | blowcontrol/commands/oscillation.py:400-418 | the result is a step; a step is kept; up to 350 it is the smallest step at or above the width; above 350 it is 350 |
| Widths.SnapNearest | blowcontrol/commands/oscillation.py:741-748 | the result is a step; a step is kept; no step is nearer; among equally near steps it is the smaller |
| Widths.NearestIndexIsNearest | blowcontrol/commands/oscillation.py:744 | the first minimum of `min(VALID_WIDTHS, key=...)` is a nearest step and the smallest of the nearest |
| Widths.SnapUpJustBelow | blowcontrol/commands/oscillation.py:400-418 | 44 is rounded up to 45, "narrow" |
| Widths.SnapNearestTie | blowcontrol/commands/oscillation.py:741-748 | 135 is equally far from 90 and 180 and goes to 90 |
| Args.ParseIntArg | blowcontrol/commands/fan_speed.py:14-24 | text converts exactly when `int` accepts it and then to `int`'s value, integers and booleans stand for themselves, and any other type is rejected |
| Args.ParseIntArgAgrees | blowcontrol/commands/fan_speed.py:14-24 | an integer and its decimal text convert to the same value |
| Args.ParseIntArgPadded | blowcontrol/commands/oscillation.py:13-23 | a 4-digit padded number, with whitespace around it, converts back to the number |
| Messages.JsonToInt | blowcontrol/commands/oscillation.py:450-451 | `int` on a decoded value: text is read as a literal, an integer or boolean is its value, and null, lists and objects raise |
| Messages.PaddedFieldReads | blowcontrol/commands/oscillation.py:618-619 | a field written with 4-digit padding reads back as the number written |
| Oscillation.SetAngles | blowcontrol/commands/oscillation.py:26-262 | unconvertible input gives the invalid-input report with no write; a convertible request is accepted exactly when valid, writes the solver's command, and reports success exactly when the write was delivered |
| Oscillation.SolvedReport | blowcontrol/commands/oscillation.py:232-262 | success exactly when delivered, and then the report carries the solved width, heading and angles |
| Oscillation.OscillationInfo | blowcontrol/commands/oscillation.py:285-315 | the info exists exactly when both texts are integers, and is then the decoding of those two angles: their width, heading and wrap flag |
| Oscillation.WrittenAnglesDecode | blowcontrol/commands/oscillation.py:219-221 | decoding the two 4-digit angle texts gives the decode of the angles themselves |
| Oscillation.SweepCommandReadsBack | blowcontrol/commands/oscillation.py:219-262 | a delivered sweep write turns oscillation on, and its two angle fields decode to the even-rounded width and reported heading |
| Oscillation.StationaryCommandReadsBack | blowcontrol/commands/oscillation.py:60-89 | width 0 writes both edges on the heading with oscillation off, and that write decodes as width 0 at the heading |
| Oscillation.PositionIn | blowcontrol/commands/oscillation.py:448-463 | with both angles present, the position is their midpoint when both convert and unreadable otherwise; otherwise `apos` converted; absent with neither |
| Oscillation.ProductStatePosition | blowcontrol/commands/oscillation.py:446-463 | a non-empty `product-state` object is read by its keys; a missing one says nothing; a present value that is not an object never yields a heading |
| Oscillation.EstimateHeading | blowcontrol/commands/oscillation.py:429-493 | no state gives nothing; a readable `product-state` position is used; an unreadable one gives up; only when `product-state` says nothing are the top-level fields read |
| Oscillation.KeyedTextGivesUp | blowcontrol/commands/oscillation.py:446-493 | a `product-state` text containing both angle keys or `apos` passes the membership test, raises on indexing, and leaves no heading |
| Oscillation.UnkeyedTextFallsThrough | blowcontrol/commands/oscillation.py:446-482 | a `product-state` text naming no angle key says nothing, and a top-level position is used |
| Oscillation.StopReport | blowcontrol/commands/oscillation.py:522-536 | success exactly when the stop write was delivered, width 0 and no heading or angles |
| Oscillation.SetWidth | blowcontrol/commands/oscillation.py:360-519 | bad input writes nothing; a width rounding to 0 stops oscillation; any other width is solved at the estimated heading, or the fallback, and reports whether rounding changed it and the step's name |
| Oscillation.RunningSweepIsObserved | blowcontrol/commands/oscillation.py:446-456 | a snapshot of a running sweep yields its midpoint as the heading, and oscillation on with its span as the width |
| Oscillation.SweepIsReadBack | blowcontrol/commands/oscillation.py:429-662 | the state a solved sweep leaves is read back as that sweep's heading, with oscillation on and its even-rounded width |
| Oscillation.WidthChangeKeepsCentre | blowcontrol/commands/oscillation.py:429-519 | after a sweep, a width change re-centres on that sweep's heading, and keeps it whenever the new width fits there |
| Oscillation.SweepWidthIn | blowcontrol/commands/oscillation.py:617-626 | without both angles nothing is read; with both, the span when both convert and a failure otherwise |
| Oscillation.ObserveOscillation | blowcontrol/commands/oscillation.py:593-662 | oscillation is on exactly when a non-empty `product-state` object says `ON` for both `oscs` and `oson`; when off, no width is known |
| Oscillation.KeptWidth | blowcontrol/commands/oscillation.py:731-748 | the result is a step; an observed step is kept; an unknown width becomes 90 |
| Oscillation.ParkReport | blowcontrol/commands/oscillation.py:685-729 | marked oscillation-was-off; success exactly when delivered, and then width 0 with both edges on the heading |
| Oscillation.SetDirection | blowcontrol/commands/oscillation.py:539-764 | bad or out-of-range headings write nothing; with oscillation off the fan is parked at the heading; with it on, the kept width is solved at the new heading and the report says whether the width was observed |
| Oscillation.EvenRoundedStepSnapsBack | blowcontrol/commands/oscillation.py:741-748 | a step's even-rounded span (44 for 45) rounds back to the step |
| Oscillation.DirectionChangeKeepsWidth | blowcontrol/commands/oscillation.py:539-764 | after a sweep of a step width, a direction change keeps that exact width at the new heading and reports it as preserved |
| Oscillation.KeptWidthAfterSweep | blowcontrol/commands/oscillation.py:593-748 | the state after a sweep of a step width is observed as on, and its width is kept |
| Oscillation.DirectionWhileOffParks | blowcontrol/commands/oscillation.py:664-729 | with oscillation off, a heading change parks the fan there with oscillation still off, and the write decodes as width 0 at that heading |
| OscillationExamples.TextProductStateGivesUp | blowcontrol/commands/oscillation.py:446-500 | `product-state` text "osal osau" over a readable top-level sweep centred on 55 gives no heading, so the fallback 180 is used |
| OscillationExamples.UnrelatedTextFallsThrough | blowcontrol/commands/oscillation.py:446-482 | `product-state` text "off" says nothing and the top-level sweep centred on 55 is used |
| SleepTimer.SplitOnce | dyson2mqtt/commands/sleep_timer.py:29-32 | a two-part split puts the text back together with one colon, and neither part holds a colon |
| SleepTimer.SplitOnceFinds | dyson2mqtt/commands/sleep_timer.py:29-32 | any two colon-free parts joined by a colon are split back into those parts |
| SleepTimer.MatchUnits | dyson2mqtt/commands/sleep_timer.py:42-50 | only a spelling of an hours group and/or a minutes group matches, and the groups found are the ones it spells |
| SleepTimer.MatchUnitsFinds | dyson2mqtt/commands/sleep_timer.py:42-50 | every such spelling is matched, with its own groups |
| SleepTimer.ReadSleepText | dyson2mqtt/commands/sleep_timer.py:25-63 | an accepted text is `off`, an `H:MM` clock, a units spelling or digits, and its value is in 0..540; an accepted text with a colon splits at its one colon into two digit strings, minutes below 60, and is worth hours × 60 + minutes |
| SleepTimer.ParseSleepTime | dyson2mqtt/commands/sleep_timer.py:14-63 | integers are accepted exactly within 0..540 and keep their value; every accepted value is in 0..540; other types are rejected |
| SleepTimer.SleepTextNormalised | dyson2mqtt/commands/sleep_timer.py:25 | case and surrounding whitespace do not change the result |
| SleepTimer.OffIsZero | dyson2mqtt/commands/sleep_timer.py:25-27 | `off` in any case and padding is 0 |
| SleepTimer.ClockRejected | dyson2mqtt/commands/sleep_timer.py:29-39 | a text with a colon that does not split at one colon into two digit strings is rejected |
| SleepTimer.ClockForm | dyson2mqtt/commands/sleep_timer.py:29-39 | `H:MM` with minutes below 60 is hours × 60 + minutes, subject to the range; minutes of 60 or more are rejected |
| SleepTimer.UnitsForm | dyson2mqtt/commands/sleep_timer.py:42-53 | a units spelling totalling 0 is rejected, and any other total is hours × 60 + minutes, subject to the range |
| SleepTimer.MinutesForm | dyson2mqtt/commands/sleep_timer.py:55-56 | a digit string is its value, subject to the range |
| SleepTimer.RangeEdges | dyson2mqtt/commands/sleep_timer.py:61-62 | 540 is accepted, 541 and -1 are rejected |
| SleepTimer.SleepValue | dyson2mqtt/commands/sleep_timer.py:77-81 | 0 is written `OFF`; any other value as four digits spelling it |
| SleepTimer.SetSleepTimer | dyson2mqtt/commands/sleep_timer.py:66-87 | true exactly when the input parses and the session completes; a write reaches the broker exactly when it parses and the session got that far; the write is `sltm`, `OFF` exactly for 0, and otherwise exactly four decimal digits spelling the minutes (`SleepValue`) |
| SleepTimer.SleepWriteReadsBack | dyson2mqtt/commands/sleep_timer.py:77-81 | the written value is `OFF` for 0 and otherwise reads back as the minutes set |
| SleepTimerExamples.HoursAndMinutes | dyson2mqtt/commands/sleep_timer.py:42-53 | "2h15m" is 135 |
| SleepTimerExamples.ClockWithLetterHours | dyson2mqtt/commands/sleep_timer.py:29-39 | "a:15" is rejected |
| SleepTimerExamples.ClockWithLetterMinutes | dyson2mqtt/commands/sleep_timer.py:29-39 | "2:x" is rejected |
| SleepTimerExamples.Clock | dyson2mqtt/commands/sleep_timer.py:29-37 | "2:15" is 135 |
| SleepTimerExamples.ZeroTotals | dyson2mqtt/commands/sleep_timer.py:51-52 | "0h", "0m" and the empty text are rejected |
| SleepTimerExamples.MinutesBeforeHours | dyson2mqtt/commands/sleep_timer.py:40-58 | "15m2h" is out of order and rejected |
| SleepTimerExamples.OffInCapitals | dyson2mqtt/commands/sleep_timer.py:25-27 | " OFF\n" is 0 |
| Booleans.ReadWord | dyson2mqtt/utils/__init__.py:34-39 | true exactly for the six true spellings, false exactly for the six false ones, an error otherwise |
| Booleans.ParseBoolean | dyson2mqtt/utils/__init__.py:5-47 | booleans stand for themselves; text is looked up after lower-casing and stripping; integers are accepted exactly when 1 or 0, as true exactly for 1; every other type is rejected |
| Booleans.VocabulariesDisjoint | dyson2mqtt/utils/__init__.py:34-39 | no spelling is both true and false, and each vocabulary has six spellings |
| Booleans.VocabularyIsRead | dyson2mqtt/utils/__init__.py:30-39 | every spelling, padded with whitespace and in either case, reads as its own truth value |
| Booleans.PaddingIsIgnored | dyson2mqtt/utils/__init__.py:31 | whitespace around trimmed text does not change its normal form |
| Booleans.CaseIsIgnored | dyson2mqtt/utils/__init__.py:31 | upper-casing a text never changes the result |
| Booleans.BlankIsRejected | dyson2mqtt/utils/__init__.py:30-47 | empty and all-whitespace text is rejected |
| Booleans.IntegerTextAgrees | dyson2mqtt/utils/__init__.py:30-47 | an integer and its decimal text are read alike |
| FanSpeed.ValidateFanSpeed | blowcontrol/commands/fan_speed.py:27-34 | accepted exactly when the input converts to an integer in 0..10, keeping its value; a conversion failure and an out-of-range value are told apart |
| FanSpeed.SetFanSpeed | blowcontrol/commands/fan_speed.py:37-60 | true exactly when valid and the session completes; something is sent exactly when valid and the session got that far; it is the power-off command exactly for speed 0, otherwise an `fnsp` of exactly four decimal digits spelling the speed |
| FanSpeed.SpeedTextAgrees | blowcontrol/commands/fan_speed.py:14-34 | an integer speed and its decimal text are validated and sent alike |
| FanSpeed.SpeedWriteReadsBack | blowcontrol/commands/fan_speed.py:48-55 | an `fnsp` write carries a speed in 1..10 and reads back as it |
| FanSpeed.EverySpeedIsWritten | blowcontrol/commands/fan_speed.py:52-57 | every speed 1..10 over a healthy session is written as `fnsp` and reads back as itself |
| FanSpeedExamples.FiveIsPadded | blowcontrol/commands/fan_speed.py:52-57 | "5" is written as `fnsp` "0005" |
| FanSpeedExamples.ZeroPowersOff | blowcontrol/commands/fan_speed.py:48-50 | 0 sends the power-off command and no `fnsp` |
| FanSpeedExamples.Rejected | blowcontrol/commands/fan_speed.py:27-34 | 11 and -1 are out of range, "abc" and a float are unreadable, and nothing is sent for them |
| DeviceState.StrengthOf | dyson2mqtt/state/device_state.py:110-117 | Excellent exactly from -30 up, Good exactly in -40..-31, Fair exactly in -50..-41, Poor exactly below -50 |
| DeviceState.StrengthMonotone | dyson2mqtt/state/device_state.py:110-117 | a stronger reading is never put in a weaker class |
| DeviceState.Display | dyson2mqtt/state/device_state.py:62-122 | text `int` cannot read is shown as it stands under every rule, and the verbatim rule shows every value unchanged |
| DeviceState.FormatValue | dyson2mqtt/state/device_state.py:59-122 | keys without a rule and unreadable values are shown unchanged |
| DeviceState.KeysWithoutRule | dyson2mqtt/state/device_state.py:62-122 | exactly the eleven listed keys have a formatting rule |
| DeviceState.UnitDisplayReadsBack | dyson2mqtt/state/device_state.py:62-105 | removing the unit from a shown value and reading the rest gives back the reported integer |
| DeviceState.UnitsOfKeys | dyson2mqtt/state/device_state.py:62-105 | particle counts show μg/m³, angles show °, filter life shows %, fan speed shows /10, each after the integer read |
| DeviceState.NumberIsNotAuto | dyson2mqtt/state/device_state.py:76-88 | a readable number is never `AUTO` or `OFF`, so those checks never hide a number |
| DeviceState.SleepDisplay | dyson2mqtt/state/device_state.py:85-98 | a timer of h × 60 + m minutes (m < 60) is shown as `Hh Mm` when h > 0 and as `Mm` otherwise |
| DeviceState.SleepShownAsDuration | dyson2mqtt/state/device_state.py:85-98 | a readable timer value is shown as its hours and minutes |
| DeviceState.SignalDisplay | dyson2mqtt/state/device_state.py:106-120 | a readable signal is shown in dBm with its strength class |
| DeviceState.NewValue | dyson2mqtt/state/device_state.py:319-324 | a two-element list stores its second element; anything else is stored as it is |
| DeviceState.MergeFields | dyson2mqtt/state/device_state.py:318-324 | the merged keys are the union; every changed key holds its new value; every other key is untouched |
| DeviceState.ApplyChange | dyson2mqtt/state/device_state.py:312-328 | without a non-empty current state, or without `product-state` in the message, nothing changes |
| DeviceState.OnMessage | dyson2mqtt/state/device_state.py:297-337 | a full state replaces the held state, a state change is applied to it, sensor data replaces the environmental data, and an undecodable payload, a non-object or an unknown type changes nothing |
| DeviceState.ChangeIsMerged | dyson2mqtt/state/device_state.py:312-326 | a change into a `product-state` object merges into it and records the message's `time` |
| DeviceState.ChangeKeepsOtherFields | dyson2mqtt/state/device_state.py:312-326 | a change adds no top-level key but `product-state` and `time`, and alters no other |
| DeviceState.ChangeCreatesProductState | dyson2mqtt/state/device_state.py:315-324 | a state without `product-state` gets one holding exactly the change's new values |
| DeviceState.OnlyStateMessagesTouchState | dyson2mqtt/state/device_state.py:297-337 | over any run of payloads, the held state changes only through full states and state changes |
| DeviceState.FullStateResets | dyson2mqtt/state/device_state.py:308-309 | after a full state, what the listener holds no longer depends on the state it held before |
| DeviceState.NoStateNoChange | dyson2mqtt/state/device_state.py:314 | a state change before any full state is dropped |
| DeviceState.MergeIdempotent | dyson2mqtt/state/device_state.py:318-324 | applying the same change twice leaves what it left once |
| DeviceState.MergeComposes | dyson2mqtt/state/device_state.py:318-324 | two successive changes merge like one holding both, the later winning on a shared key |
| DeviceStateExamples.SignalExample | dyson2mqtt/state/device_state.py:106-118 | "-45" is shown as "-45 dBm (Fair)" |
| DeviceStateExamples.SleepExample | dyson2mqtt/state/device_state.py:85-94 | "0135" is shown as "2h 15m" |
| DeviceStateExamples.AutoExample | dyson2mqtt/state/device_state.py:76-79 | fan speed "AUTO" is shown as it stands |
| DisplayOfWrites.FanSpeedShown | blowcontrol/commands/fan_speed.py:52-57 | a speed written by the fan-speed command is shown as that speed out of ten |
| DisplayOfWrites.SleepTimerShown | dyson2mqtt/commands/sleep_timer.py:77-81 | a timer written by the sleep command is shown as the hours and minutes set, or `OFF` |
| DisplayOfWrites.AngleShown | dyson2mqtt/state/device_state.py:69-75 | an angle written with 4-digit padding is shown as the angle in degrees |
| DisplayOfWrites.SweepAnglesShown | blowcontrol/commands/oscillation.py:219-230 | both angles of a sweep write are shown as the angles in degrees |
| Text.Pad4RoundTrip | blowcontrol/commands/oscillation.py:219-221 | any natural number padded to four digits reads back as itself |
| Text.ShowIntRoundTrip | dyson2mqtt/state/device_state.py:65-66 | the decimal text of any integer reads back as it |
| Selection.FirstMinimum | blowcontrol/commands/oscillation.py:183-185 | `min` with a key returns an index of least key with no earlier index of equal key |

## Left out

- The MQTT transport, the broker session and `send_standalone_command` are
  not modelled. Each command takes a parameter saying how far its write got.
  The mqtt client modules are not part of this model.
- `async_get_state`, `asyncio.run`, the listener's thread, lock and
  `_last_update` timestamps, and all logging and console output are left
  out. The state snapshot is a parameter, and the listener is a pure
  function from one message to the next listener.
- `set_power` (`blowcontrol/commands/power.py`) is not part of this model.
  Speed 0 yields the `PowerOff` command. That command's write is not
  modelled; its success is the outcome of its session, given by `link`.
- The CLI validators and command dispatch in `dyson2mqtt/cli.py` are left out.
  They are callers of the modelled core.
- `DeviceStatePrinter`'s printing of whole states is left out, along with its
  descriptions table. Only `format_value`, the value formatting it relies
  on, is modelled.
- Integer literals accept only ASCII digits. Python's `int`, `str.isdigit`
  and the regex `\d` also accept other Unicode decimal digits. This affects
  the sleep-timer grammar (sleep_timer.py:33-56) and the angle reads
  (oscillation.py:450, 462, 618).
- `ParseInteger` rejects underscores between digits, which Python's `int`
  accepts (`int("4_5") == 45`).
- `ParseInteger` reads digit strings of any length. Python 3.11 and later
  refuse to convert a string of more than 4300 digits, raising `ValueError`.
- Lower-casing covers ASCII letters only, not the full Unicode case mapping
  of `str.lower`.
- Floats carry no value (`FloatArg`, `JFloat`). A float argument is rejected
  where the source rejects non-int, non-str types. A float in the device
  state is read as unconvertible, where Python's `int(90.7)` gives 90
  (oscillation.py:450, 462, 618).
- `ProductStatePosition` treats every float `product-state` as truthy, so
  its value 0.0, which Python treats as false, is not told apart.
- The snapshot passed to `EstimateHeading` and `ObserveOscillation` is
  always an object. A truthy non-object under the snapshot's `state` key
  would raise at `.get` and fall back; that case is not modelled.
- The default arguments are not modelled: `heading=180` of
  `set_oscillation_angles` (oscillation.py:27) and `fallback_heading=180`
  of `set_oscillation_width` (oscillation.py:361). Callers pass both
  explicitly; `OscillationExamples` uses 180.
- Error message texts are reduced to error kinds.
