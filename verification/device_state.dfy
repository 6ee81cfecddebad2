/** The device-state side of the program: how a reported value is shown
    (`DeviceStatePrinter.format_value`), and how the state listener keeps the
    latest state as messages arrive (`DeviceStateListener._mqtt_callback`). */
module DeviceState {
  import opened Results
  import opened Text
  import opened Messages

  // ---------------------------------------------------------------------
  // Formatting one reported value
  // ---------------------------------------------------------------------

  const Micrograms: string := " \U{03BC}g/m\U{00B3}"
  const Degrees: string := "\U{00B0}"
  const PerTen: string := "/10"
  const Percent: string := "%"

  /** The keys that have a display rule. */
  const FormattedKeys: set<string> :=
    {"pm25", "pm10", "p25r", "p10r", "osal", "osau", "apos", "fnsp", "sltm", "hflr", "rssi"}

  /** How a key's value is shown. */
  datatype Rule =
    | WithUnit(unit: string)   // the integer, then a unit
    | FanSpeedRule             // `AUTO`, or the integer out of ten
    | SleepRule                // `OFF`, or minutes as hours and minutes
    | SignalRule               // dBm and a strength class
    | Verbatim                 // the text as it stands

  /** The key families and their rules. */
  function RuleFor(key: string): Rule {
    if key == "pm25" || key == "pm10" || key == "p25r" || key == "p10r" then WithUnit(Micrograms)
    else if key == "osal" || key == "osau" || key == "apos" then WithUnit(Degrees)
    else if key == "fnsp" then FanSpeedRule
    else if key == "sltm" then SleepRule
    else if key == "hflr" then WithUnit(Percent)
    else if key == "rssi" then SignalRule
    else Verbatim
  }

  /** The four strength classes of a Wi-Fi signal, weakest first. */
  datatype Strength = Poor | Fair | Good | Excellent

  function StrengthOf(dbm: int): (c: Strength)
    ensures c == Excellent <==> dbm >= -30
    ensures c == Good <==> -40 <= dbm < -30
    ensures c == Fair <==> -50 <= dbm < -40
    ensures c == Poor <==> dbm < -50
  {
    if dbm >= -30 then Excellent
    else if dbm >= -40 then Good
    else if dbm >= -50 then Fair
    else Poor
  }

  function StrengthName(c: Strength): string {
    match c
    case Excellent => "Excellent"
    case Good => "Good"
    case Fair => "Fair"
    case Poor => "Poor"
  }

  function Rank(c: Strength): nat {
    match c
    case Poor => 0
    case Fair => 1
    case Good => 2
    case Excellent => 3
  }

  /** A duration in minutes as the printer shows it: whole hours and the
      minutes left over, the hours only when there is at least one. */
  function Duration(minutes: int): string {
    HoursMinutes(minutes / 60, minutes % 60)
  }

  function HoursMinutes(hours: int, minutes: int): string {
    if hours > 0 then ShowInt(hours) + "h " + ShowInt(minutes) + "m" else ShowInt(minutes) + "m"
  }

  /** One value under one rule. Text `int` cannot read is shown as it
      stands, under every rule. */
  function Display(rule: Rule, value: string): (r: string)
    ensures ParseInteger(value).None? ==> r == value
    ensures rule == Verbatim ==> r == value
  {
    match rule
    case Verbatim => value
    case FanSpeedRule =>
      if value == "AUTO" then "AUTO"
      else (match ParseInteger(value)
            case Some(n) => ShowInt(n) + PerTen
            case None => value)
    case SleepRule =>
      if value == "OFF" then "OFF"
      else (match ParseInteger(value)
            case Some(m) => Duration(m)
            case None => value)
    case SignalRule =>
      (match ParseInteger(value)
       case Some(dbm) => ShowInt(dbm) + " dBm (" + StrengthName(StrengthOf(dbm)) + ")"
       case None => value)
    case WithUnit(unit) =>
      (match ParseInteger(value)
       case Some(n) => ShowInt(n) + unit
       case None => value)
  }

  /** `format_value`: the value under its key's rule. Keys without a rule,
      and values `int` cannot read, are shown unchanged. */
  function FormatValue(key: string, value: string): (r: string)
    ensures key !in FormattedKeys ==> r == value
    ensures ParseInteger(value).None? ==> r == value
  {
    KeysWithoutRule(key);
    Display(RuleFor(key), value)
  }

  /** Exactly the formatted keys have a rule other than showing the text. */
  lemma KeysWithoutRule(key: string)
    ensures RuleFor(key) == Verbatim <==> key !in FormattedKeys
  {
  }

  /** The number shown before a unit is the number the value reads as:
      dropping the unit and reading the rest gives the value's integer back. */
  lemma UnitDisplayReadsBack(unit: string, value: string, n: int)
    requires ParseInteger(value) == Some(n)
    ensures var r := Display(WithUnit(unit), value);
      |r| >= |unit| && r[|r| - |unit|..] == unit && ParseInteger(r[..|r| - |unit|]) == Some(n)
  {
    var r := Display(WithUnit(unit), value);
    assert r == ShowInt(n) + unit;
    assert r[..|r| - |unit|] == ShowInt(n);
    ShowIntRoundTrip(n);
  }

  /** Fan speeds, angles, particle counts and filter life each show their
      integer with their own unit. */
  lemma UnitsOfKeys(key: string, value: string, n: int)
    requires ParseInteger(value) == Some(n)
    ensures key in {"pm25", "pm10", "p25r", "p10r"} ==> FormatValue(key, value) == ShowInt(n) + Micrograms
    ensures key in {"osal", "osau", "apos"} ==> FormatValue(key, value) == ShowInt(n) + Degrees
    ensures key == "hflr" ==> FormatValue(key, value) == ShowInt(n) + Percent
    ensures key == "fnsp" ==> FormatValue(key, value) == ShowInt(n) + PerTen
  {
    UnitRules(key);
    NumberIsNotAuto(value, n);
    assert Display(WithUnit(Micrograms), value) == ShowInt(n) + Micrograms;
    assert Display(WithUnit(Degrees), value) == ShowInt(n) + Degrees;
    assert Display(WithUnit(Percent), value) == ShowInt(n) + Percent;
    assert Display(FanSpeedRule, value) == ShowInt(n) + PerTen;
  }

  /** The rule of each key that has one. */
  lemma UnitRules(key: string)
    ensures key in {"pm25", "pm10", "p25r", "p10r"} ==> RuleFor(key) == WithUnit(Micrograms)
    ensures key in {"osal", "osau", "apos"} ==> RuleFor(key) == WithUnit(Degrees)
    ensures key == "hflr" ==> RuleFor(key) == WithUnit(Percent)
    ensures key == "fnsp" ==> RuleFor(key) == FanSpeedRule
    ensures key == "sltm" ==> RuleFor(key) == SleepRule
    ensures key == "rssi" ==> RuleFor(key) == SignalRule
  {
  }

  /** Text that reads as an integer is neither `AUTO` nor `OFF`. */
  lemma NumberIsNotAuto(value: string, n: int)
    requires ParseInteger(value) == Some(n)
    ensures value != "AUTO" && value != "OFF"
  {
    WordIsNoNumber("AUTO");
    WordIsNoNumber("OFF");
  }

  /** Text starting with a letter is not an integer literal. */
  lemma WordIsNoNumber(s: string)
    requires |s| > 0 && 'A' <= s[0] <= 'Z'
    ensures ParseInteger(s).None?
  {
    assert !IsSpace(s[0]);
    var t := TrimRight(s);
    assert Strip(s) == t;
    assert |t| > 0 ==> t[0] == s[0];
  }

  /** The sleep timer in the form hours/minutes: a reading `m` that splits
      as `h * 60 + mm` with `0 <= mm < 60` is shown as `Hh MMm` when there are hours and as
      `MMm` otherwise. */
  lemma SleepDisplay(value: string, m: int, h: int, mm: int)
    requires ParseInteger(value) == Some(m)
    requires 0 <= mm < 60 && m == h * 60 + mm
    ensures FormatValue("sltm", value) == HoursMinutes(h, mm)
  {
    SleepShownAsDuration(value, m);
    DurationSplits(m, h, mm);
  }

  lemma DurationSplits(m: int, h: int, mm: int)
    requires 0 <= mm < 60 && m == h * 60 + mm
    ensures Duration(m) == HoursMinutes(h, mm)
  {
    DivisionBy(m, 60, h, mm);
  }

  lemma SleepShownAsDuration(value: string, m: int)
    requires ParseInteger(value) == Some(m)
    ensures FormatValue("sltm", value) == Duration(m)
  {
    UnitRules("sltm");
    NumberIsNotAuto(value, m);
  }

  /** The signal shows its dBm reading and the class of that reading. */
  lemma SignalDisplay(value: string, dbm: int)
    requires ParseInteger(value) == Some(dbm)
    ensures FormatValue("rssi", value) == ShowInt(dbm) + " dBm (" + StrengthName(StrengthOf(dbm)) + ")"
  {
    UnitRules("rssi");
  }

  /** A stronger reading is never put in a weaker class. */
  lemma StrengthMonotone(weaker: int, stronger: int)
    requires weaker <= stronger
    ensures Rank(StrengthOf(weaker)) <= Rank(StrengthOf(stronger))
  {
  }

  // ---------------------------------------------------------------------
  // Keeping the latest state
  // ---------------------------------------------------------------------

  /** What the listener holds: the last full state (with changes applied)
      and the last environmental sensor message. */
  datatype Listener = Listener(current: Option<Doc>, environmental: Option<Doc>)

  /** What a value in a change becomes in the state: the new half of an
      `[old, new]` pair, or the value itself. */
  function NewValue(v: Json): (r: Json)
    ensures v.JList? && |v.items| == 2 ==> r == v.items[1]
    ensures !(v.JList? && |v.items| == 2) ==> r == v
  {
    if v.JList? && |v.items| == 2 then v.items[1] else v
  }

  /** A state's fields after a change's fields are stored into it. */
  function MergeFields(fields: Doc, change: Doc): (m: Doc)
    ensures m.Keys == fields.Keys + change.Keys
    ensures forall k :: k in change ==> m[k] == NewValue(change[k])
    ensures forall k :: k in fields && k !in change ==> m[k] == fields[k]
  {
    map k | k in fields.Keys + change.Keys :: if k in change then NewValue(change[k]) else fields[k]
  }

  /** `data.get(key)`. */
  function Get(d: Doc, key: string): Json {
    if key in d then d[key] else JNull
  }

  /** A STATE-CHANGE message applied to the current state. Nothing happens
      without a non-empty current state or without `product-state` in the
      message. A missing `product-state` in the state is first created empty;
      a change that is not an object, or a non-empty change into a
      `product-state` that is not one, raises at once and leaves just that. */
  function ApplyChange(current: Option<Doc>, data: Doc): (r: Option<Doc>)
    ensures current.None? ==> r.None?
    ensures r.Some? ==> current.Some?
    ensures current.Some? && (|current.value| == 0 || "product-state" !in data) ==> r == current
  {
    if current.None? || |current.value| == 0 || "product-state" !in data then current
    else
      var state := current.value;
      var prepared := if "product-state" in state then state else state["product-state" := JObj(map[])];
      match data["product-state"]
      case JObj(change) =>
        if |change| == 0 then Some(prepared["time" := Get(data, "time")])
        else
          (match prepared["product-state"]
           case JObj(fields) =>
             Some(prepared["product-state" := JObj(MergeFields(fields, change))]["time" := Get(data, "time")])
           case _ => Some(prepared))
      case _ => Some(prepared)
  }

  /** The message types the listener acts on. */
  const MessageKinds: set<Json> :=
    {JStr("CURRENT-STATE"), JStr("STATE-CHANGE"), JStr("ENVIRONMENTAL-CURRENT-SENSOR-DATA")}

  /** `_mqtt_callback` on one payload. `None` is a payload `json.loads`
      cannot decode; it, a payload that is not an object, and an unknown
      message type change nothing. */
  function OnMessage(l: Listener, payload: Option<Json>): (r: Listener)
    ensures payload.None? || !payload.value.JObj? ==> r == l
    ensures r.environmental != l.environmental ==> r.current == l.current
    ensures r.current != l.current ==> r.environmental == l.environmental
    ensures payload.Some? && payload.value.JObj? ==>
      var data := payload.value.fields;
      var kind := Get(data, "msg");
      (kind == JStr("CURRENT-STATE") ==> r == l.(current := Some(data)))
      && (kind == JStr("STATE-CHANGE") ==> r == l.(current := ApplyChange(l.current, data)))
      && (kind == JStr("ENVIRONMENTAL-CURRENT-SENSOR-DATA") ==> r == l.(environmental := Some(data)))
      && (kind !in MessageKinds ==> r == l)
  {
    match payload
    case Some(JObj(data)) =>
      var kind := Get(data, "msg");
      if kind == JStr("CURRENT-STATE") then l.(current := Some(data))
      else if kind == JStr("STATE-CHANGE") then l.(current := ApplyChange(l.current, data))
      else if kind == JStr("ENVIRONMENTAL-CURRENT-SENSOR-DATA") then l.(environmental := Some(data))
      else l
    case _ => l
  }

  /** The current state's `product-state` object, when it has one. */
  function ProductState(state: Option<Doc>): Option<Doc> {
    if state.Some? && "product-state" in state.value && state.value["product-state"].JObj? then
      Some(state.value["product-state"].fields)
    else None
  }

  /** A well-formed change into a state that has a `product-state` object:
      every changed key holds its new value, every other key of the object
      is untouched, and `time` is the message's. */
  lemma ChangeIsMerged(state: Doc, data: Doc, change: Doc)
    requires |state| > 0 && ProductState(Some(state)).Some?
    requires "product-state" in data && data["product-state"] == JObj(change)
    ensures var r := ApplyChange(Some(state), data);
      r.Some? && ProductState(r) == Some(MergeFields(ProductState(Some(state)).value, change))
      && r.value["time"] == Get(data, "time")
  {
    var fields := state["product-state"].fields;
    var time := Get(data, "time");
    if |change| == 0 {
      assert ApplyChange(Some(state), data) == Some(state["time" := time]);
      assert MergeFields(fields, change) == fields;
    } else {
      assert ApplyChange(Some(state), data)
        == Some(state["product-state" := JObj(MergeFields(fields, change))]["time" := time]);
    }
  }

  /** A state change touches no top-level field but `product-state` and
      `time`, and adds no other. */
  lemma ChangeKeepsOtherFields(state: Doc, data: Doc)
    requires |state| > 0 && "product-state" in data
    ensures var r := ApplyChange(Some(state), data);
      r.Some? && r.value.Keys <= state.Keys + {"product-state", "time"}
      && forall k :: k in state && k != "product-state" && k != "time" ==> k in r.value && r.value[k] == state[k]
  {
  }

  /** A state without `product-state` gets one, holding exactly the new
      values of the change. */
  lemma ChangeCreatesProductState(state: Doc, data: Doc, change: Doc)
    requires |state| > 0 && "product-state" !in state
    requires "product-state" in data && data["product-state"] == JObj(change)
    ensures ProductState(ApplyChange(Some(state), data)) == Some(MergeFields(map[], change))
  {
    if |change| == 0 {
      assert MergeFields(map[], change) == map[];
    }
  }

  /** Before any full state has arrived, state changes are dropped. */
  lemma NoStateNoChange(l: Listener, data: Doc)
    requires l.current.None?
    requires Get(data, "msg") == JStr("STATE-CHANGE")
    ensures OnMessage(l, Some(JObj(data))) == l
  {
  }

  /** Whether a payload is a message of the given type. */
  predicate IsMessage(p: Option<Json>, kind: string) {
    p.Some? && p.value.JObj? && Get(p.value.fields, "msg") == JStr(kind)
  }

  /** The listener after a run of payloads, in arrival order. */
  function Listen(l: Listener, payloads: seq<Option<Json>>): (r: Listener)
    ensures |payloads| == 0 ==> r == l
    decreases |payloads|
  {
    if |payloads| == 0 then l
    else Listen(OnMessage(l, payloads[0]), payloads[1..])
  }

  /** Only full states and state changes touch the held state: any run of
      sensor data, unknown types and undecodable payloads leaves it as it
      was. */
  lemma {:induction false} OnlyStateMessagesTouchState(l: Listener, payloads: seq<Option<Json>>)
    requires forall i :: 0 <= i < |payloads| ==>
      !IsMessage(payloads[i], "CURRENT-STATE") && !IsMessage(payloads[i], "STATE-CHANGE")
    ensures Listen(l, payloads).current == l.current
    decreases |payloads|
  {
    if |payloads| > 0 {
      var next := OnMessage(l, payloads[0]);
      assert next.current == l.current;
      OnlyStateMessagesTouchState(next, payloads[1..]);
    }
  }

  /** A full state replaces whatever came before it: after it, the held
      state is that state with the later payloads applied, whatever the
      listener held earlier. */
  lemma {:induction false} FullStateResets(l1: Listener, l2: Listener, payloads: seq<Option<Json>>)
    requires |payloads| > 0 && IsMessage(payloads[0], "CURRENT-STATE")
    requires l1.environmental == l2.environmental
    ensures Listen(l1, payloads) == Listen(l2, payloads)
  {
    assert OnMessage(l1, payloads[0]) == OnMessage(l2, payloads[0]);
  }

  /** A change applied twice leaves what it left the first time. */
  lemma MergeIdempotent(fields: Doc, change: Doc)
    ensures MergeFields(MergeFields(fields, change), change) == MergeFields(fields, change)
  {
  }

  /** Two changes in a row merge like one change holding both, the later
      one winning on a key they share. */
  lemma MergeComposes(fields: Doc, first: Doc, second: Doc)
    ensures MergeFields(MergeFields(fields, first), second) == MergeFields(fields, first + second)
  {
  }
}

/** Worked examples of `format_value` (device_state.py:85-118). */
module DeviceStateExamples {
  import opened Results
  import opened Text
  import opened DeviceState

  /** "-45" reads as -45. */
  lemma MinusFortyFiveReads()
    ensures ParseInteger("-45") == Some(-45)
  {
    assert "-45" == "-" + "45";
    assert DigitsValue("45") == 45 by {
      assert "45"[..1] == "4";
    }
    NegativeParses(45, "45");
  }

  lemma SmallNumbersShown()
    ensures ShowInt(-45) == "-45" && ShowInt(2) == "2" && ShowInt(15) == "15"
  {
    assert ShowNat(45) == "45";
    assert ShowNat(15) == "15";
  }

  /** The texts the two examples below are shown as. */
  lemma ExampleTexts()
    ensures ShowInt(-45) + " dBm (" + StrengthName(StrengthOf(-45)) + ")" == "-45 dBm (Fair)"
    ensures HoursMinutes(2, 15) == "2h 15m"
  {
    SmallNumbersShown();
    assert StrengthOf(-45) == Fair;
  }

  /** A signal of -45 dBm is shown with its class, Fair. */
  lemma SignalExample(value: string)
    requires value == "-45"
    ensures FormatValue("rssi", value) == "-45 dBm (Fair)"
  {
    MinusFortyFiveReads();
    SignalDisplay(value, -45);
    ExampleTexts();
  }

  /** "0135" reads as 135. */
  lemma PaddedTimerReads()
    ensures ParseInteger("0135") == Some(135)
  {
    Pad4Spelling(135);
    assert Pad4(135) == "0135";
    Pad4RoundTrip(135);
  }

  /** A timer of 135 minutes is shown as two hours and a quarter. */
  lemma SleepExample(value: string)
    requires value == "0135"
    ensures FormatValue("sltm", value) == "2h 15m"
  {
    PaddedTimerReads();
    SleepDisplay(value, 135, 2, 15);
    ExampleTexts();
  }

  /** A fan on automatic is shown as it stands. */
  lemma AutoExample()
    ensures FormatValue("fnsp", "AUTO") == "AUTO"
  {
    WordIsNoNumber("AUTO");
  }
}
