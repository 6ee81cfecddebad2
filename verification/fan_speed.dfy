/** `set_fan_speed`: read a speed, check it is 0..10, and either hand speed 0
    to the power-off command or write the speed as a 4-digit `fnsp` field. */
module FanSpeed {
  import opened Results
  import opened Text
  import opened Args
  import opened Session

  const MaxSpeed: int := 10

  datatype SpeedError =
    | Unreadable(cause: IntError)   // `parse_int_input` raised
    | OutOfRange(speed: int)        // read, but not in 0..10

  /** `validate_fan_speed`: the integer reading of the argument, accepted
      exactly when it lies in 0..10. */
  function ValidateFanSpeed(a: Arg): (r: Result<int, SpeedError>)
    ensures r.Ok? <==> ParseIntArg(a).Ok? && 0 <= ParseIntArg(a).value <= MaxSpeed
    ensures r.Ok? ==> r.value == ParseIntArg(a).value
    ensures ParseIntArg(a).Err? ==> r == Err(Unreadable(ParseIntArg(a).error))
    ensures ParseIntArg(a).Ok? && r.Err? ==> r.error == OutOfRange(ParseIntArg(a).value)
  {
    match ParseIntArg(a)
    case Err(e) => Err(Unreadable(e))
    case Ok(n) => if 0 <= n <= MaxSpeed then Ok(n) else Err(OutOfRange(n))
  }

  /** What a call sends: the power-off command, or one `fnsp` write. */
  datatype FanCommand = PowerOff | SpeedWrite(write: Write)

  datatype FanOutcome = FanOutcome(sent: Option<FanCommand>, ok: bool)

  /** `set_fan_speed`. Each call opens one session, either the power-off
      command's own (speed 0) or its own (speeds 1..10); `link` says how far
      that session gets. A rejected speed opens no session at all. */
  function SetFanSpeed(a: Arg, link: Link): (r: FanOutcome)
    ensures r.ok <==> ValidateFanSpeed(a).Ok? && link == Healthy
    ensures r.sent.Some? <==> ValidateFanSpeed(a).Ok? && Published(link)
    ensures r.sent.Some? ==> (r.sent.value == PowerOff <==> ValidateFanSpeed(a).value == 0)
    ensures r.sent.Some? && r.sent.value.SpeedWrite? ==>
      r.sent.value.write.key == "fnsp" && |r.sent.value.write.value| == 4
    ensures r.sent.Some? && r.sent.value.SpeedWrite? ==>
      var v := r.sent.value.write.value;
      IsDecimal(v) && DigitsValue(v) == ValidateFanSpeed(a).value
  {
    match ValidateFanSpeed(a)
    case Err(_) => FanOutcome(None, false)
    case Ok(n) =>
      if !Published(link) then FanOutcome(None, false)
      else if n == 0 then FanOutcome(Some(PowerOff), link == Healthy)
      else FanOutcome(Some(SpeedWrite(Write("fnsp", Pad4(n)))), link == Healthy)
  }

  /** A speed reaches the command the same whether it is passed as an integer
      or as its decimal text. */
  lemma SpeedTextAgrees(n: int)
    ensures ValidateFanSpeed(StrArg(ShowInt(n))) == ValidateFanSpeed(IntArg(n))
    ensures SetFanSpeed(StrArg(ShowInt(n)), Healthy) == SetFanSpeed(IntArg(n), Healthy)
  {
    ParseIntArgAgrees(n);
  }

  /** The written `fnsp` field reads back as the validated speed, which is
      never 0: speed 0 never produces an `fnsp` write. */
  lemma SpeedWriteReadsBack(a: Arg, link: Link)
    requires SetFanSpeed(a, link).sent.Some? && SetFanSpeed(a, link).sent.value.SpeedWrite?
    ensures var v := SetFanSpeed(a, link).sent.value.write.value;
      var n := ValidateFanSpeed(a).value;
      1 <= n <= MaxSpeed && ParseInteger(v) == Some(n)
  {
    Pad4RoundTrip(ValidateFanSpeed(a).value);
  }

  /** Every speed 1..10 is written, over a healthy session, as the 4-digit
      field that reads back as that speed. */
  lemma EverySpeedIsWritten(n: int)
    requires 1 <= n <= MaxSpeed
    ensures var r := SetFanSpeed(IntArg(n), Healthy);
      r.ok && r.sent.Some? && r.sent.value.SpeedWrite?
      && r.sent.value.write.key == "fnsp" && ParseInteger(r.sent.value.write.value) == Some(n)
  {
    Pad4RoundTrip(n);
  }
}

/** The speeds the program's test suite exercises. */
module FanSpeedExamples {
  import opened Results
  import opened Text
  import opened Args
  import opened Session
  import opened FanSpeed

  /** Five is written as `0005`. */
  lemma FiveIsPadded()
    ensures SetFanSpeed(StrArg("5"), Healthy) == FanOutcome(Some(SpeedWrite(Write("fnsp", "0005"))), true)
  {
    DecimalParses("5");
    Pad4Spelling(5);
  }

  /** Zero powers the fan off instead of writing a speed. */
  lemma ZeroPowersOff()
    ensures SetFanSpeed(IntArg(0), Healthy) == FanOutcome(Some(PowerOff), true)
  {
  }

  /** Eleven and -1 are out of range; text that is not a number is
      unreadable; a float is not convertible. None of them sends anything. */
  lemma Rejected()
    ensures ValidateFanSpeed(IntArg(11)) == Err(OutOfRange(11))
    ensures ValidateFanSpeed(IntArg(-1)) == Err(OutOfRange(-1))
    ensures ValidateFanSpeed(StrArg("abc")) == Err(Unreadable(NotANumber("abc")))
    ensures ValidateFanSpeed(FloatArg) == Err(Unreadable(NotConvertible))
    ensures SetFanSpeed(IntArg(11), Healthy) == FanOutcome(None, false)
  {
    assert !IsDigit("abc"[0]);
    assert Strip("abc") == "abc" by {
      StripTrimmed("abc");
    }
  }

  /** A session that fails to connect reports failure and sends nothing. */
  lemma ConnectFailure()
    ensures SetFanSpeed(IntArg(3), FailsOnConnect) == FanOutcome(None, false)
  {
  }
}
