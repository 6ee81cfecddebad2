/** What the device-state printer shows for the fields the commands write:
    each command's write, once the device reports it back, is shown as the
    number the user asked for, with that field's unit. */
module DisplayOfWrites {
  import opened Results
  import opened Text
  import opened Args
  import opened Session
  import opened Oscillation
  import opened SleepTimer
  import opened FanSpeed
  import opened DeviceState

  /** A fan speed written as `fnsp` is shown as that speed out of ten. */
  lemma FanSpeedShown(a: Arg, link: Link)
    requires SetFanSpeed(a, link).sent.Some? && SetFanSpeed(a, link).sent.value.SpeedWrite?
    ensures FormatValue("fnsp", SetFanSpeed(a, link).sent.value.write.value)
      == ShowInt(ValidateFanSpeed(a).value) + PerTen
  {
    var v := SetFanSpeed(a, link).sent.value.write.value;
    SpeedWriteReadsBack(a, link);
    UnitsOfKeys("fnsp", v, ValidateFanSpeed(a).value);
  }

  /** A sleep timer written as `sltm` is shown as the hours and minutes it
      was set to, and a cancelled timer as `OFF`. */
  lemma SleepTimerShown(value: Arg, link: Link)
    requires SetSleepTimer(value, link).write.Some?
    ensures var v := SetSleepTimer(value, link).write.value.value;
      var m := ParseSleepTime(value).value;
      FormatValue("sltm", v) == (if m == 0 then "OFF" else Duration(m))
  {
    var v := SetSleepTimer(value, link).write.value.value;
    var m := ParseSleepTime(value).value;
    SleepWriteReadsBack(value, link);
    if m == 0 {
      WordIsNoNumber("OFF");
    } else {
      SleepShownAsDuration(v, m);
    }
  }

  /** An angle written as four digits is shown in degrees. */
  lemma AngleShown(key: string, angle: nat)
    requires key in {"osal", "osau", "apos"}
    ensures FormatValue(key, Pad4(angle)) == ShowInt(angle) + Degrees
  {
    Pad4RoundTrip(angle);
    UnitsOfKeys(key, Pad4(angle), angle);
  }

  /** The two angles of a sweep write are shown in degrees. */
  lemma SweepAnglesShown(lower: nat, upper: nat)
    ensures FormatValue("osal", SweepCommand(lower, upper)["osal"]) == ShowInt(lower) + Degrees
    ensures FormatValue("osau", SweepCommand(lower, upper)["osau"]) == ShowInt(upper) + Degrees
  {
    SweepCommandKeys(lower, upper);
    AngleShown("osal", lower);
    AngleShown("osau", upper);
  }
}
