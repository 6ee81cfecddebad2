/** The sleep timer command: `parse_sleep_time` reads minutes from an integer
    or from one of four text grammars (`off`, `H:MM`, `NhMm`, bare digits)
    and keeps the result within 0..540; `set_sleep_timer` writes it to the
    `sltm` variable as `OFF` or as four zero-padded digits. */
module SleepTimer {
  import opened Results
  import opened Text
  import opened Args
  import opened Session

  /** The longest timer the device accepts, in minutes (nine hours). */
  const MaxMinutes := 540

  datatype SleepError =
    | InvalidFormat        // text in none of the grammars, or a zero h/m total
    | InvalidType          // neither text nor an integer
    | OutOfRange(minutes: int)

  /** The final range check. */
  function InRange(m: int): Result<int, SleepError> {
    if 0 <= m <= MaxMinutes then Ok(m) else Err(OutOfRange(m))
  }

  // ---------------------------------------------------------------------
  // The `H:MM` grammar
  // ---------------------------------------------------------------------

  /** `s.split(":")` when it yields exactly two parts. */
  function SplitOnce(s: string): (r: Option<(string, string)>)
    ensures r.Some? ==> s == r.value.0 + ":" + r.value.1
    ensures r.Some? ==> ':' !in r.value.0 && ':' !in r.value.1
    ensures ':' !in s ==> r.None?
  {
    var k := IndexOf(s, ':');
    if k == |s| then None
    else
      var rest := s[k + 1..];
      if IndexOf(rest, ':') < |rest| then None
      else
        assert s == s[..k] + ":" + rest;
        Some((s[..k], rest))
  }

  /** Every text with exactly one colon is split at it. */
  lemma SplitOnceFinds(a: string, b: string)
    requires ':' !in a && ':' !in b
    ensures SplitOnce(a + ":" + b) == Some((a, b))
  {
    var s := a + ":" + b;
    var k := IndexOf(s, ':');
    assert s[|a|] == ':';
    assert k == |a|;
    assert s[..k] == a;
    assert s[k + 1..] == b;
  }

  // ---------------------------------------------------------------------
  // The `NhMm` grammar
  // ---------------------------------------------------------------------

  /** The two groups of a whole match of `(\d+h)?(\d+m)?`. */
  datatype Units = Units(hours: Option<string>, minutes: Option<string>)

  predicate WellFormed(u: Units) {
    (u.hours.Some? ==> IsDecimal(u.hours.value))
    && (u.minutes.Some? ==> IsDecimal(u.minutes.value))
  }

  /** One optional group followed by its unit letter. */
  function Group(g: Option<string>, unit: char): string {
    match g
    case Some(d) => d + [unit]
    case None => ""
  }

  /** The text a pair of groups spells. */
  function Spell(u: Units): string {
    Group(u.hours, 'h') + Group(u.minutes, 'm')
  }

  /** `re.fullmatch(r"(\d+h)?(\d+m)?", s)`, with the groups `re.match` and
      `re.search` then find: only a spelling of well-formed groups matches,
      and the groups are the ones it spells. */
  function MatchUnits(s: string): (r: Option<Units>)
    ensures r.Some? ==> WellFormed(r.value) && Spell(r.value) == s
  {
    var k := LeadingDigits(s);
    if 0 < k < |s| && s[k] == 'h' then
      assert s == s[..k] + "h" + s[k + 1..];
      MatchMinutes(Some(s[..k]), s[k + 1..])
    else
      MatchMinutes(None, s)
  }

  /** The rest of the match once the hour group is settled. */
  function MatchMinutes(hours: Option<string>, rest: string): (r: Option<Units>)
    requires hours.Some? ==> IsDecimal(hours.value)
    ensures r.Some? ==> WellFormed(r.value) && r.value.hours == hours
    ensures r.Some? ==> Group(r.value.minutes, 'm') == rest
  {
    if |rest| == 0 then Some(Units(hours, None))
    else
      var j := LeadingDigits(rest);
      if 0 < j && j + 1 == |rest| && rest[j] == 'm' then
        assert rest == rest[..j] + "m";
        Some(Units(hours, Some(rest[..j])))
      else None
  }

  /** The other direction: every spelling of well-formed groups matches,
      with exactly those groups. */
  lemma MatchUnitsFinds(u: Units)
    requires WellFormed(u)
    ensures MatchUnits(Spell(u)) == Some(u)
  {
    var m := Group(u.minutes, 'm');
    if u.minutes.Some? {
      LeadingDigitsBefore(u.minutes.value, "m");
      assert MatchMinutes(u.hours, m) == Some(u);
    }
    match u.hours
    case Some(d) =>
      assert Spell(u) == d + ("h" + m);
      LeadingDigitsBefore(d, "h" + m);
      assert Spell(u)[|d| + 1..] == m;
    case None =>
      assert Spell(u) == m;
      if u.minutes.Some? {
        LeadingDigitsBefore(u.minutes.value, "m");
      }
  }

  /** Hours times sixty plus minutes, each group counting 0 when absent. */
  function UnitsValue(u: Units): nat
    requires WellFormed(u)
  {
    (if u.hours.Some? then DigitsValue(u.hours.value) else 0) * 60
    + (if u.minutes.Some? then DigitsValue(u.minutes.value) else 0)
  }

  // ---------------------------------------------------------------------
  // parse_sleep_time
  // ---------------------------------------------------------------------

  /** The text branch, on the stripped and lower-cased input. The grammars
      are tried in order, and a text accepted by none of them is an error. */
  function ReadSleepText(s: string): (r: Result<int, SleepError>)
    ensures r.Ok? ==> 0 <= r.value <= MaxMinutes
    ensures r.Ok? ==> s == "off" || SplitOnce(s).Some? || MatchUnits(s).Some? || IsDecimal(s)
    ensures r.Ok? && ':' in s ==>
      SplitOnce(s).Some?
      && var (h, m) := SplitOnce(s).value;
      IsDecimal(h) && IsDecimal(m) && DigitsValue(m) < 60 && r.value == DigitsValue(h) * 60 + DigitsValue(m)
    ensures r.Err? ==> r.error == InvalidFormat || r.error.OutOfRange?
  {
    if s == "off" then Ok(0)
    else if ':' in s then
      match SplitOnce(s)
      case Some((h, m)) =>
        if IsDecimal(h) && IsDecimal(m) && DigitsValue(m) < 60 then
          InRange(DigitsValue(h) * 60 + DigitsValue(m))
        else Err(InvalidFormat)
      case None => Err(InvalidFormat)
    else
      match MatchUnits(s)
      case Some(u) => if UnitsValue(u) == 0 then Err(InvalidFormat) else InRange(UnitsValue(u))
      case None => if IsDecimal(s) then InRange(DigitsValue(s)) else Err(InvalidFormat)
  }

  /** `parse_sleep_time`: integers (booleans among them) are minutes as
      they stand, text is stripped and lower-cased and read by the grammars,
      and every other type is an error. Only 0..540 is returned. */
  function ParseSleepTime(a: Arg): (r: Result<int, SleepError>)
    ensures r.Ok? ==> 0 <= r.value <= MaxMinutes
    ensures (a.IntArg? || a.BoolArg?) ==>
      (r.Ok? <==> 0 <= IntegerOf(a) <= MaxMinutes) && (r.Ok? ==> r.value == IntegerOf(a))
    ensures !(a.IntArg? || a.BoolArg? || a.StrArg?) ==> r == Err(InvalidType)
  {
    match a
    case IntArg(i) => InRange(i)
    case BoolArg(b) => InRange(if b then 1 else 0)
    case StrArg(v) => ReadSleepText(Lower(Strip(v)))
    case _ => Err(InvalidType)
  }

  /** Surrounding whitespace and the case of the letters do not matter. */
  lemma SleepTextNormalised(left: string, t: string, right: string)
    requires AllSpace(left) && AllSpace(right) && Trimmed(t)
    ensures ParseSleepTime(StrArg(left + Upper(t) + right)) == ParseSleepTime(StrArg(t))
  {
    UpperKeepsTrimmed(t);
    StripPadded(left, Upper(t), right);
    StripTrimmed(t);
    LowerForgetsCase(t);
  }

  /** `off`, in any case and with any surrounding whitespace, is 0. */
  lemma OffIsZero(left: string, t: string, right: string)
    requires AllSpace(left) && AllSpace(right) && Lower(t) == "off"
    ensures ParseSleepTime(StrArg(left + t + right)) == Ok(0)
  {
    assert LowerChar(t[0]) == 'o' && LowerChar(t[2]) == 'f';
    StripPadded(left, t, right);
  }

  /** Text that is already trimmed and lower case is read as it stands. */
  lemma PlainTextIsRead(s: string)
    requires Trimmed(s) && Lower(s) == s
    ensures ParseSleepTime(StrArg(s)) == ReadSleepText(s)
  {
    StripTrimmed(s);
  }

  /** Digit strings around a colon form plain text with one colon. */
  lemma ClockIsPlain(h: string, m: string)
    requires IsDecimal(h) && IsDecimal(m)
    ensures var s := h + ":" + m;
      Trimmed(s) && Lower(s) == s && s != "off" && ':' in s
    ensures ':' !in h && ':' !in m
  {
    var s := h + ":" + m;
    assert s[0] == h[0] && s[|s| - 1] == m[|m| - 1];
    LowerDigits(h);
    LowerDigits(m);
    LowerAppend(h, ":" + m);
    LowerAppend(":", m);
    assert h + ":" + m == h + (":" + m);
    assert s[|h|] == ':';
    assert forall i :: 0 <= i < |h| ==> IsDigit(h[i]);
    assert forall i :: 0 <= i < |m| ==> IsDigit(m[i]);
  }

  /** A text with a colon is read only as `H:MM`: unless it splits at one
      colon into two digit strings, it is rejected, whatever else it
      spells. */
  lemma ClockRejected(s: string)
    requires s != "off" && ':' in s
    requires SplitOnce(s).None? || !IsDecimal(SplitOnce(s).value.0) || !IsDecimal(SplitOnce(s).value.1)
    ensures ReadSleepText(s) == Err(InvalidFormat)
  {
  }

  /** The `H:MM` branch on a text already split at its one colon. */
  lemma ClockText(s: string, h: string, m: string)
    requires s != "off" && ':' in s
    requires SplitOnce(s) == Some((h, m)) && IsDecimal(h) && IsDecimal(m)
    ensures ReadSleepText(s)
      == if DigitsValue(m) < 60 then InRange(DigitsValue(h) * 60 + DigitsValue(m)) else Err(InvalidFormat)
  {
  }

  /** `H:MM`: two digit strings around one colon give `H * 60 + MM` when the
      minutes are below 60, and are rejected otherwise. */
  lemma ClockForm(h: string, m: string)
    requires IsDecimal(h) && IsDecimal(m)
    ensures ParseSleepTime(StrArg(h + ":" + m))
      == if DigitsValue(m) < 60 then InRange(DigitsValue(h) * 60 + DigitsValue(m)) else Err(InvalidFormat)
  {
    ClockIsPlain(h, m);
    SplitOnceFinds(h, m);
    PlainTextIsRead(h + ":" + m);
    ClockText(h + ":" + m, h, m);
  }

  /** `NhMm`, `Nh`, `Mm` and the empty text: the groups' total in minutes,
      except that a zero total is rejected. */
  lemma UnitsForm(u: Units)
    requires WellFormed(u)
    ensures ParseSleepTime(StrArg(Spell(u)))
      == if UnitsValue(u) == 0 then Err(InvalidFormat) else InRange(UnitsValue(u))
  {
    SpellIsPlain(u);
    PlainTextIsRead(Spell(u));
    MatchUnitsFinds(u);
  }

  /** A spelling is trimmed, lower case, colon-free and not `off`. */
  lemma SpellIsPlain(u: Units)
    requires WellFormed(u)
    ensures var s := Spell(u);
      Trimmed(s) && Lower(s) == s && ':' !in s && s != "off"
  {
    var s := Spell(u);
    assert forall i :: 0 <= i < |s| ==> IsDigit(s[i]) || s[i] == 'h' || s[i] == 'm' by {
      var hs := Group(u.hours, 'h');
      var ms := Group(u.minutes, 'm');
      assert forall i :: 0 <= i < |hs| ==> IsDigit(hs[i]) || hs[i] == 'h';
      assert forall i :: 0 <= i < |ms| ==> IsDigit(ms[i]) || ms[i] == 'm';
    }
    if |s| > 0 {
      assert s[0] != 'o';
    }
  }

  /** A digit string is plain text outside the other grammars. */
  lemma DigitsArePlain(d: string)
    requires IsDecimal(d)
    ensures Trimmed(d) && Lower(d) == d && d != "off" && ':' !in d
    ensures MatchUnits(d).None?
  {
    assert IsDigit(d[0]) && IsDigit(d[|d| - 1]);
    LowerDigits(d);
    assert forall i :: 0 <= i < |d| ==> IsDigit(d[i]);
  }

  /** Bare digits are minutes. */
  lemma MinutesForm(d: string)
    requires IsDecimal(d)
    ensures ParseSleepTime(StrArg(d)) == InRange(DigitsValue(d))
  {
    DigitsArePlain(d);
    PlainTextIsRead(d);
  }

  /** The bounds, on the edge: 540 minutes are accepted and 541 are not. */
  lemma RangeEdges()
    ensures ParseSleepTime(IntArg(540)) == Ok(540)
    ensures ParseSleepTime(IntArg(541)) == Err(OutOfRange(541))
    ensures ParseSleepTime(IntArg(-1)) == Err(OutOfRange(-1))
  {
  }

  // ---------------------------------------------------------------------
  // set_sleep_timer
  // ---------------------------------------------------------------------

  /** The text `set_sleep_timer` writes to `sltm`: `OFF` clears the timer,
      any other duration is four zero-padded digits. */
  function SleepValue(m: nat): (v: string)
    requires m <= MaxMinutes
    ensures v == "OFF" <==> m == 0
    ensures m > 0 ==> |v| == 4 && IsDecimal(v) && DigitsValue(v) == m
  {
    if m == 0 then "OFF"
    else
      var v := Pad4(m);
      assert IsDigit(v[0]);
      v
  }

  /** What a `set_sleep_timer` call wrote, if anything, and what it returned. */
  datatype SleepOutcome = SleepOutcome(write: Option<Write>, ok: bool)

  /** `set_sleep_timer`: parse, then write over a broker session; a parse
      error or any raise in the session gives `False`. */
  function SetSleepTimer(value: Arg, link: Link): (r: SleepOutcome)
    ensures r.ok <==> ParseSleepTime(value).Ok? && link == Healthy
    ensures r.write.Some? <==> ParseSleepTime(value).Ok? && Published(link)
    ensures r.write.Some? ==>
      r.write.value.key == "sltm"
      && (r.write.value.value == "OFF" <==> ParseSleepTime(value).value == 0)
    ensures r.write.Some? && ParseSleepTime(value).value > 0 ==>
      var v := r.write.value.value;
      |v| == 4 && IsDecimal(v) && DigitsValue(v) == ParseSleepTime(value).value
    ensures r.write.Some? ==> r.write.value.value == SleepValue(ParseSleepTime(value).value)
  {
    match ParseSleepTime(value)
    case Err(_) => SleepOutcome(None, false)
    case Ok(m) =>
      if link == FailsOnConnect || link == FailsOnWrite then SleepOutcome(None, false)
      else SleepOutcome(Some(Write("sltm", SleepValue(m))), link == Healthy)
  }

  /** The written value reads back as the parsed minutes: `OFF` for 0, and
      otherwise an integer literal of the duration. */
  lemma SleepWriteReadsBack(value: Arg, link: Link)
    requires SetSleepTimer(value, link).write.Some?
    ensures var v := SetSleepTimer(value, link).write.value.value;
      var m := ParseSleepTime(value).value;
      (v == "OFF" && m == 0) || (m > 0 && ParseInteger(v) == Some(m))
  {
    var m := ParseSleepTime(value).value;
    if m > 0 {
      DecimalParses(SleepValue(m));
    }
  }
}

/** The documented inputs of `parse_sleep_time`, each read through the
    grammar it belongs to. */
module SleepTimerExamples {
  import opened Results
  import opened Text
  import opened Args
  import opened SleepTimer

  /** A clock whose hours are not digits is rejected. */
  lemma ClockWithLetterHours()
    ensures ReadSleepText("a:15") == Err(InvalidFormat)
  {
    SplitOnceFinds("a", "15");
    assert "a" + ":" + "15" == "a:15";
    assert !IsDigit("a"[0]);
    ClockRejected("a:15");
  }

  /** A clock whose minutes are not digits is rejected. */
  lemma ClockWithLetterMinutes()
    ensures ReadSleepText("2:x") == Err(InvalidFormat)
  {
    SplitOnceFinds("2", "x");
    assert "2" + ":" + "x" == "2:x";
    assert !IsDigit("x"[0]);
    ClockRejected("2:x");
  }

  lemma HoursAndMinutes()
    ensures ParseSleepTime(StrArg("2h15m")) == Ok(135)
  {
    var u := Units(Some("2"), Some("15"));
    assert Spell(u) == "2h15m";
    assert DigitsValue("2") == 2;
    assert DigitsValue("15") == 15 by {
      assert "15"[..1] == "1";
    }
    assert UnitsValue(u) == 135;
    UnitsForm(u);
  }

  lemma HoursOnly()
    ensures ParseSleepTime(StrArg("1h")) == Ok(60)
  {
    var u := Units(Some("1"), None);
    assert Spell(u) == "1h";
    assert DigitsValue("1") == 1;
    assert UnitsValue(u) == 60;
    UnitsForm(u);
  }

  lemma MinutesOnly()
    ensures ParseSleepTime(StrArg("45m")) == Ok(45)
  {
    var u := Units(None, Some("45"));
    assert Spell(u) == "45m";
    assert DigitsValue("45") == 45 by {
      assert "45"[..1] == "4";
    }
    UnitsForm(u);
  }

  /** A zero total is rejected, whichever groups spell it. */
  lemma ZeroTotals()
    ensures ParseSleepTime(StrArg("0h")) == Err(InvalidFormat)
    ensures ParseSleepTime(StrArg("0m")) == Err(InvalidFormat)
    ensures ParseSleepTime(StrArg("")) == Err(InvalidFormat)
  {
    var h := Units(Some("0"), None);
    var m := Units(None, Some("0"));
    var e := Units(None, None);
    assert Spell(h) == "0h" && Spell(m) == "0m" && Spell(e) == "";
    UnitsForm(h);
    UnitsForm(m);
    UnitsForm(e);
  }

  lemma Clock()
    ensures ParseSleepTime(StrArg("2:15")) == Ok(135)
  {
    ClockSpelling();
    ClockForm("2", "15");
    assert InRange(135) == Ok(135);
  }

  lemma ClockSpelling()
    ensures "2" + ":" + "15" == "2:15"
    ensures IsDecimal("2") && IsDecimal("15")
    ensures DigitsValue("2") == 2 && DigitsValue("15") == 15
  {
    assert "15"[..1] == "1";
  }

  /** Sixty minutes do not fit the `MM` field. */
  lemma ClockMinutesTooLarge()
    ensures ParseSleepTime(StrArg("2:60")) == Err(InvalidFormat)
  {
    assert "2" + ":" + "60" == "2:60";
    assert DigitsValue("60") == 60 by {
      assert "60"[..1] == "6";
    }
    ClockForm("2", "60");
  }

  lemma LastAcceptedMinute()
    ensures ParseSleepTime(StrArg("540")) == Ok(540)
  {
    assert DigitsValue("540") == 540 by {
      assert "540"[..2] == "54" && "54"[..1] == "5";
    }
    MinutesForm("540");
  }

  lemma FirstRejectedMinute()
    ensures ParseSleepTime(StrArg("541")) == Err(OutOfRange(541))
  {
    assert DigitsValue("541") == 541 by {
      assert "541"[..2] == "54" && "54"[..1] == "5";
    }
    MinutesForm("541");
  }

  lemma OffInCapitals()
    ensures ParseSleepTime(StrArg(" OFF\n")) == Ok(0)
  {
    assert " OFF\n" == " " + "OFF" + "\n";
    assert Lower("OFF") == "off";
    OffIsZero(" ", "OFF", "\n");
  }

  /** Minutes before hours are not in the grammar. */
  lemma MinutesBeforeHours()
    ensures ParseSleepTime(StrArg("15m2h")) == Err(InvalidFormat)
  {
    var s := "15m2h";
    MinutesBeforeHoursText();
    PlainTextIsRead(s);
    OutOfGrammar(s, 2);
  }

  lemma MinutesBeforeHoursText()
    ensures var s := "15m2h";
      Trimmed(s) && Lower(s) == s && LeadingDigits(s) == 2 && ':' !in s && !IsDecimal(s)
  {
    var s := "15m2h";
    assert Lower(s) == s;
    assert LeadingDigits(s) == 2 by {
      LeadingDigitsBefore("15", "m2h");
      assert "15" + "m2h" == s;
    }
    assert !IsDecimal(s) by {
      assert !IsDigit(s[2]);
    }
  }


  /** A text that stops being digits at a letter other than the final
      `m`, and is not `h`, matches neither grammar. */
  lemma OutOfGrammar(s: string, k: nat)
    requires LeadingDigits(s) == k && k + 1 < |s| && s[k] != 'h'
    requires s != "off" && ':' !in s && !IsDecimal(s)
    ensures ReadSleepText(s) == Err(InvalidFormat)
  {
  }

}
