/** The device's five legal sweep widths, their preset names, and the two
    ways the commands round an arbitrary width onto a legal step. */
module Widths {
  import opened Results
  import opened Text
  import opened Args
  import Selection

  /** `VALID_WIDTHS`, in ascending order. */
  const ValidWidths: seq<int> := [0, 45, 90, 180, 350]

  /** `WIDTH_NAMES`. */
  const WidthNames: map<string, int> :=
    map["off" := 0, "narrow" := 45, "medium" := 90, "wide" := 180, "full" := 350]

  /** Membership in `ValidWidths`, spelled out. */
  predicate IsStep(w: int) {
    w == 0 || w == 45 || w == 90 || w == 180 || w == 350
  }

  lemma StepsListed()
    ensures |ValidWidths| == 5
    ensures ValidWidths[0] == 0 && ValidWidths[1] == 45 && ValidWidths[2] == 90
    ensures ValidWidths[3] == 180 && ValidWidths[4] == 350
    ensures forall w :: w in ValidWidths <==> IsStep(w)
  {
  }

  /** The widest legal step, used when a request is wider than every step. */
  const WidestStep := 350

  /** `WIDTH_DISPLAY_NAMES.get(w)`: the inverse of `WidthNames`. */
  function DisplayName(w: int): (name: Option<string>)
    ensures name.Some? <==> IsStep(w)
    ensures name.Some? ==> name.value in WidthNames && WidthNames[name.value] == w
  {
    if w == 0 then Some("off")
    else if w == 45 then Some("narrow")
    else if w == 90 then Some("medium")
    else if w == 180 then Some("wide")
    else if w == 350 then Some("full")
    else None
  }

  /** The two tables are inverse to each other and name exactly the legal
      steps. */
  lemma NamesAndStepsAgree()
    ensures forall n :: n in WidthNames ==> DisplayName(WidthNames[n]) == Some(n)
    ensures WidthNames.Values == set w | w in ValidWidths
    ensures forall n :: n in WidthNames ==> IsStep(WidthNames[n])
  {
    assert WidthNames.Keys == {"off", "narrow", "medium", "wide", "full"};
    assert WidthNames["off"] == 0;
    assert WidthNames["narrow"] == 45;
    assert WidthNames["medium"] == 90;
    assert WidthNames["wide"] == 180;
    assert WidthNames["full"] == 350;
  }

  datatype WidthError =
    | InvalidWidthName(text: string)   // neither a preset name nor an integer
    | NotIntOrString                   // an argument of another type

  /** `parse_width_input`: a string is first looked up, lower-cased, among the
      preset names and otherwise read as an integer; integers stand for
      themselves. No range check happens here. */
  function ParseWidthInput(a: Arg): (r: Result<int, WidthError>)
    ensures a.StrArg? ==>
      (r.Err? <==> Lower(a.s) !in WidthNames && ParseInteger(a.s).None?)
    ensures a.StrArg? && Lower(a.s) in WidthNames ==> r == Ok(WidthNames[Lower(a.s)])
    ensures a.StrArg? && Lower(a.s) !in WidthNames && ParseInteger(a.s).Some? ==>
      r == Ok(ParseInteger(a.s).value)
    ensures a.StrArg? && r.Err? ==> r == Err(InvalidWidthName(a.s))
    ensures (a.IntArg? || a.BoolArg?) ==> r == Ok(IntegerOf(a))
    ensures !(a.StrArg? || a.IntArg? || a.BoolArg?) ==> r == Err(NotIntOrString)
  {
    match a
    case StrArg(s) =>
      var key := Lower(s);
      if key in WidthNames then Ok(WidthNames[key])
      else
        (match ParseInteger(s)
         case Some(n) => Ok(n)
         case None => Err(InvalidWidthName(s)))
    case IntArg(i) => Ok(i)
    case BoolArg(b) => Ok(if b then 1 else 0)
    case _ => Err(NotIntOrString)
  }

  /** No decimal text is a preset name, so numbers always take the integer
      path. */
  lemma DecimalIsNoName(s: string)
    requires IsDecimal(s)
    ensures Lower(s) == s && s !in WidthNames
  {
    LowerDigits(s);
    assert IsDigit(s[0]);
    assert s != "off" && s != "narrow" && s != "medium" && s != "wide" && s != "full" by {
      assert "off"[0] == 'o' && "narrow"[0] == 'n' && "medium"[0] == 'm';
      assert "wide"[0] == 'w' && "full"[0] == 'f';
    }
  }

  /** Every legal step is reached from its name in any letter case and from
      its decimal text. */
  lemma ParseWidthReachesEveryStep(w: int)
    requires IsStep(w)
    ensures ParseWidthInput(StrArg(DisplayName(w).value)) == Ok(w)
    ensures ParseWidthInput(StrArg(Upper(DisplayName(w).value))) == Ok(w)
    ensures ParseWidthInput(StrArg(ShowInt(w))) == Ok(w)
  {
    var name := DisplayName(w).value;
    NameIsLowerCase(w);
    LowerForgetsCase(name);
    NameParses(name, w);
    NameParses(Upper(name), w);
    ShowNatValue(w);
    DecimalWidthParses(ShowNat(w), w);
  }

  /** A string whose lower-case form is a preset name parses to its step. */
  lemma NameParses(s: string, w: int)
    requires Lower(s) in WidthNames && WidthNames[Lower(s)] == w
    ensures ParseWidthInput(StrArg(s)) == Ok(w)
  {
  }

  /** Decimal text parses to the number it denotes. */
  lemma DecimalWidthParses(d: string, n: nat)
    requires IsDecimal(d) && DigitsValue(d) == n
    ensures ParseWidthInput(StrArg(d)) == Ok(n)
  {
    DecimalIsNoName(d);
    DecimalParses(d);
  }

  lemma NameIsLowerCase(w: int)
    requires IsStep(w)
    ensures Lower(DisplayName(w).value) == DisplayName(w).value
  {
    var name := DisplayName(w).value;
    assert forall i :: 0 <= i < |name| ==> 'a' <= name[i] <= 'z';
  }

  /** Index of the first step in `steps` that is at least `w`. */
  function FirstAtLeast(steps: seq<int>, w: int): (k: nat)
    ensures k <= |steps|
    ensures forall j :: 0 <= j < k ==> steps[j] < w
    ensures k < |steps| ==> steps[k] >= w
    decreases |steps|
  {
    if |steps| == 0 then 0
    else if steps[0] >= w then 0
    else 1 + FirstAtLeast(steps[1..], w)
  }

  /** The rounding of `set_oscillation_width`: a legal step is kept; any other
      width goes up to the smallest legal step at least as wide, and a width
      above every step becomes 350. */
  function SnapUp(w: int): (r: int)
    ensures IsStep(r)
    ensures IsStep(w) ==> r == w
    ensures w <= WidestStep ==> r >= w && forall v :: IsStep(v) && v >= w ==> r <= v
    ensures w > WidestStep ==> r == WidestStep
  {
    StepsListed();
    if w in ValidWidths then w
    else
      var k := FirstAtLeast(ValidWidths, w);
      if k < |ValidWidths| then ValidWidths[k] else WidestStep
  }

  /** How far the step `v` is from the width `w`. */
  function Gap(w: int, v: int): nat {
    if v < w then w - v else v - w
  }

  /** The key `min(VALID_WIDTHS, key=...)` ranks steps by. */
  function GapFrom(w: int): int -> int {
    v => Gap(w, v)
  }

  /** The rounding of `set_oscillation_direction`: a legal step is kept; any
      other width goes to the nearest legal step, the smaller one on a tie. */
  function SnapNearest(w: int): (r: int)
    ensures IsStep(r)
    ensures IsStep(w) ==> r == w
    ensures forall v :: IsStep(v) ==> Gap(w, r) <= Gap(w, v)
    ensures forall v :: IsStep(v) && Gap(w, v) == Gap(w, r) ==> r <= v
  {
    if IsStep(w) then w
    else
      NearestIndexIsNearest(w);
      ValidWidths[Selection.FirstMinimum(ValidWidths, GapFrom(w))]
  }

  /** The first step of least gap is the nearest step, and the smallest of
      the nearest ones. */
  lemma NearestIndexIsNearest(w: int)
    ensures var k := Selection.FirstMinimum(ValidWidths, GapFrom(w));
      var r := ValidWidths[k];
      IsStep(r)
      && (forall v :: IsStep(v) ==> Gap(w, r) <= Gap(w, v))
      && (forall v :: IsStep(v) && Gap(w, v) == Gap(w, r) ==> r <= v)
  {
    StepsListed();
    var k := Selection.FirstMinimum(ValidWidths, GapFrom(w));
    forall j | 0 <= j < |ValidWidths|
      ensures GapFrom(w)(ValidWidths[j]) == Gap(w, ValidWidths[j])
    {
    }
    NearestTieGoesDown(w, k);
  }

  lemma NearestTieGoesDown(w: int, k: nat)
    requires k < |ValidWidths|
    requires forall j :: 0 <= j < |ValidWidths| ==> Gap(w, ValidWidths[k]) <= Gap(w, ValidWidths[j])
    requires forall j :: 0 <= j < k ==> Gap(w, ValidWidths[j]) > Gap(w, ValidWidths[k])
    ensures IsStep(ValidWidths[k])
    ensures forall v :: IsStep(v) ==> Gap(w, ValidWidths[k]) <= Gap(w, v)
    ensures forall v :: IsStep(v) && Gap(w, v) == Gap(w, ValidWidths[k]) ==> ValidWidths[k] <= v
  {
    StepsListed();
    forall v | IsStep(v)
      ensures Gap(w, ValidWidths[k]) <= Gap(w, v)
      ensures Gap(w, v) == Gap(w, ValidWidths[k]) ==> ValidWidths[k] <= v
    {
      var j := if v == 0 then 0 else if v == 45 then 1 else if v == 90 then 2 else if v == 180 then 3 else 4;
      assert ValidWidths[j] == v;
    }
  }

  /** A width just below a step rounds up to it. */
  lemma SnapUpJustBelow()
    ensures SnapUp(44) == 45 && DisplayName(SnapUp(44)) == Some("narrow")
  {
  }

  lemma SnapUpBetween()
    ensures SnapUp(91) == 180
  {
  }

  /** Wider than every step gives the widest step. */
  lemma SnapUpAbove()
    ensures SnapUp(351) == 350 && DisplayName(SnapUp(351)) == Some("full")
  {
  }

  lemma SnapUpNegative()
    ensures SnapUp(-5) == 0
  {
  }

  /** The nearest step to `w` when `v` is strictly closer than every other
      step, or tied only with larger ones. */
  lemma NearestIs(w: int, v: int)
    requires IsStep(v)
    requires forall u :: IsStep(u) && u != v ==> Gap(w, v) < Gap(w, u) || (Gap(w, v) == Gap(w, u) && v < u)
    ensures SnapNearest(w) == v
  {
  }

  /** The 44° a 45° sweep reads back as is nearest to 45°. */
  lemma SnapNearestOddWidth()
    ensures SnapNearest(44) == 45
  {
    NearestIs(44, 45);
  }

  /** Halfway between 90 and 180 the smaller step wins. */
  lemma SnapNearestTie()
    ensures SnapNearest(135) == 90
  {
    NearestIs(135, 90);
  }

  lemma SnapNearestAbove()
    ensures SnapNearest(270) == 350
  {
    NearestIs(270, 350);
  }

  lemma SnapNearestSmall()
    ensures SnapNearest(20) == 0
  {
    NearestIs(20, 0);
  }
}
