/** The dynamically typed values the command functions accept from their
    callers, and the shared integer reading of them (`parse_int_input`, which
    the oscillation and fan-speed commands each define identically). */
module Args {
  import opened Results
  import opened Text

  /** A command argument. Booleans are kept apart from integers because one
      parser inspects them first, although everywhere else the host language
      treats `True`/`False` as the integers 1/0. Floats, `None`, lists and
      other objects carry no value the model needs. */
  datatype Arg =
    | IntArg(i: int)
    | BoolArg(b: bool)
    | StrArg(s: string)
    | FloatArg
    | NoneArg
    | OtherArg

  /** The integer an int-or-bool argument stands for. */
  function IntegerOf(a: Arg): int
    requires a.IntArg? || a.BoolArg?
  {
    if a.IntArg? then a.i else if a.b then 1 else 0
  }

  datatype IntError =
    | NotANumber(text: string)   // `int(s)` raised on a string
    | NotConvertible             // neither a string nor an integer

  /** `parse_int_input`: strings are read with `int`, integers (and booleans)
      stand for themselves, every other type is rejected. */
  function ParseIntArg(a: Arg): (r: Result<int, IntError>)
    ensures a.StrArg? ==> (r.Ok? <==> ParseInteger(a.s).Some?)
    ensures a.StrArg? && ParseInteger(a.s).Some? ==> r == Ok(ParseInteger(a.s).value)
    ensures a.StrArg? && ParseInteger(a.s).None? ==> r == Err(NotANumber(a.s))
    ensures (a.IntArg? || a.BoolArg?) ==> r == Ok(IntegerOf(a))
    ensures !(a.StrArg? || a.IntArg? || a.BoolArg?) ==> r == Err(NotConvertible)
  {
    match a
    case StrArg(s) =>
      (match ParseInteger(s)
       case Some(n) => Ok(n)
       case None => Err(NotANumber(s)))
    case IntArg(i) => Ok(i)
    case BoolArg(b) => Ok(if b then 1 else 0)
    case _ => Err(NotConvertible)
  }

  /** An integer reaches the commands the same whether it is passed as an
      integer or as its decimal text. */
  lemma ParseIntArgAgrees(i: int)
    ensures ParseIntArg(StrArg(ShowInt(i))) == ParseIntArg(IntArg(i)) == Ok(i)
  {
    ShowIntRoundTrip(i);
  }

  /** Zero-padded text with whitespace around it reads as its number. */
  lemma ParseIntArgPadded(n: nat, left: string, right: string)
    requires AllSpace(left) && AllSpace(right)
    ensures ParseIntArg(StrArg(left + Pad4(n) + right)) == Ok(n)
  {
    PaddedDecimalParses(left, Pad4(n), right);
  }
}
