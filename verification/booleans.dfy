/** `parse_boolean`: the flexible yes/no reading the on/off style commands
    share. Booleans stand for themselves, text is lower-cased and stripped
    and looked up in two fixed vocabularies, the integers 1 and 0 stand for
    true and false, and everything else is rejected. */
module Booleans {
  import opened Results
  import opened Text
  import opened Args

  /** The spellings read as true. */
  const TrueWords: set<string> := {"true", "t", "1", "on", "yes", "y"}

  /** The spellings read as false. */
  const FalseWords: set<string> := {"false", "f", "0", "off", "no", "n"}

  /** The `ValueError` raised for anything outside the vocabularies. */
  datatype BoolError = CannotParse

  /** The normal form a string is looked up in: `value.lower().strip()`. */
  function Normalise(s: string): string {
    Strip(Lower(s))
  }

  /** The lookup of an already normalised text in the two vocabularies. */
  function ReadWord(w: string): (r: Result<bool, BoolError>)
    ensures r == Ok(true) <==> w in TrueWords
    ensures r == Ok(false) <==> w in FalseWords
    ensures r.Err? ==> r.error == CannotParse
  {
    if w in TrueWords then Ok(true)
    else if w in FalseWords then Ok(false)
    else Err(CannotParse)
  }

  function ParseBoolean(a: Arg): (r: Result<bool, BoolError>)
    ensures a.BoolArg? ==> r == Ok(a.b)
    ensures a.StrArg? ==> r == ReadWord(Normalise(a.s))
    ensures a.IntArg? ==> (r.Ok? <==> a.i == 0 || a.i == 1) && (r.Ok? ==> (r.value <==> a.i == 1))
    ensures (a.FloatArg? || a.NoneArg? || a.OtherArg?) ==> r == Err(CannotParse)
  {
    match a
    case BoolArg(b) => Ok(b)
    case StrArg(s) => ReadWord(Normalise(s))
    case IntArg(i) =>
      if i == 1 then Ok(true) else if i == 0 then Ok(false) else Err(CannotParse)
    case _ => Err(CannotParse)
  }

  /** No spelling is read both ways. */
  lemma VocabulariesDisjoint()
    ensures TrueWords * FalseWords == {}
    ensures |TrueWords| == 6 && |FalseWords| == 6
  {
    assert "1" in TrueWords;
  }

  /** Every spelling in the vocabularies is read back as its own truth
      value, whatever case it is written in and whatever whitespace
      surrounds it. */
  lemma VocabularyIsRead(left: string, w: string, right: string)
    requires AllSpace(left) && AllSpace(right)
    requires w in TrueWords || w in FalseWords
    ensures ParseBoolean(StrArg(left + w + right)) == Ok(w in TrueWords)
    ensures ParseBoolean(StrArg(left + Upper(w) + right)) == Ok(w in TrueWords)
  {
    VocabularyIsPlain(w);
    PaddingIsIgnored(left, w, right);
    PaddingIsIgnored(left, Upper(w), right);
    LowerForgetsCase(w);
    VocabulariesDisjoint();
  }

  /** The vocabulary spellings are lower-case and trimmed already. */
  lemma VocabularyIsPlain(w: string)
    requires w in TrueWords || w in FalseWords
    ensures Lower(w) == w && Trimmed(w) && Trimmed(Upper(w))
  {
    assert |w| > 0 && forall i :: 0 <= i < |w| ==> 'a' <= w[i] <= 'z' || IsDigit(w[i]);
    PlainWord(w);
  }

  /** A non-empty word of lower-case letters and digits. */
  lemma PlainWord(w: string)
    requires |w| > 0 && forall i :: 0 <= i < |w| ==> 'a' <= w[i] <= 'z' || IsDigit(w[i])
    ensures Lower(w) == w && Trimmed(w) && Trimmed(Upper(w))
  {
    assert Trimmed(w) by {
      assert !IsSpace(w[0]) && !IsSpace(w[|w| - 1]);
    }
    UpperKeepsTrimmed(w);
  }

  /** Whitespace around a trimmed text changes nothing the parser sees. */
  lemma PaddingIsIgnored(left: string, t: string, right: string)
    requires AllSpace(left) && AllSpace(right) && Trimmed(t)
    ensures Normalise(left + t + right) == Normalise(t)
  {
    LowerAppend(left + t, right);
    LowerAppend(left, t);
    LowerKeepsSpace(left);
    LowerKeepsSpace(right);
    UpperKeepsTrimmed(t);
    StripPadded(Lower(left), Lower(t), Lower(right));
    StripTrimmed(Lower(t));
  }

  /** The result never depends on the case the text was written in. */
  lemma CaseIsIgnored(s: string)
    ensures ParseBoolean(StrArg(Upper(s))) == ParseBoolean(StrArg(s))
  {
    LowerForgetsCase(s);
  }

  /** Text made of whitespace only, the empty text among it, is rejected. */
  lemma BlankIsRejected(s: string)
    requires AllSpace(s)
    ensures ParseBoolean(StrArg(s)) == Err(CannotParse)
  {
    BlankNormalisesAway(s);
    EmptyIsNoWord();
  }

  lemma BlankNormalisesAway(s: string)
    requires AllSpace(s)
    ensures Normalise(s) == ""
  {
    LowerKeepsSpace(s);
    TrimLeftAllSpace(Lower(s));
  }

  lemma EmptyIsNoWord()
    ensures ReadWord("") == Err(CannotParse)
  {
  }

  /** An integer is read the same whether it arrives as a number or as
      its decimal text: 1 and 0 are the only ones accepted either way. */
  lemma IntegerTextAgrees(i: int)
    ensures ParseBoolean(StrArg(ShowInt(i))) == ParseBoolean(IntArg(i))
  {
    var s := ShowInt(i);
    ShowIntIsPlain(i);
    StripTrimmed(s);
    assert Normalise(s) == s;
    ShowIntRoundTrip(i);
    if i == 1 {
      assert s == "1";
    } else if i == 0 {
      assert s == "0";
    } else {
      DecimalParses("1");
      DecimalParses("0");
      NumeralIsNoWord(s);
    }
  }

  /** Text that starts like a number is none of the spellings other than
      "1" and "0". */
  lemma NumeralIsNoWord(s: string)
    requires |s| > 0 && (IsDigit(s[0]) || s[0] == '-') && s != "1" && s != "0"
    ensures ReadWord(s) == Err(CannotParse)
  {
  }

  /** What `str` writes for an integer is lower-case and trimmed, and
      starts with a digit or a minus sign. */
  lemma ShowIntIsPlain(i: int)
    ensures var s := ShowInt(i);
      |s| > 0 && Lower(s) == s && Trimmed(s) && (IsDigit(s[0]) || s[0] == '-')
  {
    var s := ShowInt(i);
    if i < 0 {
      var d := ShowNat(-i);
      LowerDigits(d);
      LowerAppend("-", d);
      assert s[|s| - 1] == d[|d| - 1];
    } else {
      LowerDigits(s);
    }
  }
}
