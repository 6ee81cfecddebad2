/** String primitives the command layer leans on: whitespace trimming and case
    folding as the host language's string methods do them, decimal digit
    strings, and reading and writing integers (including the zero-padded
    4-digit form the device protocol uses for every numeric variable). */
module Text {
  import opened Results

  // ---------------------------------------------------------------------
  // Characters
  // ---------------------------------------------------------------------

  /** The characters `str.isspace` accepts, which `str.strip` and `int`
      remove from both ends. */
  predicate IsSpace(c: char) {
    var n := c as int;
    (9 <= n <= 13) || (28 <= n <= 32) || n == 0x85 || n == 0xA0 || n == 0x1680
    || (0x2000 <= n <= 0x200A) || n == 0x2028 || n == 0x2029 || n == 0x202F
    || n == 0x205F || n == 0x3000
  }

  predicate IsDigit(c: char) {
    '0' <= c <= '9'
  }

  function DigitValue(c: char): (d: nat)
    requires IsDigit(c)
    ensures d < 10
  {
    c as int - '0' as int
  }

  function DigitChar(d: nat): (c: char)
    requires d < 10
    ensures IsDigit(c) && DigitValue(c) == d
  {
    (d + '0' as int) as char
  }

  /** ASCII lower-casing of one character. */
  function LowerChar(c: char): char {
    if 'A' <= c <= 'Z' then (c as int + 32) as char else c
  }

  /** ASCII upper-casing of one character (used to state case-insensitivity). */
  function UpperChar(c: char): char {
    if 'a' <= c <= 'z' then (c as int - 32) as char else c
  }

  // ---------------------------------------------------------------------
  // Case folding and trimming
  // ---------------------------------------------------------------------

  function Lower(s: string): (t: string)
    ensures |t| == |s|
    ensures forall i :: 0 <= i < |s| ==> t[i] == LowerChar(s[i])
  {
    seq(|s|, i requires 0 <= i < |s| => LowerChar(s[i]))
  }

  function Upper(s: string): (t: string)
    ensures |t| == |s|
    ensures forall i :: 0 <= i < |s| ==> t[i] == UpperChar(s[i])
  {
    seq(|s|, i requires 0 <= i < |s| => UpperChar(s[i]))
  }

  predicate AllSpace(s: string) {
    forall i :: 0 <= i < |s| ==> IsSpace(s[i])
  }

  /** Drops leading whitespace: the result is the suffix of `s` that starts
      at the first non-space character. */
  function TrimLeft(s: string): (t: string)
    ensures |t| <= |s| && t == s[|s| - |t|..]
    ensures AllSpace(s[..|s| - |t|])
    ensures |t| > 0 ==> !IsSpace(t[0])
    decreases |s|
  {
    if |s| > 0 && IsSpace(s[0]) then TrimLeft(s[1..]) else s
  }

  /** Drops trailing whitespace: the result is the prefix of `s` that ends at
      the last non-space character. */
  function TrimRight(s: string): (t: string)
    ensures |t| <= |s| && t == s[..|t|]
    ensures AllSpace(s[|t|..])
    ensures |t| > 0 ==> !IsSpace(t[|t| - 1])
    decreases |s|
  {
    if |s| > 0 && IsSpace(s[|s| - 1]) then TrimRight(s[..|s| - 1]) else s
  }

  /** `str.strip()` with no argument. */
  function Strip(s: string): string {
    TrimRight(TrimLeft(s))
  }

  /** Neither end of `s` is whitespace (vacuously true of ""). */
  predicate Trimmed(s: string) {
    |s| == 0 || (!IsSpace(s[0]) && !IsSpace(s[|s| - 1]))
  }

  lemma StripTrimmed(s: string)
    requires Trimmed(s)
    ensures Strip(s) == s
  {
  }

  lemma {:induction false} TrimLeftPadded(ws: string, u: string)
    requires AllSpace(ws)
    requires |u| == 0 || !IsSpace(u[0])
    ensures TrimLeft(ws + u) == u
    decreases |ws|
  {
    if |ws| > 0 {
      assert (ws + u)[1..] == ws[1..] + u;
      TrimLeftPadded(ws[1..], u);
    } else {
      assert ws + u == u;
    }
  }

  lemma {:induction false} TrimRightPadded(u: string, ws: string)
    requires AllSpace(ws)
    requires |u| == 0 || !IsSpace(u[|u| - 1])
    ensures TrimRight(u + ws) == u
    decreases |ws|
  {
    if |ws| > 0 {
      assert (u + ws)[..|u + ws| - 1] == u + ws[..|ws| - 1];
      TrimRightPadded(u, ws[..|ws| - 1]);
    } else {
      assert u + ws == u;
    }
  }

  /** Surrounding whitespace of any length is exactly what `Strip` removes. */
  lemma {:induction false} StripPadded(left: string, t: string, right: string)
    requires AllSpace(left) && AllSpace(right) && Trimmed(t)
    ensures Strip(left + t + right) == t
  {
    assert left + t + right == left + (t + right);
    if |t| == 0 {
      assert t + right == right;
      TrimLeftAllSpace(left + right);
      assert left + t + right == left + right;
    } else {
      assert (t + right)[0] == t[0];
      TrimLeftPadded(left, t + right);
      TrimRightPadded(t, right);
    }
  }

  lemma TrimLeftAllSpace(s: string)
    requires AllSpace(s)
    ensures TrimLeft(s) == ""
  {
  }

  /** Case changes never touch whitespace, so they keep a string trimmed. */
  lemma UpperKeepsTrimmed(s: string)
    requires Trimmed(s)
    ensures Trimmed(Upper(s)) && Trimmed(Lower(s))
  {
  }

  lemma LowerKeepsSpace(s: string)
    requires AllSpace(s)
    ensures AllSpace(Lower(s))
  {
  }

  lemma LowerIdempotent(s: string)
    ensures Lower(Lower(s)) == Lower(s)
  {
  }

  /** Lower-casing forgets the case a string was written in. */
  lemma LowerForgetsCase(s: string)
    ensures Lower(Upper(s)) == Lower(s)
  {
  }

  lemma LowerAppend(a: string, b: string)
    ensures Lower(a + b) == Lower(a) + Lower(b)
  {
  }

  // ---------------------------------------------------------------------
  // Decimal digit strings
  // ---------------------------------------------------------------------

  predicate AllDigits(s: string) {
    forall i :: 0 <= i < |s| ==> IsDigit(s[i])
  }

  /** `str.isdigit` on ASCII input: non-empty and only digits. */
  predicate IsDecimal(s: string) {
    |s| > 0 && AllDigits(s)
  }

  /** The number a digit string denotes (leading zeros allowed). */
  function DigitsValue(s: string): nat
    requires AllDigits(s)
    decreases |s|
  {
    if |s| == 0 then 0 else DigitsValue(s[..|s| - 1]) * 10 + DigitValue(s[|s| - 1])
  }

  /** The canonical decimal spelling of `n`, as `str(n)` writes it. */
  function ShowNat(n: nat): (s: string)
    ensures IsDecimal(s)
    ensures s[0] == '0' ==> n == 0
    decreases n
  {
    if n < 10 then [DigitChar(n)] else ShowNat(n / 10) + [DigitChar(n % 10)]
  }

  function Pow10(k: nat): (p: nat)
    ensures p >= 1
  {
    if k == 0 then 1 else 10 * Pow10(k - 1)
  }

  lemma {:induction false} ShowNatValue(n: nat)
    ensures DigitsValue(ShowNat(n)) == n
    decreases n
  {
    if n >= 10 {
      var s := ShowNat(n);
      assert s[..|s| - 1] == ShowNat(n / 10);
      ShowNatValue(n / 10);
    }
  }

  lemma {:induction false} ShowNatLength(n: nat, k: nat)
    requires 1 <= k && n < Pow10(k)
    ensures |ShowNat(n)| <= k
    decreases k
  {
    if n >= 10 {
      assert k >= 2;
      assert n / 10 < Pow10(k - 1);
      ShowNatLength(n / 10, k - 1);
    }
  }

  lemma {:induction false} LeadingZeroValue(s: string)
    requires AllDigits(s)
    ensures AllDigits("0" + s) && DigitsValue("0" + s) == DigitsValue(s)
    decreases |s|
  {
    if |s| > 0 {
      var z := "0" + s;
      assert z[..|z| - 1] == "0" + s[..|s| - 1];
      LeadingZeroValue(s[..|s| - 1]);
    }
  }

  /** `s` with zeros prepended until it is at least `k` characters long. */
  function PadZeros(s: string, k: nat): (t: string)
    requires AllDigits(s)
    ensures AllDigits(t) && DigitsValue(t) == DigitsValue(s)
    ensures |t| == if |s| < k then k else |s|
    ensures |s| > 0 ==> |t| > 0
    decreases k - |s|
  {
    LeadingZeroValue(s);
    if |s| < k then PadZeros("0" + s, k) else s
  }

  /** `f"{n:04d}"` for a non-negative `n`: a digit string denoting `n`,
      exactly four characters long whenever `n` fits in four digits. */
  function Pad4(n: nat): (s: string)
    ensures IsDecimal(s) && DigitsValue(s) == n
    ensures n < 10000 ==> |s| == 4
  {
    ShowNatValue(n);
    if n < 10000 then
      assert Pow10(4) == 10000;
      ShowNatLength(n, 4);
      PadZeros(ShowNat(n), 4)
    else
      PadZeros(ShowNat(n), 4)
  }

  // ---------------------------------------------------------------------
  // Integers
  // ---------------------------------------------------------------------

  /** `str(i)` for any integer. */
  function ShowInt(i: int): string {
    if i < 0 then "-" + ShowNat(-i) else ShowNat(i)
  }

  /** `int(s)` on a string: surrounding whitespace, an optional sign, then
      one or more decimal digits; anything else is the ValueError case. */
  function ParseInteger(s: string): Option<int> {
    ReadSigned(Strip(s))
  }

  /** `int` on text already stripped of whitespace. */
  function ReadSigned(t: string): Option<int> {
    if |t| > 0 && (t[0] == '+' || t[0] == '-') then
      var body := t[1..];
      if IsDecimal(body) then
        var magnitude: int := DigitsValue(body);
        Some(if t[0] == '-' then -magnitude else magnitude)
      else
        None
    else if IsDecimal(t) then
      Some(DigitsValue(t))
    else
      None
  }

  /** Reading back what `str` writes gives the number back. */
  lemma {:induction false} ShowIntRoundTrip(i: int)
    ensures ParseInteger(ShowInt(i)) == Some(i)
  {
    if i < 0 {
      ShowNatValue(-i);
      NegativeParses(-i, ShowNat(-i));
    } else {
      ShowNatValue(i);
      DecimalParses(ShowNat(i));
    }
  }

  /** A minus sign before a digit string negates what it reads as. */
  lemma {:induction false} NegativeParses(n: nat, d: string)
    requires IsDecimal(d) && DigitsValue(d) == n
    ensures ParseInteger("-" + d) == Some(-(n as int))
  {
    var s := "-" + d;
    assert s[0] == '-';
    assert s[|s| - 1] == d[|d| - 1];
    StripTrimmed(s);
    assert s[1..] == d;
  }

  /** The four characters `f"{n:04d}"` writes: thousands, hundreds, tens
      and units digit. */
  lemma Pad4Spelling(n: nat)
    requires n < 10000
    ensures Pad4(n) == [DigitChar(n / 1000), DigitChar(n / 100 % 10), DigitChar(n / 10 % 10), DigitChar(n % 10)]
  {
    var s := Pad4(n);
    FourDigitsValue(s);
    DigitsOfFour(n, DigitValue(s[0]), DigitValue(s[1]), DigitValue(s[2]), DigitValue(s[3]));
    CharOfDigit(s[0]);
    CharOfDigit(s[1]);
    CharOfDigit(s[2]);
    CharOfDigit(s[3]);
  }

  /** The value of a 4-digit string, place by place. */
  lemma FourDigitsValue(s: string)
    requires |s| == 4 && AllDigits(s)
    ensures DigitsValue(s)
      == DigitValue(s[0]) * 1000 + DigitValue(s[1]) * 100 + DigitValue(s[2]) * 10 + DigitValue(s[3])
  {
    var a, b, c, d := DigitValue(s[0]), DigitValue(s[1]), DigitValue(s[2]), DigitValue(s[3]);
    assert s[..3][..2] == s[..2] && s[..2][..1] == s[..1];
    assert DigitsValue(s[..1]) == a by {
      assert s[..1][..0] == [];
    }
    assert DigitsValue(s[..2]) == a * 10 + b;
    assert DigitsValue(s[..3]) == (a * 10 + b) * 10 + c;
    assert s[..4] == s;
  }

  lemma CharOfDigit(c: char)
    requires IsDigit(c)
    ensures DigitChar(DigitValue(c)) == c
  {
  }

  lemma DigitsOfFour(n: nat, a: nat, b: nat, c: nat, d: nat)
    requires a < 10 && b < 10 && c < 10 && d < 10
    requires n == a * 1000 + b * 100 + c * 10 + d
    ensures a == n / 1000 && b == n / 100 % 10 && c == n / 10 % 10 && d == n % 10
  {
    DivisionBy(n, 10, a * 100 + b * 10 + c, d);
    DivisionBy(n, 100, a * 10 + b, c * 10 + d);
    DivisionBy(n, 1000, a, b * 100 + c * 10 + d);
    DivisionBy(a * 100 + b * 10 + c, 10, a * 10 + b, c);
    DivisionBy(a * 10 + b, 10, a, b);
  }

  /** Quotient and remainder are determined by `n == m * q + r`. */
  lemma DivisionBy(n: int, m: int, q: int, r: int)
    requires m > 0 && 0 <= r < m && n == m * q + r
    ensures n / m == q && n % m == r
  {
    var q0, r0 := n / m, n % m;
    assert m * (q - q0) == r0 - r;
    if q > q0 {
      MultipleAtLeast(m, q - q0);
    } else if q < q0 {
      MultipleAtLeast(m, q0 - q);
    }
  }

  lemma {:induction false} MultipleAtLeast(m: int, k: int)
    requires m > 0 && k >= 1
    ensures m * k >= m
    decreases k
  {
    if k > 1 {
      MultipleAtLeast(m, k - 1);
    }
  }

  /** Reading back a zero-padded 4-digit field gives the number back. */
  lemma {:induction false} Pad4RoundTrip(n: nat)
    ensures ParseInteger(Pad4(n)) == Some(n)
  {
    DecimalParses(Pad4(n));
  }

  /** A bare digit string reads as the number it denotes. */
  lemma {:induction false} DecimalParses(s: string)
    requires IsDecimal(s)
    ensures ParseInteger(s) == Some(DigitsValue(s) as int)
  {
    assert IsDigit(s[0]) && IsDigit(s[|s| - 1]);
    StripTrimmed(s);
    assert s[0] != '+' && s[0] != '-';
    assert ReadSigned(s) == Some(DigitsValue(s) as int);
  }

  /** Whitespace around a number does not change what `int` reads. */
  lemma {:induction false} ParseIntegerPadded(left: string, t: string, right: string)
    requires AllSpace(left) && AllSpace(right) && Trimmed(t)
    ensures ParseInteger(left + t + right) == ParseInteger(t)
  {
    StripPadded(left, t, right);
    StripTrimmed(t);
  }

  /** A digit string with whitespace around it reads as the number it
      denotes. */
  lemma {:induction false} PaddedDecimalParses(left: string, d: string, right: string)
    requires AllSpace(left) && AllSpace(right) && IsDecimal(d)
    ensures ParseInteger(left + d + right) == Some(DigitsValue(d) as int)
  {
    assert IsDigit(d[0]) && IsDigit(d[|d| - 1]);
    ParseIntegerPadded(left, d, right);
    DecimalParses(d);
  }

  /** Digits are untouched by case folding. */
  lemma LowerDigits(s: string)
    requires AllDigits(s)
    ensures Lower(s) == s
  {
  }

  // ---------------------------------------------------------------------
  // Searching
  // ---------------------------------------------------------------------

  /** The position of the first `c` in `s`, or `|s|` when there is none. */
  function IndexOf(s: string, c: char): (k: nat)
    ensures k <= |s|
    ensures k < |s| ==> s[k] == c
    ensures forall i :: 0 <= i < k ==> s[i] != c
    decreases |s|
  {
    if |s| == 0 then 0 else if s[0] == c then 0 else 1 + IndexOf(s[1..], c)
  }

  /** `w in s` on two strings: `w` occurs in `s` as a substring. */
  predicate Contains(s: string, w: string)
    decreases |s|
  {
    |w| <= |s| && (s[..|w|] == w || Contains(s[1..], w))
  }

  /** An occurrence at a known position is found. */
  lemma {:induction false} ContainsAt(s: string, w: string, i: nat)
    requires i + |w| <= |s| && s[i..i + |w|] == w
    ensures Contains(s, w)
    decreases i
  {
    if i > 0 {
      assert s[1..][i - 1..i - 1 + |w|] == s[i..i + |w|];
      ContainsAt(s[1..], w, i - 1);
    }
  }

  /** The length of the run of digits `s` starts with. */
  function LeadingDigits(s: string): (k: nat)
    ensures k <= |s| && AllDigits(s[..k])
    ensures k < |s| ==> !IsDigit(s[k])
    decreases |s|
  {
    if |s| > 0 && IsDigit(s[0]) then
      var k := 1 + LeadingDigits(s[1..]);
      assert s[..k] == [s[0]] + s[1..][..k - 1];
      k
    else
      0
  }

  /** A run of digits stops at the first character that is not one. */
  lemma LeadingDigitsBefore(d: string, t: string)
    requires AllDigits(d) && |t| > 0 && !IsDigit(t[0])
    ensures LeadingDigits(d + t) == |d|
  {
    var s := d + t;
    assert s[|d|] == t[0];
    assert s[..|d|] == d;
    LeadingDigitsStops(s, |d|);
  }

  /** The digit run ends at the first non-digit, given that everything
      before it is a digit. */
  lemma {:induction false} LeadingDigitsStops(s: string, n: nat)
    requires n < |s| && AllDigits(s[..n]) && !IsDigit(s[n])
    ensures LeadingDigits(s) == n
    decreases n
  {
    if n > 0 {
      assert IsDigit(s[..n][0]);
      assert s[1..][..n - 1] == s[..n][1..];
      LeadingDigitsStops(s[1..], n - 1);
    }
  }
}
