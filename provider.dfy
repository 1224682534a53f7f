/**
 * The provider number: `parse_provider` is Rust's `str::parse::<i8>` on the
 * whole file text, with no trimming, and `load_provider` falls back to the
 * text "0" when the file cannot be read.
 */
module Provider {
  import opened Wrappers
  import opened Primitives

  /** The kinds of `core::num::ParseIntError` that parsing an `i8` can report. */
  datatype IntErrorKind = Empty | InvalidDigit | PosOverflow | NegOverflow

  predicate IsDigit(c: char) {
    '0' <= c <= '9'
  }

  predicate AllDigits(ds: string) {
    forall k | 0 <= k < |ds| :: IsDigit(ds[k])
  }

  function DigitValue(c: char): nat
    requires IsDigit(c)
  {
    (c as int) - ('0' as int)
  }

  function DigitChar(d: nat): (c: char)
    requires d < 10
    ensures IsDigit(c) && DigitValue(c) == d
  {
    ('0' as int + d) as char
  }

  function Pow10(n: nat): (p: nat)
    ensures p >= 1
  {
    if n == 0 then 1 else 10 * Pow10(n - 1)
  }

  /** Positional value of a string of decimal digits, most significant digit first. */
  function DigitsValue(ds: string): nat
    requires AllDigits(ds)
  {
    if ds == [] then 0 else DigitsValue(ds[..|ds| - 1]) * 10 + DigitValue(ds[|ds| - 1])
  }

  /** The text after an optional leading '+' or '-'. */
  function Unsigned(s: string): string {
    if |s| > 0 && (s[0] == '+' || s[0] == '-') then s[1..] else s
  }

  /** The integer a signed decimal literal denotes. */
  function LiteralValue(s: string): int
    requires AllDigits(Unsigned(s))
  {
    if |s| > 0 && s[0] == '-' then -(DigitsValue(Unsigned(s)) as int) else DigitsValue(Unsigned(s))
  }

  /**
   * The texts an `i8` parse accepts: an optional sign, at least one ASCII
   * digit and nothing else (no white space), denoting a value in -128..127.
   */
  predicate IsI8Literal(s: string) {
    && |Unsigned(s)| > 0
    && AllDigits(Unsigned(s))
    && -128 <= LiteralValue(s) <= 127
  }

  /**
   * The digit loop of `from_str_radix`: each byte is first checked to be a
   * digit, then multiplied in with an overflow check; a negative literal is
   * accumulated by subtraction so that -128 is reachable.
   */
  function Accumulate(digits: string, acc: int, positive: bool): Result<I8, IntErrorKind>
    requires -128 <= acc <= 127
    decreases |digits|
  {
    if digits == [] then Success(acc as I8)
    else if !IsDigit(digits[0]) then Failure(InvalidDigit)
    else
      var next := if positive then acc * 10 + DigitValue(digits[0]) else acc * 10 - DigitValue(digits[0]);
      if next < -128 || 127 < next then Failure(if positive then PosOverflow else NegOverflow)
      else Accumulate(digits[1..], next, positive)
  }

  /** The digit loop never reports an empty text: that is decided before it starts. */
  lemma {:induction false} AccumulateNeverEmpty(digits: string, acc: int, positive: bool)
    requires -128 <= acc <= 127
    ensures Accumulate(digits, acc, positive) != Failure(Empty)
    decreases |digits|
  {
    if digits != [] && IsDigit(digits[0]) {
      var next := if positive then acc * 10 + DigitValue(digits[0]) else acc * 10 - DigitValue(digits[0]);
      if -128 <= next <= 127 {
        AccumulateNeverEmpty(digits[1..], next, positive);
      }
    }
  }

  /**
   * `parse_provider`: `str::parse::<i8>` on the text as it is. Its meaning
   * is stated by ParseI8Meaning and FormatParseRoundTrip below.
   */
  function ParseI8(s: string): (r: Result<I8, IntErrorKind>)
    ensures r == Failure(Empty) <==> s == []
  {
    if s == [] then Failure(Empty)
    else if s == "+" || s == "-" then Failure(InvalidDigit)
    else if s[0] == '+' then AccumulateNeverEmpty(s[1..], 0, true); Accumulate(s[1..], 0, true)
    else if s[0] == '-' then AccumulateNeverEmpty(s[1..], 0, false); Accumulate(s[1..], 0, false)
    else AccumulateNeverEmpty(s, 0, true); Accumulate(s, 0, true)
  }

  /**
   * `load_provider`: the file's text, or "0" when the file cannot be read
   * (`None`), parsed as an `i8`.
   */
  function LoadProvider(contents: Option<string>): (r: Result<I8, IntErrorKind>)
    ensures contents.None? ==> r == Success(0)
    ensures contents.Some? ==> r == ParseI8(contents.value)
  {
    ParseI8(contents.UnwrapOr("0"))
  }

  /** The decimal text of an `i8` as Rust's `Display` writes it. */
  function Format(v: I8): string {
    if v < 0 then "-" + NatToDigits(-(v as int)) else NatToDigits(v as int)
  }

  function NatToDigits(n: nat): (ds: string)
    ensures |ds| >= 1 && AllDigits(ds) && DigitsValue(ds) == n
  {
    if n < 10 then [DigitChar(n)]
    else
      var ds := NatToDigits(n / 10) + [DigitChar(n % 10)];
      assert ds[..|ds| - 1] == NatToDigits(n / 10);
      ds
  }

  /** Regrouping one more digit appended after a leading term. */
  lemma AppendRegroup(lead: int, p: int, rest: int, last: int)
    ensures (lead * p + rest) * 10 + last == lead * (10 * p) + (rest * 10 + last)
  {
  }

  lemma {:induction false} DigitsValueCons(ds: string)
    requires |ds| >= 1 && AllDigits(ds)
    ensures DigitsValue(ds) == DigitValue(ds[0]) * Pow10(|ds| - 1) + DigitsValue(ds[1..])
  {
    if |ds| > 1 {
      var init, last := ds[..|ds| - 1], DigitValue(ds[|ds| - 1]);
      DigitsValueCons(init);
      assert init[1..] == ds[1..][..|ds[1..]| - 1];
      AppendRegroup(DigitValue(ds[0]), Pow10(|ds| - 2), DigitsValue(init[1..]), last);
    }
  }

  lemma ScaleNonNegative(x: int, p: nat)
    requires p >= 1
    ensures x >= 0 ==> x * p >= x
    ensures x <= 0 ==> x * p <= x
  {
  }

  /** Moving one leading digit from the text into the accumulator keeps the denoted value. */
  lemma ShiftDigit(acc: int, d: int, p: int, rest: int)
    ensures acc * (10 * p) + (d * p + rest) == (acc * 10 + d) * p + rest
    ensures acc * (10 * p) - (d * p + rest) == (acc * 10 - d) * p - rest
  {
    assert acc * (10 * p) == (acc * 10) * p;
    assert (acc * 10 + d) * p == acc * 10 * p + d * p;
    assert (acc * 10 - d) * p == acc * 10 * p - d * p;
  }

  /** The value the digit loop ends with: acc * 10^n followed by the digits, with the sign applied. */
  function Shifted(acc: int, ds: string, positive: bool): int
    requires AllDigits(ds)
  {
    if positive then acc * Pow10(|ds|) + DigitsValue(ds) else acc * Pow10(|ds|) - DigitsValue(ds)
  }

  /**
   * On a string of digits the loop computes acc * 10^n followed by the
   * digits, and fails with the overflow of its sign exactly when that value
   * leaves i8's range.
   */
  lemma {:induction false} AccumulateDigits(ds: string, acc: int, positive: bool)
    requires AllDigits(ds) && -128 <= acc <= 127
    requires positive ==> acc >= 0
    requires !positive ==> acc <= 0
    ensures Accumulate(ds, acc, positive)
            == if -128 <= Shifted(acc, ds, positive) <= 127 then Success(Shifted(acc, ds, positive) as I8)
               else Failure(if positive then PosOverflow else NegOverflow)
  {
    if ds != [] {
      var d := DigitValue(ds[0]);
      var next := if positive then acc * 10 + d else acc * 10 - d;
      var rest := ds[1..];
      assert AllDigits(rest) by {
        forall k | 0 <= k < |rest| ensures IsDigit(rest[k]) { assert rest[k] == ds[k + 1]; }
      }
      DigitsValueCons(ds);
      ShiftDigit(acc, d, Pow10(|rest|), DigitsValue(rest));
      assert Shifted(acc, ds, positive) == Shifted(next, rest, positive);
      if next < -128 || 127 < next {
        ScaleNonNegative(next, Pow10(|rest|));
      } else {
        AccumulateDigits(rest, next, positive);
      }
    }
  }

  /** A character that is not a digit makes the loop fail, whatever comes before it. */
  lemma {:induction false} AccumulateNonDigit(ds: string, acc: int, positive: bool)
    requires !AllDigits(ds) && -128 <= acc <= 127
    ensures Accumulate(ds, acc, positive).Failure? && Accumulate(ds, acc, positive).error != Empty
  {
    if IsDigit(ds[0]) {
      var next := if positive then acc * 10 + DigitValue(ds[0]) else acc * 10 - DigitValue(ds[0]);
      if -128 <= next <= 127 {
        var k :| 0 <= k < |ds| && !IsDigit(ds[k]);
        assert ds[1..][k - 1] == ds[k];
        AccumulateNonDigit(ds[1..], next, positive);
      }
    }
  }

  /**
   * The parser accepts exactly the i8 literals and returns the value they
   * denote; an empty text is the `Empty` error, and a string of digits out
   * of range is the overflow of its sign.
   */
  lemma ParseI8Meaning(s: string)
    ensures ParseI8(s).Success? <==> IsI8Literal(s)
    ensures ParseI8(s).Success? ==> ParseI8(s).value as int == LiteralValue(s)
    ensures ParseI8(s) == Failure(Empty) <==> s == []
    ensures |Unsigned(s)| > 0 && AllDigits(Unsigned(s)) && LiteralValue(s) > 127 ==> ParseI8(s) == Failure(PosOverflow)
    ensures |Unsigned(s)| > 0 && AllDigits(Unsigned(s)) && LiteralValue(s) < -128 ==> ParseI8(s) == Failure(NegOverflow)
  {
    if s != [] && s != "+" && s != "-" {
      var u := Unsigned(s);
      var positive := s[0] != '-';
      assert Accumulate(u, 0, positive) == ParseI8(s);
      if AllDigits(u) {
        AccumulateDigits(u, 0, positive);
      } else {
        AccumulateNonDigit(u, 0, positive);
      }
    }
  }

  /** Parsing the decimal text of any i8 gives that i8 back. */
  lemma FormatParseRoundTrip(v: I8)
    ensures ParseI8(Format(v)) == Success(v)
  {
    var s := Format(v);
    if v < 0 {
      assert Unsigned(s) == NatToDigits(-(v as int));
    } else {
      assert Unsigned(s) == NatToDigits(v as int);
    }
    ParseI8Meaning(s);
  }

  /**
   * Nothing is trimmed: a provider file holding "7" followed by a line break
   * does not parse, while "7" itself does; an unreadable file gives 0.
   */
  lemma NoTrimming()
    ensures ParseI8("7") == Success(7)
    ensures ParseI8("7\n") == Failure(InvalidDigit)
    ensures ParseI8(" 7") == Failure(InvalidDigit)
    ensures LoadProvider(None) == Success(0)
  {
  }

  /** The edges of the i8 range and the lone signs. */
  lemma RangeEdges()
    ensures ParseI8("127") == Success(127) && ParseI8("-128") == Success(-128)
    ensures ParseI8("128") == Failure(PosOverflow) && ParseI8("-129") == Failure(NegOverflow)
    ensures ParseI8("+") == Failure(InvalidDigit) && ParseI8("-") == Failure(InvalidDigit)
    ensures ParseI8("+5") == Success(5) && ParseI8("-0") == Success(0)
  {
  }
}
