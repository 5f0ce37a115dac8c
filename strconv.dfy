/** The parts of Go's `strconv` package that the configuration reads with, on a
    64-bit platform: Atoi, ParseBool, and Itoa as Atoi's inverse. */
module Strconv {
  import opened Wrappers

  const MinInt64: int := -0x8000_0000_0000_0000
  const MaxInt64: int := 0x7FFF_FFFF_FFFF_FFFF

  predicate IsDigit(c: char) {
    '0' <= c <= '9'
  }

  predicate AllDigits(s: string) {
    forall k :: 0 <= k < |s| ==> IsDigit(s[k])
  }

  /** The value of a run of decimal digits, most significant first. */
  function DigitsValue(s: string): nat
    requires AllDigits(s)
  {
    if s == [] then 0 else DigitsValue(s[..|s| - 1]) * 10 + (s[|s| - 1] as int - '0' as int)
  }

  /** The text after an optional leading sign. */
  function Unsigned(s: string): string {
    if |s| > 0 && (s[0] == '+' || s[0] == '-') then s[1..] else s
  }

  /** strconv.Atoi: an optional sign then one or more decimal digits, and the value
      must fit in an int64; anything else (empty, blanks, underscores, overflow) is an error. */
  function Atoi(s: string): (r: Option<int>)
    ensures r.Some? ==> MinInt64 <= r.value <= MaxInt64
    ensures r.Some? ==> |s| > 0 && (s[0] == '+' || s[0] == '-' || IsDigit(s[0]))
    ensures r.Some? ==> |Unsigned(s)| > 0 && AllDigits(Unsigned(s))
    ensures r.Some? && r.value < 0 ==> s[0] == '-'
  {
    var signed := |s| > 0 && (s[0] == '+' || s[0] == '-');
    var digits := if signed then s[1..] else s;
    if |digits| == 0 || !AllDigits(digits) then None
    else
      var n: int := if signed && s[0] == '-' then -(DigitsValue(digits) as int) else DigitsValue(digits);
      if MinInt64 <= n <= MaxInt64 then Some(n) else None
  }

  function DigitChar(d: nat): char
    requires d < 10
  {
    ('0' as int + d) as char
  }

  /** The decimal digits of `n`, without leading zeros. */
  function Digits(n: nat): (s: string)
    ensures |s| > 0 && AllDigits(s)
  {
    if n < 10 then [DigitChar(n)] else Digits(n / 10) + [DigitChar(n % 10)]
  }

  /** strconv.Itoa */
  function Itoa(n: int): string {
    if n < 0 then "-" + Digits(-n) else Digits(n)
  }

  lemma {:induction false} DigitsValueOfDigits(n: nat)
    ensures DigitsValue(Digits(n)) == n
  {
    if n >= 10 {
      DigitsValueOfDigits(n / 10);
      var s := Digits(n);
      assert s[..|s| - 1] == Digits(n / 10);
    }
  }

  /** Digits writes no leading zero. */
  lemma {:induction false} DigitsNoLeadingZero(n: nat)
    ensures Digits(n)[0] != '0' || n == 0
  {
    if n >= 10 {
      DigitsNoLeadingZero(n / 10);
    }
  }

  /** The decimal form Itoa writes: an optional '-', then digits without a leading
      zero, and no "-0". */
  predicate Canonical(s: string) {
    var d := if |s| > 0 && s[0] == '-' then s[1..] else s;
    |d| > 0 && AllDigits(d) && (d[0] != '0' || s == "0")
  }

  /** Atoi reads back every int64 that Itoa writes, and Itoa writes canonical decimal. */
  lemma AtoiItoa(n: int)
    requires MinInt64 <= n <= MaxInt64
    ensures Atoi(Itoa(n)) == Some(n)
    ensures Canonical(Itoa(n))
  {
    var s := Itoa(n);
    if n < 0 {
      DigitsValueOfDigits(-n);
      DigitsNoLeadingZero(-n);
      assert s[1..] == Digits(-n);
    } else {
      DigitsValueOfDigits(n);
      DigitsNoLeadingZero(n);
      assert Digits(n)[0] != '+' && Digits(n)[0] != '-';
      assert n == 0 ==> s == "0";
    }
  }

  /** Digits without a leading zero have a positive value. */
  lemma {:induction false} PositiveValue(d: string)
    requires |d| > 0 && AllDigits(d) && d[0] != '0'
    ensures DigitsValue(d) >= 1
    decreases |d|
  {
    if |d| > 1 {
      PositiveValue(d[..|d| - 1]);
    }
  }

  /** Digits without a leading zero are what Digits writes for their value. */
  lemma {:induction false} DigitsOfValue(d: string)
    requires |d| > 0 && AllDigits(d) && (d[0] != '0' || d == "0")
    ensures Digits(DigitsValue(d)) == d
    decreases |d|
  {
    var last := d[|d| - 1];
    if |d| == 1 {
      assert d == [last];
    } else {
      var init := d[..|d| - 1];
      DigitsOfValue(init);
      PositiveValue(init);
      var n := DigitsValue(d);
      assert n / 10 == DigitsValue(init) && n % 10 == last as int - '0' as int;
      assert d == init + [last];
    }
  }

  /** Every string Atoi accepts in canonical form is what Itoa writes for its value:
      with AtoiItoa, Atoi and Itoa are inverse bijections between the int64 range and
      its canonical decimal strings. */
  lemma ItoaAtoi(s: string)
    requires Canonical(s) && Atoi(s).Some?
    ensures Itoa(Atoi(s).value) == s
  {
    if s[0] == '-' {
      var d := s[1..];
      DigitsOfValue(d);
      PositiveValue(d);
      assert s == "-" + d;
    } else {
      DigitsOfValue(s);
    }
  }

  /** A leading '0' does not change a run of digits' value. */
  lemma {:induction false} LeadingZeroValue(d: string)
    requires AllDigits(d)
    ensures AllDigits("0" + d) && DigitsValue("0" + d) == DigitsValue(d)
    decreases |d|
  {
    var z := "0" + d;
    assert AllDigits(z) by {
      forall k | 0 <= k < |z| ensures IsDigit(z[k]) {
        if k > 0 { assert z[k] == d[k - 1]; }
      }
    }
    if |d| > 0 {
      LeadingZeroValue(d[..|d| - 1]);
      assert z[..|z| - 1] == "0" + d[..|d| - 1];
    }
  }

  /** Atoi ignores a '+' sign and leading zeros: "+389" and "0389" both read as 389. */
  lemma AtoiPlusAndZeros(d: string)
    requires |d| > 0 && AllDigits(d)
    ensures Atoi("+" + d) == Atoi(d)
    ensures Atoi("0" + d) == Atoi(d)
    ensures Atoi("-0" + d) == Atoi("-" + d)
    ensures Atoi("-0") == Some(0)
  {
    assert "-0"[1..] == "0";
    assert AllDigits("0");
    assert DigitsValue("0") == 0 by { assert "0"[..0] == ""; }
    LeadingZeroValue(d);
    assert ("+" + d)[1..] == d;
    assert ("-" + d)[1..] == d;
    assert ("-0" + d)[1..] == "0" + d;
  }

  const TrueSpellings: set<string> := {"1", "t", "T", "TRUE", "true", "True"}
  const FalseSpellings: set<string> := {"0", "f", "F", "FALSE", "false", "False"}

  /** strconv.ParseBool: the six spellings of each truth value, case-sensitive. */
  function ParseBool(s: string): (r: Option<bool>)
    ensures r == Some(true) <==> s in TrueSpellings
    ensures r == Some(false) <==> s in FalseSpellings
    ensures r.None? <==> s !in TrueSpellings + FalseSpellings
  {
    match s
    case "1" => Some(true)
    case "t" => Some(true)
    case "T" => Some(true)
    case "TRUE" => Some(true)
    case "true" => Some(true)
    case "True" => Some(true)
    case "0" => Some(false)
    case "f" => Some(false)
    case "F" => Some(false)
    case "FALSE" => Some(false)
    case "false" => Some(false)
    case "False" => Some(false)
    case _ => None
  }

  /** strconv.FormatBool */
  function FormatBool(b: bool): string {
    if b then "true" else "false"
  }

  /** ParseBool reads back what FormatBool writes. */
  lemma ParseBoolFormatBool(b: bool)
    ensures ParseBool(FormatBool(b)) == Some(b)
  {
  }
}
