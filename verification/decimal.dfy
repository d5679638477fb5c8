/** Base-10 text of 64-bit integers: what Go's `strconv.FormatInt(x, 10)`
    writes, what `strconv.ParseInt(s, 10, 64)` accepts, and the `%v`
    rendering of a slice of integers that `fmt` produces. */
module Decimal {
  import opened Base
  import Strings

  predicate IsDigit(c: char) {
    '0' <= c <= '9'
  }

  predicate AllDigits(s: string) {
    forall i :: 0 <= i < |s| ==> IsDigit(s[i])
  }

  function DigitChar(d: nat): (c: char)
    requires d < 10
    ensures IsDigit(c) && c as int - '0' as int == d
  {
    ('0' as int + d) as char
  }

  /** The number a run of decimal digits denotes; leading zeros are allowed. */
  function DigitsValue(s: string): nat
    requires AllDigits(s)
    decreases |s|
  {
    if s == [] then 0 else DigitsValue(s[..|s| - 1]) * 10 + (s[|s| - 1] as int - '0' as int)
  }

  /** Shortest decimal text of `n`: at least one digit, only digits, no
      leading zero unless the text is "0" itself, and reading it back gives `n`. */
  function FormatNat(n: nat): (s: string)
    ensures |s| >= 1 && AllDigits(s)
    ensures DigitsValue(s) == n
    ensures s[0] == '0' ==> s == "0"
    decreases n
  {
    if n < 10 then [DigitChar(n)]
    else
      var s := FormatNat(n / 10) + [DigitChar(n % 10)];
      assert s[..|s| - 1] == FormatNat(n / 10);
      s
  }

  function Abs(x: int): nat {
    if x < 0 then -x else x
  }

  /** The digits of a signed decimal: what follows one leading sign. */
  function Magnitude(s: string): (m: string)
    ensures |m| <= |s|
  {
    if |s| > 0 && (s[0] == '+' || s[0] == '-') then s[1..] else s
  }

  /** An optional sign followed by at least one digit. */
  predicate IsDecimal(s: string) {
    Magnitude(s) != [] && AllDigits(Magnitude(s))
  }

  /** strconv.FormatInt(x, 10): a minus sign exactly for negative numbers,
      never a plus sign, then the shortest digits of the magnitude (a leading zero
      only in "0" itself); only digits after the sign, always ending in
      a digit. */
  function FormatInt(x: int): (s: string)
    ensures IsDecimal(s) && DigitsValue(Magnitude(s)) == Abs(x)
    ensures Magnitude(s)[0] == '0' ==> s == "0"
    ensures s[0] == '-' <==> x < 0
    ensures s[0] != '+'
    ensures |s| >= 1 && IsDigit(s[|s| - 1])
    ensures forall i :: 0 <= i < |s| ==> IsDigit(s[i]) || (i == 0 && s[i] == '-')
  {
    if x < 0 then
      var s := "-" + FormatNat(-x);
      assert Magnitude(s) == FormatNat(-x);
      s
    else
      var s := FormatNat(x);
      assert Magnitude(s) == s;
      s
  }

  /** strconv.ParseInt(s, 10, 64). It accepts exactly an optional leading
      sign followed by at least one digit (leading zeros allowed) whose value
      fits in an int64; the result's magnitude is the digits' value and it is
      negative only after a minus sign. The empty text, a lone sign, blanks,
      commas and letters are rejected. */
  function ParseInt(s: string): (r: Result<Int64>)
    ensures r.Ok? ==> IsDecimal(s) && DigitsValue(Magnitude(s)) == Abs(r.value)
    ensures r.Ok? ==> (r.value < 0 ==> s[0] == '-') && (s[0] == '-' ==> r.value <= 0)
    ensures IsDecimal(s) && DigitsValue(Magnitude(s)) <= (if s[0] == '-' then -MinInt64 else MaxInt64) ==> r.Ok?
    ensures r.Ok? ==> |s| >= 1 && IsDigit(s[|s| - 1])
    ensures r.Ok? ==> forall i :: 0 <= i < |s| ==> IsDigit(s[i]) || (i == 0 && (s[i] == '-' || s[i] == '+'))
  {
    if s == [] then Err
    else
      var digits := Magnitude(s);
      if digits == [] || !AllDigits(digits) then Err
      else
        var n: int := if s[0] == '-' then -(DigitsValue(digits) as int) else DigitsValue(digits);
        if MinInt64 <= n <= MaxInt64 then Ok(n) else Err
  }

  /** Reading back what FormatInt wrote gives the number, for every int64. */
  lemma ParseFormatInt(x: Int64)
    ensures ParseInt(FormatInt(x)) == Ok(x)
  {
    var s := FormatInt(x);
    if x < 0 {
      var m: nat := -(x as int);
      assert s[1..] == FormatNat(m);
    } else {
      assert s == FormatNat(x);
      assert s[0] != '+' && s[0] != '-';
    }
  }

  /** The decimal text of a number outside the int64 range is rejected, so
      together with ParseFormatInt: the text FormatInt writes for `x` parses
      exactly when `x` fits in 64 bits. */
  lemma ParseRejectsOutOfRange(x: int)
    requires x < MinInt64 || x > MaxInt64
    ensures ParseInt(FormatInt(x)) == Err
  {
    var s := FormatInt(x);
    if x < 0 {
      var m: nat := -x;
      assert s[1..] == FormatNat(m);
    } else {
      assert s == FormatNat(x);
      assert s[0] != '+' && s[0] != '-';
    }
  }

  /** Texts that are not an optional sign followed by digits are rejected;
      a plus sign and leading zeros are accepted. */
  lemma ParseIntSamples()
    ensures ParseInt("") == Err && ParseInt("-") == Err
    ensures ParseInt(" 2") == Err && ParseInt("x") == Err
    ensures ParseInt("+7") == Ok(7) && ParseInt("07") == Ok(7)
  {
    assert "+7"[1..] == "7";
    assert "07"[..1] == "0";
    assert !IsDigit(' ') && !IsDigit('x');
  }

  function FormatAll(xs: seq<int>): (r: seq<string>)
    ensures |r| == |xs|
    ensures forall i :: 0 <= i < |xs| ==> r[i] == FormatInt(xs[i])
  {
    seq(|xs|, i requires 0 <= i < |xs| => FormatInt(xs[i]))
  }

  /** `fmt`'s `%v` of an integer slice: the decimals separated by blanks,
      in square brackets; an empty (or nil) slice shows as "[]". */
  function FormatList(xs: seq<int>): (s: string)
    ensures |s| >= 2 && s[0] == '[' && s[|s| - 1] == ']'
    ensures xs == [] <==> s == "[]"
  {
    var inner := Strings.Join(FormatAll(xs), ' ');
    assert xs != [] ==> |inner| >= 1 by {
      if xs != [] { Strings.JoinFirst(FormatAll(xs), ' '); }
    }
    "[" + inner + "]"
  }
}
