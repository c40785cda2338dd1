/**
 * The CPF (Brazilian individual taxpayer number) check: strip everything
 * but ASCII digits, demand exactly eleven digits that are not all the same,
 * and check the two trailing mod-11 check digits.
 */
module Cpf {
  import opened Wrappers

  /** The characters `\d` matches in a non-Unicode JavaScript regular expression. */
  predicate IsDigit(c: char) {
    '0' <= c <= '9'
  }

  predicate AllDigits(s: string) {
    forall i :: 0 <= i < |s| ==> IsDigit(s[i])
  }

  /** `parseInt` of a one-character digit string. */
  function DigitValue(c: char): (v: nat)
    requires IsDigit(c)
    ensures v <= 9
  {
    (c as int) - ('0' as int)
  }

  /** `cpf.replace(/[^\d]/g, '')`: the digits of `s`, in order. */
  function StripNonDigits(s: string): (r: string)
    ensures |r| <= |s|
    ensures AllDigits(r)
  {
    if |s| == 0 then ""
    else (if IsDigit(s[0]) then [s[0]] else "") + StripNonDigits(s[1..])
  }

  /** `/^(\d)\1+$/.test(s)`: at least two characters, all equal to a leading digit. */
  function RepeatsOneDigit(s: string): (b: bool)
    // exactly the digit strings of length two or more whose characters are all equal
    ensures b ==> AllDigits(s)
    ensures b <==> |s| >= 2 && AllDigits(s) && forall i, j :: 0 <= i < |s| && 0 <= j < |s| ==> s[i] == s[j]
  {
    |s| >= 2 && IsDigit(s[0]) && forall i :: 0 < i < |s| ==> s[i] == s[0]
  }

  /** The sum over the first `n` digits of `d`, with weights `top` down to `top - n + 1`. */
  function WeightedSum(d: string, n: nat, top: int): int
    requires n <= |d| && AllDigits(d)
  {
    if n == 0 then 0
    else WeightedSum(d, n - 1, top) + DigitValue(d[n - 1]) * (top - (n - 1))
  }

  /** Every weight lies between 1 and `top` and every digit is at most 9, so the sum is at most `9 * n * top`. */
  lemma {:induction false} WeightedSumBounds(d: string, n: nat, top: int)
    requires n <= |d| && AllDigits(d) && n <= top
    ensures 0 <= WeightedSum(d, n, top) <= 9 * n * top
  {
    if n > 0 {
      WeightedSumBounds(d, n - 1, top);
      var v := DigitValue(d[n - 1]);
      var w := top - (n - 1);
      DigitTimesWeight(v, w);
      assert 9 * (n - 1) * top + 9 * top == 9 * n * top by {
        assert 9 * (n - 1) * top == 9 * n * top - 9 * top;
      }
    }
  }

  lemma DigitTimesWeight(v: nat, w: int)
    requires v <= 9 && 1 <= w
    ensures 0 <= v * w <= 9 * w
  {
    assert (9 - v) * w >= 0;
  }

  /**
   * The check digit that must follow the first `n` digits (`n` is 9 or 10):
   * ten times the weighted sum, modulo 11, with 10 (and 11) mapped to 0.
   */
  function CheckDigit(d: string, n: nat): (c: nat)
    requires n <= |d| && AllDigits(d)
    ensures c <= 9
    // the remainder is never 11, so the normalisation is just "mod 10"
    ensures c == (WeightedSum(d, n, n + 1) * 10) % 11 % 10
  {
    var remainder := (WeightedSum(d, n, n + 1) * 10) % 11;
    if remainder == 10 || remainder == 11 then 0 else remainder
  }

  /** The CPF rule itself; `None` is a `null` or `undefined` argument. */
  function IsValidCpf(raw: Option<string>): (b: bool)
    // stripping only removes characters, so an accepted input has at least eleven
    ensures b ==> raw.Some? && |raw.value| >= 11
  {
    && raw.Some? && raw.value != ""
    && var d := StripNonDigits(raw.value);
    && |d| == 11
    && !RepeatsOneDigit(d)
    && CheckDigit(d, 9) == DigitValue(d[9])
    && CheckDigit(d, 10) == DigitValue(d[10])
  }

  /** `validateCPF`, step by step, with its two accumulating loops. */
  method ValidateCpf(cpf: Option<string>) returns (valid: bool)
    ensures valid == IsValidCpf(cpf)
  {
    if cpf.None? || cpf.value == "" {
      return false;
    }
    var digits := StripNonDigits(cpf.value);
    if |digits| != 11 {
      return false;
    }
    if RepeatsOneDigit(digits) {
      return false;
    }

    var sum := 0;
    var i := 1;
    while i <= 9
      invariant 1 <= i <= 10
      invariant sum == WeightedSum(digits, i - 1, 10)
    {
      sum := sum + DigitValue(digits[i - 1]) * (11 - i);
      i := i + 1;
    }
    var remainder := (sum * 10) % 11;
    if remainder == 10 || remainder == 11 {
      remainder := 0;
    }
    if remainder != DigitValue(digits[9]) {
      return false;
    }

    sum := 0;
    i := 1;
    while i <= 10
      invariant 1 <= i <= 11
      invariant sum == WeightedSum(digits, i - 1, 11)
    {
      sum := sum + DigitValue(digits[i - 1]) * (12 - i);
      i := i + 1;
    }
    remainder := (sum * 10) % 11;
    if remainder == 10 || remainder == 11 {
      remainder := 0;
    }
    if remainder != DigitValue(digits[10]) {
      return false;
    }
    return true;
  }

  // ---------------------------------------------------------------------
  // Properties of the rule

  /** Stripping a string of digits leaves it unchanged. */
  lemma {:induction false} StripKeepsDigits(s: string)
    requires AllDigits(s)
    ensures StripNonDigits(s) == s
  {
    if |s| > 0 {
      StripKeepsDigits(s[1..]);
      assert s == [s[0]] + s[1..];
    }
  }

  /** Only the digit characters matter: punctuation never changes the verdict. */
  lemma FormattingIgnored(s: string)
    ensures IsValidCpf(Some(s)) == IsValidCpf(Some(StripNonDigits(s)))
  {
    StripKeepsDigits(StripNonDigits(s));
  }

  /** Missing input, empty input and anything without exactly eleven digits is rejected. */
  lemma RejectsMissingOrMisSized(s: string)
    requires s == "" || |StripNonDigits(s)| != 11
    ensures !IsValidCpf(None) && !IsValidCpf(Some(s))
  {
  }

  /** Eleven copies of one digit are rejected, whatever the check digits say. */
  lemma RepeatedDigitRejected(c: char)
    requires IsDigit(c)
    ensures !IsValidCpf(Some(seq(11, _ => c)))
  {
    var s := seq(11, _ => c);
    StripKeepsDigits(s);
    assert RepeatsOneDigit(StripNonDigits(s));
  }

  /** The weighted sum reads only the digits it weighs. */
  lemma {:induction false} WeightedSumReadsPrefix(d: string, e: string, n: nat, top: int)
    requires n <= |d| && n <= |e| && AllDigits(d) && AllDigits(e)
    requires d[..n] == e[..n]
    ensures WeightedSum(d, n, top) == WeightedSum(e, n, top)
  {
    if n > 0 {
      assert d[..n - 1] == d[..n][..n - 1] && e[..n - 1] == e[..n][..n - 1];
      assert d[n - 1] == d[..n][n - 1] && e[n - 1] == e[..n][n - 1];
      WeightedSumReadsPrefix(d, e, n - 1, top);
    }
  }

  /**
   * The first nine digits determine the two check digits: two accepted
   * numbers that agree on their first nine digits are the same number.
   */
  lemma CheckDigitsDetermined(s: string, t: string)
    requires IsValidCpf(Some(s)) && IsValidCpf(Some(t))
    requires StripNonDigits(s)[..9] == StripNonDigits(t)[..9]
    ensures StripNonDigits(s) == StripNonDigits(t)
  {
    var d, e := StripNonDigits(s), StripNonDigits(t);
    WeightedSumReadsPrefix(d, e, 9, 10);
    assert d[9] == e[9];
    assert d[..10] == d[..9] + [d[9]] && e[..10] == e[..9] + [e[9]];
    WeightedSumReadsPrefix(d, e, 10, 11);
    assert d[10] == e[10];
    assert d == d[..10] + [d[10]] && e == e[..10] + [e[10]];
  }

  /** Changing only the last check digit of an accepted number makes it rejected. */
  lemma CorruptedLastDigitRejected(s: string, t: string)
    requires IsValidCpf(Some(s))
    requires |StripNonDigits(t)| == 11
    requires StripNonDigits(s)[..10] == StripNonDigits(t)[..10]
    requires StripNonDigits(s)[10] != StripNonDigits(t)[10]
    ensures !IsValidCpf(Some(t))
  {
    if IsValidCpf(Some(t)) {
      assert StripNonDigits(s)[..9] == StripNonDigits(s)[..10][..9];
      assert StripNonDigits(t)[..9] == StripNonDigits(t)[..10][..9];
      CheckDigitsDetermined(s, t);
    }
  }

  /** On a string of digits the verdict is the digit rule alone. */
  lemma DigitStringVerdict(d: string)
    requires AllDigits(d)
    ensures IsValidCpf(Some(d)) <==>
      && |d| == 11 && !RepeatsOneDigit(d)
      && CheckDigit(d, 9) == DigitValue(d[9]) && CheckDigit(d, 10) == DigitValue(d[10])
  {
    StripKeepsDigits(d);
  }

  /** The check digits of "11144477735", computed. */
  lemma FirstSampleCheckDigits()
    ensures CheckDigit("11144477735", 9) == 3 && CheckDigit("11144477735", 10) == 5
  {
    assert WeightedSum("11144477735", 9, 10) == 162;
    assert WeightedSum("11144477735", 10, 11) == 204;
  }

  /** The check digits of "52998224725", computed. */
  lemma SecondSampleCheckDigits()
    ensures CheckDigit("52998224725", 9) == 2 && CheckDigit("52998224725", 10) == 5
  {
    assert WeightedSum("52998224725", 9, 10) == 295;
    assert WeightedSum("52998224725", 10, 11) == 347;
  }

  /** "11144477735" is accepted. */
  lemma FirstSample()
    ensures IsValidCpf(Some("11144477735"))
  {
    var d := "11144477735";
    FirstSampleCheckDigits();
    assert d[3] != d[0];
    DigitStringVerdict(d);
  }

  /** "11144477736", the first sample with its last digit corrupted, is rejected. */
  lemma CorruptedSample()
    ensures !IsValidCpf(Some("11144477736"))
  {
    var s, t := "11144477735", "11144477736";
    FirstSampleCheckDigits();
    assert s[..10] == t[..10];
    assert s[..9] == t[..9];
    WeightedSumReadsPrefix(s, t, 9, 10);
    WeightedSumReadsPrefix(s, t, 10, 11);
    DigitStringVerdict(t);
  }

  /** "52998224725" is accepted. */
  lemma SecondSample()
    ensures IsValidCpf(Some("52998224725"))
  {
    var d := "52998224725";
    SecondSampleCheckDigits();
    assert d[1] != d[0];
    DigitStringVerdict(d);
  }

  /** The usual printed form of an eleven-digit number, "ddd.ddd.ddd-dd". */
  function Punctuated(d: string): string
    requires |d| == 11
  {
    d[..3] + "." + d[3..6] + "." + d[6..9] + "-" + d[9..]
  }

  /** Stripping distributes over concatenation. */
  lemma {:induction false} StripConcat(a: string, b: string)
    ensures StripNonDigits(a + b) == StripNonDigits(a) + StripNonDigits(b)
  {
    if |a| == 0 {
      assert a + b == b;
    } else {
      var ab := a + b;
      assert ab[0] == a[0] && ab[1..] == a[1..] + b;
      StripConcat(a[1..], b);
      assert StripNonDigits(ab) == (if IsDigit(a[0]) then [a[0]] else "") + StripNonDigits(a[1..] + b);
    }
  }

  /** Stripping the printed form of a number gives back its digits. */
  lemma PunctuatedStrips(d: string)
    requires |d| == 11 && AllDigits(d)
    ensures StripNonDigits(Punctuated(d)) == d
  {
    var a, b, c, e := d[..3], d[3..6], d[6..9], d[9..];
    StripConcat(a + "." + b + "." + c + "-", e);
    StripConcat(a + "." + b + "." + c, "-");
    StripConcat(a + "." + b + ".", c);
    StripConcat(a + "." + b, ".");
    StripConcat(a + ".", b);
    StripConcat(a, ".");
    StripKeepsDigits(a);
    StripKeepsDigits(b);
    StripKeepsDigits(c);
    StripKeepsDigits(e);
    assert a + b + c + e == d;
  }

  /** Printing a number with its dots and dash does not change the verdict. */
  lemma PunctuatedVerdict(d: string)
    requires |d| == 11 && AllDigits(d)
    ensures StripNonDigits(Punctuated(d)) == d
    ensures IsValidCpf(Some(Punctuated(d))) == IsValidCpf(Some(d))
  {
    PunctuatedStrips(d);
    FormattingIgnored(Punctuated(d));
    StripKeepsDigits(d);
  }

  /** "111.444.777-35", the first sample in its printed form, is accepted like its bare digits. */
  lemma PunctuatedSample()
    ensures IsValidCpf(Some("111.444.777-35"))
  {
    var d := "11144477735";
    assert Punctuated(d) == "111.444.777-35";
    PunctuatedVerdict(d);
    FirstSample();
  }
}
