/** The texts the reader accepts, described without it: tokens, and trees with spaces between them. */
module JsonGrammar {
  import opened Common
  import opened Json

  // ---------------------------------------------------------------- numbers

  predicate Digits(s: string) {
    forall i :: 0 <= i < |s| ==> Digit(s[i])
  }

  /** No zero in front of another digit. */
  predicate IsInteger(s: string) {
    s == "0" || (s != "" && Digits(s) && s[0] != '0')
  }

  predicate IsFraction(s: string) {
    s == "" || (|s| >= 2 && s[0] == '.' && Digits(s[1..]))
  }

  predicate IsExponent(s: string) {
    || s == ""
    || (|s| >= 2 && s[0] in "eE" && Digits(s[1..]))
    || (|s| >= 3 && s[0] in "eE" && s[1] in "+-" && Digits(s[2..]))
  }

  /** The parts of a number: section 6 of RFC 8259. */
  ghost predicate NumberOf(s: string, minus: string, whole: string, fraction: string, exponent: string) {
    && s == minus + (whole + (fraction + exponent))
    && (minus == "" || minus == "-") && IsInteger(whole) && IsFraction(fraction) && IsExponent(exponent)
  }

  ghost predicate IsNumber(s: string) {
    exists minus, whole, fraction, exponent :: NumberOf(s, minus, whole, fraction, exponent)
  }

  lemma {:induction false} RunIsDigits(s: string)
    ensures Digits(s[..DigitRun(s)]) && (DigitRun(s) < |s| ==> !Digit(s[DigitRun(s)]))
  {
    if s != "" && Digit(s[0]) {
      RunIsDigits(s[1..]);
      var n := DigitRun(s[1..]);
      assert s[..n + 1] == [s[0]] + s[1..][..n];
    }
  }

  lemma {:induction false} RunEndsBy(s: string, k: nat)
    requires k < |s| && !Digit(s[k])
    ensures DigitRun(s) <= k
  {
    if k > 0 && Digit(s[0]) {
      RunEndsBy(s[1..], k - 1);
    }
  }

  lemma {:induction false} RunIsLongest(s: string, n: nat)
    requires n <= |s| && Digits(s[..n])
    ensures n <= DigitRun(s)
  {
    if n > 0 {
      assert s[0] == s[..n][0];
      assert s[1..][..n - 1] == s[..n][1..];
      RunIsLongest(s[1..], n - 1);
    }
  }

  lemma {:induction false} FractionFound(s: string)
    ensures IsFraction(s[..FractionPart(s)])
  {
    if FractionPart(s) > 0 {
      RunIsDigits(s[1..]);
      assert s[..FractionPart(s)][1..] == s[1..][..DigitRun(s[1..])];
    }
  }

  lemma {:induction false} ExponentFound(s: string)
    ensures IsExponent(s[..ExponentPart(s)])
  {
    var n := ExponentPart(s);
    if n > 0 {
      var sign := SignPart(s[1..]);
      var digits := s[1..][sign..];
      RunIsDigits(digits);
      assert s[..n][1 + sign..] == digits[..DigitRun(digits)];
    }
  }

  lemma {:induction false} IntegerFound(s: string)
    requires IntegerPart(s) > 0
    ensures IsInteger(s[..IntegerPart(s)])
  {
    RunIsDigits(s);
  }

  lemma {:induction false} TakeSum(s: string, m: nat, n: nat)
    requires m + n <= |s|
    ensures s[..m + n] == s[..m] + s[m..][..n]
  {
  }

  lemma {:induction false} UnsignedFound(s: string) returns (whole: string, fraction: string, exponent: string)
    requires UnsignedPart(s) > 0
    ensures s[..UnsignedPart(s)] == whole + (fraction + exponent)
    ensures IsInteger(whole) && IsFraction(fraction) && IsExponent(exponent)
  {
    hide DigitRun, IntegerPart, FractionPart, ExponentPart, IsInteger, IsFraction, IsExponent;
    var w := IntegerPart(s);
    var f := FractionPart(s[w..]);
    var e := ExponentPart(s[w..][f..]);
    whole, fraction, exponent := s[..w], s[w..][..f], s[w..][f..][..e];
    IntegerFound(s);
    FractionFound(s[w..]);
    ExponentFound(s[w..][f..]);
    TakeSum(s, w, f + e);
    TakeSum(s[w..], f, e);
  }

  /** The token that is read is a number. */
  lemma {:induction false} NumberFound(s: string)
    requires NumberToken(s) > 0
    ensures IsNumber(s[..NumberToken(s)])
  {
    hide UnsignedPart, IsInteger, IsFraction, IsExponent;
    var m := MinusPart(s);
    var whole, fraction, exponent := UnsignedFound(s[m..]);
    TakeSum(s, m, UnsignedPart(s[m..]));
    NumberMade(s[..NumberToken(s)], s[..m], whole, fraction, exponent);
  }

  lemma {:induction false} NumberMade(s: string, minus: string, whole: string, fraction: string, exponent: string)
    requires NumberOf(s, minus, whole, fraction, exponent)
    ensures IsNumber(s)
  {
  }

  lemma {:induction false} ExponentIsLongest(s: string, e: string)
    requires e <= s && IsExponent(e)
    ensures |e| <= ExponentPart(s)
  {
    if e != "" {
      var sign := SignPart(s[1..]);
      assert e[1..] <= s[1..];
      assert e[1 + sign..] == s[1..][sign..][..|e| - 1 - sign];
      RunIsLongest(s[1..][sign..], |e| - 1 - sign);
    }
  }

  lemma {:induction false} FractionIsLongest(s: string, f: string, e: string)
    requires f + e <= s && IsFraction(f) && IsExponent(e)
    ensures |f + e| <= FractionAndExponent(s)
  {
    var n := FractionPart(s);
    if e != "" {
      NextIs(s, f, e);
      if f != "" {
        assert s[1..][|f| - 1] == s[|f|];
        RunEndsBy(s[1..], |f| - 1);
      }
      assert |f| >= n;
    }
    assert f <= s;
    if f != "" {
      assert f[1..] == s[1..][..|f| - 1];
      RunIsLongest(s[1..], |f| - 1);
    }
    if |f| >= n {
      RestIs(s, f, e);
      ExponentIsLongest(s[n..], e);
    }
  }

  lemma {:induction false} RestIs(s: string, a: string, b: string)
    requires a + b <= s
    ensures b <= s[|a|..]
  {
    assert s[..|a + b|] == a + b;
    assert s[|a|..][..|b|] == b;
  }

  lemma {:induction false} NextIs(s: string, a: string, b: string)
    requires a + b <= s && b != ""
    ensures s[|a|] == b[0]
  {
    assert (a + b)[|a|] == b[0];
  }

  lemma {:induction false} UnsignedIsLongest(s: string, w: string, f: string, e: string)
    requires w + (f + e) <= s && IsInteger(w) && IsFraction(f) && IsExponent(e)
    ensures 0 < |w + (f + e)| <= UnsignedPart(s)
  {
    var n := IntegerPart(s);
    assert w <= s && s[0] == w[0];
    if w != "0" {
      assert w == s[..|w|];
      RunIsLongest(s, |w|);
    }
    if f + e != "" {
      NextIs(s, w, f + e);
      RunEndsBy(s, |w|);
      assert |w| >= n;
    }
    if |w| >= n {
      RestIs(s, w, f + e);
      FractionIsLongest(s[n..], f, e);
    }
  }

  /** And it is the longest one: fractions and exponents belong to it. */
  lemma {:induction false} NumberIsLongest(s: string, k: nat)
    requires k <= |s| && IsNumber(s[..k])
    ensures 0 < k <= NumberToken(s)
  {
    hide UnsignedPart, IsFraction, IsExponent;
    var minus, whole, fraction, exponent :| NumberOf(s[..k], minus, whole, fraction, exponent);
    var rest := whole + (fraction + exponent);
    assert s[0] == s[..k][0];
    assert rest == s[..k][|minus|..];
    assert rest <= s[|minus|..];
    assert minus == "" ==> s[0] == whole[0];
    UnsignedIsLongest(s[|minus|..], whole, fraction, exponent);
  }

  // ---------------------------------------------------------------- strings

  /** Between the quotes: no quote that is not behind a backslash. */
  predicate IsInside(s: string) {
    s == "" || (if s[0] == '\\' then |s| >= 2 && IsInside(s[2..]) else s[0] != '"' && IsInside(s[1..]))
  }

  predicate IsString(s: string) {
    |s| >= 2 && s[0] == '"' && s[|s| - 1] == '"' && IsInside(s[1..|s| - 1])
  }

  lemma {:induction false} EndExactly(s: string, n: nat)
    requires n < |s|
    ensures StringEnd(s) == Some(n + 1) <==> s[n] == '"' && IsInside(s[..n])
    decreases |s|
  {
    if s[0] != '"' && n > 0 {
      var skip := if s[0] == '\\' then 2 else 1;
      if skip <= n {
        assert s[..n][skip..] == s[skip..][..n - skip];
        EndExactly(s[skip..], n - skip);
      }
    }
  }

  /** A string token ends at the first quote that no backslash hides. */
  lemma {:induction false} StringExactly(s: string, n: nat)
    requires n <= |s|
    ensures StringToken(s) == Some(n) <==> IsString(s[..n])
  {
    if n >= 2 && s[0] == '"' {
      EndExactly(s[1..], n - 2);
      assert s[..n][1..|s[..n]| - 1] == s[1..][..n - 2];
      assert s[..n][n - 1] == s[1..][n - 2];
    }
  }

  // ---------------------------------------------------------------- tokens cut out of a text

  /** A number token is a number on its own. */
  lemma {:induction false} NumberCut(s: string)
    requires NumberToken(s) > 0
    ensures NumberToken(s[..NumberToken(s)]) == NumberToken(s)
  {
    hide NumberToken, IsNumber;
    var t := s[..NumberToken(s)];
    NumberFound(s);
    assert t[..|t|] == t;
    NumberIsLongest(t, |t|);
  }

  lemma {:induction false} StringCut(s: string)
    requires StringToken(s).Some?
    ensures StringToken(s[..StringToken(s).value]) == StringToken(s)
  {
    hide StringToken, IsString;
    var n := StringToken(s).value;
    StringExactly(s, n);
    assert s[..n][..n] == s[..n];
    StringExactly(s[..n], n);
  }
}
