/** Facts about single tokens: what a longer text adds behind one does not change it. */
module JsonTokens {
  import opened Common
  import opened Json

  /** What can follow a printed value. */
  predicate Delimits(tail: string) {
    tail == "" || tail[0] in {',', '}', ']'}
  }

  /** What can follow any value: also a space. */
  predicate Stops(tail: string) {
    Delimits(tail) || IsSpace(tail[0])
  }

  lemma {:induction false} RunStops(s: string, tail: string)
    requires Stops(tail)
    ensures DigitRun(s + tail) == DigitRun(s)
  {
    if s == "" {
      assert s + tail == tail;
    } else {
      assert (s + tail)[1..] == s[1..] + tail;
      RunStops(s[1..], tail);
    }
  }

  lemma {:induction false} FractionStops(s: string, tail: string)
    requires Stops(tail)
    ensures FractionPart(s + tail) == FractionPart(s)
  {
    if s == "" {
      assert s + tail == tail;
    } else {
      assert (s + tail)[1..] == s[1..] + tail;
      RunStops(s[1..], tail);
    }
  }

  lemma {:induction false} SignStops(s: string, tail: string)
    requires Stops(tail)
    ensures SignPart(s + tail) == SignPart(s) && MinusPart(s + tail) == MinusPart(s)
  {
    if s == "" {
      assert s + tail == tail;
    } else {
      assert (s + tail)[0] == s[0];
    }
  }

  lemma {:induction false} ExponentStops(s: string, tail: string)
    requires Stops(tail)
    ensures ExponentPart(s + tail) == ExponentPart(s)
  {
    if s == "" {
      assert s + tail == tail;
    } else {
      assert (s + tail)[1..] == s[1..] + tail;
      SignStops(s[1..], tail);
      var sign := SignPart(s[1..]);
      assert (s[1..] + tail)[sign..] == s[1..][sign..] + tail;
      RunStops(s[1..][sign..], tail);
    }
  }

  lemma {:induction false} IntegerStops(s: string, tail: string)
    requires Stops(tail)
    ensures IntegerPart(s + tail) == IntegerPart(s)
  {
    RunStops(s, tail);
    if s == "" {
      assert s + tail == tail;
    } else {
      assert (s + tail)[0] == s[0];
    }
  }

  lemma {:induction false} UnsignedStops(s: string, tail: string)
    requires Stops(tail)
    ensures UnsignedPart(s + tail) == UnsignedPart(s)
  {
    IntegerStops(s, tail);
    var whole := IntegerPart(s);
    var more := s[whole..];
    assert (s + tail)[whole..] == more + tail;
    FractionStops(more, tail);
    var fraction := FractionPart(more);
    assert (more + tail)[fraction..] == more[fraction..] + tail;
    ExponentStops(more[fraction..], tail);
  }

  /** A number token ends where a delimiter begins. */
  lemma {:induction false} NumberStops(s: string, tail: string)
    requires Stops(tail)
    ensures NumberToken(s + tail) == NumberToken(s)
  {
    SignStops(s, tail);
    var minus := MinusPart(s);
    assert (s + tail)[minus..] == s[minus..] + tail;
    UnsignedStops(s[minus..], tail);
  }

  lemma {:induction false} StringEndStops(s: string, tail: string)
    requires StringEnd(s) == Some(|s|)
    ensures StringEnd(s + tail) == Some(|s|)
    decreases |s|
  {
    assert (s + tail)[0] == s[0];
    if s[0] != '"' {
      var skip := if s[0] == '\\' then 2 else 1;
      assert (s + tail)[skip..] == s[skip..] + tail;
      StringEndStops(s[skip..], tail);
    }
  }

  lemma {:induction false} StringStops(s: string, tail: string)
    requires StringToken(s) == Some(|s|)
    ensures StringToken(s + tail) == Some(|s|)
  {
    assert (s + tail)[1..] == s[1..] + tail;
    StringEndStops(s[1..], tail);
  }

  // ---------------------------------------------------------------- counts

  lemma {:induction false} AllDigits(s: string)
    requires forall i :: 0 <= i < |s| ==> Digit(s[i])
    ensures DigitRun(s) == |s|
  {
    if s != "" {
      AllDigits(s[1..]);
    }
  }

  lemma {:induction false} DecimalBegins(n: nat)
    ensures n > 0 ==> Decimal(n)[0] != '0'
    ensures n == 0 ==> Decimal(n) == "0"
  {
    if n >= 10 {
      DecimalBegins(n / 10);
    }
  }

  /** A count is printed as a number. */
  lemma {:induction false} DecimalIsNumber(n: nat)
    ensures NumberToken(Decimal(n)) == |Decimal(n)| > 0
  {
    var s := Decimal(n);
    DecimalBegins(n);
    AllDigits(s);
    assert s[0..] == s;
    assert MinusPart(s) == 0;
    assert s[|s|..] == "";
  }

  /** What a row of digits stands for. */
  function ValueOf(s: string): int
    requires forall i :: 0 <= i < |s| ==> Digit(s[i])
  {
    if s == "" then 0 else 10 * ValueOf(s[..|s| - 1]) + (s[|s| - 1] as nat - '0' as nat)
  }

  /** The digits of a count stand for it. */
  lemma {:induction false} DecimalStandsFor(n: nat)
    ensures ValueOf(Decimal(n)) == n
  {
    var s := Decimal(n);
    if n >= 10 {
      DecimalStandsFor(n / 10);
      assert s[..|s| - 1] == Decimal(n / 10);
    } else {
      assert s[..|s| - 1] == "";
    }
  }
}
