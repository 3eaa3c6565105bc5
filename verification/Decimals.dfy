/** Decimal integers as text: strconv.FormatInt and strconv.ParseInt in base ten. */
module Decimals {
  import opened Durations
  import opened Options

  const MIN_INT64: int := -0x8000_0000_0000_0000

  type Signed64 = i: int | MIN_INT64 <= i <= MAX_INT64

  function DigitChar(d: int): char
    requires 0 <= d < 10
  {
    ('0' as int + d) as char
  }

  predicate IsDigit(c: char) { '0' <= c <= '9' }

  predicate AllDigits(s: string) { forall i | 0 <= i < |s| :: IsDigit(s[i]) }

  function Digits(n: nat): (s: string)
    ensures s != [] && AllDigits(s)
    ensures n > 0 ==> s[0] != '0'
  {
    if n < 10 then [DigitChar(n)] else Digits(n / 10) + [DigitChar(n % 10)]
  }

  /** strconv.FormatInt in base 10. */
  function Decimal(i: int): (s: string)
    ensures s != [] && (s[0] == '-' || IsDigit(s[0]))
  {
    if i < 0 then ['-'] + Digits(-i) else Digits(i)
  }

  function Value(s: string): nat
    requires AllDigits(s)
  {
    if s == [] then 0
    else
      var d := s[|s| - 1];
      assert IsDigit(d);
      10 * Value(s[..|s| - 1]) + (d as int - '0' as int)
  }

  lemma {:induction false} ValueOfDigits(n: nat)
    ensures Value(Digits(n)) == n
  {
    if n >= 10 {
      ValueOfDigits(n / 10);
      var s := Digits(n);
      assert s[..|s| - 1] == Digits(n / 10);
    } else {
      var s := Digits(n);
      assert s[..|s| - 1] == [];
    }
  }

  /** A text that cannot continue a number. */
  predicate Ends(x: string) { x == [] || !IsDigit(x[0]) }

  lemma Cancel<T>(p: seq<T>, x: seq<T>, y: seq<T>)
    requires p + x == p + y
    ensures x == y
  {
    assert (p + x)[|p|..] == x && (p + y)[|p|..] == y;
  }

  lemma RunNotLonger(a: string, x: string, b: string, y: string)
    requires AllDigits(b)
    requires Ends(x) && a + x == b + y
    ensures |b| <= |a|
  {
    var t := a + x;
    assert x != [] ==> t[|a|] == x[0];
    assert forall i | 0 <= i < |b| :: t[i] == b[i];
  }

  lemma {:induction false} DigitRunsAgree(a: string, x: string, b: string, y: string)
    requires AllDigits(a)
    requires AllDigits(b)
    requires Ends(x) && Ends(y) && a + x == b + y
    ensures a == b && x == y
  {
    RunNotLonger(a, x, b, y);
    RunNotLonger(b, y, a, x);
    assert a == (a + x)[..|a|] == (b + y)[..|a|] == b;
    Cancel(a, x, y);
  }

  lemma {:induction false} DecimalReadable(i: int, x: string, j: int, y: string)
    requires Ends(x) && Ends(y) && Decimal(i) + x == Decimal(j) + y
    ensures i == j && x == y
  {
    var a, b := Decimal(i), Decimal(j);
    assert (a + x)[0] == a[0] && (b + y)[0] == b[0];
    if i < 0 {
      assert a + x == ['-'] + (Digits(-i) + x);
      assert b + y == ['-'] + (Digits(-j) + y);
      Cancel(['-'], Digits(-i) + x, Digits(-j) + y);
      DigitRunsAgree(Digits(-i), x, Digits(-j), y);
      ValueOfDigits(-i);
      ValueOfDigits(-j);
    } else {
      DigitRunsAgree(a, x, b, y);
      ValueOfDigits(i);
      ValueOfDigits(j);
    }
  }

  // ---------------------------------------------------------------- reading

  function Unsigned(s: string): string { if s != [] && (s[0] == '-' || s[0] == '+') then s[1..] else s }

  /** strconv.ParseInt to 64 bits: none where it reports an error. */
  function ParseInt(s: string): Option<int> {
    var digits := Unsigned(s);
    if digits == [] || !AllDigits(digits) then None
    else
      var v: int := if s[0] == '-' then 0 - Value(digits) else Value(digits);
      if MIN_INT64 <= v <= MAX_INT64 then Some(v) else None
  }

  /** What is written is read back. */
  lemma DecimalReadsBack(i: Signed64)
    ensures ParseInt(Decimal(i)) == Some(i)
  {
    hide Digits, Value;
    var n: int := if i < 0 then -(i as int) else i;
    ValueOfDigits(n);
    if i < 0 {
      assert Unsigned(Decimal(i)) == Digits(n);
    } else {
      assert IsDigit(Digits(n)[0]);
    }
  }

  // ---------------------------------------------------------------- length

  function Power10(k: nat): nat { if k == 0 then 1 else 10 * Power10(k - 1) }

  /** Without a leading zero the length is bounded by the value. */
  lemma {:induction false} DigitsBound(s: string)
    requires AllDigits(s) && s != [] && s[0] != '0'
    ensures Value(s) >= Power10(|s| - 1)
  {
    var n := |s| - 1;
    assert IsDigit(s[0]) && IsDigit(s[n]);
    if n > 0 { DigitsBound(s[..n]); }
  }

  lemma {:induction false} Power10Grows(a: nat, b: nat)
    requires a <= b
    ensures Power10(a) <= Power10(b)
  {
    if a < b { Power10Grows(a, b - 1); }
  }

  lemma Power10Of19()
    ensures Power10(19) > MAX_INT64 + 1
  {
    assert Power10(4) == 10_000;
    assert Power10(8) == 100_000_000;
    assert Power10(12) == 1_000_000_000_000;
    assert Power10(16) == 10_000_000_000_000_000;
  }

  /** An integer of 64 bits has at most nineteen digits. */
  lemma {:induction false} DigitsShort(s: string)
    requires AllDigits(s) && s != [] && (s[0] != '0' || |s| == 1) && Value(s) <= MAX_INT64 + 1
    ensures |s| <= 19
  {
    hide Value, Power10;
    if |s| > 19 {
      DigitsBound(s);
      Power10Of19();
      Power10Grows(19, |s| - 1);
    }
  }

  lemma {:induction false} DecimalShort(i: Signed64)
    ensures |Decimal(i)| <= 20
  {
    var n: int := if i < 0 then -(i as int) else i;
    ValueOfDigits(n);
    DigitsShort(Digits(n));
  }
}
