/** Canonical decimal text: strconv.FormatUint and the strings it accepts back. */
module Decimal {
  import opened ByteOrder

  predicate IsDigit(c: char) { '0' <= c <= '9' }

  predicate AllDigits(s: string) { forall i :: 0 <= i < |s| ==> IsDigit(s[i]) }

  function Digit(d: nat): (c: char)
    requires d < 10
    ensures IsDigit(c) && DigitValue(c) == d
  {
    ('0' as int + d) as char
  }

  function DigitValue(c: char): (d: nat)
    requires IsDigit(c)
    ensures d < 10
  {
    c as int - '0' as int
  }

  function Value(s: string): nat
    requires AllDigits(s)
  {
    if s == "" then 0 else 10 * Value(s[..|s| - 1]) + DigitValue(s[|s| - 1])
  }

  function Format(n: nat): (s: string)
    ensures s != ""
    ensures AllDigits(s)
  {
    if n < 10 then [Digit(n)] else Format(n / 10) + [Digit(n % 10)]
  }

  /** No leading zero, no sign, at least one digit. */
  predicate Canonical(s: string) {
    s != "" && AllDigits(s) && (|s| > 1 ==> s[0] != '0')
  }

  function Pow10(n: nat): (p: nat)
    ensures p >= 1
  {
    if n == 0 then 1 else 10 * Pow10(n - 1)
  }

  lemma {:induction false} FormatRoundTrip(n: nat)
    ensures Canonical(Format(n)) && Value(Format(n)) == n
    ensures n > 0 ==> Format(n)[0] != '0'
  {
    if n >= 10 {
      FormatRoundTrip(n / 10);
      var s := Format(n / 10) + [Digit(n % 10)];
      assert s[..|s| - 1] == Format(n / 10);
    }
  }

  lemma {:induction false} ValueBounds(s: string)
    requires AllDigits(s)
    ensures Value(s) < Pow10(|s|)
    ensures s != "" && s[0] != '0' ==> Value(s) >= Pow10(|s| - 1)
  {
    if s != "" {
      var h := s[..|s| - 1];
      ValueBounds(h);
      if h != "" { assert h[0] == s[0]; }
    }
  }

  lemma {:induction false} ParseRoundTrip(s: string)
    requires Canonical(s)
    ensures Format(Value(s)) == s
  {
    var h, d := s[..|s| - 1], DigitValue(s[|s| - 1]);
    assert s == h + [s[|s| - 1]] && Digit(d) == s[|s| - 1];
    if h != "" {
      assert h[0] == s[0];
      ParseRoundTrip(h);
      ValueBounds(h);
      assert Pow10(|h| - 1) >= 1;
      assert Value(s) / 10 == Value(h) && Value(s) % 10 == d;
    } else {
      assert Value(h) == 0;
    }
  }

  lemma FormatInjective(m: nat, n: nat)
    requires Format(m) == Format(n)
    ensures m == n
  {
    FormatRoundTrip(m);
    FormatRoundTrip(n);
  }

  lemma {:induction false} SameLengthOrder(a: string, b: string)
    requires AllDigits(a) && AllDigits(b) && |a| == |b|
    ensures Less(a, b) <==> Value(a) < Value(b)
    ensures Value(a) == Value(b) ==> a == b
  {
    if a != "" {
      var p, q := a[..|a| - 1], b[..|b| - 1];
      SameLengthOrder(p, q);
      Trichotomy(p, q);
      var x, y := [a[|a| - 1]], [b[|b| - 1]];
      assert a == p + x && b == q + y;
      LessByHead(p, x, q, y);
      assert Less(x, y) <==> x[0] < y[0];
    }
  }

  lemma {:induction false} Pow10Monotone(m: nat, n: nat)
    requires m <= n
    ensures Pow10(m) <= Pow10(n)
    decreases n - m
  {
    if m < n { Pow10Monotone(m + 1, n); }
  }

  /** ORDER BY length(revision), revision COLLATE BINARY. */
  predicate LongerThenBytes(a: string, b: string) {
    |a| < |b| || (|a| == |b| && Less(a, b))
  }

  /** Length-then-bytes order on canonical decimals is the numeric order. */
  lemma LengthThenBytesIsNumeric(m: nat, n: nat)
    ensures LongerThenBytes(Format(m), Format(n)) <==> m < n
  {
    var a, b := Format(m), Format(n);
    FormatRoundTrip(m);
    FormatRoundTrip(n);
    ValueBounds(a);
    ValueBounds(b);
    if |a| == |b| {
      SameLengthOrder(a, b);
    } else if |a| < |b| {
      Pow10Monotone(|a|, |b| - 1);
    } else {
      Pow10Monotone(|b|, |a| - 1);
    }
  }
}
