/**
 parseQuantityDecimal and formatQuantityDecimal (internal/desktop/app_cost_control.go): unsigned decimal
 text with at most three fractional digits, stored as signed 64-bit thousandths.
 */
module Quantity {
  import opened Wrappers
  import opened Decimal
  import opened Money
  import opened Text

  const MAX_UINT64: int := 0xffff_ffff_ffff_ffff

  // ---------- Text ----------

  /** strings.Split(s, "."). */
  function Split(s: string): (parts: seq<string>)
    ensures |parts| > 0
  {
    if s == "" then [""]
    else
      var rest := Split(s[1..]);
      if s[0] == '.' then [""] + rest else [[s[0]] + rest[0]] + rest[1..]
  }

  function Join(parts: seq<string>): string
    requires |parts| > 0
  {
    if |parts| == 1 then parts[0] else parts[0] + "." + Join(parts[1..])
  }

  lemma {:induction false} JoinUndoesSplit(s: string)
    ensures Join(Split(s)) == s
  {
    if s != "" {
      JoinUndoesSplit(s[1..]);
      var rest := Split(s[1..]);
      assert s == [s[0]] + s[1..];
      if s[0] != '.' {
        assert Split(s)[1..] == rest[1..];
      }
    }
  }

  lemma {:induction false} SplitAtPoint(a: string, b: string)
    requires '.' !in a
    ensures Split(a) == [a] && Split(a + "." + b) == [a] + Split(b)
  {
    if a == "" {
      assert (a + "." + b)[1..] == b;
    } else {
      assert a == [a[0]] + a[1..];
      SplitAtPoint(a[1..], b);
      assert (a + "." + b)[1..] == a[1..] + "." + b;
    }
  }

  /** strconv.ParseUint(s, 10, 64). */
  function ParseUint(s: string): Option<nat> {
    if s != "" && AllDigits(s) && Value(s) <= MAX_UINT64 then Some(Value(s)) else None
  }

  function PadFraction(fraction: string): string
    decreases 3 - |fraction|
  {
    if |fraction| < 3 then PadFraction(fraction + "0") else fraction
  }

  // ---------- The two functions ----------

  function Parse(v: string): Option<int> {
    if v == "" then Some(0)
    else if TrimSpace(v) != v || v[0] == '-' then None
    else
      var parts := Split(v);
      if |parts| > 2 || parts[0] == "" || (|parts| == 2 && (parts[1] == "" || |parts[1]| > 3)) then None
      else if |parts[0]| > 1 && parts[0][0] == '0' then None
      else
        var whole := ParseUint(parts[0]);
        var fraction := if |parts| == 2 then ParseUint(PadFraction(parts[1])) else Some(0);
        if whole.None? || fraction.None? then None
        else if whole.value > (MAX_UINT64 - fraction.value) / 1000 then None
        else
          var milli := (whole.value * 1000 + fraction.value) % (MAX_UINT64 + 1);
          if milli > MAX_INT64 then None else Some(milli)
  }

  /** %03d for a number below a thousand. */
  function ThreeDigits(n: nat): string
    requires n < 1000
  {
    [Digit(n / 100), Digit(n / 10 % 10), Digit(n % 10)]
  }

  function Show(milli: int): string {
    if milli <= 0 then "" else Format(milli / 1000) + "." + ThreeDigits(milli % 1000)
  }

  /** parseQuantityDecimal, with its padding loop. */
  method ParseQuantityDecimal(v: string) returns (r: Option<int>)
    ensures r == Parse(v) && (v == "" ==> r == Some(0))
  {
    if v == "" { return Some(0); }
    if TrimSpace(v) != v { return None; }
    if v[0] == '-' { return None; }
    var parts := Split(v);
    if |parts| > 2 || parts[0] == "" || (|parts| == 2 && (parts[1] == "" || |parts[1]| > 3)) { return None; }
    if |parts[0]| > 1 && parts[0][0] == '0' { return None; }
    var whole := ParseUint(parts[0]);
    if whole.None? { return None; }
    var frac := Some(0);
    if |parts| == 2 {
      var fraction := parts[1];
      while |fraction| < 3
        invariant PadFraction(fraction) == PadFraction(parts[1])
        decreases 3 - |fraction|
      {
        fraction := fraction + "0";
      }
      frac := ParseUint(fraction);
      if frac.None? { return None; }
    }
    if whole.value > (MAX_UINT64 - frac.value) / 1000 { return None; }
    var milli := (whole.value * 1000 + frac.value) % (MAX_UINT64 + 1);
    if milli > MAX_INT64 { return None; }
    r := Some(milli);
  }

  // ---------- The grammar ----------

  /** v is a whole part without leading zeroes, and perhaps a point and one to three digits. */
  predicate Reads(v: string, whole: string, fraction: string) {
    && v == (if fraction == "" then whole else whole + "." + fraction)
    && Canonical(whole) && AllDigits(fraction) && |fraction| <= 3
  }

  function Milli(whole: string, fraction: string): nat
    requires AllDigits(whole) && AllDigits(fraction)
  {
    PadKeepsDigits(fraction);
    Value(whole) * 1000 + Value(PadFraction(fraction))
  }

  lemma {:induction false} PadKeepsDigits(fraction: string)
    ensures AllDigits(fraction) <==> AllDigits(PadFraction(fraction))
    ensures |fraction| <= 3 ==> |PadFraction(fraction)| == 3
    decreases 3 - |fraction|
  {
    if |fraction| < 3 {
      PadKeepsDigits(fraction + "0");
      assert forall i :: 0 <= i < |fraction| ==> (fraction + "0")[i] == fraction[i];
    }
  }

  /** The 64-bit guard rejects exactly the products that would wrap. */
  lemma GuardIsExact(whole: nat, fraction: nat)
    requires fraction < 1000
    ensures whole > (MAX_UINT64 - fraction) / 1000 <==> whole * 1000 + fraction > MAX_UINT64
  {
  }

  lemma DigitsAreNotSpecial(s: string)
    requires AllDigits(s)
    ensures '.' !in s && (s != "" ==> s[0] != '-' && !IsSpace(s[0]) && !IsSpace(s[|s| - 1]))
  {
    forall c | c in s ensures c != '.' {
      var i :| 0 <= i < |s| && s[i] == c;
      assert IsDigit(s[i]);
    }
    if s != "" { assert IsDigit(s[0]) && IsDigit(s[|s| - 1]); }
  }

  /** A three-digit fraction has a value below a thousand. */
  lemma PaddedBelowThousand(fraction: string)
    requires AllDigits(fraction) && |fraction| <= 3
    ensures AllDigits(PadFraction(fraction)) && |PadFraction(fraction)| == 3 && Value(PadFraction(fraction)) < 1000
  {
    PadKeepsDigits(fraction);
    ValueBounds(PadFraction(fraction));
    assert Pow10(3) == 1000;
  }

  lemma SplitOfReading(v: string, whole: string, fraction: string)
    requires Reads(v, whole, fraction)
    ensures v != "" && TrimSpace(v) == v && v[0] != '-'
    ensures Split(v) == if fraction == "" then [whole] else [whole, fraction]
  {
    DigitsAreNotSpecial(whole);
    DigitsAreNotSpecial(fraction);
    TrimmedIffNoSpaceAtEnds(v);
    SplitAtPoint(whole, fraction);
    SplitAtPoint(fraction, "");
    assert v[0] == whole[0];
    assert v[|v| - 1] == if fraction == "" then whole[|whole| - 1] else fraction[|fraction| - 1];
  }

  lemma NoFractionIsZero()
    ensures AllDigits(PadFraction("")) && Value(PadFraction("")) == 0
  {
    PadKeepsDigits("");
    var one, two, three := "" + "0", "" + "0" + "0", "" + "0" + "0" + "0";
    assert PadFraction("") == PadFraction(one) == PadFraction(two) == three;
    assert one[..0] == "" && two[..1] == one && three[..2] == two;
    assert Value(one) == 0;
    assert Value(two) == 0;
  }

  /** Text in the grammar is accepted exactly when its thousandths fit, and means them. */
  lemma GrammarIsAccepted(v: string, whole: string, fraction: string)
    requires Reads(v, whole, fraction)
    ensures Parse(v) == if Milli(whole, fraction) <= MAX_INT64 then Some(Milli(whole, fraction)) else None
  {
    SplitOfReading(v, whole, fraction);
    PaddedBelowThousand(fraction);
    var padded := Value(PadFraction(fraction));
    if fraction == "" {
      NoFractionIsZero();
    }
    if Value(whole) <= MAX_UINT64 { GuardIsExact(Value(whole), padded); }
  }

  /** Nothing else is accepted, but the empty text, which means zero. */
  lemma AcceptedIsGrammar(v: string) returns (whole: string, fraction: string)
    requires Parse(v).Some? && v != ""
    ensures Reads(v, whole, fraction) && Parse(v) == Some(Milli(whole, fraction)) && Milli(whole, fraction) <= MAX_INT64
  {
    var parts := Split(v);
    JoinUndoesSplit(v);
    whole := parts[0];
    fraction := if |parts| == 2 then parts[1] else "";
    if |parts| == 2 {
      assert parts[1..] == [fraction];
      PadKeepsDigits(fraction);
    }
    GrammarIsAccepted(v, whole, fraction);
  }

  // ---------- Round trips ----------

  lemma ThreeDigitsValue(n: nat)
    requires n < 1000
    ensures AllDigits(ThreeDigits(n)) && Value(ThreeDigits(n)) == n
  {
    var s := ThreeDigits(n);
    assert s[..2][..1][..0] == "";
    assert s[..2] == [Digit(n / 100), Digit(n / 10 % 10)] && s[..2][..1] == [Digit(n / 100)];
    assert Value(s[..2][..1]) == n / 100;
    assert Value(s[..2]) == n / 100 * 10 + n / 10 % 10;
  }

  /** What is shown is read back. */
  lemma ShownIsReadBack(milli: int)
    requires 0 < milli <= MAX_INT64
    ensures Parse(Show(milli)) == Some(milli)
  {
    var whole, fraction := Format(milli / 1000), ThreeDigits(milli % 1000);
    FormatRoundTrip(milli / 1000);
    ThreeDigitsValue(milli % 1000);
    assert PadFraction(fraction) == fraction;
    GrammarIsAccepted(Show(milli), whole, fraction);
  }

  /** What is read is shown in canonical form: the same whole part and the padded fraction, or nothing for zero. */
  lemma ReadIsShownCanonically(v: string, whole: string, fraction: string)
    requires Reads(v, whole, fraction) && Milli(whole, fraction) <= MAX_INT64
    ensures Parse(v).Some?
    ensures Show(Parse(v).value) == if Milli(whole, fraction) == 0 then "" else whole + "." + PadFraction(fraction)
  {
    GrammarIsAccepted(v, whole, fraction);
    PaddedBelowThousand(fraction);
    ParseRoundTrip(whole);
    var n, padded := Milli(whole, fraction), Value(PadFraction(fraction));
    assert n / 1000 == Value(whole) && n % 1000 == padded;
    ThreeDigitsValue(padded);
    SameDigits(ThreeDigits(padded), PadFraction(fraction));
  }

  lemma SameDigits(a: string, b: string)
    requires AllDigits(a) && AllDigits(b) && |a| == |b| && Value(a) == Value(b)
    ensures a == b
  {
    SameLengthOrder(a, b);
  }
}
