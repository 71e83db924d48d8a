/**
 Reading one cell's text (internal/analytics/import.go: parseInt, isIntegerText, parseFloat, intCell).
 The value of accepted floating-point text is given by an oracle; None stands for a range error.
 */
module CellText {
  import opened Wrappers
  import opened Decimal
  import opened Money

  type FloatReader = string -> Option<real>

  /** strings.EqualFold(v, w) for a lower-case ASCII w: U+017F folds to s. */
  predicate EqualFold(v: string, w: string) {
    |v| == |w| && forall i :: 0 <= i < |v| ==> FoldsTo(v[i], w[i])
  }

  predicate FoldsTo(c: char, lower: char) {
    c == lower || ('a' <= lower <= 'z' && c == 'A' + (lower - 'a')) || (lower == 's' && c == '\U{017F}')
  }

  /** A truth value is spelled with each of its letters in either case, the long s standing for an s. */
  lemma TruthIsSpelled(v: string, w: string)
    requires w in {"true", "false"}
    ensures EqualFold(v, w) <==>
              |v| == |w| && forall i :: 0 <= i < |v| ==>
                                          || v[i] == w[i] || v[i] as int + 32 == w[i] as int
                                          || (v[i] == '\U{017F}' && i == 3 && w == "false")
  {
    assert forall i :: 0 <= i < |w| ==> 'a' <= w[i] <= 'z' && (w[i] == 's' <==> w == "false" && i == 3);
    if |v| == |w| {
      forall i | 0 <= i < |v|
        ensures FoldsTo(v[i], w[i]) <==>
                  || v[i] == w[i] || v[i] as int + 32 == w[i] as int
                  || (v[i] == '\U{017F}' && i == 3 && w == "false") {}
    }
  }

  /** The text after one optional minus sign. */
  function Digits(s: string): string { if s != "" && s[0] == '-' then s[1..] else s }

  /** isIntegerText. */
  predicate IsIntegerText(s: string) { Digits(s) != "" && AllDigits(Digits(s)) }

  function IntegerValue(s: string): int
    requires AllDigits(Digits(s))
  {
    if s != "" && s[0] == '-' then -(Value(Digits(s)) as int) else Value(Digits(s))
  }

  /** parseInt: no leading zero, and a value in int64. */
  function ParseInt(s: string): Option<int> {
    if IsIntegerText(s) && (|Digits(s)| > 1 ==> Digits(s)[0] != '0') && Fits(IntegerValue(s))
    then Some(IntegerValue(s)) else None
  }

  method ReadInt(s: string) returns (r: Option<int>)
    ensures r == ParseInt(s)
  {
    var digits := Digits(s);
    if digits == "" || (|digits| > 1 && digits[0] == '0') { return None; }
    for i := 0 to |digits|
      invariant AllDigits(digits[..i])
    {
      if !IsDigit(digits[i]) { return None; }
    }
    assert digits[..|digits|] == digits;
    r := if Fits(IntegerValue(s)) then Some(IntegerValue(s)) else None;
  }

  // ---------- Floating-point text ----------

  datatype Scan = Scan(digit: bool, dot: bool, exp: bool)

  /** One character of the scan; None rejects the text. */
  function Next(s: string, i: nat, k: Scan): Option<Scan>
    requires i < |s|
  {
    var c := s[i];
    if IsDigit(c) then Some(k.(digit := true))
    else if c == '-' || c == '+' then if i != 0 && s[i - 1] != 'e' && s[i - 1] != 'E' then None else Some(k)
    else if c == '.' then if k.dot || k.exp then None else Some(k.(dot := true))
    else if c == 'e' || c == 'E' then if k.exp || !k.digit then None else Some(k.(exp := true))
    else None
  }

  function ScanFrom(s: string, i: nat, k: Scan): Option<Scan>
    requires i <= |s|
    decreases |s| - i
  {
    if i == |s| then Some(k)
    else if Next(s, i, k).None? then None
    else ScanFrom(s, i + 1, Next(s, i, k).value)
  }

  /** Plain decimal or exponent notation. */
  predicate IsFloatText(s: string) {
    s != "" && s[0] != '+' && ScanFrom(s, 0, Scan(false, false, false)).Some?
    && ScanFrom(s, 0, Scan(false, false, false)).value.digit
  }

  /** parseFloat. */
  function ParseFloat(s: string, reader: FloatReader): Option<real> {
    if IsFloatText(s) then reader(s) else None
  }

  method ReadFloat(s: string, reader: FloatReader) returns (r: Option<real>)
    ensures r == ParseFloat(s, reader)
  {
    if s == "" { return None; }
    var k := Scan(false, false, false);
    for i := 0 to |s|
      invariant ScanFrom(s, i, k) == ScanFrom(s, 0, Scan(false, false, false))
    {
      var next := Next(s, i, k);
      if next.None? { return None; }
      k := next.value;
    }
    if !k.digit || s[0] == '+' { return None; }
    r := reader(s);
  }

  // ---------- The grammar of accepted text ----------

  /** The text after one optional sign. */
  function Unsigned(s: string): string { if s != "" && (s[0] == '-' || s[0] == '+') then s[1..] else s }

  /** Nothing, or a mark, an optional sign and any number of digits; the scan leaves the rest to the reader. */
  predicate IsExponent(e: string) { e == "" || ((e[0] == 'e' || e[0] == 'E') && AllDigits(Unsigned(e[1..]))) }

  /** An optional minus, digits with at most one point among them, at least one digit, and an exponent. */
  predicate Reads(s: string, sign: string, whole: string, point: string, fraction: string, exponent: string) {
    && s == sign + whole + point + fraction + exponent
    && (sign == "" || sign == "-") && AllDigits(whole) && AllDigits(fraction) && whole + fraction != ""
    && (point == "." || (point == "" && fraction == "")) && IsExponent(exponent)
  }

  function Seen(k: Scan, digits: bool): Scan { if digits then k.(digit := true) else k }

  /** Digits only set the digit flag. */
  lemma {:induction false} SkipDigits(s: string, i: nat, j: nat, k: Scan)
    requires i <= j <= |s| && AllDigits(s[i..j])
    ensures ScanFrom(s, i, k) == ScanFrom(s, j, Seen(k, i < j))
    decreases j - i
  {
    if i < j {
      assert IsDigit(s[i..j][0]) && s[i + 1..j] == s[i..j][1..];
      SkipDigits(s, i + 1, j, k.(digit := true));
    }
  }

  function DigitsEnd(s: string, i: nat): (j: nat)
    requires i <= |s|
    ensures i <= j <= |s| && AllDigits(s[i..j]) && (j < |s| ==> !IsDigit(s[j]))
    decreases |s| - i
  {
    if i == |s| || !IsDigit(s[i]) then i
    else
      var j := DigitsEnd(s, i + 1);
      assert s[i..j] == [s[i]] + s[i + 1..j];
      j
  }

  /** After the mark and its sign the scan accepts digits. */
  lemma DigitsAreScanned(s: string, p: nat, k: Scan)
    requires 0 < p <= |s| && k.exp && k.digit
    requires p < |s| && (s[p] == '-' || s[p] == '+') ==> s[p - 1] != 'e' && s[p - 1] != 'E'
    ensures ScanFrom(s, p, k) == if AllDigits(s[p..]) then Some(k) else None
  {
    var j := DigitsEnd(s, p);
    SkipDigits(s, p, j, k);
    if j == |s| {
      assert s[p..j] == s[p..];
    } else {
      assert s[p..][j - p] == s[j];
      assert j > p ==> s[p..j][j - 1 - p] == s[j - 1];
      assert Next(s, j, k).None?;
    }
  }

  /** After the mark the scan accepts one optional sign and digits. */
  lemma ExponentIsScanned(s: string, i: nat, k: Scan)
    requires 0 < i <= |s| && (s[i - 1] == 'e' || s[i - 1] == 'E') && k.exp && k.digit
    ensures ScanFrom(s, i, k) == if AllDigits(Unsigned(s[i..])) then Some(k) else None
  {
    if i < |s| && (s[i] == '-' || s[i] == '+') {
      assert s[i + 1..] == Unsigned(s[i..]);
      DigitsAreScanned(s, i + 1, k);
    } else {
      DigitsAreScanned(s, i, k);
    }
  }

  /** Past the digits and the point, only an exponent is accepted. */
  lemma TailIsScanned(s: string, i: nat, k: Scan)
    requires 0 < i <= |s| && !k.exp && k.digit
    requires i < |s| ==> !IsDigit(s[i]) && (s[i] == '.' ==> k.dot)
    requires s[i - 1] != 'e' && s[i - 1] != 'E'
    ensures ScanFrom(s, i, k).Some? <==> IsExponent(s[i..])
    ensures ScanFrom(s, i, k).Some? ==> ScanFrom(s, i, k).value.digit
  {
    if i < |s| {
      var e := s[i..];
      if s[i] == 'e' || s[i] == 'E' {
        ExponentIsScanned(s, i + 1, k.(exp := true));
        assert e[1..] == s[i + 1..];
      } else {
        assert Next(s, i, k).None?;
      }
    }
  }

  /** Text in the grammar passes the scan. */
  lemma GrammarIsFloatText(
    s: string, sign: string, whole: string, point: string, fraction: string, exponent: string)
    requires Reads(s, sign, whole, point, fraction, exponent)
    ensures IsFloatText(s)
  {
    var start := Scan(false, false, false);
    var a := |sign|;
    var b := a + |whole|;
    var c := b + |point|;
    var d := c + |fraction|;
    assert s[a..b] == whole && s[b..c] == point && s[c..d] == fraction && s[d..] == exponent;
    assert a == 1 ==> s[0] == '-';
    assert ScanFrom(s, 0, start) == ScanFrom(s, a, start);
    SkipDigits(s, a, b, start);
    var k := Seen(start, a < b);
    if point == "." {
      assert s[b] == point[0];
      PointIsScanned(s, b, k);
      k := k.(dot := true);
    }
    SkipDigits(s, c, d, k);
    k := Seen(k, c < d);
    assert ScanFrom(s, 0, start) == ScanFrom(s, d, k);
    EndsInMantissa(s, d, whole, point, fraction, a);
    if d < |s| { assert s[d] == exponent[0]; }
    TailIsScanned(s, d, k);
    FirstIsNotPlus(s, sign, whole, point, fraction, exponent);
  }

  lemma FirstIsNotPlus(
    s: string, sign: string, whole: string, point: string, fraction: string, exponent: string)
    requires Reads(s, sign, whole, point, fraction, exponent)
    ensures s != "" && s[0] != '+'
  {
    if sign != "" {
      assert s[0] == sign[0];
    } else if whole != "" {
      assert s[0] == whole[0];
    } else {
      assert s[0] == point[0];
    }
  }

  /** The character ahead of the exponent is a digit or the point. */
  lemma EndsInMantissa(s: string, d: nat, whole: string, point: string, fraction: string, a: nat)
    requires d == a + |whole| + |point| + |fraction| <= |s| && whole + fraction != ""
    requires AllDigits(whole) && AllDigits(fraction) && (point == "." || (point == "" && fraction == ""))
    requires s[a..a + |whole|] == whole && s[a + |whole|..a + |whole| + |point|] == point
    requires s[a + |whole| + |point|..d] == fraction
    ensures 0 < d && s[d - 1] != 'e' && s[d - 1] != 'E'
  {
    if fraction != "" {
      assert s[d - 1] == fraction[|fraction| - 1];
    } else if point != "" {
      assert s[d - 1] == point[0];
    } else {
      assert s[d - 1] == whole[|whole| - 1];
    }
  }

  lemma PointIsScanned(s: string, i: nat, k: Scan)
    requires i < |s| && s[i] == '.' && !k.dot && !k.exp
    ensures ScanFrom(s, i, k) == ScanFrom(s, i + 1, k.(dot := true))
  {
    assert Next(s, i, k) == Some(k.(dot := true));
  }

  lemma OneCharacter(s: string, i: nat)
    requires i < |s|
    ensures s[i..i + 1] == [s[i]]
  {
  }

  lemma FiveParts(s: string, a: nat, b: nat, c: nat, d: nat)
    requires a <= b <= c <= d <= |s|
    ensures s == s[..a] + s[a..b] + s[b..c] + s[c..d] + s[d..]
  {
    assert s[..a] + s[a..b] == s[..b];
    assert s[..b] + s[b..c] == s[..c];
    assert s[..c] + s[c..d] == s[..d];
  }

  /** The scan runs over an optional minus, digits, and a point with more digits. */
  lemma MantissaIsScanned(s: string) returns (a: nat, b: nat, c: nat, d: nat, k: Scan)
    requires s != "" && s[0] != '+'
    ensures 0 <= a <= b <= c <= d <= |s| && (s[..a] == "" || s[..a] == "-") && AllDigits(s[a..b]) && AllDigits(s[c..d])
    ensures s[b..c] == "." || (b == c == d)
    ensures ScanFrom(s, 0, Scan(false, false, false)) == ScanFrom(s, d, k)
    ensures !k.exp && (k.digit <==> a < b || c < d)
    ensures d < |s| ==> !IsDigit(s[d]) && (s[d] == '.' ==> k.dot) && (d == 0 ==> s[d] != '-')
    ensures !k.digit && d > 0 ==> s[d - 1] == '-' || s[d - 1] == '.'
  {
    var start := Scan(false, false, false);
    a := if s[0] == '-' then 1 else 0;
    assert ScanFrom(s, 0, start) == ScanFrom(s, a, start);
    b := DigitsEnd(s, a);
    SkipDigits(s, a, b, start);
    k := Seen(start, a < b);
    c, d := b, b;
    if b < |s| && s[b] == '.' {
      c := b + 1;
      OneCharacter(s, b);
      PointIsScanned(s, b, k);
      k := k.(dot := true);
      d := DigitsEnd(s, c);
      SkipDigits(s, c, d, k);
      k := Seen(k, c < d);
    }
  }

  /** Text that passes the scan is in the grammar. */
  lemma FloatTextIsGrammar(s: string)
    returns (sign: string, whole: string, point: string, fraction: string, exponent: string)
    requires IsFloatText(s)
    ensures Reads(s, sign, whole, point, fraction, exponent)
  {
    var a, b, c, d, k := MantissaIsScanned(s);
    NothingBeforeTheTail(s, d, k);
    EndsInMantissa(s, d, s[a..b], s[b..c], s[c..d], a);
    TailIsScanned(s, d, k);
    PartsAreRead(s, a, b, c, d);
    sign, whole, point, fraction, exponent := s[..a], s[a..b], s[b..c], s[c..d], s[d..];
  }

  lemma PartsAreRead(s: string, a: nat, b: nat, c: nat, d: nat)
    requires a <= b <= c <= d <= |s| && (s[..a] == "" || s[..a] == "-") && AllDigits(s[a..b]) && AllDigits(s[c..d])
    requires s[b..c] == "." || (b == c == d)
    requires (a < b || c < d) && IsExponent(s[d..])
    ensures Reads(s, s[..a], s[a..b], s[b..c], s[c..d], s[d..])
  {
    FiveParts(s, a, b, c, d);
  }

  /** Without a digit ahead of it, nothing that can follow is accepted. */
  lemma NothingBeforeTheTail(s: string, d: nat, k: Scan)
    requires d <= |s| && !k.exp && s != "" && s[0] != '+'
    requires d < |s| ==> !IsDigit(s[d]) && (s[d] == '.' ==> k.dot) && (d == 0 ==> s[d] != '-')
    requires !k.digit && d > 0 ==> s[d - 1] == '-' || s[d - 1] == '.'
    ensures !k.digit ==> ScanFrom(s, d, k).None? || !ScanFrom(s, d, k).value.digit
  {
    if !k.digit && d < |s| { assert Next(s, d, k).None?; }
  }

  /** The scan accepts exactly the grammar. */
  lemma FloatTextIff(s: string)
    ensures IsFloatText(s) <==>
            exists sign, whole, point, fraction, exponent :: Reads(s, sign, whole, point, fraction, exponent)
  {
    if IsFloatText(s) {
      var sign, whole, point, fraction, exponent := FloatTextIsGrammar(s);
      assert Reads(s, sign, whole, point, fraction, exponent);
    }
    forall sign, whole, point, fraction, exponent | Reads(s, sign, whole, point, fraction, exponent)
      ensures IsFloatText(s) {
      GrammarIsFloatText(s, sign, whole, point, fraction, exponent);
    }
  }

  /** Integer text is floating-point text. */
  lemma IntegerTextIsFloatText(s: string)
    requires IsIntegerText(s)
    ensures IsFloatText(s)
  {
    var sign := if s[0] == '-' then "-" else "";
    assert s == sign + Digits(s) + "" + "" + "";
    GrammarIsFloatText(s, sign, Digits(s), "", "", "");
  }

  // ---------- Integers that JavaScript cannot hold ----------

  const MAX_EXACT: int := 0x1f_ffff_ffff_ffff

  datatype Cell = Null | Bool(b: bool) | Int(n: int) | Float(r: real) | Text(s: string)

  /** strconv.FormatInt. */
  function FormatInt(n: int): string { if n < 0 then "-" + Format(-n) else Format(n) }

  function IntCell(n: int): Cell {
    if n > MAX_EXACT || n < -MAX_EXACT then Text(FormatInt(n)) else Int(n)
  }

  /** An integer too large for JavaScript is kept as the very text it was read from. */
  lemma LargeIntegersKeepTheirText(s: string)
    requires ParseInt(s).Some?
    ensures var n := ParseInt(s).value;
            IntCell(n) == if -MAX_EXACT <= n <= MAX_EXACT then Int(n) else Text(s)
  {
    SignAndDigits(s);
  }

  /** The text of an integer is exactly what is read as one, apart from minus zero. */
  lemma IntegersAreReadIff(v: string, n: int)
    ensures ParseInt(v) == Some(n) <==> Fits(n) && (v == FormatInt(n) || (v == "-0" && n == 0))
  {
    FormatRoundTrip(if n < 0 then -n else n);
    if ParseInt(v) == Some(n) {
      SignAndDigits(v);
      ParseRoundTrip(Digits(v));
      if n == 0 { assert Digits(v) == "0" && v == (if v[0] == '-' then "-" + Digits(v) else Digits(v)); }
    } else if v == FormatInt(n) && n < 0 {
      assert Digits(v) == Format(-n);
    }
  }

  /** Reading and writing an integer in int64 gives back its text, unless it is minus zero. */
  lemma SignAndDigits(s: string)
    requires IsIntegerText(s) && (|Digits(s)| > 1 ==> Digits(s)[0] != '0')
    ensures IntegerValue(s) != 0 ==> FormatInt(IntegerValue(s)) == s
  {
    ParseRoundTrip(Digits(s));
    if s[0] == '-' { assert s == "-" + Digits(s); }
  }
}
