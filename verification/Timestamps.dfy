/**
 Timestamp text (internal/db/timestamps.go): the fixed-width layout, the RFC 3339 text it is parsed from
 (sections 5.1 and 5.6 of RFC 3339), and the numeric sort key. Instants count nanoseconds from
 0000-01-01T00:00:00Z.
 */
module Timestamps {
  import opened Wrappers
  import opened ByteOrder
  import opened Decimal
  import opened Calendar
  import opened Money

  // ---------- Zero-padded fields ----------

  function Pad(n: nat, w: nat): (s: string)
    ensures |s| == w && AllDigits(s)
  {
    if w == 0 then "" else Pad(n / 10, w - 1) + [Digit(n % 10)]
  }

  lemma {:induction false} PadValue(n: nat, w: nat)
    requires n < Pow10(w)
    ensures Value(Pad(n, w)) == n
    decreases w
  {
    if w > 0 {
      PadValue(n / 10, w - 1);
      var s := Pad(n, w);
      assert s[..w - 1] == Pad(n / 10, w - 1);
    }
  }

  lemma PadOfValue(s: string)
    requires AllDigits(s)
    ensures Pad(Value(s), |s|) == s
  {
    ValueBounds(s);
    PadValue(Value(s), |s|);
    SameLengthOrder(Pad(Value(s), |s|), s);
  }

  /** Fixed-width fields compare as numbers, then by what follows. */
  lemma FieldOrder(m: nat, n: nat, w: nat, sep: string, x: string, y: string)
    requires m < Pow10(w) && n < Pow10(w)
    ensures Less(Pad(m, w) + (sep + x), Pad(n, w) + (sep + y)) <==> m < n || (m == n && Less(x, y))
  {
    PadValue(m, w);
    PadValue(n, w);
    SameLengthOrder(Pad(m, w), Pad(n, w));
    LessByHead(Pad(m, w), sep + x, Pad(n, w), sep + y);
    LessByHead(sep, x, sep, y);
    Trichotomy(sep, sep);
  }

  // ---------- Format ----------

  function NanoText(t: Time): string
    requires ValidTime(t)
  {
    Pad(t.nano, 9) + ("Z" + "")
  }

  function ClockText(t: Time): string
    requires ValidTime(t)
  {
    Pad(t.hour, 2) + (":" + (Pad(t.minute, 2) + (":" + (Pad(t.second, 2) + ("." + NanoText(t))))))
  }

  function MonthText(t: Time): string
    requires ValidTime(t)
  {
    Pad(t.date.month, 2) + ("-" + (Pad(t.date.day, 2) + ("T" + ClockText(t))))
  }

  /** Go's year: at least four digits, and a sign before a negative year. */
  function YearText(y: int): string {
    if 0 <= y < 10000 then Pad(y, 4)
    else if y >= 10000 then Decimal.Format(y)
    else "-" + if -y < 10000 then Pad(-y, 4) else Decimal.Format(-y)
  }

  /** A year of more than four digits, or before year zero, is still written as its number. */
  lemma WideYears(y: int)
    requires y < 0 || y >= 10000
    ensures var s := if y < 0 then YearText(y)[1..] else YearText(y);
            && (y < 0 ==> YearText(y)[0] == '-') && AllDigits(s) && Value(s) == (if y < 0 then -y else y) && |s| >= 4
  {
    var n := if y < 0 then -y else y;
    SmallPowers();
    FormatRoundTrip(n);
    ValueBounds(Decimal.Format(n));
    if n < 10000 { PadValue(n, 4); }
    if n >= 10000 && |Decimal.Format(n)| < 4 { Pow10Monotone(|Decimal.Format(n)|, 4); }
  }

  predicate FourDigitYear(n: int) { 0 <= TimeOf(n).date.year < 10000 }

  function TimeText(t: Time): string
    requires ValidTime(t)
  {
    YearText(t.date.year) + ("-" + MonthText(t))
  }

  /** t.UTC().Format(timestampLayout). */
  function Format(n: int): string { TimeText(TimeOf(n)) }

  lemma ClockTextOrder(a: Time, b: Time)
    requires ValidTime(a) && ValidTime(b)
    ensures Less(ClockText(a), ClockText(b)) <==>
              a.hour < b.hour
              || (a.hour == b.hour
                  && (a.minute < b.minute
                      || (a.minute == b.minute && (a.second < b.second || (a.second == b.second && a.nano < b.nano)))))
  {
    SmallPowers();
    FieldOrder(a.nano, b.nano, 9, "Z", "", "");
    FieldOrder(a.second, b.second, 2, ".", NanoText(a), NanoText(b));
    var sa, sb := Pad(a.second, 2) + ("." + NanoText(a)), Pad(b.second, 2) + ("." + NanoText(b));
    FieldOrder(a.minute, b.minute, 2, ":", sa, sb);
    FieldOrder(a.hour, b.hour, 2, ":", Pad(a.minute, 2) + (":" + sa), Pad(b.minute, 2) + (":" + sb));
  }

  lemma SmallPowers()
    ensures Pow10(2) == 100 && Pow10(4) == 10000 && Pow10(9) == 1_000_000_000
  {
    assert Pow10(3) == 1000 && Pow10(5) == 100_000 && Pow10(7) == 10_000_000;
  }

  lemma MonthTextOrder(a: Time, b: Time)
    requires ValidTime(a) && ValidTime(b)
    ensures Less(MonthText(a), MonthText(b)) <==>
              a.date.month < b.date.month
              || (a.date.month == b.date.month
                  && (a.date.day < b.date.day || (a.date.day == b.date.day && Less(ClockText(a), ClockText(b)))))
  {
    SmallPowers();
    var da, db := Pad(a.date.day, 2) + ("T" + ClockText(a)), Pad(b.date.day, 2) + ("T" + ClockText(b));
    FieldOrder(a.date.day, b.date.day, 2, "T", ClockText(a), ClockText(b));
    FieldOrder(a.date.month, b.date.month, 2, "-", da, db);
  }

  lemma TimeTextOrder(a: Time, b: Time)
    requires ValidTime(a) && ValidTime(b) && 0 <= a.date.year < 10000 && 0 <= b.date.year < 10000
    ensures Less(TimeText(a), TimeText(b)) <==> TimeLess(a, b)
  {
    SmallPowers();
    ClockTextOrder(a, b);
    MonthTextOrder(a, b);
    FieldOrder(a.date.year, b.date.year, 4, "-", MonthText(a), MonthText(b));
  }

  lemma EarlierTextIsEarlierTime(m: int, n: int)
    requires FourDigitYear(m) && FourDigitYear(n)
    ensures Less(Format(m), Format(n)) <==> m < n
  {
    TimeTextOrder(TimeOf(m), TimeOf(n));
    TimeOfIsInverse(m);
    TimeOfIsInverse(n);
    InstantsOrderAsTimes(TimeOf(m), TimeOf(n));
  }

  /** Fixed-width UTC timestamps sort as strings exactly as their instants do. */
  lemma TextOrderIsTimeOrder(m: int, n: int)
    requires FourDigitYear(m) && FourDigitYear(n)
    ensures Less(Format(m), Format(n)) <==> m < n
    ensures Format(m) == Format(n) <==> m == n
  {
    EarlierTextIsEarlierTime(m, n);
    EarlierTextIsEarlierTime(n, m);
    Trichotomy(Format(m), Format(n));
  }

  // ---------- Parse ----------

  /** A field of exactly w digits, and what follows. */
  function Field(s: string, w: nat): Option<(nat, string)> {
    if |s| >= w && AllDigits(s[..w]) then Some((Value(s[..w]), s[w..])) else None
  }

  /** A field and the character after it. */
  function FieldThen(s: string, w: nat, sep: char): Option<(nat, string)> {
    var f := Field(s, w);
    if f.None? || f.value.1 == "" || f.value.1[0] != sep then None else Some((f.value.0, f.value.1[1..]))
  }

  lemma FieldReadsPad(n: nat, w: nat, sep: char, x: string)
    requires n < Pow10(w)
    ensures Field(Pad(n, w) + x, w) == Some((n, x))
    ensures FieldThen(Pad(n, w) + ([sep] + x), w, sep) == Some((n, x))
  {
    PadValue(n, w);
    assert (Pad(n, w) + x)[..w] == Pad(n, w) && (Pad(n, w) + x)[w..] == x;
    var t := Pad(n, w) + ([sep] + x);
    assert t[..w] == Pad(n, w) && t[w..] == [sep] + x && ([sep] + x)[1..] == x;
  }

  lemma FieldIsPad(s: string, w: nat, sep: char)
    ensures Field(s, w).Some? ==> s == Pad(Field(s, w).value.0, w) + Field(s, w).value.1
    ensures FieldThen(s, w, sep).Some? ==>
            s == Pad(FieldThen(s, w, sep).value.0, w) + ([sep] + FieldThen(s, w, sep).value.1)
  {
    if Field(s, w).Some? {
      PadOfValue(s[..w]);
      assert s == s[..w] + s[w..];
      if FieldThen(s, w, sep).Some? { assert s[w..] == [sep] + s[w..][1..]; }
    }
  }

  /** The date and the clock to the second, and what follows; ranges are checked here. */
  function ParseClock(v: string): Option<(Time, string)> {
    var y := FieldThen(v, 4, '-');
    if y.None? then None else
    var mo := FieldThen(y.value.1, 2, '-');
    if mo.None? then None else
    var d := FieldThen(mo.value.1, 2, 'T');
    if d.None? then None else
    var h := FieldThen(d.value.1, 2, ':');
    if h.None? then None else
    var mi := FieldThen(h.value.1, 2, ':');
    if mi.None? then None else
    var s := Field(mi.value.1, 2);
    if s.None? then None else
    var t := Time(Date(y.value.0, mo.value.0, d.value.0), h.value.0, mi.value.0, s.value.0, 0);
    if ValidTime(t) then Some((t, s.value.1)) else None
  }

  function DigitRun(s: string): (n: nat)
    ensures n <= |s| && AllDigits(s[..n]) && (n < |s| ==> !IsDigit(s[n]))
  {
    if s == "" || !IsDigit(s[0]) then 0 else 1 + DigitRun(s[1..])
  }

  /** The first nine digits of a fraction, as nanoseconds. */
  function Nanos(digits: string): (n: nat)
    requires AllDigits(digits)
    ensures n < SECOND
    decreases 9 - |digits|
  {
    if |digits| >= 9 then
      ValueBounds(digits[..9]);
      SmallPowers();
      Value(digits[..9])
    else Nanos(digits + "0")
  }

  lemma OneMoreZero(digits: string)
    requires AllDigits(digits)
    ensures AllDigits(digits + "0") && Value(digits + "0") == 10 * Value(digits)
  {
    assert (digits + "0")[..|digits|] == digits;
  }

  /** A fraction's digits count tenths, hundredths and so on of a second; those past the ninth are dropped. */
  lemma {:induction false} NanosAreTheFraction(digits: string)
    requires AllDigits(digits)
    ensures |digits| > 9 ==> Nanos(digits) == Nanos(digits[..9])
    ensures |digits| <= 9 ==> Nanos(digits) == Scaled(Value(digits), 9 - |digits|)
    decreases 9 - |digits|
  {
    if |digits| >= 9 {
      assert digits[..9][..9] == digits[..9] && (|digits| == 9 ==> digits[..9] == digits);
    } else {
      OneMoreZero(digits);
      NanosAreTheFraction(digits + "0");
    }
  }

  /** n, with so many zeroes after it. */
  function Scaled(n: nat, zeroes: nat): nat
    decreases zeroes
  {
    if zeroes == 0 then n else Scaled(10 * n, zeroes - 1)
  }

  /** An optional fraction: its nanoseconds and what follows. */
  function ParseFraction(s: string): (nat, string) {
    if |s| >= 2 && s[0] == '.' && IsDigit(s[1])
    then var n := DigitRun(s[1..]); (Nanos(s[1..][..n]), s[1..][n..])
    else (0, s)
  }

  /** The zone's offset from UTC in seconds: Z, or hours up to 24 and minutes up to 60. */
  function ParseZone(s: string): Option<int> {
    if s == "Z" then Some(0)
    else if |s| != 6 || (s[0] != '+' && s[0] != '-') then None
    else
      var h := FieldThen(s[1..], 2, ':');
      if h.None? then None else
      var m := Field(h.value.1, 2);
      if m.None? || h.value.0 > 24 || m.value.0 > 60 then None
      else
        var offset := (h.value.0 * 60 + m.value.0) * 60;
        Some(if s[0] == '-' then -offset else offset)
  }

  /** time.Parse(time.RFC3339Nano, v), as an instant. */
  function Parse(v: string): Option<int> {
    var c := ParseClock(v);
    if c.None? then None
    else
      var f := ParseFraction(c.value.1);
      var zone := ParseZone(f.1);
      if zone.None? then None
      else Some(Instant(c.value.0.(nano := f.0)) - zone.value * SECOND)
  }

  /** The date and the clock to the second, then x. */
  function ClockHead(t: Time, x: string): string
    requires ValidTime(t) && 0 <= t.date.year
  {
    Pad(t.date.year, 4) + ("-" + (Pad(t.date.month, 2) + ("-" + (Pad(t.date.day, 2) + ("T"
      + (Pad(t.hour, 2) + (":" + (Pad(t.minute, 2) + (":" + (Pad(t.second, 2) + x))))))))))
  }

  lemma ClockIsRead(t: Time, x: string)
    requires ValidTime(t) && 0 <= t.date.year < 10000
    ensures ParseClock(ClockHead(t, x)) == Some((t.(nano := 0), x))
  {
    SmallPowers();
    var s := Pad(t.second, 2) + x;
    var mi := Pad(t.minute, 2) + (":" + s);
    var h := Pad(t.hour, 2) + (":" + mi);
    var d := Pad(t.date.day, 2) + ("T" + h);
    var mo := Pad(t.date.month, 2) + ("-" + d);
    FieldReadsPad(t.second, 2, ':', x);
    FieldReadsPad(t.minute, 2, ':', s);
    FieldReadsPad(t.hour, 2, ':', mi);
    FieldReadsPad(t.date.day, 2, 'T', h);
    FieldReadsPad(t.date.month, 2, '-', d);
    FieldReadsPad(t.date.year, 4, '-', mo);
  }

  /** Whatever the clock is read from is its fixed-width head. */
  lemma ReadClockIsItsHead(v: string)
    requires ParseClock(v).Some?
    ensures var (t, x) := ParseClock(v).value;
            ValidTime(t) && 0 <= t.date.year < 10000 && t.nano == 0 && v == ClockHead(t, x)
  {
    var y := FieldThen(v, 4, '-').value;
    var mo := FieldThen(y.1, 2, '-').value;
    var d := FieldThen(mo.1, 2, 'T').value;
    var h := FieldThen(d.1, 2, ':').value;
    var mi := FieldThen(h.1, 2, ':').value;
    FieldIsPad(v, 4, '-');
    FieldIsPad(y.1, 2, '-');
    FieldIsPad(mo.1, 2, 'T');
    FieldIsPad(d.1, 2, ':');
    FieldIsPad(h.1, 2, ':');
    FieldIsPad(mi.1, 2, ':');
    SmallPowers();
    ValueBounds(v[..4]);
  }

  lemma NineDigitsThenZ(nano: nat)
    requires nano < SECOND
    ensures ParseFraction("." + (Pad(nano, 9) + "Z")) == (nano, "Z")
  {
    SmallPowers();
    PadValue(nano, 9);
    var digits := Pad(nano, 9);
    var s := "." + (digits + "Z");
    assert s[1..] == digits + "Z" && IsDigit(digits[0]) && s[1] == digits[0];
    var n := DigitRun(s[1..]);
    assert n == 9 by {
      assert forall k :: 0 <= k < 9 ==> s[1..][k] == digits[k] && IsDigit(digits[k]);
      assert s[1..][9] == s[1..][..10][9] == 'Z';
    }
    assert s[1..][..9] == digits && s[1..][9..] == "Z" && digits[..9] == digits;
  }

  lemma ParseOfParts(v: string, t: Time, x: string, nano: nat, zone: string, offset: int)
    requires ParseClock(v) == Some((t, x)) && ParseFraction(x) == (nano, zone) && ParseZone(zone) == Some(offset)
    ensures ValidTime(t) && nano < SECOND && Parse(v) == Some(Instant(t.(nano := nano)) - offset * SECOND)
  {
  }

  lemma TimeTextHead(t: Time)
    requires ValidTime(t) && 0 <= t.date.year < 10000
    ensures TimeText(t) == ClockHead(t, "." + (Pad(t.nano, 9) + "Z"))
            == ClockHead(t.(nano := 0), "." + (Pad(t.nano, 9) + "Z"))
  {
    assert Pad(t.nano, 9) + ("Z" + "") == Pad(t.nano, 9) + "Z";
  }

  lemma TimeTextIsReadBack(t: Time)
    requires ValidTime(t) && 0 <= t.date.year < 10000
    ensures Parse(TimeText(t)) == Some(Instant(t))
  {
    var x := "." + (Pad(t.nano, 9) + "Z");
    TimeTextHead(t);
    ClockIsRead(t, x);
    NineDigitsThenZ(t.nano);
    ParseOfParts(TimeText(t), t.(nano := 0), x, t.nano, "Z", 0);
  }

  /** Every formatted instant with a four-digit year is read back. */
  lemma FormattedIsReadBack(n: int)
    requires FourDigitYear(n)
    ensures Parse(Format(n)) == Some(n)
  {
    TimeTextIsReadBack(TimeOf(n));
    TimeOfIsInverse(n);
  }

  // ---------- The prefilter ----------

  /** v LIKE '____-__-__T__:__:__._________Z'; SQLite's LIKE ignores the case of the two letters. */
  predicate LikeFixedWidth(v: string) {
    && |v| == 30 && v[4] == '-' && v[7] == '-' && (v[10] == 'T' || v[10] == 't') && v[13] == ':' && v[16] == ':'
    && v[19] == '.' && (v[29] == 'Z' || v[29] == 'z')
  }

  lemma HeadLayout(t: Time, x: string)
    requires ValidTime(t) && 0 <= t.date.year < 10000
    ensures var v := ClockHead(t, x);
            && |v| == 19 + |x| && v[19..] == x
            && v[4] == '-' && v[7] == '-' && v[10] == 'T' && v[13] == ':' && v[16] == ':'
  {
  }

  /** A numeric zone ends in a digit. */
  lemma ZoneEnd(zone: string)
    requires ParseZone(zone).Some?
    ensures zone == "Z" || (|zone| == 6 && IsDigit(zone[5]))
  {
    if zone != "Z" { NumericZoneEnd(zone); }
  }

  lemma NumericZoneEnd(zone: string)
    requires ParseZone(zone).Some? && zone != "Z"
    ensures |zone| == 6 && IsDigit(zone[5])
  {
    var h := FieldThen(zone[1..], 2, ':').value;
    assert h.1 == zone[4..] && h.1[..2] == zone[4..];
    assert zone[4..][1] == zone[5];
  }

  /** A fixed-width text that parses is the text its instant is formatted as. */
  lemma ElevenCharacterTail(x: string)
    requires |x| == 11 && x[0] == '.' && (x[10] == 'Z' || x[10] == 'z') && ParseZone(ParseFraction(x).1).Some?
    ensures ParseZone(ParseFraction(x).1) == Some(0)
    ensures ParseFraction(x).0 < SECOND && x == "." + (Pad(ParseFraction(x).0, 9) + "Z")
  {
    var (nano, zone) := ParseFraction(x);
    if |x[1..]| > 0 && IsDigit(x[1]) {
      var n := DigitRun(x[1..]);
      assert zone == x[1..][n..] && |zone| == 10 - n;
      assert zone != "" && zone[|zone| - 1] == x[10];
      ZoneEnd(zone);
      assert n == 9;
      var digits := x[1..][..9];
      assert digits[..9] == digits;
      PadOfValue(digits);
      assert x == "." + (digits + zone);
    }
  }

  lemma ParsedParts(v: string) returns (t: Time, x: string)
    requires Parse(v).Some?
    ensures ParseClock(v) == Some((t, x)) && ParseZone(ParseFraction(x).1).Some?
    ensures ValidTime(t) && 0 <= t.date.year < 10000 && t.nano == 0 && v == ClockHead(t, x)
  {
    t, x := ParseClock(v).value.0, ParseClock(v).value.1;
    ReadClockIsItsHead(v);
  }

  lemma FixedWidthTail(v: string, t: Time, x: string)
    requires LikeFixedWidth(v) && ValidTime(t) && 0 <= t.date.year < 10000 && v == ClockHead(t, x)
    ensures |x| == 11 && x[0] == '.' && (x[10] == 'Z' || x[10] == 'z')
  {
    HeadLayout(t, x);
    assert x[0] == v[19] && x[10] == v[29];
  }

  /** The prefilter skips only values that are already normal or that do not parse. */
  lemma PrefilterSkipsOnlyNormalValues(v: string)
    requires LikeFixedWidth(v) && Parse(v).Some?
    ensures FourDigitYear(Parse(v).value) && Format(Parse(v).value) == v
  {
    var t, x := ParsedParts(v);
    FixedWidthTail(v, t, x);
    ElevenCharacterTail(x);
    var nano := ParseFraction(x).0;
    var full := t.(nano := nano);
    TimeTextHead(full);
    assert full.(nano := 0) == t;
    TimeTextIsReadBack(full);
    InstantIsInverse(full);
  }

  lemma FormattedIsFixedWidth(n: int)
    requires FourDigitYear(n)
    ensures LikeFixedWidth(Format(n))
  {
    var t := TimeOf(n);
    HeadLayout(t, "." + NanoText(t));
    assert Format(n) == ClockHead(t, "." + NanoText(t));
    assert Format(n)[19..] == "." + NanoText(t);
    assert (Format(n)[19..])[10] == 'Z';
  }

  // ---------- Normalising stored text ----------

  /** What retrofitTimestampColumn leaves in a column: only parseable values outside the pattern change. */
  function Retrofit(v: string): string {
    if v == "" || LikeFixedWidth(v) || Parse(v).None? then v else Format(Parse(v).value)
  }

  /** Years that do not have four digits are written in a form that does not parse. */
  lemma LongYearsDoNotParse(n: int)
    requires !FourDigitYear(n)
    ensures Parse(Format(n)).None?
  {
    var y, v := TimeOf(n).date.year, Format(n);
    if y < 0 {
      assert v[0] == '-' && v[..4][0] == '-';
    } else {
      var s := Decimal.Format(y);
      FormatRoundTrip(y);
      ValueBounds(s);
      SmallPowers();
      if |s| < 5 { Pow10Monotone(|s|, 4); }
      assert v[4] == s[4] && IsDigit(s[4]);
    }
  }

  /** Normalising twice is normalising once. */
  lemma RetrofitIsIdempotent(v: string)
    ensures Retrofit(Retrofit(v)) == Retrofit(v)
  {
    if v != "" && !LikeFixedWidth(v) && Parse(v).Some? {
      var n := Parse(v).value;
      if FourDigitYear(n) { FormattedIsFixedWidth(n); } else { LongYearsDoNotParse(n); }
    }
  }

  /** Normalising keeps the instant exactly when its UTC year has four digits; otherwise the value stops parsing. */
  lemma RetrofitKeepsInstants(v: string)
    ensures Parse(v).None? ==> Retrofit(v) == v
    ensures Parse(v).Some? ==> Parse(Retrofit(v)) == if FourDigitYear(Parse(v).value) then Parse(v) else None
    ensures Parse(v).Some? && FourDigitYear(Parse(v).value) ==> Retrofit(v) == Format(Parse(v).value)
  {
    if Parse(v).Some? {
      var n := Parse(v).value;
      assert v != "";
      if LikeFixedWidth(v) { PrefilterSkipsOnlyNormalValues(v); }
      else if FourDigitYear(n) { FormattedIsReadBack(n); }
      else { LongYearsDoNotParse(n); }
    }
  }

  function Offset(sign: char, hours: nat, minutes: nat): int {
    var offset := (hours * 60 + minutes) * 60;
    if sign == '-' then -offset else offset
  }

  lemma NumericZone(s: string, hours: nat, after: string, minutes: nat)
    requires |s| == 6 && (s[0] == '+' || s[0] == '-') && hours <= 24 && minutes <= 60
    requires FieldThen(s[1..], 2, ':') == Some((hours, after)) && Field(after, 2) == Some((minutes, ""))
    ensures ParseZone(s) == Some(Offset(s[0], hours, minutes))
  {
  }

  lemma ZoneFields(hours: nat, minutes: nat) returns (rest: string)
    requires hours < 100 && minutes < 100
    ensures |rest| == 5 && rest == Pad(hours, 2) + (":" + Pad(minutes, 2))
    ensures FieldThen(rest, 2, ':') == Some((hours, Pad(minutes, 2)))
            && Field(Pad(minutes, 2), 2) == Some((minutes, ""))
  {
    SmallPowers();
    rest := Pad(hours, 2) + (":" + Pad(minutes, 2));
    FieldReadsPad(hours, 2, ':', Pad(minutes, 2));
    FieldReadsPad(minutes, 2, ':', "");
    assert Pad(minutes, 2) + "" == Pad(minutes, 2);
  }

  /** A sign, two digits of hours, a colon and two digits of minutes are read as that offset. */
  lemma SomeZone(sign: char, hours: nat, minutes: nat) returns (zone: string)
    requires (sign == '+' || sign == '-') && hours <= 24 && minutes <= 60
    ensures zone == [sign] + (Pad(hours, 2) + (":" + Pad(minutes, 2))) && |zone| == 6
    ensures ParseZone(zone) == Some(Offset(sign, hours, minutes))
  {
    var rest := ZoneFields(hours, minutes);
    zone := [sign] + rest;
    assert zone[1..] == rest;
    NumericZone(zone, hours, Pad(minutes, 2), minutes);
  }

  /** Hours past 24 and minutes past 60 make no zone. */
  lemma NoSuchZone(sign: char, hours: nat, minutes: nat) returns (zone: string)
    requires (sign == '+' || sign == '-') && hours < 100 && minutes < 100 && (hours > 24 || minutes > 60)
    ensures zone == [sign] + (Pad(hours, 2) + (":" + Pad(minutes, 2))) && ParseZone(zone) == None
  {
    var rest := ZoneFields(hours, minutes);
    zone := [sign] + rest;
    assert zone[1..] == rest;
  }

  lemma SomeClock(t: Time, x: string) returns (v: string)
    requires ValidTime(t) && 0 <= t.date.year < 10000 && t.nano == 0
    ensures v == ClockHead(t, x) && ParseClock(v) == Some((t, x))
  {
    v := ClockHead(t, x);
    ClockIsRead(t, x);
    assert t.(nano := 0) == t;
  }

  lemma WholeSecondParts(v: string, t: Time, zone: string, offset: int)
    requires ParseClock(v) == Some((t, zone)) && ParseZone(zone) == Some(offset) && zone[0] != '.' && t.nano == 0
    ensures Parse(v) == Some(Instant(t) - offset * SECOND)
  {
    assert t.(nano := 0) == t && ParseFraction(zone) == (0, zone);
    ParseOfParts(v, t, zone, 0, zone, offset);
  }

  /** A date and clock followed by a zone mean the instant the zone's offset earlier. */
  lemma WithZone(t: Time, zone: string, offset: int) returns (v: string)
    requires ValidTime(t) && 0 <= t.date.year < 10000 && t.nano == 0
    requires ParseZone(zone) == Some(offset) && zone[0] != '.'
    ensures v == ClockHead(t, zone) && Parse(v) == Some(Instant(t) - offset * SECOND)
  {
    v := SomeClock(t, zone);
    WholeSecondParts(v, t, zone, offset);
  }

  lemma DayBeforeYearZero(n: int)
    requires -DAY <= n < 0
    ensures !FourDigitYear(n)
  {
    assert n / DAY == -1 && DateBefore(0) == Date(0, 1, 1);
  }

  lemma ShiftedOutOfRange(v: string, n: int)
    requires Parse(v) == Some(n) && -DAY <= n < 0
    ensures Parse(Retrofit(v)).None?
  {
    DayBeforeYearZero(n);
    RetrofitKeepsInstants(v);
  }

  lemma FirstInstant() returns (start: Time)
    ensures ValidTime(start) && start.date.year == 0 && start.nano == 0 && Instant(start) == 0
  {
    start := Time(Date(0, 1, 1), 0, 0, 0, 0);
  }

  lemma OneMinuteEast() returns (zone: string)
    ensures ParseZone(zone) == Some(60) && zone[0] != '.'
  {
    zone := SomeZone('+', 0, 1);
  }

  /**
   The first instant of year 0 a minute east of Greenwich is such a value: it parses, and its normal form does
   not.
   */
  lemma NormalFormCanStopParsing() returns (v: string)
    ensures Parse(v).Some? && Parse(Retrofit(v)).None?
  {
    var start := FirstInstant();
    var zone := OneMinuteEast();
    v := WithZone(start, zone, 60);
    ShiftedOutOfRange(v, -60 * SECOND);
  }

  // ---------- The numeric key ----------

  const EPOCH: int := 719528 * DAY

  lemma EpochIs1970()
    ensures Instant(Time(Date(1970, 1, 1), 0, 0, 0, 0)) == EPOCH
  {
  }

  /** The key of the epoch itself is the value that marks a key still to be derived. */
  lemma EpochHasKeyZero() returns (v: string)
    ensures v == ClockHead(Time(Date(1970, 1, 1), 0, 0, 0, 0), "Z")
    ensures Parse(v) == Some(EPOCH) && LegacyKey(v) == 0
  {
    EpochIs1970();
    v := WithZone(Time(Date(1970, 1, 1), 0, 0, 0, 0), "Z", 0);
    WrapKeepsInRange(0);
  }

  /** UnixNano: nanoseconds since 1970 in a signed 64-bit word. */
  function Key(n: int): int { Wrap(n - EPOCH) }

  /** legacyTimestampUnixNano, and the value backfillUnixNanoColumn stores. */
  function LegacyKey(v: string): int { if Parse(v).Some? then Key(Parse(v).value) else 0 }

  predicate KeyFits(n: int) { Fits(n - EPOCH) }

  /** An instant is ordered correctly by key against every representable instant exactly when it is one itself. */
  lemma KeysOrderInstantsIffTheyFit(m: int)
    ensures KeyFits(m) <==> forall n :: KeyFits(n) ==> (m < n <==> Key(m) < Key(n)) && (n < m <==> Key(n) < Key(m))
  {
    WrapKeepsInRange(m - EPOCH);
    forall n | KeyFits(n) ensures Key(n) == n - EPOCH { WrapKeepsInRange(n - EPOCH); }
    assert KeyFits(EPOCH + MAX_INT64) && KeyFits(EPOCH + MIN_INT64);
    assert Key(EPOCH + MAX_INT64) == MAX_INT64 && Key(EPOCH + MIN_INT64) == MIN_INT64;
  }

  /** The years from 1678 to 2261 are representable. */
  lemma KeysFitFor(n: int)
    requires 1678 <= TimeOf(n).date.year <= 2261
    ensures KeyFits(n)
  {
    var t := TimeOf(n);
    TimeOfIsInverse(n);
    DayNumberInYear(t.date);
    ClockBounds(t);
    if t.date.year > 1678 { LaterYears(1678, t.date.year); }
    if t.date.year < 2261 { LaterYears(t.date.year + 1, 2262); }
    assert DaysBeforeYear(1678) == 612878 && DaysBeforeYear(2262) == 826179;
    assert 612878 * DAY <= n < 826179 * DAY;
  }

  lemma FittingKeysOrderInstants(m: int, n: int)
    requires KeyFits(m) && KeyFits(n)
    ensures Key(m) < Key(n) <==> m < n
  {
    WrapKeepsInRange(m - EPOCH);
    WrapKeepsInRange(n - EPOCH);
  }

  /** A value whose instant has a four-digit year and a representable key. */
  predicate Ordinary(v: string) {
    Parse(v).Some? && FourDigitYear(Parse(v).value) && KeyFits(Parse(v).value)
  }

  lemma RetrofitOfOrdinary(v: string, n: int)
    requires Ordinary(v) && Parse(v) == Some(n)
    ensures Retrofit(v) == Format(n) && LegacyKey(Retrofit(v)) == LegacyKey(v) == Key(n)
  {
    RetrofitKeepsInstants(v);
  }

  lemma OrdersOfInstants(m: int, n: int)
    requires FourDigitYear(m) && FourDigitYear(n) && KeyFits(m) && KeyFits(n)
    ensures Less(Format(m), Format(n)) <==> Key(m) < Key(n)
    ensures Key(m) < Key(n) <==> m < n
  {
    TextOrderIsTimeOrder(m, n);
    FittingKeysOrderInstants(m, n);
  }

  /** After normalising, the text order, the numeric order and the legacy order of ordinary values agree. */
  lemma OrdersAgree(u: string, v: string, m: int, n: int)
    requires Ordinary(u) && Ordinary(v) && Parse(u) == Some(m) && Parse(v) == Some(n)
    ensures Less(Retrofit(u), Retrofit(v)) <==> m < n
    ensures LegacyKey(Retrofit(u)) < LegacyKey(Retrofit(v)) <==> m < n
    ensures LegacyKey(u) < LegacyKey(v) <==> m < n
  {
    RetrofitOfOrdinary(u, m);
    RetrofitOfOrdinary(v, n);
    OrdersOfInstants(m, n);
  }

  // ---------- Values whose key does not fit ----------

  lemma OrdinaryTextOf(t: Time) returns (v: string)
    requires ValidTime(t) && 0 <= t.date.year < 10000 && KeyFits(Instant(t))
    ensures Parse(v) == Some(Instant(t)) && Ordinary(v)
  {
    v := Format(Instant(t));
    InstantIsInverse(t);
    FormattedIsReadBack(Instant(t));
  }

  /** The last and the first instant with a key. */
  lemma ExtremeTexts() returns (last: string, first: string)
    ensures Ordinary(last) && Parse(last) == Some(EPOCH + MAX_INT64) && LegacyKey(last) == MAX_INT64
    ensures Ordinary(first) && Parse(first) == Some(EPOCH + MIN_INT64) && LegacyKey(first) == MIN_INT64
  {
    var late := Time(Date(2262, 4, 11), 23, 47, 16, 854_775_807);
    var early := Time(Date(1677, 9, 21), 0, 12, 43, 145_224_192);
    assert DayNumber(late.date) == 826279 && DayNumber(early.date) == 612776;
    assert Instant(late) == EPOCH + MAX_INT64 && Instant(early) == EPOCH + MIN_INT64;
    WrapKeepsInRange(MAX_INT64);
    WrapKeepsInRange(MIN_INT64);
    last := OrdinaryTextOf(late);
    first := OrdinaryTextOf(early);
  }

  /** Keys put u and v in the order of their instants. */
  predicate KeysOrder(u: string, v: string)
    requires Parse(u).Some? && Parse(v).Some?
  {
    && (LegacyKey(u) < LegacyKey(v) <==> Parse(u).value < Parse(v).value)
    && (LegacyKey(v) < LegacyKey(u) <==> Parse(v).value < Parse(u).value)
  }

  /** A stored value is ordered correctly by key against every ordinary one exactly when its own key fits. */
  lemma TextsAreOrderedIffTheirKeyFits(u: string)
    requires Parse(u).Some?
    ensures KeyFits(Parse(u).value) <==> forall v :: Ordinary(v) ==> KeysOrder(u, v)
  {
    var m := Parse(u).value;
    if KeyFits(m) {
      forall v | Ordinary(v) ensures KeysOrder(u, v) {
        FittingKeysOrderInstants(m, Parse(v).value);
        FittingKeysOrderInstants(Parse(v).value, m);
      }
    } else {
      var last, first := ExtremeTexts();
      assert Fits(Key(m)) by { WrapKeepsInRange(m - EPOCH); }
      assert if m > EPOCH then !KeysOrder(u, last) else !KeysOrder(u, first);
    }
  }

  lemma WholeSecondsAreFourDigits(t: Time) returns (v: string)
    requires ValidTime(t) && 0 <= t.date.year < 10000 && t.nano == 0
    ensures v == ClockHead(t, "Z") && Parse(v) == Some(Instant(t)) && FourDigitYear(Instant(t))
  {
    v := WithZone(t, "Z", 0);
    InstantIsInverse(t);
  }

  lemma FarInstants()
    ensures Instant(Time(Date(2300, 1, 1), 0, 0, 0, 0)) == 840058 * DAY
    ensures Instant(Time(Date(2000, 1, 1), 0, 0, 0, 0)) == 730485 * DAY
    ensures Key(840058 * DAY) < 0 < Key(730485 * DAY) && KeyFits(730485 * DAY)
  {
    assert DayNumber(Date(2300, 1, 1)) == 840058 && DayNumber(Date(2000, 1, 1)) == 730485;
    WrapKeepsInRange(730485 * DAY - EPOCH);
  }

  lemma ReversedKeysReverseValues(far: string, near: string, m: int, n: int)
    requires Parse(far) == Some(m) && Parse(near) == Some(n) && FourDigitYear(m) && FourDigitYear(n)
    requires n < m && Key(m) < Key(n)
    ensures Less(Retrofit(near), Retrofit(far))
    ensures LegacyKey(far) < LegacyKey(near) && LegacyKey(Retrofit(far)) < LegacyKey(Retrofit(near))
  {
    TextOrderIsTimeOrder(n, m);
    RetrofitKeepsInstants(near);
    RetrofitKeepsInstants(far);
  }

  /** The first second of 2300 has a key below that of the first second of 2000, before and after normalising. */
  lemma FarDateIsMisordered() returns (far: string, near: string)
    ensures far == ClockHead(Time(Date(2300, 1, 1), 0, 0, 0, 0), "Z")
    ensures near == ClockHead(Time(Date(2000, 1, 1), 0, 0, 0, 0), "Z") && Ordinary(near)
    ensures Parse(far).Some? && Parse(near).value < Parse(far).value && FourDigitYear(Parse(far).value)
    ensures Less(Retrofit(near), Retrofit(far))
    ensures LegacyKey(far) < LegacyKey(near) && LegacyKey(Retrofit(far)) < LegacyKey(Retrofit(near))
  {
    FarInstants();
    far := WholeSecondsAreFourDigits(Time(Date(2300, 1, 1), 0, 0, 0, 0));
    near := WholeSecondsAreFourDigits(Time(Date(2000, 1, 1), 0, 0, 0, 0));
    ReversedKeysReverseValues(far, near, 840058 * DAY, 730485 * DAY);
  }
}
