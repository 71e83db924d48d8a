/**
 Which integers keep their digits (internal/analytics/delimited.go: textCell; internal/analytics/import.go:
 intCell, floatCell): a column that mixes integers with decimals is read as 64-bit floating-point numbers.
 */
module ColumnIntegers {
  import opened Wrappers
  import opened CellText
  import opened Decimal
  import opened Delimited
  import opened Money

  // ---------- Integers read as floating-point numbers ----------

  /** The distance between neighbouring 64-bit floating-point numbers near a magnitude: a power of two. */
  function Spacing(m: nat): (unit: nat)
    ensures unit > 0
  {
    if m < 0x20_0000_0000_0000 then 1 else 2 * Spacing(m / 2)
  }

  predicate PowerOfTwo(n: nat) {
    n == 1 || (n > 1 && n % 2 == 0 && PowerOfTwo(n / 2))
  }

  /** The spacing is the power of two that leaves 53 binary digits. */
  lemma {:induction false} SpacingLeaves53Digits(m: nat)
    ensures PowerOfTwo(Spacing(m)) && m < Spacing(m) * 0x20_0000_0000_0000
    ensures m >= 0x20_0000_0000_0000 ==> Spacing(m) * 0x10_0000_0000_0000 <= m
    ensures m < 0x20_0000_0000_0000 ==> Spacing(m) == 1
  {
    if m >= 0x20_0000_0000_0000 { SpacingLeaves53Digits(m / 2); }
  }

  /** Rounded to the nearest multiple of the spacing, halves to the even one. */
  function Nearest(m: nat): int {
    var unit := Spacing(m);
    var down, rest := m / unit, m % unit;
    (if 2 * rest < unit || (2 * rest == unit && down % 2 == 0) then down else down + 1) * unit
  }

  /** The floating-point number an integer is read as. */
  function AsDouble(n: int): int { if n < 0 then -Nearest(-n) else Nearest(n) }

  predicate Representable(n: int) { (if n < 0 then -n else n) % Spacing(if n < 0 then -n else n) == 0 }

  lemma NearestIsNearest(m: nat)
    ensures Nearest(m) == m <==> m % Spacing(m) == 0
    ensures 2 * (Nearest(m) - m) <= Spacing(m) && 2 * (m - Nearest(m)) <= Spacing(m)
  {
    var unit := Spacing(m);
    var down, rest := m / unit, m % unit;
    assert m == down * unit + rest;
    assert (down + 1) * unit == down * unit + unit;
    assert rest == 0 ==> 2 * rest < unit;
  }

  /** Reading an integer as a floating-point number keeps it exactly when it is representable. */
  lemma AsDoubleKeepsIff(n: int)
    ensures AsDouble(n) == n <==> Representable(n)
    ensures -MAX_EXACT <= n <= MAX_EXACT ==> Representable(n)
  {
    NearestIsNearest(if n < 0 then -n else n);
  }

  // ---------- Integers in a column ----------

  /** strconv.ParseFloat on integer text in int64: the nearest floating-point number. */
  ghost predicate ReadsAsDoubles(reader: FloatReader) {
    forall s: string :: ParseInt(s).Some? ==> reader(s) == Some(AsDouble(ParseInt(s).value) as real)
  }

  /** The cell shows the integer n read from v. */
  predicate Shows(cell: Cell, v: string, n: int) {
    cell == Int(n) || cell == Text(v) || cell == Float(n as real)
  }

  /**
   An integer JavaScript cannot hold keeps the very text it was read from, in any column it fits: exactly when
   the column is not typed as floating-point numbers.
   */
  lemma LargeIntegerKeepsItsTextIff(v: string, t: ColType, reader: FloatReader)
    requires ParseInt(v).Some? && FitsIn(TypeInt, t)
    requires ParseInt(v).value > MAX_EXACT || ParseInt(v).value < -MAX_EXACT
    ensures TextCell(v, t, reader) == Text(v) <==> !t.TypeFloat?
  {
    LargeIntegersKeepTheirText(v);
  }

  /** An integer keeps its digits exactly when its column is not floating-point, or a floating-point number holds it. */
  lemma IntegerKeepsItsDigitsIff(v: string, t: ColType, reader: FloatReader)
    requires ParseInt(v).Some? && FitsIn(TypeInt, t) && ReadsAsDoubles(reader)
    ensures Shows(TextCell(v, t, reader), v, ParseInt(v).value) <==> !t.TypeFloat? || Representable(ParseInt(v).value)
  {
    var n := ParseInt(v).value;
    LargeIntegersKeepTheirText(v);
    AsDoubleKeepsIff(n);
    if t.TypeFloat? {
      IntegerTextIsFloatText(v);
      assert TextCell(v, t, reader) == Float(AsDouble(n) as real);
    }
  }

  lemma FormattedIsInteger(n: nat)
    requires Fits(n)
    ensures ParseInt(Format(n)) == Some(n as int)
  {
    var v := Format(n);
    FormatRoundTrip(n);
    assert IsDigit(v[0]) && Digits(v) == v;
  }

  lemma IntegerTextIsTypedInt(v: string, reader: FloatReader)
    requires ParseInt(v).Some?
    ensures Classify(v, reader) == TypeInt
  {
    assert v[0] == '-' || v[0] == Digits(v)[0];
    assert !FoldsTo(v[0], "true"[0]) && !FoldsTo(v[0], "false"[0]);
  }

  lemma HalfIsTypedFloat(reader: FloatReader)
    requires reader("0.5") == Some(0.5)
    ensures Classify("0.5", reader) == TypeFloat
  {
    assert "0.5" == "" + "0" + "." + "5" + "";
    GrammarIsFloatText("0.5", "", "0", ".", "5", "");
    assert !IsDigit("0.5"[1]) && Digits("0.5") == "0.5";
    assert !FoldsTo("0.5"[0], "true"[0]) && !FoldsTo("0.5"[0], "false"[0]);
  }

  lemma TwoCells(u: string, v: string, reader: FloatReader)
    ensures TypeOf([[u], [v]], 0, reader) == Merge(Classify(u, reader), Classify(v, reader))
  {
    assert [[u], [v]][..1] == [[u]] && [[u]][..0] == [];
    assert TypeOf([[u]], 0, reader) == Classify(u, reader);
  }

  const BEYOND: nat := 0x20_0000_0000_0001

  lemma BeyondIsRounded()
    ensures AsDouble(BEYOND) == BEYOND - 1 && !Representable(BEYOND) && Fits(BEYOND)
  {
    assert Spacing(0x10_0000_0000_0000) == 1 && Spacing(BEYOND) == 2;
  }

  /** 9007199254740993 above 0.5: the column is floating-point, and the cell shows 9007199254740992. */
  lemma MixedColumnLosesADigit(reader: FloatReader) returns (v: string)
    requires ReadsAsDoubles(reader) && reader("0.5") == Some(0.5)
    ensures v == Format(BEYOND) && ParseInt(v) == Some(BEYOND as int)
    ensures var t := TypeOf([[v], ["0.5"]], 0, reader);
            && t == TypeFloat && TextCell(v, t, reader) == Float((BEYOND - 1) as real)
            && !Shows(TextCell(v, t, reader), v, BEYOND) && TextCell(v, TypeInt, reader) == Text(v)
  {
    BeyondIsRounded();
    v := Format(BEYOND);
    FormattedIsInteger(BEYOND);
    IntegerTextIsTypedInt(v, reader);
    HalfIsTypedFloat(reader);
    TwoCells(v, "0.5", reader);
    IntegerTextIsFloatText(v);
    LargeIntegersKeepTheirText(v);
    IntegerKeepsItsDigitsIff(v, TypeFloat, reader);
  }
}
