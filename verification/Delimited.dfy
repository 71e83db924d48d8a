/**
 Column types of delimited text (internal/analytics/delimited.go): rows of equal width, as the CSV reader
 returns them.
 */
module Delimited {
  import opened Wrappers
  import opened CellText

  datatype ColType = TypeNull | TypeBool | TypeInt | TypeFloat | TypeText

  function Classify(v: string, reader: FloatReader): ColType {
    if v == "" then TypeNull
    else if EqualFold(v, "true") || EqualFold(v, "false") then TypeBool
    else if ParseInt(v).Some? then TypeInt
    else if IsIntegerText(v) then TypeText
    else if ParseFloat(v, reader).Some? then TypeFloat
    else TypeText
  }

  /** What each kind of cell looks like; an integer out of range is text. */
  lemma CellTypes(v: string, reader: FloatReader)
    ensures Classify(v, reader) == TypeNull <==> v == ""
    ensures Classify(v, reader) == TypeBool <==> EqualFold(v, "true") || EqualFold(v, "false")
    ensures Classify(v, reader) == TypeInt <==> ParseInt(v).Some?
    ensures Classify(v, reader) == TypeFloat <==>
              && ParseFloat(v, reader).Some? && !IsIntegerText(v) && !EqualFold(v, "true") && !EqualFold(v, "false")
  {
    assert v == "" ==> ParseFloat(v, reader).None?;
    if EqualFold(v, "true") || EqualFold(v, "false") {
      TruthIsSpelled(v, if EqualFold(v, "true") then "true" else "false");
      assert Digits(v) == v && !('0' <= v[0] <= '9');
    }
  }

  function Merge(a: ColType, b: ColType): ColType {
    if a == b || b.TypeNull? then a
    else if a.TypeNull? then b
    else if (a.TypeInt? && b.TypeFloat?) || (a.TypeFloat? && b.TypeInt?) then TypeFloat
    else TypeText
  }

  // ---------- The types form a join semilattice ----------

  /** Every value of type a can be kept in a column of type b. */
  predicate FitsIn(a: ColType, b: ColType) {
    a.TypeNull? || a == b || b.TypeText? || (a.TypeInt? && b.TypeFloat?)
  }

  /** Merge is the least type both fit in; so it is commutative, associative and idempotent. */
  lemma MergeIsTheLeastUpperBound(a: ColType, b: ColType, c: ColType)
    ensures FitsIn(a, Merge(a, b)) && FitsIn(b, Merge(a, b))
    ensures FitsIn(Merge(a, b), c) <==> FitsIn(a, c) && FitsIn(b, c)
    ensures Merge(a, b) == Merge(b, a) && Merge(a, Merge(b, c)) == Merge(Merge(a, b), c) && Merge(a, a) == a
    ensures Merge(a, b) == b <==> FitsIn(a, b)
  {
  }

  type Rows = seq<seq<string>>

  predicate Rectangular(rows: Rows, n: nat) { forall r :: r in rows ==> |r| == n }

  /** The join of one column's cells. */
  function TypeOf(rows: Rows, i: nat, reader: FloatReader): ColType
    requires forall r :: r in rows ==> i < |r|
  {
    if rows == [] then TypeNull
    else Merge(TypeOf(rows[..|rows| - 1], i, reader), Classify(rows[|rows| - 1][i], reader))
  }

  /** A column's type is the least type all its cells fit in. */
  lemma {:induction false} TypeOfIsLeast(rows: Rows, i: nat, reader: FloatReader, t: ColType)
    requires forall r :: r in rows ==> i < |r|
    ensures FitsIn(TypeOf(rows, i, reader), t) <==> forall r :: r in rows ==> FitsIn(Classify(r[i], reader), t)
    decreases |rows|
  {
    if rows != [] {
      var before, last := rows[..|rows| - 1], rows[|rows| - 1];
      assert rows == before + [last];
      TypeOfIsLeast(before, i, reader, t);
      MergeIsTheLeastUpperBound(TypeOf(before, i, reader), Classify(last[i], reader), t);
    }
  }

  /** Rows with the same cells, in any order and any number, give the same type. */
  lemma RowOrderDoesNotMatter(a: Rows, b: Rows, i: nat, reader: FloatReader)
    requires (forall r :: r in a ==> i < |r|) && forall r :: r in a <==> r in b
    ensures TypeOf(a, i, reader) == TypeOf(b, i, reader)
  {
    TypeOfIsLeast(a, i, reader, TypeOf(a, i, reader));
    TypeOfIsLeast(a, i, reader, TypeOf(b, i, reader));
    TypeOfIsLeast(b, i, reader, TypeOf(a, i, reader));
    TypeOfIsLeast(b, i, reader, TypeOf(b, i, reader));
  }

  lemma TypeWithOneMoreRow(before: Rows, rec: seq<string>, i: nat, reader: FloatReader)
    requires (forall r :: r in before ==> i < |r|) && i < |rec|
    ensures TypeOf(before + [rec], i, reader) == Merge(TypeOf(before, i, reader), Classify(rec[i], reader))
  {
    assert (before + [rec])[..|before|] == before;
  }

  method ClassifyRow(rec: seq<string>, reader: FloatReader) returns (cells: seq<ColType>)
    ensures |cells| == |rec| && forall i :: 0 <= i < |rec| ==> cells[i] == Classify(rec[i], reader)
  {
    cells := [];
    for i := 0 to |rec|
      invariant |cells| == i && forall j :: 0 <= j < i ==> cells[j] == Classify(rec[j], reader)
    {
      cells := cells + [Classify(rec[i], reader)];
    }
  }

  /** Each cell joins its column. */
  method MergeCells(types: array<ColType>, cells: seq<ColType>)
    requires |cells| == types.Length
    modifies types
    ensures forall i :: 0 <= i < types.Length ==> types[i] == Merge(old(types[i]), cells[i])
  {
    for i := 0 to |cells|
      invariant forall j :: 0 <= j < i ==> types[j] == Merge(old(types[j]), cells[j])
      invariant forall j :: i <= j < types.Length ==> types[j] == old(types[j])
    {
      types[i] := Merge(types[i], cells[i]);
    }
  }

  /** One row's cells join their columns. */
  method MergeRow(types: array<ColType>, ghost before: Rows, rec: seq<string>, reader: FloatReader)
    requires Rectangular(before + [rec], types.Length)
    requires forall r :: r in before ==> |r| == types.Length
    requires forall i :: 0 <= i < types.Length ==> types[i] == TypeOf(before, i, reader)
    modifies types
    ensures forall i :: 0 <= i < types.Length ==> types[i] == TypeOf(before + [rec], i, reader)
  {
    assert rec in before + [rec];
    var cells := ClassifyRow(rec, reader);
    MergeCells(types, cells);
    forall i | 0 <= i < types.Length ensures types[i] == TypeOf(before + [rec], i, reader) {
      TypeWithOneMoreRow(before, rec, i, reader);
    }
  }

  /** columnTypes. */
  method ColumnTypes(rows: Rows, n: nat, reader: FloatReader) returns (types: array<ColType>)
    requires Rectangular(rows, n)
    ensures fresh(types) && types.Length == n && forall i :: 0 <= i < n ==> types[i] == TypeOf(rows, i, reader)
  {
    types := new ColType[n](_ => TypeNull);
    for k := 0 to |rows|
      invariant forall i :: 0 <= i < n ==> types[i] == TypeOf(rows[..k], i, reader)
    {
      assert rows[..k + 1] == rows[..k] + [rows[k]];
      MergeRow(types, rows[..k], rows[k], reader);
    }
    assert rows[..|rows|] == rows;
  }

  // ---------- The header ----------

  predicate NamesColumns(rows: Rows, reader: FloatReader)
    requires |rows| > 0 && Rectangular(rows, |rows[0]|)
  {
    || |rows| < 2
    || (forall i :: 0 <= i < |rows[0]| ==>
          TypeOf(rows[1..], i, reader).TypeText? || TypeOf(rows[1..], i, reader).TypeNull?)
    || exists i :: 0 <= i < |rows[0]| && !FitsIn(Classify(rows[0][i], reader), TypeOf(rows[1..], i, reader))
  }

  lemma MergeChangesIffUnfit(t: ColType, cell: ColType)
    ensures Merge(t, cell) == t <==> FitsIn(cell, t)
  {
  }

  method AllText(types: array<ColType>) returns (all: bool)
    ensures all <==> forall i :: 0 <= i < types.Length ==> types[i].TypeText? || types[i].TypeNull?
  {
    all := true;
    for i := 0 to types.Length
      invariant all <==> forall j :: 0 <= j < i ==> types[j].TypeText? || types[j].TypeNull?
    {
      if !types[i].TypeText? && !types[i].TypeNull? { all := false; }
    }
  }

  /** Whether each cell of a record fits its column. */
  method AllFit(rec: seq<string>, types: array<ColType>, reader: FloatReader) returns (all: bool)
    requires |rec| == types.Length
    ensures all <==> forall i :: 0 <= i < |rec| ==> FitsIn(Classify(rec[i], reader), types[i])
  {
    for i := 0 to |rec|
      invariant forall j :: 0 <= j < i ==> FitsIn(Classify(rec[j], reader), types[j])
    {
      var v, cell := rec[i], Classify(rec[i], reader);
      MergeChangesIffUnfit(types[i], cell);
      if v != "" && Merge(types[i], cell) != types[i] { return false; }
    }
    all := true;
  }

  /** hasHeader. */
  method HasHeader(rows: Rows, reader: FloatReader) returns (header: bool)
    requires |rows| > 0 && Rectangular(rows, |rows[0]|)
    ensures header <==> NamesColumns(rows, reader)
  {
    if |rows| < 2 { return true; }
    var types := ColumnTypes(rows[1..], |rows[0]|, reader);
    var allText := AllText(types);
    if allText {
      assert forall i :: 0 <= i < |rows[0]| ==> TypeOf(rows[1..], i, reader) == types[i];
      return true;
    }
    var fits := AllFit(rows[0], types, reader);
    header := !fits;
  }

  lemma DataRowFits(rows: Rows, i: nat, reader: FloatReader)
    requires |rows| > 0 && Rectangular(rows, |rows[0]|) && !NamesColumns(rows, reader) && i < |rows[0]|
    ensures FitsIn(Classify(rows[0][i], reader), TypeOf(rows[1..], i, reader))
  {
  }

  lemma FittingFirstRowKeepsType(rows: Rows, i: nat, reader: FloatReader)
    requires |rows| > 0 && forall r :: r in rows ==> i < |r|
    requires FitsIn(Classify(rows[0][i], reader), TypeOf(rows[1..], i, reader))
    ensures TypeOf(rows, i, reader) == TypeOf(rows[1..], i, reader)
  {
    var whole, rest := TypeOf(rows, i, reader), TypeOf(rows[1..], i, reader);
    assert rows == [rows[0]] + rows[1..];
    TypeOfIsLeast(rows, i, reader, whole);
    TypeOfIsLeast(rows, i, reader, rest);
    TypeOfIsLeast(rows[1..], i, reader, whole);
    TypeOfIsLeast(rows[1..], i, reader, rest);
  }

  /** A column is typed when its cells are numbers or truth values. */
  predicate Typed(t: ColType) { t.TypeBool? || t.TypeInt? || t.TypeFloat? }

  lemma FirstRowFitsIff(rows: Rows, i: nat, reader: FloatReader)
    requires |rows| > 0 && forall r :: r in rows ==> i < |r|
    ensures FitsIn(Classify(rows[0][i], reader), TypeOf(rows[1..], i, reader))
            <==> TypeOf(rows, i, reader) == TypeOf(rows[1..], i, reader)
  {
    if FitsIn(Classify(rows[0][i], reader), TypeOf(rows[1..], i, reader)) {
      FittingFirstRowKeepsType(rows, i, reader);
    } else {
      TypeOfIsLeast(rows, i, reader, TypeOf(rows, i, reader));
      assert rows[0] in rows;
    }
  }

  /** A first row that is not taken for a header changes no column's type. */
  lemma FirstRowThatIsDataFits(rows: Rows, i: nat, reader: FloatReader)
    requires |rows| > 0 && Rectangular(rows, |rows[0]|) && !NamesColumns(rows, reader) && i < |rows[0]|
    ensures TypeOf(rows, i, reader) == TypeOf(rows[1..], i, reader)
  {
    DataRowFits(rows, i, reader);
    FittingFirstRowKeepsType(rows, i, reader);
  }

  predicate ChangesNoType(rows: Rows, i: nat, reader: FloatReader)
    requires |rows| > 0 && forall r :: r in rows ==> i < |r|
  {
    TypeOf(rows, i, reader) == TypeOf(rows[1..], i, reader)
  }

  lemma RowsBelowTypeTheColumns(rows: Rows, reader: FloatReader)
    requires |rows| > 0 && Rectangular(rows, |rows[0]|) && !NamesColumns(rows, reader)
    ensures |rows| > 1 && exists i :: 0 <= i < |rows[0]| && Typed(TypeOf(rows[1..], i, reader))
    ensures forall i :: 0 <= i < |rows[0]| ==> ChangesNoType(rows, i, reader)
  {
    var i :| 0 <= i < |rows[0]| && !TypeOf(rows[1..], i, reader).TypeText? && !TypeOf(rows[1..], i, reader).TypeNull?;
    assert Typed(TypeOf(rows[1..], i, reader));
    forall j | 0 <= j < |rows[0]| ensures ChangesNoType(rows, j, reader) { FirstRowThatIsDataFits(rows, j, reader); }
  }

  lemma TypingRowIsData(rows: Rows, reader: FloatReader, i: nat)
    requires |rows| > 1 && Rectangular(rows, |rows[0]|) && i < |rows[0]| && Typed(TypeOf(rows[1..], i, reader))
    requires forall j :: 0 <= j < |rows[0]| ==> ChangesNoType(rows, j, reader)
    ensures !NamesColumns(rows, reader)
  {
    forall j | 0 <= j < |rows[0]| ensures FitsIn(Classify(rows[0][j], reader), TypeOf(rows[1..], j, reader)) {
      assert ChangesNoType(rows, j, reader);
      FirstRowFitsIff(rows, j, reader);
    }
  }

  /** The first row is data exactly when there are others, they type some column, and it changes no column's type. */
  lemma FirstRowIsDataIff(rows: Rows, reader: FloatReader)
    requires |rows| > 0 && Rectangular(rows, |rows[0]|)
    ensures !NamesColumns(rows, reader) <==>
              && |rows| > 1
              && (exists i :: 0 <= i < |rows[0]| && Typed(TypeOf(rows[1..], i, reader)))
              && forall i :: 0 <= i < |rows[0]| ==> ChangesNoType(rows, i, reader)
  {
    if !NamesColumns(rows, reader) {
      RowsBelowTypeTheColumns(rows, reader);
    } else if && |rows| > 1 && (exists i :: 0 <= i < |rows[0]| && Typed(TypeOf(rows[1..], i, reader)))
              && forall i :: 0 <= i < |rows[0]| ==> ChangesNoType(rows, i, reader) {
      var i :| 0 <= i < |rows[0]| && Typed(TypeOf(rows[1..], i, reader));
      TypingRowIsData(rows, reader, i);
    }
  }

  // ---------- Cells ----------

  /** textCell: the value for a failed parse would be zero. */
  function TextCell(v: string, t: ColType, reader: FloatReader): Cell {
    if v == "" then Null
    else
      match t
      case TypeBool => Bool(EqualFold(v, "true"))
      case TypeInt => IntCell(if ParseInt(v).Some? then ParseInt(v).value else 0)
      case TypeFloat => Float(if ParseFloat(v, reader).Some? then ParseFloat(v, reader).value else 0.0)
      case _ => Text(v)
  }

  /** The reader succeeds on integer text in int64, as strconv.ParseFloat does. */
  ghost predicate ReadsIntegers(reader: FloatReader) {
    forall s: string :: ParseInt(s).Some? ==> reader(s).Some?
  }

  /** A cell that fits its column keeps what was parsed: no failed parse is ever discarded. */
  lemma FittingCellsAreKept(v: string, t: ColType, reader: FloatReader)
    requires v != "" && FitsIn(Classify(v, reader), t) && ReadsIntegers(reader)
    ensures t.TypeBool? ==> (EqualFold(v, "true") && TextCell(v, t, reader) == Bool(true))
                            || (EqualFold(v, "false") && TextCell(v, t, reader) == Bool(false))
    ensures t.TypeInt? ==>
              ParseInt(v).Some?
              && (TextCell(v, t, reader) == Int(ParseInt(v).value) || TextCell(v, t, reader) == Text(v))
    ensures t.TypeFloat? ==> ParseFloat(v, reader).Some? && TextCell(v, t, reader) == Float(ParseFloat(v, reader).value)
    ensures t.TypeText? ==> TextCell(v, t, reader) == Text(v)
    ensures !t.TypeNull?
  {
    if t.TypeInt? { LargeIntegersKeepTheirText(v); }
    if t.TypeFloat? && ParseInt(v).Some? { IntegerTextIsFloatText(v); }
  }

  /** Every cell of the rows a column was typed from is kept. */
  lemma TypedColumnsKeepEveryCell(rows: Rows, r: seq<string>, i: nat, reader: FloatReader)
    requires (forall r :: r in rows ==> i < |r|) && r in rows && r[i] != "" && ReadsIntegers(reader)
    ensures var t := TypeOf(rows, i, reader);
            && FitsIn(Classify(r[i], reader), t)
            && (t.TypeInt? ==> ParseInt(r[i]).Some?) && (t.TypeFloat? ==> ParseFloat(r[i], reader).Some?)
            && (t.TypeBool? ==> EqualFold(r[i], "true") || EqualFold(r[i], "false")) && !t.TypeNull?
  {
    TypeOfIsLeast(rows, i, reader, TypeOf(rows, i, reader));
    FittingCellsAreKept(r[i], TypeOf(rows, i, reader), reader);
  }
}
