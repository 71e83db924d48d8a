/**
 Column names of imported data (internal/analytics/import.go: uniqueNames, addPartitions) and the table that
 readDelimited builds with them (internal/analytics/delimited.go).
 */
module ColumnNames {
  import opened Wrappers
  import opened Decimal
  import opened CellText
  import opened Delimited
  import opened Sequences

  // ---------- uniqueNames ----------

  /** The k-th name tried for n: n, n_1, n_2, … */
  function Candidate(n: string, k: nat): string { if k == 0 then n else n + "_" + Format(k) }

  lemma CandidatesDiffer(n: string, j: nat, k: nat)
    requires j < k
    ensures Candidate(n, j) != Candidate(n, k)
  {
    if j == 0 {
      assert |Candidate(n, k)| > |n|;
    } else {
      assert Candidate(n, j)[|n| + 1..] == Format(j) && Candidate(n, k)[|n| + 1..] == Format(k);
      FormatRoundTrip(j);
      FormatRoundTrip(k);
    }
  }

  /** A name to start from: a positional one for an empty name. */
  function Base(names: seq<string>, i: nat): string
    requires i < |names|
  {
    if names[i] == "" then "column" + Format(i) else names[i]
  }

  /** The first candidate not taken by the names before it. */
  ghost predicate FirstFree(taken: seq<string>, n: string, name: string) {
    exists k: nat :: IsFirstFree(taken, n, name, k)
  }

  ghost predicate IsFirstFree(taken: seq<string>, n: string, name: string, k: nat) {
    name == Candidate(n, k) && name !in taken && forall j: nat :: j < k ==> Candidate(n, j) in taken
  }

  lemma {:induction false} SubsetIsNoLarger<T>(a: set<T>, b: set<T>)
    requires a <= b
    ensures |a| <= |b|
  {
    if a != {} {
      var x :| x in a;
      SubsetIsNoLarger(a - {x}, b - {x});
    }
  }

  /** The first k candidates, all different. */
  ghost predicate Tried(n: string, tried: set<string>, k: nat) {
    && |tried| == k && (forall j: nat :: j < k ==> Candidate(n, j) in tried)
    && forall t :: t in tried ==> exists j: nat :: j < k && t == Candidate(n, j)
  }

  lemma TryNext(n: string, tried: set<string>, k: nat)
    requires Tried(n, tried, k)
    ensures Tried(n, tried + {Candidate(n, k)}, k + 1)
  {
    forall j: nat | j < k ensures Candidate(n, j) != Candidate(n, k) { CandidatesDiffer(n, j, k); }
    assert Candidate(n, k) !in tried;
  }

  /** The inner loop ends: every candidate tried is a different name already seen. */
  method PickName(n: string, seen: set<string>) returns (name: string, ghost k: nat)
    ensures name == Candidate(n, k) && name !in seen
    ensures forall j: nat :: j < k ==> Candidate(n, j) in seen
  {
    name := n;
    k := 0;
    var next := 1;
    ghost var tried: set<string> := {};
    while name in seen
      invariant next == k + 1 && name == Candidate(n, k)
      invariant tried <= seen && Tried(n, tried, k)
      decreases |seen| - k
    {
      TryNext(n, tried, k);
      tried := tried + {name};
      SubsetIsNoLarger(tried, seen);
      name := n + "_" + Format(next);
      k := k + 1;
      next := next + 1;
    }
  }

  /** uniqueNames: as many names, all different, each the first free candidate for its base. */
  method UniqueNames(names: seq<string>) returns (out: seq<string>)
    ensures |out| == |names| && Distinct(out)
    ensures forall i :: 0 <= i < |names| ==> FirstFree(out[..i], Base(names, i), out[i])
  {
    out := [];
    var seen: set<string> := {};
    for i := 0 to |names|
      invariant |out| == i && Distinct(out)
      invariant forall s :: s in seen <==> s in out
      invariant forall k :: 0 <= k < i ==> FirstFree(out[..k], Base(names, k), out[k])
    {
      var n := Base(names, i);
      var name, k := PickName(n, seen);
      assert IsFirstFree(out, n, name, k);
      seen := seen + {name};
      ghost var before := out;
      out := out + [name];
      assert out[..i] == before;
      forall j | 0 <= j < i ensures FirstFree(out[..j], Base(names, j), out[j]) { assert out[..j] == before[..j]; }
    }
  }

  /** A name that is new where it stands is left unchanged; an empty one becomes its position's. */
  lemma NewNamesAreUnchanged(names: seq<string>, out: seq<string>, i: nat)
    requires |out| == |names| && i < |names| && FirstFree(out[..i], Base(names, i), out[i])
    ensures names[i] != "" && names[i] !in out[..i] ==> out[i] == names[i]
    ensures names[i] == "" && "column" + Format(i) !in out[..i] ==> out[i] == "column" + Format(i)
  {
    var k: nat :| IsFirstFree(out[..i], Base(names, i), out[i], k);
    assert Candidate(Base(names, i), 0) == Base(names, i);
  }

  // ---------- addPartitions ----------

  datatype Partition = Partition(key: string, value: string)

  /** strings.Cut(dir, "="). */
  function Cut(dir: string): Option<Partition> {
    if dir == "" then None
    else if dir[0] == '=' then Some(Partition("", dir[1..]))
    else
      var rest := Cut(dir[1..]);
      if rest.None? then None else Some(Partition([dir[0]] + rest.value.key, rest.value.value))
  }

  /** The key is what stands before the first equals sign, the value what stands after it. */
  lemma {:induction false} CutIsAtTheFirst(dir: string)
    ensures Cut(dir).None? <==> '=' !in dir
    ensures Cut(dir).Some? ==>
              dir == Cut(dir).value.key + "=" + Cut(dir).value.value && '=' !in Cut(dir).value.key
  {
    if dir != "" {
      assert dir == [dir[0]] + dir[1..];
      if dir[0] != '=' { CutIsAtTheFirst(dir[1..]); }
    }
  }

  /** The column a directory adds, if it names a usable key that is new. */
  function NewPartition(have: seq<string>, dir: string): Option<Partition> {
    var p := Cut(dir);
    if p.None? || p.value.key == "" || '=' in p.value.value || p.value.key in have then None else p
  }

  /** The directories that become columns, in path order. */
  function Partitions(have: seq<string>, dirs: seq<string>): seq<Partition>
    decreases |dirs|
  {
    if dirs == [] then []
    else
      var p := NewPartition(have, dirs[0]);
      if p.None? then Partitions(have, dirs[1..]) else [p.value] + Partitions(have + [p.value.key], dirs[1..])
  }

  function KeysOf(ps: seq<Partition>): (keys: seq<string>)
    ensures |keys| == |ps|
  {
    if ps == [] then [] else KeysOf(ps[..|ps| - 1]) + [ps[|ps| - 1].key]
  }

  /** partitionValue. */
  function PartitionValue(s: string, reader: FloatReader): Cell {
    if s == "" then Null
    else if ParseInt(s).Some? then IntCell(ParseInt(s).value)
    else if ParseFloat(s, reader).Some? then Float(ParseFloat(s, reader).value)
    else Text(s)
  }

  /** Nothing is Null, an integer in range is itself, other numbers are floating-point, and the rest stays text. */
  lemma PartitionValueIsRead(s: string, reader: FloatReader)
    ensures PartitionValue(s, reader) == Null <==> s == ""
    ensures forall n ::
              -MAX_EXACT <= n <= MAX_EXACT ==> (PartitionValue(s, reader) == Int(n) <==> ParseInt(s) == Some(n))
    ensures forall x :: PartitionValue(s, reader) == Float(x) <==> ParseInt(s).None? && ParseFloat(s, reader) == Some(x)
    ensures forall v :: PartitionValue(s, reader) == Text(v) ==> v == s
  {
    if s == "" {
      assert ParseInt(s).None? && ParseFloat(s, reader).None?;
    } else if ParseInt(s).Some? {
      LargeIntegersKeepTheirText(s);
    }
  }

  /** How a partition's value becomes a cell. */
  type PartitionReader = string -> Cell

  function CellsOf(ps: seq<Partition>, read: PartitionReader): (cells: seq<Cell>)
    ensures |cells| == |ps|
  {
    if ps == [] then [] else CellsOf(ps[..|ps| - 1], read) + [read(ps[|ps| - 1].value)]
  }

  /** The first partition's name and cell come first. */
  lemma {:induction false} FirstPartition(p: Partition, rest: seq<Partition>, read: PartitionReader)
    ensures KeysOf([p] + rest) == [p.key] + KeysOf(rest)
    ensures CellsOf([p] + rest, read) == [read(p.value)] + CellsOf(rest, read)
    decreases |rest|
  {
    var all := [p] + rest;
    if rest == [] {
      assert all == [p] && [p][..0] == [];
    } else {
      FirstPartition(p, rest[..|rest| - 1], read);
      assert all[..|all| - 1] == [p] + rest[..|rest| - 1] && all[|all| - 1] == rest[|rest| - 1];
    }
  }

  /** Partition columns have new names, all different and none empty. */
  lemma {:induction false} PartitionNamesAreNew(have: seq<string>, dirs: seq<string>)
    requires Distinct(have)
    ensures Distinct(have + KeysOf(Partitions(have, dirs)))
    ensures forall p :: p in Partitions(have, dirs) ==> p.key != "" && '=' !in p.value
    decreases |dirs|
  {
    if dirs == [] {
      assert have + KeysOf([]) == have;
    } else {
      var p := NewPartition(have, dirs[0]);
      if p.None? {
        PartitionNamesAreNew(have, dirs[1..]);
      } else {
        var rest := Partitions(have + [p.value.key], dirs[1..]);
        PartitionNamesAreNew(have + [p.value.key], dirs[1..]);
        FirstPartition(p.value, rest, _ => Null);
        assert have + ([p.value.key] + KeysOf(rest)) == (have + [p.value.key]) + KeysOf(rest);
      }
    }
  }

  /** Every directory of the form key=value with a usable key has a column of that name. */
  lemma {:induction false} UsableDirectoriesBecomeColumns(have: seq<string>, dirs: seq<string>, k: nat)
    requires k < |dirs| && NewPartition([], dirs[k]).Some?
    ensures Cut(dirs[k]).value.key in have || Cut(dirs[k]).value.key in KeysOf(Partitions(have, dirs))
    decreases |dirs|
  {
    var p, key := NewPartition(have, dirs[0]), Cut(dirs[k]).value.key;
    if p.Some? {
      var rest := Partitions(have + [p.value.key], dirs[1..]);
      FirstPartition(p.value, rest, _ => Null);
      if k > 0 { UsableDirectoriesBecomeColumns(have + [p.value.key], dirs[1..], k - 1); }
    } else if k > 0 {
      UsableDirectoriesBecomeColumns(have, dirs[1..], k - 1);
    }
  }

  /** Every row one cell wider. */
  function Widen(rows: seq<seq<Cell>>, cell: Cell): seq<seq<Cell>> {
    seq(|rows|, i requires 0 <= i < |rows| => rows[i] + [cell])
  }

  /** The columns and rows after the directories, one at a time. */
  function After(
    columns: seq<string>, rows: seq<seq<Cell>>, dirs: seq<string>, read: PartitionReader)
    : (seq<string>, seq<seq<Cell>>)
    decreases |dirs|
  {
    if dirs == [] then (columns, rows)
    else
      var p := NewPartition(columns, dirs[0]);
      if p.None? then After(columns, rows, dirs[1..], read)
      else After(columns + [p.value.key], Widen(rows, read(p.value.value)), dirs[1..], read)
  }

  /** Every row has the same cells appended. */
  ghost predicate Widened(before: seq<seq<Cell>>, after: seq<seq<Cell>>, cells: seq<Cell>) {
    |after| == |before| && forall i :: 0 <= i < |after| ==> after[i] == before[i] + cells
  }

  /** One column a partition, in path order, its value in every row. */
  lemma {:induction false} PartitionsBecomeColumns(
    columns: seq<string>, rows: seq<seq<Cell>>, dirs: seq<string>, read: PartitionReader)
    ensures After(columns, rows, dirs, read).0 == columns + KeysOf(Partitions(columns, dirs))
    ensures Widened(rows, After(columns, rows, dirs, read).1, CellsOf(Partitions(columns, dirs), read))
    decreases |dirs|
  {
    if dirs != [] {
      var p := NewPartition(columns, dirs[0]);
      if p.None? {
        PartitionsBecomeColumns(columns, rows, dirs[1..], read);
      } else {
        var cell, names := read(p.value.value), columns + [p.value.key];
        PartitionsBecomeColumns(names, Widen(rows, cell), dirs[1..], read);
        var rest := Partitions(names, dirs[1..]);
        FirstPartition(p.value, rest, read);
        assert columns + ([p.value.key] + KeysOf(rest)) == names + KeysOf(rest);
        WidenedAfterOne(rows, After(columns, rows, dirs, read).1, cell, CellsOf(rest, read));
      }
    }
  }

  lemma WidenedAfterOne(rows: seq<seq<Cell>>, after: seq<seq<Cell>>, cell: Cell, cells: seq<Cell>)
    requires Widened(Widen(rows, cell), after, cells)
    ensures Widened(rows, after, [cell] + cells)
  {
    forall i | 0 <= i < |after| ensures after[i] == rows[i] + ([cell] + cells) {
      assert after[i] == (rows[i] + [cell]) + cells;
    }
  }

  class Dataset {
    var columns: seq<string>
    var rows: seq<seq<Cell>>
    var truncated: bool

    constructor (columns: seq<string>, rows: seq<seq<Cell>>, truncated: bool)
      ensures this.columns == columns && this.rows == rows && this.truncated == truncated
    {
      this.columns, this.rows, this.truncated := columns, rows, truncated;
    }

    /** Distinct column names, and every row as wide as the column list. */
    ghost predicate Valid()
      reads this
    {
      Distinct(columns) && forall r :: r in rows ==> |r| == |columns|
    }

    /** One partition joins every row. */
    method AppendColumn(key: string, cell: Cell)
      requires Valid() && key !in columns
      modifies this
      ensures Valid() && columns == old(columns) + [key] && rows == Widen(old(rows), cell)
              && truncated == old(truncated)
    {
      columns := columns + [key];
      for i := 0 to |rows|
        modifies this`rows
        invariant |rows| == |old(rows)|
        invariant forall k :: 0 <= k < i ==> rows[k] == old(rows)[k] + [cell]
        invariant forall k :: i <= k < |rows| ==> rows[k] == old(rows)[k]
      {
        rows := rows[i := rows[i] + [cell]];
      }
    }

    method AddColumns(dirs: seq<string>, read: PartitionReader)
      requires Valid()
      modifies this
      ensures Valid() && truncated == old(truncated)
      ensures (columns, rows) == After(old(columns), old(rows), dirs, read)
    {
      assert dirs[0..] == dirs;
      for n := 0 to |dirs|
        invariant Valid() && truncated == old(truncated)
        invariant After(columns, rows, dirs[n..], read) == After(old(columns), old(rows), dirs, read)
      {
        assert dirs[n..][0] == dirs[n] && dirs[n..][1..] == dirs[n + 1..];
        var p := NewPartition(columns, dirs[n]);
        if p.Some? { AppendColumn(p.value.key, read(p.value.value)); }
      }
    }

    /** addPartitions. */
    method AddPartitions(dirs: seq<string>, reader: FloatReader)
      requires Valid()
      modifies this
      ensures Valid() && truncated == old(truncated)
      ensures columns == old(columns) + KeysOf(Partitions(old(columns), dirs))
      ensures Widened(old(rows), rows, CellsOf(Partitions(old(columns), dirs), s => PartitionValue(s, reader)))
    {
      PartitionsBecomeColumns(columns, rows, dirs, s => PartitionValue(s, reader));
      AddColumns(dirs, s => PartitionValue(s, reader));
    }
  }

  // ---------- The table of a delimited file ----------

  const MAX_ROWS: nat := 10000

  /** The records below the header, as many as are kept. */
  function Kept(records: Rows, header: bool): Rows
    requires |records| > 0
  {
    var data := if header then records[1..] else records;
    if |data| > MAX_ROWS then data[..MAX_ROWS] else data
  }

  /** The types of all columns. */
  function TypesOf(rows: Rows, n: nat, reader: FloatReader): seq<ColType>
    requires Rectangular(rows, n)
  {
    seq(n, i requires 0 <= i < n => TypeOf(rows, i, reader))
  }

  /** One record, each cell converted to its column's type. */
  function RowCells(rec: seq<string>, types: seq<ColType>, convert: (string, ColType) -> Cell): seq<Cell>
    requires |rec| == |types|
  {
    seq(|rec|, i requires 0 <= i < |rec| => convert(rec[i], types[i]))
  }

  ghost predicate Converted(rows: seq<seq<Cell>>, kept: Rows, types: seq<ColType>, convert: (string, ColType) -> Cell) {
    && |rows| == |kept|
    && forall k :: 0 <= k < |kept| ==> |kept[k]| == |types| && rows[k] == RowCells(kept[k], types, convert)
  }

  method ConvertRow(rec: seq<string>, types: seq<ColType>, convert: (string, ColType) -> Cell) returns (row: seq<Cell>)
    requires |rec| == |types|
    ensures row == RowCells(rec, types, convert)
  {
    row := [];
    for i := 0 to |rec|
      invariant row == RowCells(rec, types, convert)[..i]
    {
      row := row + [convert(rec[i], types[i])];
    }
  }

  method TypeColumns(rows: Rows, n: nat, reader: FloatReader) returns (types: seq<ColType>)
    requires Rectangular(rows, n)
    ensures types == TypesOf(rows, n, reader)
  {
    var columns := ColumnTypes(rows, n, reader);
    types := columns[..];
  }

  method ConvertRows(kept: Rows, types: seq<ColType>, convert: (string, ColType) -> Cell) returns (rows: seq<seq<Cell>>)
    requires Rectangular(kept, |types|)
    ensures Converted(rows, kept, types, convert)
  {
    rows := [];
    for k := 0 to |kept|
      invariant |rows| == k
      invariant forall j :: 0 <= j < k ==> |kept[j]| == |types| && rows[j] == RowCells(kept[j], types, convert)
    {
      assert kept[k] in kept;
      var row := ConvertRow(kept[k], types, convert);
      rows := rows + [row];
    }
  }

  /** The names a file asks for: its header's, or none. */
  function Asked(records: Rows, header: bool): seq<string>
    requires |records| > 0
  {
    if header then records[0] else seq(|records[0]|, i => "")
  }

  ghost predicate Named(columns: seq<string>, names: seq<string>) {
    && |columns| == |names|
    && forall i :: 0 <= i < |names| ==> FirstFree(columns[..i], Base(names, i), columns[i])
  }

  lemma KeptIsRectangular(records: Rows, header: bool)
    requires |records| > 0 && Rectangular(records, |records[0]|)
    ensures Rectangular(Kept(records, header), |records[0]|)
  {
    forall r | r in Kept(records, header) ensures |r| == |records[0]| { assert r in records; }
  }

  /** The part of readDelimited after the last record is read. */
  method BuildTable(records: Rows, reader: FloatReader) returns (ds: Dataset)
    requires |records| > 0 && Rectangular(records, |records[0]|)
    ensures fresh(ds) && ds.Valid()
    ensures var header := NamesColumns(records, reader);
            && Named(ds.columns, Asked(records, header))
            && (forall i :: 0 <= i < |records[0]| ==>
                  FirstFree(ds.columns[..i],
                            if header && records[0][i] != "" then records[0][i] else "column" + Format(i),
                            ds.columns[i]))
            && Rectangular(Kept(records, header), |records[0]|)
            && Converted(ds.rows, Kept(records, header), TypesOf(Kept(records, header), |records[0]|, reader),
                         (v, t) => TextCell(v, t, reader))
            && (ds.truncated <==> |records| - (if header then 1 else 0) > MAX_ROWS)
            && (ds.truncated ==> |ds.rows| == 10000)
            && (!ds.truncated ==> |ds.rows| == |records| - (if header then 1 else 0))
            && (forall k :: 0 <= k < |ds.rows| ==>
                  Kept(records, header)[k] == records[k + if header then 1 else 0])
  {
    var header := HasHeader(records, reader);
    var columns := UniqueNames(Asked(records, header));
    KeptIsRectangular(records, header);
    var types := TypeColumns(Kept(records, header), |records[0]|, reader);
    var rows := ConvertRows(Kept(records, header), types, (v, t) => TextCell(v, t, reader));
    ds := new Dataset(columns, rows, |records| - (if header then 1 else 0) > MAX_ROWS);
  }
}
