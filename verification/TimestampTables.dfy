/**
 The timestamp migration of one column (internal/db/timestamps.go: retrofitTimestampColumn,
 backfillUnixNanoColumn, repointUnixNanoIndex) and the two orders of ListCharts (internal/db/charts.go).
 Any statement may fail; the migration runs again at the next open.
 */
module TimestampTables {
  import opened Wrappers
  import opened Sequences
  import opened Timestamps

  datatype Row = Row(id: string, project: string, kind: string, text: string, nano: int)

  predicate DistinctIds(rows: seq<Row>) { forall i, j :: 0 <= i < j < |rows| ==> rows[i].id != rows[j].id }

  function Normalised(r: Row): Row { r.(text := Retrofit(r.text)) }

  /** The zero key marks a row whose key is still to be derived; text that does not parse keeps it. */
  function Keyed(r: Row): Row { if r.nano == 0 then r.(nano := LegacyKey(r.text)) else r }

  function AllNormalised(rows: seq<Row>): seq<Row> { seq(|rows|, i requires 0 <= i < |rows| => Normalised(rows[i])) }

  function AllKeyed(rows: seq<Row>): seq<Row> { seq(|rows|, i requires 0 <= i < |rows| => Keyed(rows[i])) }

  /** The update a loop makes to one row, if any. */
  type Updater = Row -> Option<Row>

  function TextUpdate(r: Row): Option<Row> {
    if r.text == "" || LikeFixedWidth(r.text) then None
    else
      var t := Parse(r.text);
      if t.None? then None
      else
        var newVal := Timestamps.Format(t.value);
        if newVal != r.text then Some(r.(text := newVal)) else None
  }

  function KeyUpdate(r: Row): Option<Row> {
    if r.nano != 0 then None
    else
      var t := Parse(r.text);
      if t.None? then None else Some(r.(nano := Key(t.value)))
  }

  ghost predicate KeepsIds(update: Updater) { forall r :: update(r).Some? ==> update(r).value.id == r.id }

  function Updated(rows: seq<Row>, update: Updater): seq<Row> {
    seq(|rows|, i requires 0 <= i < |rows| => if update(rows[i]).Some? then update(rows[i]).value else rows[i])
  }

  lemma TextUpdatesNormalise(rows: seq<Row>)
    ensures Updated(rows, TextUpdate) == AllNormalised(rows) && KeepsIds(TextUpdate)
  {
    forall r ensures Normalised(r) == if TextUpdate(r).Some? then TextUpdate(r).value else r {}
  }

  lemma KeyUpdatesKey(rows: seq<Row>)
    ensures Updated(rows, KeyUpdate) == AllKeyed(rows) && KeepsIds(KeyUpdate)
  {
    forall r ensures Keyed(r) == if KeyUpdate(r).Some? then KeyUpdate(r).value else r {}
  }

  /** Some rows of had replaced by their wanted form. */
  ghost predicate Between(had: seq<Row>, now: seq<Row>, want: seq<Row>) {
    |now| == |had| == |want| && forall i :: 0 <= i < |now| ==> now[i] == had[i] || now[i] == want[i]
  }

  /** The pending updates are those of the rows at the given places. */
  ghost predicate Pending(updates: seq<Row>, at: seq<nat>, want: seq<Row>) {
    && |updates| == |at|
    && forall k :: 0 <= k < |at| ==> at[k] < |want| && updates[k] == want[at[k]]
  }

  /** After the updates at those places. */
  ghost predicate Applied(had: seq<Row>, now: seq<Row>, want: seq<Row>, at: seq<nat>) {
    && |now| == |had| == |want|
    && forall i :: 0 <= i < |now| ==> now[i] == if i in at then want[i] else had[i]
  }

  /** The updates cover every row that must change. */
  ghost predicate Complete(updates: seq<Row>, at: seq<nat>, rows: seq<Row>, want: seq<Row>) {
    && |want| == |rows| && Pending(updates, at, want)
    && (forall i :: 0 <= i < |rows| ==> want[i].id == rows[i].id)
    && (forall k :: 0 <= k < |rows| && want[k] != rows[k] ==> k in at)
  }

  /** The first loop of both migrations: the updates still to make. */
  method Collect(rows: seq<Row>, update: Updater) returns (updates: seq<Row>, ghost at: seq<nat>)
    requires KeepsIds(update)
    ensures Complete(updates, at, rows, Updated(rows, update))
  {
    updates, at := [], [];
    for i := 0 to |rows|
      invariant Pending(updates, at, Updated(rows, update))
      invariant forall k :: 0 <= k < i && update(rows[k]).Some? ==> k in at
    {
      var u := update(rows[i]);
      if u.Some? {
        updates := updates + [u.value];
        at := at + [i];
      }
    }
  }

  class Table {
    var rows: seq<Row>

    /** No statement fails. */
    const reliable: bool

    constructor (rows: seq<Row>, reliable: bool)
      ensures this.rows == rows && this.reliable == reliable
    {
      this.rows, this.reliable := rows, reliable;
    }

    /** Whether the next statement succeeds. */
    method Try() returns (ok: bool)
      ensures reliable ==> ok
    {
      ok := *;
      if reliable { ok := true; }
    }

    /** UPDATE … WHERE id = ?. */
    method Update(row: Row, ghost i: nat)
      requires i < |rows| && DistinctIds(rows) && rows[i].id == row.id
      modifies this
      ensures rows == old(rows)[i := row]
    {
      var n := 0;
      while n < |rows|
        invariant n <= |rows| == |old(rows)|
        invariant rows == if n <= i then old(rows) else old(rows)[i := row]
      {
        if rows[n].id == row.id {
          IdIsUnique(old(rows), n, i);
          rows := rows[n := row];
        }
        n := n + 1;
      }
    }

    /** The second loop of both migrations. */
    method Apply(updates: seq<Row>, ghost at: seq<nat>, ghost want: seq<Row>) returns (ok: bool)
      requires DistinctIds(rows) && Complete(updates, at, rows, want)
      modifies this
      ensures Between(old(rows), rows, want)
      ensures (ok ==> rows == want) && (reliable ==> ok)
    {
      for k := 0 to |updates|
        invariant Applied(old(rows), rows, want, at[..k])
      {
        ok := Try();
        if !ok { return; }
        ghost var i := at[k];
        assert rows[i].id == want[i].id;
        IdsStayDistinct(old(rows), rows, want, at[..k]);
        ghost var before := rows;
        Update(updates[k], i);
        assert at[..k + 1] == at[..k] + [i];
        assert forall j :: 0 <= j < |rows| && j != i ==> rows[j] == before[j];
      }
      assert at[..|updates|] == at;
      ok := true;
    }

    /** retrofitTimestampColumn. */
    method RetrofitColumn() returns (ok: bool)
      requires DistinctIds(rows)
      modifies this
      ensures DistinctIds(rows) && Between(old(rows), rows, AllNormalised(old(rows)))
      ensures (ok ==> rows == AllNormalised(old(rows))) && (reliable ==> ok)
    {
      ok := Try();
      ghost var want := AllNormalised(rows);
      if !ok { return; }
      TextUpdatesNormalise(rows);
      var updates, at := Collect(rows, TextUpdate);
      ok := Apply(updates, at, want);
      BetweenKeepsIds(old(rows), rows, want);
    }

    /** backfillUnixNanoColumn. */
    method BackfillColumn() returns (ok: bool)
      requires DistinctIds(rows)
      modifies this
      ensures DistinctIds(rows) && Between(old(rows), rows, AllKeyed(old(rows)))
      ensures (ok ==> rows == AllKeyed(old(rows))) && (reliable ==> ok)
    {
      ok := Try();
      ghost var want := AllKeyed(rows);
      if !ok { return; }
      KeyUpdatesKey(rows);
      var updates, at := Collect(rows, KeyUpdate);
      ok := Apply(updates, at, want);
      BetweenKeepsIds(old(rows), rows, want);
    }

    /** Both steps, as every open runs them. */
    method Migrate() returns (ok: bool)
      requires DistinctIds(rows)
      modifies this
      ensures DistinctIds(rows) && |rows| == |old(rows)|
      ensures (ok ==> rows == AllKeyed(AllNormalised(old(rows)))) && (reliable ==> ok)
    {
      ok := RetrofitColumn();
      if ok { ok := BackfillColumn(); }
    }

    /** ListCharts: by the numeric column, or by the keys derived from the text where there is none. */
    method ListCharts(project: string, kind: string, numericOrder: bool) returns (out: seq<Row>)
      ensures IsList(out, rows, project, kind, if numericOrder then ByNumber else ByText)
      ensures forall r :: r in out <==> r in rows && r.project == project && (kind == "" || kind == r.kind)
    {
      if numericOrder {
        out := SortedRows(rows, project, kind, ByNumber);
      } else {
        out := SortedRows(rows, project, kind, ByText);
      }
      forall r ensures r in out <==> r in rows && r.project == project && (kind == "" || kind == r.kind) {
        assert r in out <==> r in multiset(out);
        assert r in rows <==> r in multiset(rows);
      }
    }
  }

  /** What a list is sorted on, newest first. */
  type Ranking = Row -> int

  function ByNumber(r: Row): int { r.nano }

  function ByText(r: Row): int { LegacyKey(r.text) }

  /** A project's rows of one kind, or of every kind. */
  predicate Wanted(r: Row, project: string, kind: string) { r.project == project && (kind == "" || r.kind == kind) }

  /** The wanted rows, each as often as the table has it, highest rank first. */
  ghost predicate IsList(list: seq<Row>, rows: seq<Row>, project: string, kind: string, rank: Ranking) {
    && Descending(list, rank)
    && forall r :: multiset(list)[r] == if Wanted(r, project, kind) then multiset(rows)[r] else 0
  }

  predicate Descending(rows: seq<Row>, rank: Ranking) {
    forall i, j :: 0 <= i < j < |rows| ==> rank(rows[i]) >= rank(rows[j])
  }

  lemma RowListed(
    before: seq<Row>, after: seq<Row>, rows: seq<Row>, r: Row, project: string, kind: string, rank: Ranking)
    requires IsList(before, rows, project, kind, rank) && Descending(after, rank)
    requires multiset(after) == multiset(before) + if Wanted(r, project, kind) then multiset{r} else multiset{}
    ensures IsList(after, rows + [r], project, kind, rank)
  {
  }

  /** One row of the result set. */
  method TakeRow(list: seq<Row>, ghost rows: seq<Row>, r: Row, project: string, kind: string, rank: Ranking)
    returns (out: seq<Row>)
    requires IsList(list, rows, project, kind, rank)
    ensures IsList(out, rows + [r], project, kind, rank)
  {
    out := list;
    if r.project == project && (kind == "" || r.kind == kind) { out := InsertRow(list, r, rank); }
    RowListed(list, out, rows, r, project, kind, rank);
  }

  method SortedRows(rows: seq<Row>, project: string, kind: string, rank: Ranking) returns (out: seq<Row>)
    ensures IsList(out, rows, project, kind, rank)
  {
    out := [];
    for i := 0 to |rows|
      invariant IsList(out, rows[..i], project, kind, rank)
    {
      out := TakeRow(out, rows[..i], rows[i], project, kind, rank);
      assert rows[..i + 1] == rows[..i] + [rows[i]];
    }
    assert rows[..|rows|] == rows;
  }

  /** A row goes after those that do not rank below it. */
  method InsertRow(rows: seq<Row>, r: Row, rank: Ranking) returns (out: seq<Row>)
    requires Descending(rows, rank)
    ensures Descending(out, rank) && multiset(out) == multiset(rows) + multiset{r}
  {
    var k := |rows|;
    while k > 0 && rank(rows[k - 1]) < rank(r)
      invariant 0 <= k <= |rows|
      invariant forall j :: k <= j < |rows| ==> rank(rows[j]) < rank(r)
    {
      k := k - 1;
    }
    out := rows[..k] + [r] + rows[k..];
    InsertedDescends(rows, r, k, rank);
    InsertedRows(rows, r, k);
  }

  lemma InsertedRows(rows: seq<Row>, r: Row, k: nat)
    requires k <= |rows|
    ensures multiset(rows[..k] + [r] + rows[k..]) == multiset(rows) + multiset{r}
  {
    assert rows == rows[..k] + rows[k..];
  }

  lemma InsertedDescends(rows: seq<Row>, r: Row, k: nat, rank: Ranking)
    requires k <= |rows| && Descending(rows, rank)
    requires forall j :: k <= j < |rows| ==> rank(rows[j]) < rank(r)
    requires k > 0 ==> rank(rows[k - 1]) >= rank(r)
    ensures Descending(rows[..k] + [r] + rows[k..], rank)
  {
    var out := rows[..k] + [r] + rows[k..];
    forall i, j | 0 <= i < j < |out| ensures rank(out[i]) >= rank(out[j]) {
      if j == k && i < k - 1 { assert rank(rows[i]) >= rank(rows[k - 1]); }
    }
  }

  lemma IdIsUnique(rows: seq<Row>, n: nat, i: nat)
    requires DistinctIds(rows) && n < |rows| && i < |rows| && rows[n].id == rows[i].id
    ensures n == i
  {
  }

  lemma BetweenKeepsIds(had: seq<Row>, now: seq<Row>, want: seq<Row>)
    requires DistinctIds(had) && Between(had, now, want) && forall i :: 0 <= i < |had| ==> want[i].id == had[i].id
    ensures DistinctIds(now)
  {
    assert forall i :: 0 <= i < |now| ==> now[i].id == had[i].id;
  }

  lemma IdsStayDistinct(had: seq<Row>, now: seq<Row>, want: seq<Row>, at: seq<nat>)
    requires DistinctIds(had) && Applied(had, now, want, at) && forall i :: 0 <= i < |had| ==> want[i].id == had[i].id
    ensures DistinctIds(now)
  {
    assert forall i :: 0 <= i < |now| ==> now[i].id == had[i].id;
  }

  // ---------- What the migration leaves ----------

  /** Running the migration again changes nothing, and finishes what a failed run left. */
  lemma MigrationIsIdempotent(r: Row)
    ensures Normalised(Normalised(r)) == Normalised(r) && Keyed(Keyed(r)) == Keyed(r)
    ensures Keyed(Normalised(Keyed(Normalised(r)))) == Keyed(Normalised(r))
  {
    RetrofitIsIdempotent(r.text);
  }

  /** A migrated row that had no key sorts in the database exactly where a read-only open sorts it. */
  lemma MigratedRowsCarryTheirLegacyKey(r: Row)
    requires r.nano == 0
    ensures Keyed(Normalised(r)).nano == LegacyKey(Keyed(Normalised(r)).text)
    ensures (Parse(r.text).Some? ==> FourDigitYear(Parse(r.text).value)) ==>
            LegacyKey(Retrofit(r.text)) == LegacyKey(r.text)
  {
    RetrofitKeepsInstants(r.text);
  }

  /** Where every row carries its legacy key, the legacy list is in the numeric order. */
  lemma LegacyListIsInNumericOrder(list: seq<Row>)
    requires forall r :: r in list ==> ByNumber(r) == ByText(r)
    ensures Descending(list, ByText) <==> Descending(list, ByNumber)
  {
    assert forall i :: 0 <= i < |list| ==> list[i] in list;
  }

  /** Two lists of the same rows in one order show the same keys, place by place. */
  lemma OrderFixesTheKeys(a: seq<Row>, b: seq<Row>, rank: Ranking, i: nat)
    requires multiset(a) == multiset(b) && Descending(a, rank) && Descending(b, rank) && i < |a|
    ensures |a| == |b| && rank(a[i]) == rank(b[i])
  {
    assert |a| == |multiset(a)| == |multiset(b)| == |b|;
    var x, y := AtLeast(a, rank, rank(b[i])), AtLeast(b, rank, rank(a[i]));
    AtLeastIgnoresOrder(a, b, rank, rank(b[i]));
    AtLeastIgnoresOrder(a, b, rank, rank(a[i]));
    LargeKeysComeFirst(a, rank, i, rank(b[i]));
    LargeKeysComeFirst(b, rank, i, rank(a[i]));
    LargeKeysComeFirst(a, rank, i, rank(a[i]));
    LargeKeysComeFirst(b, rank, i, rank(b[i]));
  }

  lemma SmallRowsFollow(a: seq<Row>, rank: Ranking, i: nat, bound: int)
    requires Descending(a, rank) && i < |a| && rank(a[i]) < bound
    ensures AtLeast(a, rank, bound) <= i
  {
    var front, back := a[..i], a[i..];
    assert a == front + back;
    forall r | r in back ensures rank(r) < bound {
      var k :| 0 <= k < |back| && back[k] == r;
      assert a[i + k] == r;
    }
    AtLeastOfParts(front, back, rank, bound);
    AllAtLeast(front, rank, bound);
    AllAtLeast(back, rank, bound);
  }

  lemma LargeRowsPrecede(a: seq<Row>, rank: Ranking, i: nat, bound: int)
    requires Descending(a, rank) && i < |a| && rank(a[i]) >= bound
    ensures AtLeast(a, rank, bound) > i
  {
    var front, back := a[..i + 1], a[i + 1..];
    assert a == front + back;
    forall r | r in front ensures rank(r) >= bound {
      var k :| 0 <= k < |front| && front[k] == r;
      assert a[k] == r;
    }
    AtLeastOfParts(front, back, rank, bound);
    AllAtLeast(front, rank, bound);
  }

  /** In a descending list, the row at i ranks at least bound exactly when more than i rows do. */
  lemma LargeKeysComeFirst(a: seq<Row>, rank: Ranking, i: nat, bound: int)
    requires Descending(a, rank) && i < |a|
    ensures rank(a[i]) >= bound <==> AtLeast(a, rank, bound) > i
  {
    if rank(a[i]) >= bound { LargeRowsPrecede(a, rank, i, bound); } else { SmallRowsFollow(a, rank, i, bound); }
  }

  function AtLeast(rows: seq<Row>, rank: Ranking, bound: int): nat {
    if rows == [] then 0
    else AtLeast(rows[..|rows| - 1], rank, bound) + if rank(rows[|rows| - 1]) >= bound then 1 else 0
  }

  lemma {:induction false} AtLeastOfParts(a: seq<Row>, b: seq<Row>, rank: Ranking, bound: int)
    ensures AtLeast(a + b, rank, bound) == AtLeast(a, rank, bound) + AtLeast(b, rank, bound)
    decreases |b|
  {
    if b == [] {
      assert a + b == a;
    } else {
      AtLeastOfParts(a, b[..|b| - 1], rank, bound);
      assert (a + b)[..|a + b| - 1] == a + b[..|b| - 1];
    }
  }

  lemma AtLeastWithout(b: seq<Row>, n: nat, rank: Ranking, bound: int)
    requires n < |b|
    ensures AtLeast(b, rank, bound) == AtLeast(b[..n] + b[n + 1..], rank, bound) + AtLeast([b[n]], rank, bound)
  {
    var one := [b[n]];
    assert b == (b[..n] + one) + b[n + 1..];
    AtLeastOfParts(b[..n] + one, b[n + 1..], rank, bound);
    AtLeastOfParts(b[..n], one, rank, bound);
    AtLeastOfParts(b[..n], b[n + 1..], rank, bound);
  }

  lemma {:induction false} AtLeastIgnoresOrder(a: seq<Row>, b: seq<Row>, rank: Ranking, bound: int)
    requires multiset(a) == multiset(b)
    ensures AtLeast(a, rank, bound) == AtLeast(b, rank, bound)
    decreases |a|
  {
    if a == [] {
      assert |multiset(b)| == 0;
    } else {
      var n := MatchLast(a, b);
      AtLeastIgnoresOrder(a[..|a| - 1], b[..n] + b[n + 1..], rank, bound);
      AtLeastWithout(b, n, rank, bound);
      assert [b[n]][..0] == [];
    }
  }

  lemma {:induction false} AllAtLeast(rows: seq<Row>, rank: Ranking, bound: int)
    ensures AtLeast(rows, rank, bound) <= |rows|
    ensures (forall r :: r in rows ==> rank(r) >= bound) ==> AtLeast(rows, rank, bound) == |rows|
    ensures (forall r :: r in rows ==> rank(r) < bound) ==> AtLeast(rows, rank, bound) == 0
  {
    if rows != [] { AllAtLeast(rows[..|rows| - 1], rank, bound); }
  }

  // ---------- One order, whichever way a project is opened ----------

  /** The row's key is still to be derived from its text, or was. */
  predicate KeyIsDerived(r: Row) { r.nano == 0 || r.nano == LegacyKey(r.text) }

  predicate YearStaysReadable(r: Row) { Parse(r.text).Some? ==> FourDigitYear(Parse(r.text).value) }

  function Migrated(r: Row): Row { Keyed(Normalised(r)) }

  function AllMigrated(rows: seq<Row>): seq<Row> { seq(|rows|, i requires 0 <= i < |rows| => Migrated(rows[i])) }

  lemma MigratedRowKeepsItsRank(r: Row)
    requires KeyIsDerived(r) && YearStaysReadable(r)
    ensures ByNumber(Migrated(r)) == ByText(Migrated(r)) == ByText(r)
  {
    RetrofitKeepsInstants(r.text);
  }

  function Selected(rows: seq<Row>, project: string, kind: string): seq<Row> {
    if rows == [] then []
    else
      var last := rows[|rows| - 1];
      Selected(rows[..|rows| - 1], project, kind) + if Wanted(last, project, kind) then [last] else []
  }

  lemma {:induction false} SelectedRows(rows: seq<Row>, project: string, kind: string)
    ensures forall r :: multiset(Selected(rows, project, kind))[r] ==
              if Wanted(r, project, kind) then multiset(rows)[r] else 0
  {
    if rows != [] {
      var before, last := rows[..|rows| - 1], rows[|rows| - 1];
      SelectedRows(before, project, kind);
      assert rows == before + [last];
    }
  }

  lemma ListsAreSelections(list: seq<Row>, rows: seq<Row>, project: string, kind: string, rank: Ranking)
    requires IsList(list, rows, project, kind, rank)
    ensures multiset(list) == multiset(Selected(rows, project, kind))
    ensures forall r :: r in list ==> r in rows
  {
    SelectedRows(rows, project, kind);
    forall r | r in list ensures r in rows { assert r in multiset(list) && multiset(rows)[r] > 0; }
  }

  lemma {:induction false} MigrationKeepsSelection(rows: seq<Row>, project: string, kind: string)
    ensures Selected(AllMigrated(rows), project, kind) == AllMigrated(Selected(rows, project, kind))
  {
    if rows != [] {
      var before := rows[..|rows| - 1];
      MigrationKeepsSelection(before, project, kind);
      assert AllMigrated(rows)[..|rows| - 1] == AllMigrated(before);
    }
  }

  lemma MigratedParts(a: seq<Row>, b: seq<Row>)
    ensures AllMigrated(a + b) == AllMigrated(a) + AllMigrated(b)
  {
  }

  lemma MigratedWithout(rows: seq<Row>, n: nat)
    requires n < |rows|
    ensures multiset(AllMigrated(rows))
            == multiset(AllMigrated(rows[..n] + rows[n + 1..])) + multiset{Migrated(rows[n])}
  {
    assert rows == (rows[..n] + [rows[n]]) + rows[n + 1..];
    MigratedParts(rows[..n] + [rows[n]], rows[n + 1..]);
    MigratedParts(rows[..n], [rows[n]]);
    MigratedParts(rows[..n], rows[n + 1..]);
    assert AllMigrated([rows[n]]) == [Migrated(rows[n])];
  }

  lemma {:induction false} MigrationKeepsMultiplicity(a: seq<Row>, b: seq<Row>)
    requires multiset(a) == multiset(b)
    ensures multiset(AllMigrated(a)) == multiset(AllMigrated(b))
    decreases |a|
  {
    if a == [] {
      assert |multiset(b)| == 0;
    } else {
      var n := MatchLast(a, b);
      var last := |a| - 1;
      MigrationKeepsMultiplicity(a[..last], b[..n] + b[n + 1..]);
      MigratedWithout(b, n);
      MigratedWithout(a, last);
      assert a[..last] + a[last + 1..] == a[..last];
    }
  }

  /**
   The list of a file opened for reading before the migration, the numeric list after it and the list a
   read-only open derives after it show the same keys, place by place.
   */
  lemma ListsShowTheSameKeys(
    before: seq<Row>, after: seq<Row>, project: string, kind: string,
    readOnly: seq<Row>, numeric: seq<Row>, legacy: seq<Row>, i: nat)
    requires forall r :: r in before ==> KeyIsDerived(r) && YearStaysReadable(r)
    requires after == AllKeyed(AllNormalised(before))
    requires IsList(readOnly, before, project, kind, ByText)
    requires IsList(numeric, after, project, kind, ByNumber) && IsList(legacy, after, project, kind, ByText)
    requires i < |numeric|
    ensures |readOnly| == |numeric| == |legacy|
    ensures ByText(readOnly[i]) == ByNumber(numeric[i]) == ByText(numeric[i]) == ByText(legacy[i])
            == ByNumber(legacy[i])
  {
    assert after == AllMigrated(before);
    ListsAreSelections(readOnly, before, project, kind, ByText);
    ListsAreSelections(numeric, after, project, kind, ByNumber);
    ListsAreSelections(legacy, after, project, kind, ByText);
    var mapped := AllMigrated(readOnly);
    MigrationKeepsSelection(before, project, kind);
    MigrationKeepsMultiplicity(readOnly, Selected(before, project, kind));
    MigratedRanks(before, after);
    forall k | 0 <= k < |readOnly|
      ensures ByNumber(mapped[k]) == ByText(readOnly[k]) {
      assert readOnly[k] in readOnly;
      MigratedRowKeepsItsRank(readOnly[k]);
    }
    LegacyListIsInNumericOrder(legacy);
    OrderFixesTheKeys(numeric, mapped, ByNumber, i);
    OrderFixesTheKeys(numeric, legacy, ByNumber, i);
    assert numeric[i] in numeric && legacy[i] in legacy;
  }

  lemma MigratedRanks(before: seq<Row>, after: seq<Row>)
    requires (forall r :: r in before ==> KeyIsDerived(r) && YearStaysReadable(r)) && after == AllMigrated(before)
    ensures forall r :: r in after ==> ByNumber(r) == ByText(r)
  {
    forall r | r in after ensures ByNumber(r) == ByText(r) {
      var k :| 0 <= k < |after| && after[k] == r;
      assert before[k] in before;
      MigratedRowKeepsItsRank(before[k]);
    }
  }

  // ---------- The index ----------

  class Index {
    var columns: Option<seq<string>>

    /** repointUnixNanoIndex: one transaction; an index of a shape it does not know is left alone. */
    method Repoint(sortCol: string, otherCols: seq<string>, commits: bool) returns (ok: bool)
      modifies this
      ensures ok <==>
                || old(columns) == Some(otherCols + [sortCol + "_unixnano"])
                || ((old(columns).None? || old(columns).value == otherCols + [sortCol]) && commits)
      ensures columns == if ok then Some(otherCols + [sortCol + "_unixnano"]) else old(columns)
    {
      var repointed := otherCols + [sortCol + "_unixnano"];
      if columns == Some(repointed) { return true; }
      if columns.Some? && columns.value != otherCols + [sortCol] { return false; }
      ok := commits;
      if ok { columns := Some(repointed); }
    }
  }
}
