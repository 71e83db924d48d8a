/**
 The two quantity aggregators that must give one list: AggregateCostEntryQuantities
 (internal/db/cost_control.go) reads rows ordered by item and unit, aggregateEntryQuantities
 (internal/desktop/app_financial_report.go) sorts the joined keys of unordered entries.
 */
module QuantityGroups {
  import opened Wrappers
  import opened ByteOrder
  import opened Money
  import opened Sequences

  datatype Row = Row(item: string, unit: string, milli: int)
  datatype Bucket = Bucket(item: string, unit: string, total: int, count: nat)

  const NUL: string := ['\0']

  function Key(r: Row): string { r.item + NUL + r.unit }

  /** Rows that carry an item, a unit and a quantity. */
  predicate Counted(r: Row) { r.item != "" && r.unit != "" && r.milli > 0 }

  function Kept(rows: seq<Row>): seq<Row> {
    if rows == [] then []
    else Kept(rows[..|rows| - 1]) + if Counted(rows[|rows| - 1]) then [rows[|rows| - 1]] else []
  }

  // ---------- What a bucket holds ----------

  function TotalOf(rows: seq<Row>, key: string): int {
    if rows == [] then 0
    else TotalOf(rows[..|rows| - 1], key) + if Key(rows[|rows| - 1]) == key then rows[|rows| - 1].milli else 0
  }

  function CountOf(rows: seq<Row>, key: string): nat {
    if rows == [] then 0
    else CountOf(rows[..|rows| - 1], key) + if Key(rows[|rows| - 1]) == key then 1 else 0
  }

  /** The keys in the order they are first seen. */
  function Keys(rows: seq<Row>): seq<string> {
    if rows == [] then []
    else
      var before, key := Keys(rows[..|rows| - 1]), Key(rows[|rows| - 1]);
      if key in before then before else before + [key]
  }

  /** The first row with a key: its item and unit name the group. */
  function FirstOf(rows: seq<Row>, key: string): Row
    requires key in Keys(rows)
  {
    var before := rows[..|rows| - 1];
    if key in Keys(before) then FirstOf(before, key) else rows[|rows| - 1]
  }

  function BucketOf(rows: seq<Row>, key: string): Bucket
    requires key in Keys(rows)
  {
    var first := FirstOf(rows, key);
    Bucket(first.item, first.unit, TotalOf(rows, key), CountOf(rows, key))
  }

  /** The listed groups, unless one total is out of range. */
  function Listed(rows: seq<Row>, order: seq<string>): Result<seq<Bucket>, Overflow>
    requires forall k :: k in order ==> k in Keys(rows)
  {
    if forall k :: k in order ==> Fits(TotalOf(rows, k))
    then Ok(seq(|order|, i requires 0 <= i < |order| => BucketOf(rows, order[i])))
    else Err(Overflow)
  }

  function InRowOrder(rows: seq<Row>): Result<seq<Bucket>, Overflow> { Listed(rows, Keys(rows)) }

  function InKeyOrder(rows: seq<Row>): Result<seq<Bucket>, Overflow> {
    SortSorts(Keys(rows));
    SortedElements(Keys(rows));
    Listed(rows, Sort(Keys(rows)))
  }

  lemma SortedElements(keys: seq<string>)
    ensures forall k :: k in Sort(keys) <==> k in keys
  {
    SortSorts(keys);
    forall k ensures k in Sort(keys) <==> k in keys {
      assert k in multiset(Sort(keys)) <==> k in multiset(keys);
    }
  }

  // ---------- Keys order as pairs do ----------

  /** ORDER BY item_name, unit. */
  predicate PairAtMost(a: Row, b: Row) {
    Less(a.item, b.item) || (a.item == b.item && AtMost(a.unit, b.unit))
  }

  lemma {:induction false} JoinedKeysCompareAsPairs(a: Row, b: Row)
    requires '\0' !in a.item && '\0' !in b.item
    ensures Less(Key(a), Key(b)) <==> PairBefore(a, b)
    ensures Key(a) == Key(b) <==> a.item == b.item && a.unit == b.unit
    decreases |a.item|
  {
    var x, y := Key(a), Key(b);
    if a.item == "" || b.item == "" {
      if a.item == "" { assert x[0] == '\0' && x[1..] == a.unit; }
      if b.item == "" { assert y[0] == '\0' && y[1..] == b.unit; }
      if a.item != "" { assert x[0] == a.item[0] && x[0] in a.item; }
      if b.item != "" { assert y[0] == b.item[0] && y[0] in b.item; }
      assert a.item != "" ==> '\0' < x[0];
      assert b.item != "" ==> '\0' < y[0];
    } else {
      var ta, tb := a.(item := a.item[1..]), b.(item := b.item[1..]);
      JoinedKeysCompareAsPairs(ta, tb);
      assert x == [a.item[0]] + Key(ta) && y == [b.item[0]] + Key(tb);
      assert a.item == [a.item[0]] + ta.item && b.item == [b.item[0]] + tb.item;
    }
  }

  predicate PairBefore(a: Row, b: Row) {
    Less(a.item, b.item) || (a.item == b.item && Less(a.unit, b.unit))
  }

  /** Byte order on the joined keys is the order of the pairs; in particular different pairs have different keys. */
  predicate KeysFollowPairs(rows: seq<Row>) {
    forall a, b :: a in rows && b in rows && PairBefore(a, b) ==> Less(Key(a), Key(b))
  }

  lemma PairsCompare(a: Row, b: Row)
    ensures PairBefore(a, b) || PairBefore(b, a) || (a.item == b.item && a.unit == b.unit)
    ensures PairAtMost(a, b) <==> !PairBefore(b, a)
  {
    Trichotomy(a.item, b.item);
    Trichotomy(a.unit, b.unit);
  }

  predicate NoNul(rows: seq<Row>) { forall r :: r in rows ==> '\0' !in r.item }

  predicate Ordered(rows: seq<Row>) { forall i, j :: 0 <= i < j < |rows| ==> PairAtMost(rows[i], rows[j]) }

  predicate KeysIncrease(keys: seq<string>) { forall i, j :: 0 <= i < j < |keys| ==> Less(keys[i], keys[j]) }

  lemma {:induction false} KeysAreTheRowsKeys(rows: seq<Row>)
    ensures forall r :: r in rows ==> Key(r) in Keys(rows)
    ensures forall k :: k in Keys(rows) ==> exists r :: r in rows && Key(r) == k
    ensures Distinct(Keys(rows))
  {
    if rows != [] {
      var before, last := rows[..|rows| - 1], rows[|rows| - 1];
      KeysAreTheRowsKeys(before);
      assert rows == before + [last];
      forall k | k in Keys(rows) ensures exists r :: r in rows && Key(r) == k {
        if k in Keys(before) {
          var r :| r in before && Key(r) == k;
          assert r in rows;
        } else {
          assert last in rows;
        }
      }
    }
  }

  lemma KeysWithoutNulFollowPairs(rows: seq<Row>)
    requires NoNul(rows)
    ensures KeysFollowPairs(rows)
  {
    forall a, b | a in rows && b in rows && PairBefore(a, b) ensures Less(Key(a), Key(b)) {
      JoinedKeysCompareAsPairs(a, b);
    }
  }

  lemma EqualKeysEqualPairs(rows: seq<Row>, a: Row, b: Row)
    requires KeysFollowPairs(rows) && a in rows && b in rows && Key(a) == Key(b)
    ensures a.item == b.item && a.unit == b.unit
  {
    PairsCompare(a, b);
    Trichotomy(Key(a), Key(b));
  }

  lemma EarlierKeyIsLess(before: seq<Row>, last: Row, key: string)
    requires Ordered(before + [last]) && KeysFollowPairs(before + [last]) && key in Keys(before) && key != Key(last)
    ensures Less(key, Key(last))
  {
    KeysAreTheRowsKeys(before);
    var rows := before + [last];
    var r :| r in before && Key(r) == key;
    var n :| 0 <= n < |before| && before[n] == r;
    assert rows[n] == r && rows[|before|] == last && PairAtMost(r, last);
    assert r in rows && last in rows;
    PairsCompare(r, last);
  }

  lemma AppendIncreasing(keys: seq<string>, key: string)
    requires KeysIncrease(keys) && forall k :: k in keys ==> Less(k, key)
    ensures KeysIncrease(keys + [key])
  {
  }

  /** Rows in (item, unit) order list their keys in increasing byte order. */
  lemma {:induction false} OrderedRowsListKeysIncreasing(rows: seq<Row>)
    requires Ordered(rows) && KeysFollowPairs(rows)
    ensures KeysIncrease(Keys(rows))
  {
    if rows != [] {
      var before, last := rows[..|rows| - 1], rows[|rows| - 1];
      assert rows == before + [last];
      OrderedRowsListKeysIncreasing(before);
      if Key(last) !in Keys(before) {
        forall k | k in Keys(before) ensures Less(k, Key(last)) { EarlierKeyIsLess(before, last, k); }
        AppendIncreasing(Keys(before), Key(last));
      }
    }
  }

  // ---------- Sums do not depend on the order of rows ----------

  lemma {:induction false} SumsOfTwoParts(a: seq<Row>, b: seq<Row>, key: string)
    ensures TotalOf(a + b, key) == TotalOf(a, key) + TotalOf(b, key)
    ensures CountOf(a + b, key) == CountOf(a, key) + CountOf(b, key)
    decreases |b|
  {
    if b == [] {
      assert a + b == a;
    } else {
      SumsOfTwoParts(a, b[..|b| - 1], key);
      assert (a + b)[..|a + b| - 1] == a + b[..|b| - 1];
    }
  }

  lemma WithoutRow(rows: seq<Row>, n: nat, key: string)
    requires n < |rows|
    ensures var rest := rows[..n] + rows[n + 1..];
            && TotalOf(rows, key) == TotalOf(rest, key) + TotalOf([rows[n]], key)
            && CountOf(rows, key) == CountOf(rest, key) + CountOf([rows[n]], key)
  {
    var one := [rows[n]];
    assert rows == (rows[..n] + one) + rows[n + 1..];
    SumsOfTwoParts(rows[..n] + one, rows[n + 1..], key);
    SumsOfTwoParts(rows[..n], one, key);
    SumsOfTwoParts(rows[..n], rows[n + 1..], key);
  }

  lemma {:induction false} SumsDependOnTheRowsOnly(a: seq<Row>, b: seq<Row>, key: string)
    requires multiset(a) == multiset(b)
    ensures TotalOf(a, key) == TotalOf(b, key) && CountOf(a, key) == CountOf(b, key)
    decreases |a|
  {
    if a == [] {
      assert |multiset(b)| == 0;
    } else {
      var before, last := a[..|a| - 1], a[|a| - 1];
      var n := MatchLast(a, b);
      var rest := b[..n] + b[n + 1..];
      SumsDependOnTheRowsOnly(before, rest, key);
      WithoutRow(b, n, key);
      assert [last][..0] == [];
    }
  }

  lemma {:induction false} FirstHasItsKey(rows: seq<Row>, key: string)
    requires key in Keys(rows)
    ensures FirstOf(rows, key) in rows && Key(FirstOf(rows, key)) == key
  {
    var before := rows[..|rows| - 1];
    assert rows == before + [rows[|rows| - 1]];
    if key in Keys(before) { FirstHasItsKey(before, key); }
  }

  // ---------- The two lists agree ----------

  lemma {:induction false} DistinctHasUnitMultiplicity(keys: seq<string>, k: string)
    requires Distinct(keys)
    ensures multiset(keys)[k] == if k in keys then 1 else 0
  {
    if keys != [] {
      var before, last := keys[..|keys| - 1], keys[|keys| - 1];
      assert keys == before + [last];
      DistinctHasUnitMultiplicity(before, k);
      if k == last { assert k !in before; }
    }
  }

  /** Rows read in (item, unit) order have the very keys the other aggregator sorts. */
  lemma SameKeyOrder(ordered: seq<Row>, rows: seq<Row>)
    requires multiset(ordered) == multiset(rows) && Ordered(ordered) && KeysFollowPairs(ordered)
    ensures Keys(ordered) == Sort(Keys(rows))
  {
    var a, b := Keys(ordered), Keys(rows);
    OrderedRowsListKeysIncreasing(ordered);
    KeysAreTheRowsKeys(ordered);
    KeysAreTheRowsKeys(rows);
    forall r ensures r in ordered <==> r in rows { assert r in multiset(ordered) <==> r in multiset(rows); }
    forall k ensures multiset(a)[k] == multiset(b)[k] {
      DistinctHasUnitMultiplicity(a, k);
      DistinctHasUnitMultiplicity(b, k);
      if k in a { var r :| r in ordered && Key(r) == k; assert r in rows; }
      if k in b { var r :| r in rows && Key(r) == k; assert r in ordered; }
    }
    SortSorts(b);
    SortedUnique(a, Sort(b));
  }

  lemma SameBucket(ordered: seq<Row>, rows: seq<Row>, k: string)
    requires multiset(ordered) == multiset(rows) && KeysFollowPairs(ordered) && k in Keys(ordered) && k in Keys(rows)
    ensures BucketOf(ordered, k) == BucketOf(rows, k)
  {
    SumsDependOnTheRowsOnly(ordered, rows, k);
    FirstHasItsKey(ordered, k);
    FirstHasItsKey(rows, k);
    var x, y := FirstOf(ordered, k), FirstOf(rows, k);
    assert y in multiset(rows);
    EqualKeysEqualPairs(ordered, x, y);
  }

  lemma SameBucketsSameList(a: seq<Row>, b: seq<Row>, order: seq<string>)
    requires forall k :: k in order ==> k in Keys(a) && k in Keys(b) && BucketOf(a, k) == BucketOf(b, k)
    requires forall k :: k in order ==> TotalOf(a, k) == TotalOf(b, k)
    ensures Listed(a, order) == Listed(b, order)
  {
    if Listed(a, order).Ok? {
      var x, y := Listed(a, order).value, Listed(b, order).value;
      forall i | 0 <= i < |order| ensures x[i] == y[i] { assert order[i] in order; }
      assert x == y;
    }
  }

  lemma SameRows(a: seq<Row>, b: seq<Row>)
    requires multiset(a) == multiset(b)
    ensures forall r :: r in a <==> r in b
    ensures forall k :: k in Keys(a) <==> k in Keys(b)
  {
    forall r ensures r in a <==> r in b { assert r in multiset(a) <==> r in multiset(b); }
    KeysAreTheRowsKeys(a);
    KeysAreTheRowsKeys(b);
    forall k ensures k in Keys(a) <==> k in Keys(b) {
      if k in Keys(a) { var r :| r in a && Key(r) == k; assert r in b; }
      if k in Keys(b) { var r :| r in b && Key(r) == k; assert r in a; }
    }
  }

  lemma KeysInPairOrderAgree(ordered: seq<Row>, rows: seq<Row>)
    requires multiset(ordered) == multiset(rows) && Ordered(ordered) && KeysFollowPairs(rows)
    ensures InRowOrder(ordered) == InKeyOrder(rows)
  {
    SameRows(ordered, rows);
    SameKeyOrder(ordered, rows);
    SortedElements(Keys(rows));
    var order := Keys(ordered);
    forall k | k in order
      ensures k in Keys(rows) && BucketOf(ordered, k) == BucketOf(rows, k) && TotalOf(ordered, k) == TotalOf(rows, k) {
      SameBucket(ordered, rows, k);
      SumsDependOnTheRowsOnly(ordered, rows, k);
    }
    SameBucketsSameList(ordered, rows, order);
  }

  /** When no item holds a NUL, both aggregators fail together or give the same groups in the same order. */
  lemma AggregatorsAgree(ordered: seq<Row>, rows: seq<Row>)
    requires multiset(ordered) == multiset(rows) && Ordered(ordered) && NoNul(rows)
    ensures InRowOrder(ordered) == InKeyOrder(rows)
  {
    KeysWithoutNulFollowPairs(rows);
    KeysInPairOrderAgree(ordered, rows);
  }

  // ---------- When they disagree ----------

  predicate AllFit(rows: seq<Row>) { forall k :: k in Keys(rows) ==> Fits(TotalOf(rows, k)) }

  lemma BothFail(ordered: seq<Row>, rows: seq<Row>)
    requires multiset(ordered) == multiset(rows) && !AllFit(rows)
    ensures InRowOrder(ordered) == InKeyOrder(rows) == Err(Overflow)
  {
    SameRows(ordered, rows);
    SortedElements(Keys(rows));
    var k :| k in Keys(rows) && !Fits(TotalOf(rows, k));
    SumsDependOnTheRowsOnly(ordered, rows, k);
  }

  /** A listed group shows the key it was gathered under, so equal lists have their keys in the same order. */
  lemma EqualListsEqualKeys(a: seq<Row>, x: seq<string>, b: seq<Row>, y: seq<string>)
    requires forall k :: k in x ==> k in Keys(a)
    requires forall k :: k in y ==> k in Keys(b)
    requires Listed(a, x).Ok? && Listed(a, x) == Listed(b, y)
    ensures x == y && forall k :: k in x ==>
            FirstOf(a, k).item == FirstOf(b, k).item && FirstOf(a, k).unit == FirstOf(b, k).unit
  {
    var list := Listed(a, x).value;
    assert |x| == |list| == |y|;
    forall i | 0 <= i < |x|
      ensures x[i] == y[i]
      ensures FirstOf(a, x[i]).item == FirstOf(b, y[i]).item && FirstOf(a, x[i]).unit == FirstOf(b, y[i]).unit {
      assert x[i] in x && y[i] in y;
      assert list[i] == BucketOf(a, x[i]) == BucketOf(b, y[i]);
      FirstHasItsKey(a, x[i]);
      FirstHasItsKey(b, y[i]);
    }
  }

  lemma {:induction false} TheFirstRowNamesItsGroup(r: Row, rest: seq<Row>)
    ensures Key(r) in Keys([r] + rest) && FirstOf([r] + rest, Key(r)) == r
  {
    if rest == [] {
      assert [r] + rest == [r] && [r][..0] == [];
    } else {
      TheFirstRowNamesItsGroup(r, rest[..|rest| - 1]);
      assert ([r] + rest)[..|rest|] == [r] + rest[..|rest| - 1];
    }
  }

  /** The same rows with other first. */
  lemma PutFirst(ordered: seq<Row>, other: Row) returns (rows: seq<Row>)
    requires other in ordered
    ensures multiset(rows) == multiset(ordered) && rows != [] && rows[0] == other
  {
    var n :| 0 <= n < |ordered| && ordered[n] == other;
    RemovedAt(ordered, n);
    rows := [other] + (ordered[..n] + ordered[n + 1..]);
  }

  /** Two different pairs with one key: put either first, and it names the group. */
  lemma SharedKeyDisagrees(ordered: seq<Row>, a: Row, b: Row) returns (rows: seq<Row>)
    requires a in ordered && b in ordered && Key(a) == Key(b) && (a.item != b.item || a.unit != b.unit)
             && AllFit(ordered)
    ensures multiset(rows) == multiset(ordered) && InRowOrder(ordered) != InKeyOrder(rows)
  {
    KeysAreTheRowsKeys(ordered);
    var named := FirstOf(ordered, Key(a));
    var other := if named.item == a.item && named.unit == a.unit then b else a;
    rows := PutFirst(ordered, other);
    assert rows == [other] + rows[1..];
    SameRows(ordered, rows);
    TheFirstRowNamesItsGroup(other, rows[1..]);
    SortedElements(Keys(rows));
    if InRowOrder(ordered) == InKeyOrder(rows) {
      EqualListsEqualKeys(ordered, Keys(ordered), rows, Sort(Keys(rows)));
      assert false;
    }
  }

  lemma {:induction false} KeysOfPrefix(rows: seq<Row>, n: nat)
    requires n <= |rows|
    ensures Keys(rows[..n]) <= Keys(rows)
    decreases |rows|
  {
    if n == |rows| {
      assert rows[..n] == rows;
    } else {
      KeysOfPrefix(rows[..|rows| - 1], n);
      assert rows[..|rows| - 1][..n] == rows[..n];
    }
  }

  /** A key that is only seen after another comes after it in the list. */
  lemma SeenEarlierListedEarlier(rows: seq<Row>, n: nat, x: string, y: string)
    requires n <= |rows| && x in Keys(rows[..n]) && y in Keys(rows) && y !in Keys(rows[..n]) && Sorted(Keys(rows))
    ensures AtMost(x, y)
  {
    KeysOfPrefix(rows, n);
    var early, all := Keys(rows[..n]), Keys(rows);
    var i :| 0 <= i < |early| && early[i] == x;
    var j :| 0 <= j < |all| && all[j] == y;
    assert all[i] == x && all[..|early|] == early;
    assert j >= |early|;
  }

  predicate KeysNamePairs(rows: seq<Row>) {
    forall x, y :: x in rows && y in rows && Key(x) == Key(y) ==> x.item == y.item && x.unit == y.unit
  }

  lemma LaterPairIsSeenLater(ordered: seq<Row>, n: nat, b: Row)
    requires Ordered(ordered) && KeysNamePairs(ordered) && n < |ordered| && b in ordered && PairBefore(ordered[n], b)
    ensures Key(ordered[n]) in Keys(ordered[..n + 1]) && Key(b) !in Keys(ordered[..n + 1])
  {
    var a, prefix := ordered[n], ordered[..n + 1];
    KeysAreTheRowsKeys(prefix);
    assert prefix[n] == a && a in prefix;
    forall m | 0 <= m <= n ensures Key(prefix[m]) != Key(b) {
      var r := prefix[m];
      assert r == ordered[m] && r in ordered;
      PairsCompare(r, a);
      PairsCompare(a, a);
      assert m < n ==> PairAtMost(ordered[m], ordered[n]);
    }
  }

  /** A pair whose key comes too early: the ordered rows do not list their keys in byte order. */
  lemma ReversedKeysDisagree(ordered: seq<Row>, a: Row, b: Row)
    requires Ordered(ordered) && KeysNamePairs(ordered) && AllFit(ordered)
    requires a in ordered && b in ordered && PairBefore(a, b) && Less(Key(b), Key(a))
    ensures InRowOrder(ordered) != InKeyOrder(ordered)
  {
    var n :| 0 <= n < |ordered| && ordered[n] == a;
    var keys := Keys(ordered);
    LaterPairIsSeenLater(ordered, n, b);
    KeysAreTheRowsKeys(ordered);
    SortedElements(keys);
    if InRowOrder(ordered) == InKeyOrder(ordered) {
      EqualListsEqualKeys(ordered, keys, ordered, Sort(keys));
      SortSorts(keys);
      SeenEarlierListedEarlier(ordered, n + 1, Key(a), Key(b));
      Trichotomy(Key(a), Key(b));
      assert false;
    }
  }

  // The rows in the order the query returns them.

  function InsertRow(r: Row, rows: seq<Row>): seq<Row> {
    if rows == [] then [r]
    else if PairAtMost(r, rows[0]) then [r] + rows
    else [rows[0]] + InsertRow(r, rows[1..])
  }

  function OrderBy(rows: seq<Row>): seq<Row> {
    if rows == [] then [] else InsertRow(rows[0], OrderBy(rows[1..]))
  }

  lemma PairsTransitive(a: Row, b: Row, c: Row)
    requires PairAtMost(a, b) && PairAtMost(b, c)
    ensures PairAtMost(a, c)
  {
    if Less(a.item, b.item) && Less(b.item, c.item) { Transitive(a.item, b.item, c.item); }
    if Less(a.unit, b.unit) && Less(b.unit, c.unit) { Transitive(a.unit, b.unit, c.unit); }
  }

  lemma {:induction false} InsertedRows(r: Row, rows: seq<Row>)
    ensures multiset(InsertRow(r, rows)) == multiset{r} + multiset(rows)
  {
    if rows != [] {
      assert rows == [rows[0]] + rows[1..];
      InsertedRows(r, rows[1..]);
    }
  }

  lemma {:induction false} InsertedIsOrdered(r: Row, rows: seq<Row>)
    requires Ordered(rows)
    ensures Ordered(InsertRow(r, rows))
  {
    if rows != [] {
      PairsCompare(r, rows[0]);
      if PairAtMost(r, rows[0]) {
        forall j | 0 < j < |rows| ensures PairAtMost(r, rows[j]) { PairsTransitive(r, rows[0], rows[j]); }
      } else {
        InsertedIsOrdered(r, rows[1..]);
        InsertedRows(r, rows[1..]);
        var rest := InsertRow(r, rows[1..]);
        forall j | 0 <= j < |rest| ensures PairAtMost(rows[0], rest[j]) {
          assert rest[j] in multiset(rest);
          assert rest[j] == r || rest[j] in rows[1..];
          PairsCompare(rows[0], r);
        }
      }
    }
  }

  lemma {:induction false} OrderByOrders(rows: seq<Row>)
    ensures Ordered(OrderBy(rows)) && multiset(OrderBy(rows)) == multiset(rows)
  {
    if rows != [] {
      OrderByOrders(rows[1..]);
      InsertedRows(rows[0], OrderBy(rows[1..]));
      InsertedIsOrdered(rows[0], OrderBy(rows[1..]));
      assert rows == [rows[0]] + rows[1..];
    }
  }

  /** However these rows are stored and read, both aggregators give one answer. */
  ghost predicate AlwaysAgree(rows: seq<Row>) {
    forall ordered: seq<Row>, stored: seq<Row> ::
      multiset(ordered) == multiset(stored) == multiset(rows) && Ordered(ordered) ==>
        InRowOrder(ordered) == InKeyOrder(stored)
  }

  lemma OtherwiseTheyDisagree(rows: seq<Row>, a: Row, b: Row)
    requires a in rows && b in rows && PairBefore(a, b) && !Less(Key(a), Key(b)) && AllFit(rows)
    ensures !AlwaysAgree(rows)
  {
    var ordered := OrderBy(rows);
    OrderByOrders(rows);
    SameRows(ordered, rows);
    forall k | k in Keys(ordered) ensures Fits(TotalOf(ordered, k)) { SumsDependOnTheRowsOnly(ordered, rows, k); }
    if KeysNamePairs(ordered) {
      Trichotomy(Key(a), Key(b));
      Trichotomy(a.item, b.item);
      Trichotomy(a.unit, b.unit);
      ReversedKeysDisagree(ordered, a, b);
    } else {
      var x, y :| x in ordered && y in ordered && Key(x) == Key(y) && (x.item != y.item || x.unit != y.unit);
      var stored := SharedKeyDisagrees(ordered, x, y);
    }
  }

  /** The exact condition: the joined keys follow the pairs, or some total is out of range. */
  lemma AlwaysAgreeIff(rows: seq<Row>)
    ensures AlwaysAgree(rows) <==> KeysFollowPairs(rows) || !AllFit(rows)
  {
    if !AllFit(rows) {
      forall ordered: seq<Row>, stored: seq<Row> | multiset(ordered) == multiset(stored) == multiset(rows)
        ensures InRowOrder(ordered) == InKeyOrder(stored) {
        SameRows(stored, rows);
        var k :| k in Keys(rows) && !Fits(TotalOf(rows, k));
        SumsDependOnTheRowsOnly(stored, rows, k);
        BothFail(ordered, stored);
      }
    } else if KeysFollowPairs(rows) {
      forall ordered: seq<Row>, stored: seq<Row> |
        multiset(ordered) == multiset(stored) == multiset(rows) && Ordered(ordered)
        ensures InRowOrder(ordered) == InKeyOrder(stored) {
        SameRows(stored, rows);
        KeysInPairOrderAgree(ordered, stored);
      }
    } else {
      var a, b :| a in rows && b in rows && PairBefore(a, b) && !Less(Key(a), Key(b));
      OtherwiseTheyDisagree(rows, a, b);
    }
  }

  /** A NUL in an item lets two pairs share a key, in the order the query returns them. */
  lemma NulMakesThemDisagree(x: string, y: string, z: string)
    requires x != "" && y != "" && z != "" && '\0' !in x
    ensures var a, b := Row(x, y + NUL + z, 1), Row(x + NUL + y, z, 1);
            Counted(a) && Counted(b) && PairAtMost(a, b) && !AlwaysAgree([a, b])
  {
    var a, b := Row(x, y + NUL + z, 1), Row(x + NUL + y, z, 1);
    assert Key(a) == Key(b) by { assert x + NUL + (y + NUL + z) == (x + NUL + y) + NUL + z; }
    LessByHead(x, "", x, NUL + y);
    Trichotomy(x, x);
    assert x + "" == x && x + (NUL + y) == x + NUL + y;
    Trichotomy(Key(a), Key(b));
    assert a in [a, b] && b in [a, b];
    forall k | k in Keys([a, b]) ensures Fits(TotalOf([a, b], k)) {
      assert [a, b][..1] == [a] && [a][..0] == [];
      assert TotalOf([a], k) <= 1;
    }
    AlwaysAgreeIff([a, b]);
  }

  // ---------- The procedures ----------

  ghost predicate Filled(m: map<string, Bucket>, order: seq<string>, rows: seq<Row>) {
    && order == Keys(rows)
    && forall k :: (k in m <==> k in order) && (k in m ==> m[k] == BucketOf(rows, k))
  }

  /** One row joins its bucket, or opens it. */
  method AddRow(m: map<string, Bucket>, order: seq<string>, ghost rows: seq<Row>, r: Row)
    returns (after: map<string, Bucket>, keys: seq<string>)
    requires Filled(m, order, rows)
    ensures Filled(after, keys, rows + [r])
  {
    assert (rows + [r])[..|rows|] == rows;
    var key := Key(r);
    after, keys := m, order;
    if key !in m {
      after := after[key := Bucket(r.item, r.unit, 0, 0)];
      keys := keys + [key];
      NoRowsYet(rows, key);
    }
    var b := after[key];
    after := after[key := b.(total := b.total + r.milli, count := b.count + 1)];
  }

  lemma {:induction false} NoRowsYet(rows: seq<Row>, key: string)
    requires key !in Keys(rows)
    ensures TotalOf(rows, key) == 0 && CountOf(rows, key) == 0
  {
    if rows != [] { NoRowsYet(rows[..|rows| - 1], key); }
  }

  /** The range-checked list, in the given order. */
  method ListBuckets(m: map<string, Bucket>, order: seq<string>, ghost rows: seq<Row>)
    returns (r: Result<seq<Bucket>, Overflow>)
    requires forall k :: k in order ==> k in Keys(rows) && k in m && m[k] == BucketOf(rows, k)
    ensures r == Listed(rows, order)
  {
    var out: seq<Bucket> := [];
    for i := 0 to |order|
      invariant |out| == i
      invariant forall k :: 0 <= k < i ==> out[k] == BucketOf(rows, order[k]) && Fits(TotalOf(rows, order[k]))
    {
      assert order[i] in order;
      if Amount(m[order[i]].total).Err? { return Err(Overflow); }
      out := out + [m[order[i]]];
    }
    assert forall k :: k in order ==> Fits(TotalOf(rows, k));
    assert out == Listed(rows, order).value;
    r := Ok(out);
  }

  /** AggregateCostEntryQuantities over the rows its query returns. */
  method AggregateCostEntryQuantities(rows: seq<Row>) returns (r: Result<seq<Bucket>, Overflow>)
    ensures r == InRowOrder(rows)
  {
    var m: map<string, Bucket>, order: seq<string> := map[], [];
    for i := 0 to |rows|
      invariant Filled(m, order, rows[..i])
    {
      m, order := AddRow(m, order, rows[..i], rows[i]);
      assert rows[..i + 1] == rows[..i] + [rows[i]];
    }
    assert rows[..|rows|] == rows;
    r := ListBuckets(m, order, rows);
  }

  lemma KeptStep(entries: seq<Row>, i: nat)
    requires i < |entries|
    ensures Kept(entries[..i + 1]) == Kept(entries[..i]) + if Counted(entries[i]) then [entries[i]] else []
  {
    assert entries[..i + 1][..i] == entries[..i];
  }

  /** The loop over unordered entries. */
  method Gather(entries: seq<Row>) returns (m: map<string, Bucket>, order: seq<string>)
    ensures Filled(m, order, Kept(entries))
  {
    m, order := map[], [];
    ghost var kept: seq<Row> := [];
    for i := 0 to |entries|
      invariant kept == Kept(entries[..i]) && Filled(m, order, kept)
    {
      KeptStep(entries, i);
      if !(entries[i].item == "" || entries[i].unit == "" || entries[i].milli <= 0) {
        m, order := AddRow(m, order, kept, entries[i]);
        kept := kept + [entries[i]];
      }
    }
    assert entries[..|entries|] == entries;
  }

  /** aggregateEntryQuantities over a project's entries. */
  method AggregateEntryQuantities(entries: seq<Row>) returns (r: Result<seq<Bucket>, Overflow>)
    ensures r == InKeyOrder(Kept(entries))
  {
    var m, order := Gather(entries);
    SortedElements(order);
    r := ListBuckets(m, Sort(order), Kept(entries));
  }

  // ---------- Nothing is lost or counted twice ----------

  function Milli(rows: seq<Row>): int {
    if rows == [] then 0 else Milli(rows[..|rows| - 1]) + rows[|rows| - 1].milli
  }

  function GroupTotals(rows: seq<Row>, keys: seq<string>): int {
    if keys == [] then 0 else GroupTotals(rows, keys[..|keys| - 1]) + TotalOf(rows, keys[|keys| - 1])
  }

  function GroupCounts(rows: seq<Row>, keys: seq<string>): nat {
    if keys == [] then 0 else GroupCounts(rows, keys[..|keys| - 1]) + CountOf(rows, keys[|keys| - 1])
  }

  lemma {:induction false} OneRowOneGroup(rows: seq<Row>, r: Row, keys: seq<string>)
    requires Distinct(keys)
    ensures GroupTotals(rows + [r], keys) == GroupTotals(rows, keys) + if Key(r) in keys then r.milli else 0
    ensures GroupCounts(rows + [r], keys) == GroupCounts(rows, keys) + if Key(r) in keys then 1 else 0
    decreases |keys|
  {
    assert (rows + [r])[..|rows|] == rows;
    if keys != [] {
      var before, last := keys[..|keys| - 1], keys[|keys| - 1];
      assert keys == before + [last];
      OneRowOneGroup(rows, r, before);
      if Key(r) == last { assert last !in before; }
    }
  }

  lemma {:induction false} NoRowsNoGroups(keys: seq<string>)
    ensures GroupTotals([], keys) == 0 && GroupCounts([], keys) == 0
  {
    if keys != [] { NoRowsNoGroups(keys[..|keys| - 1]); }
  }

  lemma {:induction false} GroupsConserveOver(rows: seq<Row>, keys: seq<string>)
    requires Distinct(keys) && forall r :: r in rows ==> Key(r) in keys
    ensures GroupTotals(rows, keys) == Milli(rows) && GroupCounts(rows, keys) == |rows|
  {
    if rows == [] {
      NoRowsNoGroups(keys);
    } else {
      var before, last := rows[..|rows| - 1], rows[|rows| - 1];
      assert rows == before + [last];
      GroupsConserveOver(before, keys);
      OneRowOneGroup(before, last, keys);
    }
  }

  /** The groups' totals add up to the rows' quantities, and their counts to the number of rows. */
  lemma GroupsConserve(rows: seq<Row>)
    ensures GroupTotals(rows, Keys(rows)) == Milli(rows) && GroupCounts(rows, Keys(rows)) == |rows|
  {
    KeysAreTheRowsKeys(rows);
    GroupsConserveOver(rows, Keys(rows));
  }

  /** A group shows the item and the unit of a row that has its key. */
  lemma BucketNamesItsRows(rows: seq<Row>, key: string)
    requires key in Keys(rows)
    ensures var b := BucketOf(rows, key);
            && (exists r :: r in rows && r.item == b.item && r.unit == b.unit && r.item + ['\0'] + r.unit == key)
            && b.total == TotalOf(rows, key) && b.count == CountOf(rows, key)
  {
    FirstHasItsKey(rows, key);
  }

  /** The entries that enter the groups: those with an item, a unit and a positive quantity, as often as they occur. */
  lemma {:induction false} KeptRows(entries: seq<Row>)
    ensures forall r :: multiset(Kept(entries))[r] ==
              if r.item != "" && r.unit != "" && r.milli > 0 then multiset(entries)[r] else 0
  {
    if entries != [] {
      KeptRows(entries[..|entries| - 1]);
      assert entries == entries[..|entries| - 1] + [entries[|entries| - 1]];
    }
  }
}
