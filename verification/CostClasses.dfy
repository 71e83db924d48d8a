/**
 classifyCostEntries (internal/desktop/app_cost_control.go): the ledger of one project split along three
 independent lenses.
 */
module CostClasses {
  import opened Wrappers
  import opened Money
  import opened CostLedger
  import opened Sequences

  datatype Lens = Attribution | Behavior | Treatment
  datatype Totals = Totals(planned: int, commitment: int, actual: int)
  datatype Row = Row(value: string, totals: Totals)

  function Values(lens: Lens): seq<string> {
    match lens
    case Attribution => ATTRIBUTIONS
    case Behavior => BEHAVIORS
    case Treatment => TREATMENTS
  }

  function ValueOf(t: CostType, lens: Lens): string {
    match lens
    case Attribution => t.attribution
    case Behavior => t.behavior
    case Treatment => t.treatment
  }

  function Add(t: Totals, kind: string, amount: int): Totals {
    match kind
    case "planned" => t.(planned := t.planned + amount)
    case "commitment" => t.(commitment := t.commitment + amount)
    case "actual" => t.(actual := t.actual + amount)
    case _ => t
  }

  function Plus(a: Totals, b: Totals): Totals {
    Totals(a.planned + b.planned, a.commitment + b.commitment, a.actual + b.actual)
  }

  /** What one bucket should hold: the amounts of the entries whose type has this value. */
  function Bucket(entries: seq<Entry>, types: map<string, CostType>, lens: Lens, value: string): Totals {
    if entries == [] then Totals(0, 0, 0)
    else
      var before, last := Bucket(entries[..|entries| - 1], types, lens, value), entries[|entries| - 1];
      if last.costType in types && ValueOf(types[last.costType], lens) == value
      then Add(before, last.kind, last.amount) else before
  }

  /** An entry some lens cannot place. */
  predicate Unplaceable(types: map<string, CostType>, e: Entry) {
    || e.costType !in types || e.kind !in ENTRY_KINDS
    || types[e.costType].attribution !in ATTRIBUTIONS || types[e.costType].behavior !in BEHAVIORS
    || types[e.costType].treatment !in TREATMENTS
  }

  predicate FitsAll(t: Totals) { Fits(t.planned) && Fits(t.commitment) && Fits(t.actual) }

  /** The rows of one lens, in the order of its values. */
  ghost predicate AreRows(rows: seq<Row>, entries: seq<Entry>, types: map<string, CostType>, lens: Lens) {
    && |rows| == |Values(lens)|
    && forall i :: 0 <= i < |rows| ==> rows[i] == Row(Values(lens)[i], Bucket(entries, types, lens, Values(lens)[i]))
  }

  /** The buckets of some values of a lens, added up. */
  function SumOf(values: seq<string>, entries: seq<Entry>, types: map<string, CostType>, lens: Lens): Totals {
    if values == [] then Totals(0, 0, 0)
    else Plus(SumOf(values[1..], entries, types, lens), Bucket(entries, types, lens, values[0]))
  }

  // ---------- Conservation ----------

  /** One more entry adds its amount once, if its value is among them. */
  lemma {:induction false} OneMoreCountsOnce(
    values: seq<string>, entries: seq<Entry>, e: Entry, types: map<string, CostType>, lens: Lens)
    requires Distinct(values) && e.costType in types
    ensures SumOf(values, entries + [e], types, lens)
         == if ValueOf(types[e.costType], lens) in values
           then Add(SumOf(values, entries, types, lens), e.kind, e.amount)
            else SumOf(values, entries, types, lens)
    decreases |values|
  {
    if values != [] {
      assert (entries + [e])[..|entries|] == entries;
      OneMoreCountsOnce(values[1..], entries, e, types, lens);
      assert values == [values[0]] + values[1..];
      if ValueOf(types[e.costType], lens) == values[0] { assert values[0] !in values[1..]; }
    }
  }

  lemma {:induction false} NoEntriesSumToZero(values: seq<string>, types: map<string, CostType>, lens: Lens)
    ensures SumOf(values, [], types, lens) == Totals(0, 0, 0)
  {
    if values != [] { NoEntriesSumToZero(values[1..], types, lens); }
  }

  lemma {:induction false} ValuesConserve(
    values: seq<string>, entries: seq<Entry>, types: map<string, CostType>, lens: Lens, p: string)
    requires Distinct(values)
    requires forall e :: e in entries ==>
               && e.project == p && e.costType in types && e.kind in ENTRY_KINDS
               && ValueOf(types[e.costType], lens) in values
    ensures SumOf(values, entries, types, lens)
         == Totals(Total(entries, p, "planned"), Total(entries, p, "commitment"), Total(entries, p, "actual"))
    decreases |entries|
  {
    if entries == [] {
      NoEntriesSumToZero(values, types, lens);
    } else {
      var before, last := entries[..|entries| - 1], entries[|entries| - 1];
      assert entries == before + [last];
      ValuesConserve(values, before, types, lens, p);
      OneMoreCountsOnce(values, before, last, types, lens);
    }
  }

  /** When every entry can be placed, the rows of each lens add up to the whole ledger. */
  lemma EachLensConservesTheLedger(entries: seq<Entry>, types: map<string, CostType>, lens: Lens, p: string)
    requires forall e :: e in entries ==> e.project == p && !Unplaceable(types, e)
    ensures SumOf(Values(lens), entries, types, lens)
         == Totals(Total(entries, p, "planned"), Total(entries, p, "commitment"), Total(entries, p, "actual"))
  {
    forall e | e in entries
      ensures e.costType in types && e.kind in ENTRY_KINDS && ValueOf(types[e.costType], lens) in Values(lens) {
      assert !Unplaceable(types, e);
    }
    ValuesConserve(Values(lens), entries, types, lens, p);
  }

  /** In a reachable ledger, one project's entries can all be placed among its own types. */
  lemma ReachableEntriesArePlaceable(l: Ledger, p: string, entries: seq<Entry>, types: map<string, CostType>)
    requires Inv(l) && (forall e :: e in entries ==> e in l.entries && e.project == p)
    requires forall id :: id in l.types && l.types[id].project == p ==> id in types && types[id] == l.types[id]
    ensures forall e :: e in entries ==> !Unplaceable(types, e)
  {
    forall e | e in entries ensures !Unplaceable(types, e) {
      assert EntryOk(l, e) && TypeOk(l, l.types[e.costType]);
    }
  }

  // ---------- The procedure ----------

  /** One lens's buckets hold what they should for these entries. */
  predicate Holds(m: map<string, Totals>, entries: seq<Entry>, types: map<string, CostType>, lens: Lens) {
    forall v :: v in Values(lens) ==> v in m && m[v] == Bucket(entries, types, lens, v)
  }

  predicate OnlyValues(m: map<string, Totals>, lens: Lens) {
    forall v :: v in m ==> v in Values(lens)
  }

  lemma OneMoreEntry(m: map<string, Totals>, entries: seq<Entry>, e: Entry, types: map<string, CostType>, lens: Lens)
    requires Holds(m, entries, types, lens) && e.costType in types && ValueOf(types[e.costType], lens) in Values(lens)
    ensures var v := ValueOf(types[e.costType], lens);
            Holds(m[v := Add(m[v], e.kind, e.amount)], entries + [e], types, lens)
  {
    forall v | v in Values(lens)
      ensures Bucket(entries + [e], types, lens, v)
           == if v == ValueOf(types[e.costType], lens) then Add(m[v], e.kind, e.amount) else m[v] {
      BucketWithOneMore(entries, e, types, lens, v);
    }
  }

  lemma BucketWithOneMore(entries: seq<Entry>, e: Entry, types: map<string, CostType>, lens: Lens, v: string)
    requires e.costType in types
    ensures Bucket(entries + [e], types, lens, v)
         == if ValueOf(types[e.costType], lens) == v then Add(Bucket(entries, types, lens, v), e.kind, e.amount)
            else Bucket(entries, types, lens, v)
  {
    assert (entries + [e])[..|entries|] == entries;
  }

  /** toRows: the buckets in order, each range-checked. */
  method ToRows(m: map<string, Totals>, lens: Lens, ghost entries: seq<Entry>, ghost types: map<string, CostType>)
    returns (r: Result<seq<Row>, Failure>)
    requires Holds(m, entries, types, lens)
    ensures r.Ok? <==> forall v :: v in Values(lens) ==> FitsAll(Bucket(entries, types, lens, v))
    ensures r.Ok? ==> AreRows(r.value, entries, types, lens)
    ensures r.Err? ==> r.error == TooLarge
  {
    var values := Values(lens);
    var rows: seq<Row> := [];
    for i := 0 to |values|
      invariant |rows| == i
      invariant forall k :: 0 <= k < i ==> rows[k] == Row(values[k], Bucket(entries, types, lens, values[k]))
      invariant forall k :: 0 <= k < i ==> FitsAll(Bucket(entries, types, lens, values[k]))
    {
      assert values[i] in Values(lens);
      var total := m[values[i]];
      if !FitsAll(total) { return Err(TooLarge); }
      rows := rows + [Row(values[i], total)];
    }
    r := Ok(rows);
  }

  datatype Buckets =
    Buckets(attribution: map<string, Totals>, behavior: map<string, Totals>, treatment: map<string, Totals>)

  predicate LensHolds(m: map<string, Totals>, entries: seq<Entry>, types: map<string, CostType>, lens: Lens) {
    OnlyValues(m, lens) && Holds(m, entries, types, lens)
  }

  predicate AllHold(b: Buckets, entries: seq<Entry>, types: map<string, CostType>) {
    && LensHolds(b.attribution, entries, types, Attribution) && LensHolds(b.behavior, entries, types, Behavior)
    && LensHolds(b.treatment, entries, types, Treatment)
  }

  /** One entry goes into one bucket of one lens, or is refused. */
  method PlaceInLens(
    m: map<string, Totals>, ghost entries: seq<Entry>, e: Entry, types: map<string, CostType>, lens: Lens)
    returns (after: map<string, Totals>, ok: bool)
    requires e.costType in types && LensHolds(m, entries, types, lens)
    ensures ok <==> ValueOf(types[e.costType], lens) in Values(lens) && e.kind in ENTRY_KINDS
    ensures ok ==> LensHolds(after, entries + [e], types, lens)
  {
    after := m;
    var value := ValueOf(types[e.costType], lens);
    ok := value in m && e.kind in ENTRY_KINDS;
    if ok {
      OneMoreEntry(m, entries, e, types, lens);
      after := m[value := Add(m[value], e.kind, e.amount)];
    }
  }

  /** One entry goes into one bucket of each lens, or is refused. */
  method Place(b: Buckets, ghost entries: seq<Entry>, e: Entry, types: map<string, CostType>)
    returns (r: Result<Buckets, Failure>)
    requires AllHold(b, entries, types)
    ensures r.Ok? <==> !Unplaceable(types, e)
    ensures r.Ok? ==> AllHold(r.value, entries + [e], types)
    ensures r.Err? ==> r.error == RefusedRow
  {
    if e.costType !in types { return Err(RefusedRow); }
    var attribution, behavior, treatment, ok;
    attribution, ok := PlaceInLens(b.attribution, entries, e, types, Attribution);
    if !ok { return Err(RefusedRow); }
    behavior, ok := PlaceInLens(b.behavior, entries, e, types, Behavior);
    if !ok { return Err(RefusedRow); }
    treatment, ok := PlaceInLens(b.treatment, entries, e, types, Treatment);
    if !ok { return Err(RefusedRow); }
    r := Ok(Buckets(attribution, behavior, treatment));
  }

  /** newLens. */
  method NewLens(lens: Lens, ghost types: map<string, CostType>) returns (m: map<string, Totals>)
    ensures LensHolds(m, [], types, lens)
  {
    m := map v | v in Values(lens) :: Totals(0, 0, 0);
  }

  /** The loop over the ledger. */
  method PlaceAll(entries: seq<Entry>, types: map<string, CostType>) returns (r: Result<Buckets, Failure>)
    ensures r.Ok? <==> forall e :: e in entries ==> !Unplaceable(types, e)
    ensures r.Ok? ==> AllHold(r.value, entries, types)
    ensures r.Err? ==> r.error == RefusedRow
  {
    var attribution := NewLens(Attribution, types);
    var behavior := NewLens(Behavior, types);
    var treatment := NewLens(Treatment, types);
    var buckets := Buckets(attribution, behavior, treatment);
    for i := 0 to |entries|
      invariant AllHold(buckets, entries[..i], types)
      invariant forall k :: 0 <= k < i ==> !Unplaceable(types, entries[k])
    {
      assert entries[..i + 1] == entries[..i] + [entries[i]];
      var placed := Place(buckets, entries[..i], entries[i], types);
      if placed.Err? {
        assert entries[i] in entries;
        return Err(RefusedRow);
      }
      buckets := placed.value;
    }
    assert entries[..|entries|] == entries;
    r := Ok(buckets);
  }

  predicate LensFits(entries: seq<Entry>, types: map<string, CostType>, lens: Lens) {
    forall v :: v in Values(lens) ==> FitsAll(Bucket(entries, types, lens, v))
  }

  datatype Classification = Classification(attribution: seq<Row>, behavior: seq<Row>, treatment: seq<Row>)

  /** classifyCostEntries: it fails exactly on an entry some lens cannot place, or on a bucket out of range. */
  method Classify(entries: seq<Entry>, types: map<string, CostType>) returns (r: Result<Classification, Failure>)
    ensures r == Err(RefusedRow) <==> exists e :: e in entries && Unplaceable(types, e)
    ensures r.Ok? <==>
              && (forall e :: e in entries ==> !Unplaceable(types, e))
              && LensFits(entries, types, Attribution) && LensFits(entries, types, Behavior)
              && LensFits(entries, types, Treatment)
    ensures r.Ok? ==> AreRows(r.value.attribution, entries, types, Attribution)
                      && AreRows(r.value.behavior, entries, types, Behavior)
                      && AreRows(r.value.treatment, entries, types, Treatment)
  {
    var placed := PlaceAll(entries, types);
    if placed.Err? { return Err(placed.error); }
    var buckets := placed.value;
    var attribution := ToRows(buckets.attribution, Attribution, entries, types);
    if attribution.Err? { return Err(attribution.error); }
    var behavior := ToRows(buckets.behavior, Behavior, entries, types);
    if behavior.Err? { return Err(behavior.error); }
    var treatment := ToRows(buckets.treatment, Treatment, entries, types);
    if treatment.Err? { return Err(treatment.error); }
    r := Ok(Classification(attribution.value, behavior.value, treatment.value));
  }
}
