/**
 The budget rollup (internal/budget/budget.go): vendor contracts plus points times hourly rate, in total and
 by stakeholder category. Points are reals or one of the special floating-point values.
 */
module Budget {
  import opened Wrappers
  import opened Money

  datatype Stakeholder = Stakeholder(name: string, category: string, rate: int, contract: int)
  datatype Points = Finite(value: real) | NaN | PosInf | NegInf
  datatype WorkItem = WorkItem(assignee: string, points: Points)

  datatype Failure = ContractValue | LabourEstimate | Committed | Remaining | Category

  datatype Summary = Summary(
    budget: int, contracts: int, labour: int, committed: int, remaining: int, byCategory: map<string, int>)

  // ---------- Names ----------

  function LowerChar(c: char): char { if 'A' <= c <= 'Z' then 'a' + (c - 'A') else c }

  function LowerAll(s: string): string { seq(|s|, i requires 0 <= i < |s| => LowerChar(s[i])) }

  /** Folding twice is folding once. */
  lemma LowerIsIdempotent(s: string)
    ensures LowerAll(LowerAll(s)) == LowerAll(s)
  {
  }

  /** lower: an ASCII fold in a byte buffer. */
  method Lower(s: string) returns (r: string)
    ensures r == LowerAll(s) && LowerAll(r) == r
    ensures |r| == |s| && forall k :: 0 <= k < |s| ==>
              r[k] == if 'A' <= s[k] <= 'Z' then (s[k] as int + 32) as char else s[k]
  {
    var b := new char[|s|](i requires 0 <= i < |s| => s[i]);
    for i := 0 to b.Length
      invariant forall k :: 0 <= k < i ==> b[k] == LowerChar(s[k])
      invariant forall k :: i <= k < b.Length ==> b[k] == s[k]
    {
      if 'A' <= b[i] <= 'Z' { b[i] := 'a' + (b[i] - 'A'); }
    }
    r := b[..];
    LowerIsIdempotent(s);
  }

  // ---------- What is spent ----------

  /** RateTimesQuantity for a positive rate: half away from zero, saturating. */
  function Cost(rate: int, points: Points): int
    requires rate > 0
  {
    if !points.Finite? || points.value <= 0.0 then 0
    else
      var rounded := (rate as real * points.value + 0.5).Floor;
      if rounded > MAX_INT64 then MAX_INT64 else rounded
  }

  lemma CostIsNotNegative(rate: int, points: Points)
    requires rate > 0
    ensures 0 <= Cost(rate, points) <= MAX_INT64
  {
    if points.Finite? && points.value > 0.0 {
      assert rate as real * points.value > 0.0;
    }
  }

  /** The stakeholder a name is charged to: the last one of that name with a positive rate. */
  function Charged(ss: seq<Stakeholder>, key: string): Option<Stakeholder> {
    if ss == [] then None
    else
      var last := ss[|ss| - 1];
      if last.rate > 0 && LowerAll(last.name) == key then Some(last) else Charged(ss[..|ss| - 1], key)
  }

  lemma {:induction false} ChargedIsOneOfThem(ss: seq<Stakeholder>, key: string)
    ensures Charged(ss, key).Some? ==>
              var s := Charged(ss, key).value;
              s in ss && s.rate > 0 && LowerAll(s.name) == key
  {
    if ss != [] { ChargedIsOneOfThem(ss[..|ss| - 1], key); }
  }

  predicate Skipped(w: WorkItem) {
    w.assignee == "" || (w.points.Finite? && w.points.value <= 0.0) || w.points.NegInf?
  }

  /** The stakeholder a work item is charged to, if any. */
  function ChargedFor(ss: seq<Stakeholder>, w: WorkItem): Option<Stakeholder> {
    if Skipped(w) then None else Charged(ss, LowerAll(w.assignee))
  }

  function CostOf(ss: seq<Stakeholder>, w: WorkItem): (cost: int)
    ensures 0 <= cost
  {
    var s := ChargedFor(ss, w);
    ChargedIsOneOfThem(ss, LowerAll(w.assignee));
    if s.None? then 0
    else
      CostIsNotNegative(s.value.rate, w.points);
      Cost(s.value.rate, w.points)
  }

  function CategoryFor(ss: seq<Stakeholder>, w: WorkItem): string {
    var s := ChargedFor(ss, w);
    if s.None? then "" else s.value.category
  }

  function Contracts(ss: seq<Stakeholder>): (total: int)
    ensures 0 <= total
  {
    if ss == [] then 0
    else Contracts(ss[..|ss| - 1]) + if ss[|ss| - 1].contract > 0 then ss[|ss| - 1].contract else 0
  }

  function ContractsIn(ss: seq<Stakeholder>, c: string): (total: int)
    ensures 0 <= total <= Contracts(ss)
  {
    if ss == [] then 0
    else
      var last := ss[|ss| - 1];
      ContractsIn(ss[..|ss| - 1], c) + if last.contract > 0 && last.category == c then last.contract else 0
  }

  function Labour(ss: seq<Stakeholder>, ws: seq<WorkItem>): (total: int)
    ensures 0 <= total
  {
    if ws == [] then 0 else Labour(ss, ws[..|ws| - 1]) + CostOf(ss, ws[|ws| - 1])
  }

  /** The labour of one category; "" collects the labour of people without one. */
  function LabourIn(ss: seq<Stakeholder>, ws: seq<WorkItem>, c: string): (total: int)
    ensures 0 <= total <= Labour(ss, ws)
  {
    if ws == [] then 0
    else
      LabourIn(ss, ws[..|ws| - 1], c) + if CategoryFor(ss, ws[|ws| - 1]) == c then CostOf(ss, ws[|ws| - 1]) else 0
  }

  /** A category's subtotal: its contracts and, for a named category, its labour. */
  function Subtotal(ss: seq<Stakeholder>, ws: seq<WorkItem>, c: string): int {
    ContractsIn(ss, c) + if c == "" then 0 else LabourIn(ss, ws, c)
  }

  /** No subtotal can exceed what is committed, so none can overflow when that does not. */
  lemma SubtotalsStayWithinCommitted(ss: seq<Stakeholder>, ws: seq<WorkItem>, c: string)
    requires Fits(Contracts(ss) + Labour(ss, ws))
    ensures 0 <= Subtotal(ss, ws, c) <= Contracts(ss) + Labour(ss, ws) && Fits(Subtotal(ss, ws, c))
  {
  }

  // ---------- Adding up a map ----------

  ghost function SumMap(m: map<string, int>): int
    decreases |m|
  {
    if m == map[] then 0
    else
      var k :| k in m;
      m[k] + SumMap(m - {k})
  }

  lemma {:induction false} SumMapTakesOut(m: map<string, int>, k: string)
    requires k in m
    ensures SumMap(m) == m[k] + SumMap(m - {k})
    decreases |m|
  {
    var j :| j in m && SumMap(m) == m[j] + SumMap(m - {j});
    if j != k {
      SumMapTakesOut(m - {j}, k);
      SumMapTakesOut(m - {k}, j);
      assert m - {j} - {k} == m - {k} - {j};
    }
  }

  function At(m: map<string, int>, k: string): int { if k in m then m[k] else 0 }

  /** addCategory. */
  method AddCategory(m: map<string, int>, c: string, amount: int) returns (after: map<string, int>)
    ensures after.Keys == m.Keys + {c}
    ensures forall k :: At(after, k) == At(m, k) + if k == c then amount else 0
    ensures SumMap(after) == SumMap(m) + amount
  {
    after := m;
    if c !in after { after := after[c := 0]; }
    ghost var started := after;
    after := after[c := after[c] + amount];
    SumMapTakesOut(after, c);
    SumMapTakesOut(started, c);
    assert after - {c} == started - {c};
    if c !in m { assert started - {c} == m; } else { assert started == m; }
  }

  // ---------- The rollup ----------

  /** The categories' subtotals so far. */
  ghost predicate Split(m: map<string, int>, ss: seq<Stakeholder>, done: seq<Stakeholder>, ws: seq<WorkItem>) {
    && (forall c :: At(m, c) == ContractsIn(done, c) + if c == "" then 0 else LabourIn(ss, ws, c))
    && SumMap(m) == Contracts(done) + Labour(ss, ws) - LabourIn(ss, ws, "")
  }

  method AddContracts(ss: seq<Stakeholder>) returns (contracts: int, byCategory: map<string, int>)
    ensures contracts == Contracts(ss) && Split(byCategory, ss, ss, [])
  {
    contracts, byCategory := 0, map[];
    for i := 0 to |ss|
      invariant contracts == Contracts(ss[..i]) && Split(byCategory, ss, ss[..i], [])
    {
      assert ss[..i + 1][..i] == ss[..i];
      if ss[i].contract > 0 {
        contracts := contracts + ss[i].contract;
        byCategory := AddCategory(byCategory, ss[i].category, ss[i].contract);
      }
    }
    assert ss[..|ss|] == ss;
  }

  ghost predicate Indexed(rates: map<string, int>, categories: map<string, string>, ss: seq<Stakeholder>) {
    forall k ::
      && (k in rates <==> Charged(ss, k).Some?) && (k in categories <==> k in rates)
      && (k in rates ==> rates[k] == Charged(ss, k).value.rate && categories[k] == Charged(ss, k).value.category)
  }

  /** rateByName and catByName: both are set from the same stakeholder. */
  method IndexRates(ss: seq<Stakeholder>) returns (rates: map<string, int>, categories: map<string, string>)
    ensures Indexed(rates, categories, ss)
  {
    rates, categories := map[], map[];
    for i := 0 to |ss|
      invariant Indexed(rates, categories, ss[..i])
    {
      assert ss[..i + 1][..i] == ss[..i];
      if ss[i].rate > 0 {
        var name := Lower(ss[i].name);
        rates := rates[name := ss[i].rate];
        categories := categories[name := ss[i].category];
      }
    }
    assert ss[..|ss|] == ss;
  }

  lemma LabourOneMore(ss: seq<Stakeholder>, before: seq<WorkItem>, w: WorkItem)
    ensures Labour(ss, before + [w]) == Labour(ss, before) + CostOf(ss, w)
    ensures forall c :: LabourIn(ss, before + [w], c) ==
              LabourIn(ss, before, c) + if CategoryFor(ss, w) == c then CostOf(ss, w) else 0
  {
    assert (before + [w])[..|before|] == before;
  }

  /** One work item's cost joins the labour and, for a named category, that category. */
  method AddItem(ss: seq<Stakeholder>, rates: map<string, int>, categories: map<string, string>, w: WorkItem,
                 byCategory: map<string, int>, ghost before: seq<WorkItem>)
    returns (cost: int, m: map<string, int>)
    requires Indexed(rates, categories, ss) && Split(byCategory, ss, ss, before)
    ensures cost == CostOf(ss, w) && Split(m, ss, ss, before + [w])
  {
    cost, m := 0, byCategory;
    LabourOneMore(ss, before, w);
    if !Skipped(w) {
      var name := Lower(w.assignee);
      if name in rates {
        ChargedIsOneOfThem(ss, name);
        cost := Cost(rates[name], w.points);
        if categories[name] != "" { m := AddCategory(m, categories[name], cost); }
      }
    }
  }

  method AddLabour(ss: seq<Stakeholder>, ws: seq<WorkItem>, byCategory: map<string, int>)
    returns (labour: int, m: map<string, int>)
    requires Split(byCategory, ss, ss, [])
    ensures labour == Labour(ss, ws) && Split(m, ss, ss, ws)
  {
    var rates, categories := IndexRates(ss);
    labour, m := 0, byCategory;
    for i := 0 to |ws|
      invariant labour == Labour(ss, ws[..i]) && Split(m, ss, ss, ws[..i])
    {
      var cost;
      LabourOneMore(ss, ws[..i], ws[i]);
      assert ws[..i + 1] == ws[..i] + [ws[i]];
      cost, m := AddItem(ss, rates, categories, ws[i], m, ws[..i]);
      labour := labour + cost;
    }
    assert ws[..|ws|] == ws;
  }

  /** What Compute reports. */
  ghost predicate Reports(r: Summary, budget: int, ss: seq<Stakeholder>, ws: seq<WorkItem>) {
    && r.budget == budget && r.contracts == Contracts(ss) && r.labour == Labour(ss, ws)
    && r.committed == r.contracts + r.labour && r.remaining == budget - r.committed
    && (forall c :: At(r.byCategory, c) == Subtotal(ss, ws, c))
    && SumMap(r.byCategory) == r.committed - LabourIn(ss, ws, "")
  }

  /** Compute: it never fails on a category. */
  method Compute(budget: int, ss: seq<Stakeholder>, ws: seq<WorkItem>) returns (r: Result<Summary, Failure>)
    ensures r.Ok? ==> Reports(r.value, budget, ss, ws)
    ensures r == Err(ContractValue) <==> !Fits(Contracts(ss))
    ensures r == Err(LabourEstimate) <==> Fits(Contracts(ss)) && !Fits(Labour(ss, ws))
    ensures r == Err(Committed) <==>
              Fits(Contracts(ss)) && Fits(Labour(ss, ws)) && !Fits(Contracts(ss) + Labour(ss, ws))
    ensures r == Err(Remaining) <==>
              && Fits(Contracts(ss)) && Fits(Labour(ss, ws)) && Fits(Contracts(ss) + Labour(ss, ws))
              && !Fits(budget - (Contracts(ss) + Labour(ss, ws)))
    ensures r != Err(Category)
  {
    var contracts, byCategory := AddContracts(ss);
    var labour;
    labour, byCategory := AddLabour(ss, ws, byCategory);
    if Amount(contracts).Err? { return Err(ContractValue); }
    if Amount(labour).Err? { return Err(LabourEstimate); }
    var committed := Plus(contracts, labour);
    if committed.Err? { return Err(Committed); }
    if Amount(budget - committed.value).Err? { return Err(Remaining); }
    var overflow, listed, left := false, map[], byCategory.Keys;
    while left != {}
      invariant !overflow && left <= byCategory.Keys && listed.Keys == byCategory.Keys - left
      invariant forall c :: c in listed ==> listed[c] == byCategory[c]
      decreases left
    {
      var c :| c in left;
      assert At(byCategory, c) == Subtotal(ss, ws, c);
      SubtotalsStayWithinCommitted(ss, ws, c);
      overflow := overflow || Amount(byCategory[c]).Err?;
      listed := listed[c := byCategory[c]];
      left := left - {c};
    }
    assert listed == byCategory;
    r := if overflow then Err(Category)
         else Ok(Summary(budget, contracts, labour, committed.value, budget - committed.value, listed));
  }

  // ---------- What a cost is, and who is charged ----------

  /** Names fold together exactly when they differ at most in the case of ASCII letters. */
  lemma SameNameIff(a: string, b: string)
    ensures LowerAll(a) == LowerAll(b) <==>
              |a| == |b| && forall k :: 0 <= k < |a| ==>
                || a[k] == b[k]
                || ('A' <= a[k] <= 'Z' && b[k] as int == a[k] as int + 32)
                || ('A' <= b[k] <= 'Z' && a[k] as int == b[k] as int + 32)
  {
    var x, y := LowerAll(a), LowerAll(b);
    if |a| == |b| {
      forall k | 0 <= k < |a|
        ensures x[k] == y[k] <==>
          || a[k] == b[k]
          || ('A' <= a[k] <= 'Z' && b[k] as int == a[k] as int + 32)
          || ('A' <= b[k] <= 'Z' && a[k] as int == b[k] as int + 32) {}
    } else {
      assert |x| != |y|;
    }
  }

  /** The cost is the product rounded to the nearest unit, halves up, or the largest amount. */
  lemma CostIsTheRoundedProduct(rate: int, points: Points)
    requires rate > 0
    ensures !points.Finite? || points.value <= 0.0 ==> Cost(rate, points) == 0
    ensures points.Finite? && points.value > 0.0 ==>
              var exact, cost := rate as real * points.value, Cost(rate, points);
              if exact >= MAX_INT64 as real + 0.5 then cost == MAX_INT64
              else cost as real - 0.5 <= exact < cost as real + 0.5
  {
  }

  /** A name is charged to the last stakeholder of that name with a positive rate, if there is one. */
  lemma {:induction false} ChargedIsTheLast(ss: seq<Stakeholder>, key: string)
    ensures Charged(ss, key).None? ==> forall i :: 0 <= i < |ss| ==> ss[i].rate <= 0 || LowerAll(ss[i].name) != key
    ensures Charged(ss, key).Some? ==>
              exists i ::
                0 <= i < |ss| && ss[i] == Charged(ss, key).value && ss[i].rate > 0 && LowerAll(ss[i].name) == key
                          && forall j :: i < j < |ss| ==> ss[j].rate <= 0 || LowerAll(ss[j].name) != key
  {
    if ss != [] {
      var n := |ss| - 1;
      var before := ss[..n];
      ChargedIsTheLast(before, key);
      if ss[n].rate > 0 && LowerAll(ss[n].name) == key {
        assert ss[n] == Charged(ss, key).value;
      } else if Charged(ss, key).Some? {
        var i :| 0 <= i < |before| && before[i] == Charged(before, key).value && before[i].rate > 0
                 && LowerAll(before[i].name) == key
                 && forall j :: i < j < |before| ==> before[j].rate <= 0 || LowerAll(before[j].name) != key;
        assert ss[i] == before[i];
        forall j | i < j < |ss| ensures ss[j].rate <= 0 || LowerAll(ss[j].name) != key {
          if j < n { assert ss[j] == before[j]; }
        }
      }
    }
  }

  /** Each positive contract counts towards the contracts and its own category, once. */
  lemma ContractsAreCounted(ss: seq<Stakeholder>, s: Stakeholder, c: string)
    ensures Contracts([]) == ContractsIn([], c) == 0
    ensures s.contract <= 0 ==> Contracts(ss + [s]) == Contracts(ss) && ContractsIn(ss + [s], c) == ContractsIn(ss, c)
    ensures s.contract > 0 ==>
              && Contracts(ss + [s]) == Contracts(ss) + s.contract
              && ContractsIn(ss + [s], c) - ContractsIn(ss, c) == (if s.category == c then s.contract else 0)
  {
    assert (ss + [s])[..|ss|] == ss;
  }

  /** Each item's cost counts towards the labour and the category of whoever is charged, once. */
  lemma LabourIsCounted(ss: seq<Stakeholder>, ws: seq<WorkItem>, w: WorkItem, c: string)
    ensures Labour(ss, []) == LabourIn(ss, [], c) == 0
    ensures Labour(ss, ws + [w]) == Labour(ss, ws) + CostOf(ss, w)
    ensures LabourIn(ss, ws + [w], c) - LabourIn(ss, ws, c) == (if CategoryFor(ss, w) == c then CostOf(ss, w) else 0)
    ensures Subtotal(ss, ws + [w], c) - Subtotal(ss, ws, c)
            == (if CategoryFor(ss, w) == c != "" then CostOf(ss, w) else 0)
    ensures Subtotal(ss, [], c) == ContractsIn(ss, c)
  {
    assert (ws + [w])[..|ws|] == ws;
  }

  /** Only an assigned item with positive points, whose assignee has a rate, costs anything. */
  lemma ItemCosts(ss: seq<Stakeholder>, w: WorkItem)
    ensures || w.assignee == "" || !w.points.Finite? || w.points.value <= 0.0
            || Charged(ss, LowerAll(w.assignee)).None? ==>
              CostOf(ss, w) == 0
    ensures w.assignee != "" && w.points.Finite? && w.points.value > 0.0 && Charged(ss, LowerAll(w.assignee)).Some? ==>
              var s := Charged(ss, LowerAll(w.assignee)).value;
              && CategoryFor(ss, w) == s.category
              && s.rate > 0 && CostOf(ss, w) == Cost(s.rate, w.points)
  {
    ChargedIsOneOfThem(ss, LowerAll(w.assignee));
  }
}
