/**
 The portfolio rollup (internal/analytics/rollup.go): five totals kept in two machine words each and
 range-checked once at the end.
 */
module Rollup {
  import opened Wrappers
  import opened Money
  import opened Sequences

  /** hi is a signed and lo an unsigned 64-bit word. */
  datatype Acc = Acc(hi: int, lo: int)

  predicate Words(a: Acc) { Fits(a.hi) && 0 <= a.lo < WORD }

  function Value(a: Acc): int { a.hi * WORD + a.lo }

  /** uint64(v). */
  function Unsigned(v: int): int
    requires Fits(v)
  {
    if v < 0 then v + WORD else v
  }

  /** acc128.add: add with carry, and sign-extend the addend into the high word. */
  function AddWords(a: Acc, v: int): Acc
    requires Words(a) && Fits(v)
  {
    var sum := a.lo + Unsigned(v);
    var carry := if sum >= WORD then 1 else 0;
    var sign := if v < 0 then -1 else 0;
    Acc(Wrap(a.hi + sign + carry), sum - carry * WORD)
  }

  /** acc128.int64: the low word, and whether the high word only extends its sign. */
  function ToInt64(a: Acc): Option<int>
    requires Words(a)
  {
    var r := if a.lo > MAX_INT64 then a.lo - WORD else a.lo;
    if a.hi == (if r < 0 then -1 else 0) then Some(r) else None
  }

  /** One addition is exact unless the high word would leave its range. */
  lemma AddIsExact(a: Acc, v: int)
    requires Words(a) && Fits(v) && MIN_INT64 < a.hi < MAX_INT64
    ensures Words(AddWords(a, v)) && Value(AddWords(a, v)) == Value(a) + v
  {
    var sum := a.lo + Unsigned(v);
    var carry := if sum >= WORD then 1 else 0;
    var sign := if v < 0 then -1 else 0;
    WrapKeepsInRange(a.hi + sign + carry);
    assert Unsigned(v) == v - sign * WORD;
  }

  /** The word pair converts to int64 exactly when its value is one. */
  lemma ConversionIsExact(a: Acc)
    requires Words(a)
    ensures ToInt64(a) == if Fits(Value(a)) then Some(Value(a)) else None
  {
    if a.hi >= 1 { assert Value(a) >= WORD; }
    if a.hi <= -2 { assert Value(a) < -WORD; }
  }

  /** A value in this range keeps the high word well inside its own. */
  lemma SmallSumsLeaveRoom(a: Acc, n: nat)
    requires Words(a) && n < MAX_INT64 && -(n as int) * (MAX_INT64 + 1) <= Value(a) <= n * (MAX_INT64 + 1)
    ensures MIN_INT64 < a.hi < MAX_INT64
  {
    assert a.hi * WORD <= n * (MAX_INT64 + 1) < MAX_INT64 * WORD;
    assert a.hi * WORD > -(n as int) * (MAX_INT64 + 1) - WORD > MIN_INT64 * WORD;
  }

  // ---------- Any number of additions ----------

  type int64 = n: int | Fits(n)

  function Sum(values: seq<int64>): int {
    if values == [] then 0 else Sum(values[..|values| - 1]) + values[|values| - 1]
  }

  function AddAll(values: seq<int64>): (a: Acc)
    ensures Words(a)
  {
    if values == [] then Acc(0, 0)
    else
      var before, last := AddAll(values[..|values| - 1]), values[|values| - 1];
      WrapKeepsInRange(before.hi + (if last < 0 then -1 else 0) + 1);
      WrapKeepsInRange(before.hi + if last < 0 then -1 else 0);
      AddWords(before, last)
  }

  /** After as many additions as a Go slice can hold, the pair is the exact sum. */
  lemma {:induction false} AccumulatorNeverWraps(values: seq<int64>)
    requires |values| <= MAX_INT64
    ensures Value(AddAll(values)) == Sum(values)
    ensures -(|values| as int) * (MAX_INT64 + 1) <= Sum(values) <= |values| * (MAX_INT64 + 1)
    ensures ToInt64(AddAll(values)) == if Fits(Sum(values)) then Some(Sum(values)) else None
    decreases |values|
  {
    if values != [] {
      var before, last := values[..|values| - 1], values[|values| - 1];
      AccumulatorNeverWraps(before);
      SmallSumsLeaveRoom(AddAll(before), |before|);
      AddIsExact(AddAll(before), last);
    }
    ConversionIsExact(AddAll(values));
  }

  // ---------- The rollup ----------

  /** One project's figures, and whether its schedule supports earned value. */
  datatype Metrics = Metrics(budgeted: int64, committed: int64, actual: int64, earned: int64, planned: int64, evm: bool)

  const NAMES := ["budgeted cost", "committed cost", "actual cost", "earned value", "planned value"]

  function Figure(p: Metrics, f: nat): int64 {
    if f == 0 then p.budgeted else if f == 1 then p.committed else if f == 2 then p.actual
    else if f == 3 then p.earned else p.planned
  }

  /** Actual cost, earned value and planned value count only with earned value. */
  predicate Counts(p: Metrics, f: nat) { f < 2 || p.evm }

  /** The figures that count towards one total. */
  function Column(projects: seq<Metrics>, f: nat): (column: seq<int64>)
    ensures |column| <= |projects|
  {
    if projects == [] then []
    else
      var before, last := Column(projects[..|projects| - 1], f), projects[|projects| - 1];
      if Counts(last, f) then before + [Figure(last, f)] else before
  }

  function Total(projects: seq<Metrics>, f: nat): int { Sum(Column(projects, f)) }

  function Expected(projects: seq<Metrics>, f: nat): (a: Acc)
    ensures Words(a)
  {
    AddAll(Column(projects, f))
  }

  datatype Summary = Summary(projects: nat, withEvm: nat, withoutEvm: nat, totals: seq<int>)

  function EvmCount(projects: seq<Metrics>): nat {
    if projects == [] then 0
    else EvmCount(projects[..|projects| - 1]) + if projects[|projects| - 1].evm then 1 else 0
  }

  lemma ExpectedConverts(projects: seq<Metrics>, f: nat)
    requires |projects| <= MAX_INT64
    ensures ToInt64(Expected(projects, f)) == if Fits(Total(projects, f)) then Some(Total(projects, f)) else None
  {
    AccumulatorNeverWraps(Column(projects, f));
  }

  /** Whether f is the first total that does not fit. */
  predicate FirstUnfit(projects: seq<Metrics>, f: nat) {
    !Fits(Total(projects, f)) && forall g :: 0 <= g < f ==> Fits(Total(projects, g))
  }

  /** The rollup fails exactly when some total does not fit, naming the first; otherwise its totals are exact. */
  method PortfolioRollup(projects: seq<Metrics>) returns (r: Result<Summary, string>)
    requires |projects| <= MAX_INT64
    ensures r.Ok? <==> forall f :: 0 <= f < 5 ==> Fits(Total(projects, f))
    ensures r.Ok? ==> |r.value.totals| == 5 && forall f :: 0 <= f < 5 ==> r.value.totals[f] == Total(projects, f)
    ensures r.Ok? ==> r.value.projects == |projects| && r.value.withEvm == EvmCount(projects)
                      && r.value.withoutEvm == |projects| - EvmCount(projects)
    ensures r.Err? ==> exists f :: 0 <= f < 5 && r.error == NAMES[f] && FirstUnfit(projects, f)
    ensures r.Ok? ==> r.value.totals == [SumOf(projects, BUDGETED), SumOf(projects, COMMITTED), SumOf(projects, ACTUAL),
                                         SumOf(projects, EARNED), SumOf(projects, PLANNED)]
    ensures r.Ok? ==> r.value.withEvm == SumOf(projects, WITH_EVM)
    ensures r == Err("budgeted cost") <==> !Fits(SumOf(projects, BUDGETED))
    ensures r == Err("committed cost") <==> Fits(SumOf(projects, BUDGETED)) && !Fits(SumOf(projects, COMMITTED))
    ensures r == Err("actual cost") <==>
              Fits(SumOf(projects, BUDGETED)) && Fits(SumOf(projects, COMMITTED)) && !Fits(SumOf(projects, ACTUAL))
    ensures r == Err("earned value") <==>
              && Fits(SumOf(projects, BUDGETED)) && Fits(SumOf(projects, COMMITTED)) && Fits(SumOf(projects, ACTUAL))
              && !Fits(SumOf(projects, EARNED))
  {
    TotalsByName(projects);
    var accs := Accumulate(projects);
    var withEvm := CountEvm(projects);
    var totals := new int[5];
    for f := 0 to 5
      invariant forall g :: 0 <= g < 5 ==> accs[g] == Expected(projects, g)
      invariant forall g :: 0 <= g < f ==> Fits(Total(projects, g)) && totals[g] == Total(projects, g)
    {
      ExpectedConverts(projects, f);
      var total := ToInt64(accs[f]);
      if total.None? {
        assert FirstUnfit(projects, f);
        return Err(NAMES[f]);
      }
      totals[f] := total.value;
    }
    r := Ok(Summary(|projects|, withEvm, |projects| - withEvm, totals[..]));
  }

  method CountEvm(projects: seq<Metrics>) returns (n: nat)
    ensures n == EvmCount(projects) && n <= |projects|
  {
    n := 0;
    for i := 0 to |projects|
      invariant n == EvmCount(projects[..i]) && n <= i
    {
      assert projects[..i + 1][..i] == projects[..i];
      if projects[i].evm { n := n + 1; }
    }
    assert projects[..|projects|] == projects;
  }

  /** The loops over projects and figures. */
  method Accumulate(projects: seq<Metrics>) returns (accs: array<Acc>)
    ensures fresh(accs) && accs.Length == 5
    ensures forall f :: 0 <= f < 5 ==> accs[f] == Expected(projects, f)
  {
    accs := new Acc[5](_ => Acc(0, 0));
    for i := 0 to |projects|
      invariant forall f :: 0 <= f < 5 ==> accs[f] == Expected(projects[..i], f)
    {
      AddProject(accs, projects[..i], projects[i]);
      assert projects[..i + 1] == projects[..i] + [projects[i]];
    }
    assert projects[..|projects|] == projects;
  }

  /** One project's figures join the totals they count towards. */
  method AddProject(accs: array<Acc>, ghost before: seq<Metrics>, p: Metrics)
    requires accs.Length == 5 && forall f :: 0 <= f < 5 ==> accs[f] == Expected(before, f)
    modifies accs
    ensures forall f :: 0 <= f < 5 ==> accs[f] == Expected(before + [p], f)
  {
    for f := 0 to 5
      invariant forall g :: 0 <= g < 5 ==> accs[g] == Expected(if g < f then before + [p] else before, g)
    {
      OneMoreFigure(before, p, f);
      if !(f >= 2 && !p.evm) { accs[f] := AddWords(accs[f], Figure(p, f)); }
    }
  }

  lemma OneMoreFigure(before: seq<Metrics>, p: Metrics, f: nat)
    ensures Expected(before + [p], f)
         == if Counts(p, f) then AddWords(Expected(before, f), Figure(p, f)) else Expected(before, f)
    ensures Total(before + [p], f) == Total(before, f) + if Counts(p, f) then Figure(p, f) else 0
  {
    assert (before + [p])[..|before|] == before;
    if Counts(p, f) {
      var column := Column(before, f);
      assert Column(before + [p], f) == column + [Figure(p, f)];
      assert (column + [Figure(p, f)])[..|column|] == column;
    }
  }

  // ---------- The order of projects does not matter ----------

  lemma {:induction false} TotalOfTwoParts(a: seq<Metrics>, b: seq<Metrics>, f: nat)
    ensures Total(a + b, f) == Total(a, f) + Total(b, f)
    decreases |b|
  {
    if b == [] {
      assert a + b == a;
    } else {
      var before, last := b[..|b| - 1], b[|b| - 1];
      TotalOfTwoParts(a, before, f);
      assert b == before + [last] && a + b == (a + before) + [last];
      OneMoreFigure(a + before, last, f);
      OneMoreFigure(before, last, f);
    }
  }

  lemma {:induction false} TotalsIgnoreOrder(a: seq<Metrics>, b: seq<Metrics>, f: nat)
    requires multiset(a) == multiset(b)
    ensures Total(a, f) == Total(b, f)
    decreases |a|
  {
    if a == [] {
      assert |multiset(b)| == 0;
    } else {
      var n := MatchLast(a, b);
      var before, last, left, right := a[..|a| - 1], a[|a| - 1], b[..n], b[n + 1..];
      TotalsIgnoreOrder(before, left + right, f);
      assert a == before + [last] && b == (left + [last]) + right;
      OneMoreFigure(before, last, f);
      OneMoreFigure(left, last, f);
      TotalOfTwoParts(left + [last], right, f);
      TotalOfTwoParts(left, right, f);
    }
  }

  // ---------- Which figure makes which total ----------

  function SumOf(projects: seq<Metrics>, figure: Metrics -> int): int {
    if projects == [] then 0
    else SumOf(projects[..|projects| - 1], figure) + figure(projects[|projects| - 1])
  }

  const BUDGETED: Metrics -> int := (p: Metrics) => p.budgeted
  const COMMITTED: Metrics -> int := (p: Metrics) => p.committed
  const ACTUAL: Metrics -> int := (p: Metrics) => if p.evm then p.actual else 0
  const EARNED: Metrics -> int := (p: Metrics) => if p.evm then p.earned else 0
  const PLANNED: Metrics -> int := (p: Metrics) => if p.evm then p.planned else 0
  const WITH_EVM: Metrics -> int := (p: Metrics) => if p.evm then 1 else 0

  /**
   The totals in their order: budgeted and committed cost over every project; actual cost, earned value and
   planned value over those whose schedule supports earned value.
   */
  lemma {:induction false} TotalsByName(projects: seq<Metrics>)
    ensures Total(projects, 0) == SumOf(projects, BUDGETED) && Total(projects, 1) == SumOf(projects, COMMITTED)
    ensures Total(projects, 2) == SumOf(projects, ACTUAL) && Total(projects, 3) == SumOf(projects, EARNED)
    ensures Total(projects, 4) == SumOf(projects, PLANNED) && EvmCount(projects) == SumOf(projects, WITH_EVM)
  {
    if projects != [] {
      var before, last := projects[..|projects| - 1], projects[|projects| - 1];
      TotalsByName(before);
      assert projects == before + [last];
      forall f: nat | f < 5
        ensures Total(projects, f) == Total(before, f) + if Counts(last, f) then Figure(last, f) else 0 {
        OneMoreFigure(before, last, f);
      }
    }
  }
}
