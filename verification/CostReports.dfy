/**
 The computations that must agree: ComputeCostSummary, costBaselineWire and classifyCostEntries
 (internal/desktop/app_cost_control.go), the totals of financialCostControlSnapshot
 (internal/desktop/app_financial_report.go), and the approval itself. Amounts stay in minor units here.
 */
module CostReports {
  import opened Wrappers
  import opened Money
  import opened CostLedger
  import QuantityGroups

  datatype Summary = Summary(
    currency: string, planned: int, contingency: int, baseline: int, management: int, funding: int,
    commitment: int, actual: int)

  // ---------- The three computations ----------

  /** Reserves that are not contingency, as the summary's else branch adds them. */
  function OtherReserves(reserves: seq<Reserve>, p: string): int {
    if reserves == [] then 0
    else
      var last := reserves[|reserves| - 1];
      OtherReserves(reserves[..|reserves| - 1], p)
      + if last.project == p && last.kind != "contingency" then last.amount else 0
  }

  function Summarise(currency: string, planned: int, commitment: int, actual: int, contingency: int, management: int)
    : Result<Summary, Failure>
  {
    if Fits(planned) && Fits(commitment) && Fits(actual) && Fits(contingency) && Fits(management)
       && Fits(planned + contingency) && Fits(planned + contingency + management)
    then Ok(Summary(currency, planned, contingency, planned + contingency, management,
                    planned + contingency + management, commitment, actual))
    else Err(TooLarge)
  }

  function SummaryOf(l: Ledger, p: string): Result<Summary, Failure> {
    if p !in l.projects then Err(NoProject)
    else
      Summarise(l.projects[p].currency, Total(l.entries, p, "planned"), Total(l.entries, p, "commitment"),
                Total(l.entries, p, "actual"), ReserveTotal(l.reserves, p, "contingency"), OtherReserves(l.reserves, p))
  }

  /** A row the report refuses: its type or its kind is unknown. */
  predicate Refused(l: Ledger, p: string, e: Entry) {
    e.project == p && (e.costType !in l.types || l.types[e.costType].project != p || e.kind !in ENTRY_KINDS)
  }

  predicate AnyRefused(l: Ledger, p: string) {
    (exists e :: e in l.entries && Refused(l, p, e))
    || (exists r :: r in l.reserves && r.project == p && r.kind !in RESERVE_KINDS)
  }

  /** The totals of financialCostControlSnapshot. */
  function ReportOf(l: Ledger, p: string): Result<Summary, Failure> {
    if p !in l.projects then Err(NoProject)
    else if AnyRefused(l, p) then Err(RefusedRow)
    else
      Summarise(l.projects[p].currency, Total(l.entries, p, "planned"), Total(l.entries, p, "commitment"),
                Total(l.entries, p, "actual"), ReserveTotal(l.reserves, p, "contingency"),
                ReserveTotal(l.reserves, p, "management"))
  }

  type QuantityList = seq<QuantityGroups.Bucket>

  /** The whole of financialCostControlSnapshot: its quantity list, over the entries' items, can fail as well. */
  function FullReport(l: Ledger, p: string, quantities: seq<QuantityGroups.Row>)
    : Result<(Summary, QuantityList), Failure>
  {
    if p !in l.projects then Err(NoProject)
    else if exists e :: e in l.entries && Refused(l, p, e) then Err(RefusedRow)
    else
      var list := QuantityGroups.InKeyOrder(QuantityGroups.Kept(quantities));
      if list.Err? then Err(TooLarge)
      else if ReportOf(l, p).Err? then Err(ReportOf(l, p).error)
      else Ok((ReportOf(l, p).value, list.value))
  }

  /** costBaselineWire: the derived totals of a stored snapshot. */
  function WireTotals(s: Snapshot): Result<(int, int), Overflow> {
    var base := Plus(s.planned, s.contingency);
    if base.Err? then Err(base.error)
    else
      var authority := Plus(base.value, s.management);
      if authority.Err? then Err(authority.error) else Ok((base.value, authority.value))
  }

  // ---------- They agree ----------

  lemma {:induction false} OtherReservesAreManagement(l: Ledger, reserves: seq<Reserve>, p: string)
    requires forall r :: r in reserves ==> ReserveOk(l, r)
    ensures OtherReserves(reserves, p) == ReserveTotal(reserves, p, "management")
    decreases |reserves|
  {
    if reserves != [] {
      var before, last := reserves[..|reserves| - 1], reserves[|reserves| - 1];
      assert reserves == before + [last];
      assert ReserveOk(l, last);
      OtherReservesAreManagement(l, before, p);
    }
  }

  /** In every reachable ledger no row is refused, and the report's totals are the summary's. */
  lemma ReportEqualsSummary(l: Ledger, p: string, quantities: seq<QuantityGroups.Row>)
    requires Inv(l)
    ensures !AnyRefused(l, p) && ReportOf(l, p) == SummaryOf(l, p)
    ensures FullReport(l, p, quantities).Ok? <==>
              SummaryOf(l, p).Ok? && QuantityGroups.InKeyOrder(QuantityGroups.Kept(quantities)).Ok?
    ensures FullReport(l, p, quantities).Ok? ==> FullReport(l, p, quantities).value.0 == SummaryOf(l, p).value
    ensures FullReport(l, p, quantities).Err? ==>
              FullReport(l, p, quantities).error == (if p in l.projects then TooLarge else NoProject)
  {
    forall e | e in l.entries ensures !Refused(l, p, e) { assert EntryOk(l, e); }
    forall r | r in l.reserves ensures r.kind in RESERVE_KINDS { assert ReserveOk(l, r); }
    OtherReservesAreManagement(l, l.reserves, p);
  }

  lemma ApprovedTotalsSummarise(
    currency: string, planned: int, commitment: int, actual: int, contingency: int, management: int)
    requires Fits(planned) && Fits(contingency) && Fits(management)
    requires Fits(planned + contingency) && Fits(planned + contingency + management)
    ensures Summarise(currency, planned, commitment, actual, contingency, management)
         == if Fits(commitment) && Fits(actual)
            then Ok(Summary(currency, planned, contingency, planned + contingency, management,
                            planned + contingency + management, commitment, actual))
            else Err(TooLarge)
  {
  }

  /** Whether s holds the plan and the reserves of its project. */
  predicate Captures(l: Ledger, s: Snapshot) {
    && s.project in l.projects && s.currency == l.projects[s.project].currency
    && s.planned == Total(l.entries, s.project, "planned")
    && s.contingency == LastReserve(l.reserves, s.project, "contingency")
    && s.management == LastReserve(l.reserves, s.project, "management")
    && Fits(s.planned) && Fits(s.planned + s.contingency) && Fits(s.planned + s.contingency + s.management)
  }

  lemma CapturedSnapshotsMatch(l: Ledger, s: Snapshot)
    requires Inv(l) && Captures(l, s)
    ensures var p := s.project;
            SummaryOf(l, p) == if Fits(Total(l.entries, p, "commitment")) && Fits(Total(l.entries, p, "actual"))
                               then Ok(Summary(s.currency, s.planned, s.contingency, s.planned + s.contingency,
                                               s.management,
                                               s.planned + s.contingency + s.management,
                                               Total(l.entries, p, "commitment"), Total(l.entries, p, "actual")))
                               else Err(TooLarge)
  {
    ReserveBalances(l, l.reserves, s.project, "contingency");
    ReserveBalances(l, l.reserves, s.project, "management");
    OtherReservesAreManagement(l, l.reserves, s.project);
    ApprovedTotalsSummarise(s.currency, s.planned, Total(l.entries, s.project, "commitment"),
                            Total(l.entries, s.project, "actual"), s.contingency, s.management);
  }

  lemma ApprovedSnapshotsCapture(l: Ledger, p: string, actor: string, note: string)
    requires Approve(l, p, actor, note).Ok?
    ensures Captures(l, Approve(l, p, actor, note).value) && Approve(l, p, actor, note).value.project == p
  {
  }

  /**
   The summary over l shows what the snapshot s holds. It shows nothing exactly when the commitments or the
   actuals do not fit.
   */
  predicate SummaryShows(l: Ledger, s: Snapshot) {
    var p := s.project;
    && (SummaryOf(l, p).Ok? <==> Fits(Total(l.entries, p, "commitment")) && Fits(Total(l.entries, p, "actual")))
    && (SummaryOf(l, p).Ok? ==>
          var shown := SummaryOf(l, p).value;
          && s.currency == shown.currency && s.planned == shown.planned && s.contingency == shown.contingency
          && s.management == shown.management && WireTotals(s) == Ok((shown.baseline, shown.funding)))
  }

  /** An approval snapshots what the summary shows at that moment. */
  lemma ApprovalSnapshotsTheSummary(l: Ledger, p: string, actor: string, note: string)
    requires Inv(l) && Approve(l, p, actor, note).Ok?
    ensures Approve(l, p, actor, note).value.project == p && SummaryShows(l, Approve(l, p, actor, note).value)
  {
    ApprovedSnapshotsCapture(l, p, actor, note);
    CapturedSnapshotsMatch(l, Approve(l, p, actor, note).value);
  }

  /** A project whose summary shows a positive baseline can be approved by anyone who signs with a note. */
  lemma PositiveSummaryCanBeApproved(l: Ledger, p: string, actor: string, note: string)
    requires Inv(l) && SummaryOf(l, p).Ok?
    ensures Approve(l, p, actor, note).Ok? <==>
              p != "" && Text.TrimSpace(actor) != "" && Text.TrimSpace(note) != "" && SummaryOf(l, p).value.baseline > 0
  {
    ReserveBalances(l, l.reserves, p, "contingency");
    ReserveBalances(l, l.reserves, p, "management");
    OtherReservesAreManagement(l, l.reserves, p);
  }

  lemma RunOneMore(events: seq<(Event, bool)>, e: Event)
    ensures Run(events + [(e, true)]) == Step(Run(events), e, true)
  {
    var longer := events + [(e, true)];
    assert longer[..|longer| - 1] == events;
  }

  /** A run to a project with one cost type. */
  lemma OpenedProject(p: string, t: string, costType: CostType) returns (events: seq<(Event, bool)>)
    requires costType.project == p && costType.attribution in ATTRIBUTIONS
    requires costType.behavior in BEHAVIORS && costType.treatment in TREATMENTS
    ensures forall k :: 0 <= k < |events| ==> Typed(events[k].0)
    ensures Run(events) == Ledger(map[p := Project("USD", 0)], map[t := costType], [], [], [])
  {
    assert CanonicalCurrency("") == Some("USD");
    RunOneMore([], Upsert(p, "", 0));
    events := [] + [(Upsert(p, "", 0), true)];
    RunOneMore(events, Seed(t, costType));
    events := events + [(Seed(t, costType), true)];
  }

  /** Entering one more row of an active type of the project. */
  lemma Entered(events: seq<(Event, bool)>, e: Entry) returns (longer: seq<(Event, bool)>)
    requires forall k :: 0 <= k < |events| ==> Typed(events[k].0)
    requires Fits(e.amount) && SaveEntry(Run(events), e, true).Ok?
    ensures forall k :: 0 <= k < |longer| ==> Typed(longer[k].0)
    ensures Run(longer) == Run(events).(entries := Run(events).entries + [e])
  {
    RunOneMore(events, Enter(e, true));
    longer := events + [(Enter(e, true), true)];
  }

  /** A planned amount of one and two commitments of the largest amount. */
  lemma LargeCommitmentsHaveNoSummary(l: Ledger, p: string, actor: string, note: string, a: Entry, b: Entry, c: Entry)
    requires l.entries == [a, b, c] && l.reserves == [] && p in l.projects && p != ""
    requires a.project == b.project == c.project == p && a.amount == 1 && b.amount == c.amount == MAX_INT64
    requires a.kind == "planned" && b.kind == c.kind == "commitment"
    requires Text.TrimSpace(actor) != "" && Text.TrimSpace(note) != ""
    ensures Approve(l, p, actor, note).Ok? && SummaryOf(l, p) == Err(TooLarge)
  {
    TotalOfThree(a, b, c, p, "planned");
    TotalOfThree(a, b, c, p, "commitment");
  }

  /** Such a ledger is reached: anyone who signs can approve its plan, and its summary fails. */
  lemma ApprovedPlanCanHaveNoSummary(actor: string, note: string) returns (events: seq<(Event, bool)>)
    requires Text.TrimSpace(actor) != "" && Text.TrimSpace(note) != ""
    ensures forall k :: 0 <= k < |events| ==> Typed(events[k].0)
    ensures Approve(Run(events), "p", actor, note).Ok? && SummaryOf(Run(events), "p") == Err(TooLarge)
  {
    var planned := Entry("a", "p", "t", "planned", 1, "2026-01-01", "plan");
    var first := Entry("b", "p", "t", "commitment", MAX_INT64, "2026-01-01", "order");
    var second := Entry("c", "p", "t", "commitment", MAX_INT64, "2026-01-01", "order");
    var start := OpenedProject("p", "t", CostType("p", "direct", "fixed", "opex", true));
    var one := Entered(start, planned);
    var two := Entered(one, first);
    events := Entered(two, second);
    LargeCommitmentsHaveNoSummary(Run(events), "p", actor, note, planned, first, second);
  }

  lemma TotalOfThree(a: Entry, b: Entry, c: Entry, p: string, kind: string)
    ensures Total([a, b, c], p, kind) ==
              (if a.project == p && a.kind == kind then a.amount else 0)
              + (if b.project == p && b.kind == kind then b.amount else 0)
              + (if c.project == p && c.kind == kind then c.amount else 0)
  {
    assert [a, b, c][..2] == [a, b] && [a, b][..1] == [a] && [a][..0] == [];
    assert Total([a], p, kind) == if a.project == p && a.kind == kind then a.amount else 0;
  }

  // ---------- Over every run ----------

  /** Every stored snapshot shows its totals, in the project's present currency, under a version of its own. */
  lemma StoredSnapshotsAlwaysShow(events: seq<(Event, bool)>, i: nat)
    requires forall k :: 0 <= k < |events| ==> Typed(events[k].0)
    requires i < |Run(events).baselines|
    ensures var l := Run(events);
            var s := l.baselines[i];
            && WireTotals(s) == Ok((s.planned + s.contingency, s.planned + s.contingency + s.management))
            && s.project in l.projects && s.currency == l.projects[s.project].currency
            && s.version == Count(l.baselines[..i], s.project) + 1
  {
    RunKeeps(events);
    assert SnapshotOk(Run(events), Run(events).baselines[i]);
  }

  /** The event that approved s from the ledger l. */
  predicate Approves(l: Ledger, e: (Event, bool), s: Snapshot) {
    e.1 && e.0.ApproveBaseline? && Approve(l, e.0.p, e.0.actor, e.0.note) == Ok(s)
  }

  lemma StepAddsAtMostOneSnapshot(l: Ledger, e: (Event, bool))
    ensures var after := Step(l, e.0, e.1);
            || after.baselines == l.baselines
            || (exists s :: after.baselines == l.baselines + [s] && Approves(l, e, s))
  {
    if e.1 && e.0.ApproveBaseline? && Approve(l, e.0.p, e.0.actor, e.0.note).Ok? {
      assert Approves(l, e, Approve(l, e.0.p, e.0.actor, e.0.note).value);
    }
  }

  /**
   Over every run: each stored snapshot was approved by one event of it, on top of the snapshots before it,
   and equals what the summary showed at that moment.
   */
  lemma {:induction false} SnapshotsEqualTheirSummary(events: seq<(Event, bool)>, i: nat) returns (k: nat)
    requires forall j :: 0 <= j < |events| ==> Typed(events[j].0)
    requires i < |Run(events).baselines|
    ensures k < |events|
    ensures var l, s := Run(events[..k]), Run(events).baselines[i];
            && l.baselines == Run(events).baselines[..i] && Approves(l, events[k], s) && SummaryShows(l, s)
    decreases |events|
  {
    var n := |events| - 1;
    var l := Run(events[..n]);
    StepAddsAtMostOneSnapshot(l, events[n]);
    if i < |l.baselines| {
      k := SnapshotsEqualTheirSummary(events[..n], i);
      assert events[..n][..k] == events[..k];
      assert Run(events).baselines[..i] == l.baselines[..i];
    } else {
      k := n;
      RunKeeps(events[..n]);
      ApprovalSnapshotsTheSummary(l, events[n].0.p, events[n].0.actor, events[n].0.note);
    }
  }

  /** A project with n snapshots holds each version from 1 to n exactly once. */
  lemma {:induction false} VersionsAreOneToN(baselines: seq<Snapshot>, p: string, v: int)
    requires VersionsGapless(baselines)
    ensures (exists s :: s in baselines && s.project == p && s.version == v) <==> 1 <= v <= Count(baselines, p)
    ensures forall i, j :: 0 <= i < j < |baselines| && baselines[i].project == baselines[j].project == p
              ==> baselines[i].version < baselines[j].version
    decreases |baselines|
  {
    if baselines != [] {
      var before, last := baselines[..|baselines| - 1], baselines[|baselines| - 1];
      assert baselines == before + [last];
      forall i | 0 <= i < |before| ensures before[i].version == Count(before[..i], before[i].project) + 1 {
        assert before[..i] == baselines[..i];
      }
      VersionsAreOneToN(before, p, v);
      forall i | 0 <= i < |before| && before[i].project == p == last.project ensures before[i].version < last.version {
        VersionsAreOneToN(before, p, before[i].version);
        assert before[i] in before;
      }
      if last.project == p && v == last.version { assert last in baselines; }
    }
  }

  /** The currency changes exactly when it is supported and nothing of the project depends on it. */
  lemma CurrencyChangesIffUnlocked(l: Ledger, p: string, code: string, budget: int)
    requires Inv(l) && p in l.projects && CanonicalCurrency(code).Some?
    requires CanonicalCurrency(code).value != l.projects[p].currency
    ensures UpsertProject(l, p, code, budget).Ok? <==>
              && (forall e :: e in l.entries ==> e.project != p)
              && ReserveTotal(l.reserves, p, "contingency") == 0 && ReserveTotal(l.reserves, p, "management") == 0
              && (forall s :: s in l.baselines ==> s.project != p)
              && l.projects[p].budget == 0
  {
    HeldSnapshotsAreCounted(l.baselines, p);
    ReservesAreZeroIffTotalsAre(l, l.reserves, p);
  }

  lemma {:induction false} ReservesAreZeroIffTotalsAre(l: Ledger, reserves: seq<Reserve>, p: string)
    requires forall r :: r in reserves ==> ReserveOk(l, r)
    ensures 0 <= ReserveTotal(reserves, p, "contingency") && 0 <= ReserveTotal(reserves, p, "management")
    ensures (forall r :: r in reserves && r.project == p ==> r.amount == 0) <==>
              ReserveTotal(reserves, p, "contingency") == 0 && ReserveTotal(reserves, p, "management") == 0
    decreases |reserves|
  {
    if reserves != [] {
      var before, last := reserves[..|reserves| - 1], reserves[|reserves| - 1];
      assert reserves == before + [last];
      assert ReserveOk(l, last);
      ReservesAreZeroIffTotalsAre(l, before, p);
    }
  }

  // ---------- The procedures ----------

  /** ComputeCostSummary over one project's rows. */
  method ComputeCostSummary(l: Ledger, p: string) returns (r: Result<Summary, Failure>)
    ensures r == SummaryOf(l, p)
  {
    if p !in l.projects { return Err(NoProject); }
    var planned, commitment, actual := 0, 0, 0;
    for i := 0 to |l.entries|
      invariant planned == Total(l.entries[..i], p, "planned")
      invariant commitment == Total(l.entries[..i], p, "commitment")
      invariant actual == Total(l.entries[..i], p, "actual")
    {
      assert l.entries[..i + 1][..i] == l.entries[..i];
      var e := l.entries[i];
      if e.project == p {
        match e.kind {
          case "planned" => planned := planned + e.amount;
          case "commitment" => commitment := commitment + e.amount;
          case "actual" => actual := actual + e.amount;
          case _ =>
        }
      }
    }
    assert l.entries[..|l.entries|] == l.entries;
    if Amount(planned).Err? || Amount(commitment).Err? || Amount(actual).Err? { return Err(TooLarge); }
    var contingency, management := 0, 0;
    for i := 0 to |l.reserves|
      invariant contingency == ReserveTotal(l.reserves[..i], p, "contingency")
      invariant management == OtherReserves(l.reserves[..i], p)
    {
      assert l.reserves[..i + 1][..i] == l.reserves[..i];
      var row := l.reserves[i];
      if row.project == p {
        if row.kind == "contingency" {
          contingency := contingency + row.amount;
        } else {
          management := management + row.amount;
        }
      }
    }
    assert l.reserves[..|l.reserves|] == l.reserves;
    if Amount(contingency).Err? || Amount(management).Err? { return Err(TooLarge); }
    var baseline := Plus(planned, contingency);
    if baseline.Err? { return Err(TooLarge); }
    var authority := Plus(baseline.value, management);
    if authority.Err? { return Err(TooLarge); }
    r := Ok(Summary(l.projects[p].currency, planned, contingency, baseline.value, management,
                    authority.value, commitment, actual));
  }

  /** The entries of the report: each is checked as it is added. */
  method AddEntries(l: Ledger, p: string) returns (planned: int, commitment: int, actual: int, ok: bool)
    ensures ok <==> forall e :: e in l.entries ==> !Refused(l, p, e)
    ensures ok ==> planned == Total(l.entries, p, "planned") && commitment == Total(l.entries, p, "commitment")
                   && actual == Total(l.entries, p, "actual")
  {
    planned, commitment, actual, ok := 0, 0, 0, false;
    for i := 0 to |l.entries|
      invariant planned == Total(l.entries[..i], p, "planned")
      invariant commitment == Total(l.entries[..i], p, "commitment")
      invariant actual == Total(l.entries[..i], p, "actual")
      invariant forall k :: 0 <= k < i ==> !Refused(l, p, l.entries[k])
    {
      assert l.entries[..i + 1][..i] == l.entries[..i];
      var e := l.entries[i];
      if e.project == p {
        if e.costType !in l.types || l.types[e.costType].project != p {
          assert Refused(l, p, e);
          return;
        }
        match e.kind {
          case "planned" => planned := planned + e.amount;
          case "commitment" => commitment := commitment + e.amount;
          case "actual" => actual := actual + e.amount;
          case _ =>
            assert Refused(l, p, e);
            return;
        }
      }
    }
    assert l.entries[..|l.entries|] == l.entries;
    ok := true;
  }

  /** The reserves of the report. */
  method AddReserves(l: Ledger, p: string) returns (contingency: int, management: int, ok: bool)
    ensures ok <==> forall r :: r in l.reserves && r.project == p ==> r.kind in RESERVE_KINDS
    ensures ok ==> contingency == ReserveTotal(l.reserves, p, "contingency")
                   && management == ReserveTotal(l.reserves, p, "management")
  {
    contingency, management, ok := 0, 0, false;
    for i := 0 to |l.reserves|
      invariant contingency == ReserveTotal(l.reserves[..i], p, "contingency")
      invariant management == ReserveTotal(l.reserves[..i], p, "management")
      invariant forall k :: 0 <= k < i && l.reserves[k].project == p ==> l.reserves[k].kind in RESERVE_KINDS
    {
      assert l.reserves[..i + 1][..i] == l.reserves[..i];
      var row := l.reserves[i];
      if row.project == p {
        match row.kind {
          case "contingency" => contingency := contingency + row.amount;
          case "management" => management := management + row.amount;
          case _ =>
            assert row in l.reserves;
            return;
        }
      }
    }
    assert l.reserves[..|l.reserves|] == l.reserves;
    ok := true;
  }

  /** financialCostControlSnapshot: entries, quantities, reserves, then the checked totals. */
  method FinancialTotals(l: Ledger, p: string, quantities: seq<QuantityGroups.Row>)
    returns (r: Result<(Summary, QuantityList), Failure>)
    ensures r == FullReport(l, p, quantities)
  {
    if p !in l.projects { return Err(NoProject); }
    var planned, commitment, actual, known := AddEntries(l, p);
    if !known { return Err(RefusedRow); }
    var list := QuantityGroups.AggregateEntryQuantities(quantities);
    if list.Err? { return Err(TooLarge); }
    var contingency, management, reserved := AddReserves(l, p);
    if !reserved { return Err(RefusedRow); }
    if Amount(planned).Err? || Amount(commitment).Err? || Amount(actual).Err? { return Err(TooLarge); }
    if Amount(contingency).Err? || Amount(management).Err? { return Err(TooLarge); }
    var baseline := Plus(planned, contingency);
    if baseline.Err? { return Err(TooLarge); }
    var authority := Plus(baseline.value, management);
    if authority.Err? { return Err(TooLarge); }
    var totals := Summary(l.projects[p].currency, planned, contingency, baseline.value, management,
                          authority.value, commitment, actual);
    r := Ok((totals, list.value));
  }
}
