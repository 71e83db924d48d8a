/**
 The cost ledger: project currency, entries, reserves and approved baselines as table rows
 (internal/db/project.go, internal/db/cost_control.go).
 */
module CostLedger {
  import opened Wrappers
  import opened Money
  import opened Text

  datatype Project = Project(currency: string, budget: int)
  datatype CostType = CostType(project: string, attribution: string, behavior: string, treatment: string, active: bool)
  datatype Entry = Entry(
    id: string, project: string, costType: string, kind: string, amount: int, date: string, description: string)
  datatype Reserve = Reserve(project: string, kind: string, amount: int, description: string)
  datatype Snapshot = Snapshot(
    project: string, version: int, currency: string, planned: int, contingency: int, management: int,
    approvedBy: string, note: string)

  datatype Ledger = Ledger(
    projects: map<string, Project>, types: map<string, CostType>,
    entries: seq<Entry>, reserves: seq<Reserve>, baselines: seq<Snapshot>)

  datatype Failure =
    | UnsupportedCurrency | CurrencyLocked | InvalidInput | NoCostType | Archived | Exists | NoProject
    | TooLarge | NotPositive | Database | RefusedRow

  const ENTRY_KINDS := {"planned", "commitment", "actual"}
  const RESERVE_KINDS := {"contingency", "management"}
  const CURRENCIES := {"AUD", "CAD", "CHF", "EUR", "GBP", "JPY", "USD"}
  const ATTRIBUTIONS := ["direct", "indirect"]
  const BEHAVIORS := ["fixed", "variable"]
  const TREATMENTS := ["capex", "opex", "not_applicable"]

  // ---------- Currency ----------

  /** unicode.ToUpper, for every character whose upper case is an ASCII letter; others stay unsupported. */
  function Upper(c: char): char {
    if 'a' <= c <= 'z' then 'A' + (c - 'a')
    else if c == '\U{017F}' then 'S'
    else if c == '\U{0131}' then 'I'
    else c
  }

  function UpperAll(s: string): string {
    if s == "" then "" else [Upper(s[0])] + UpperAll(s[1..])
  }

  function CanonicalCurrency(code: string): Option<string> {
    var upper := UpperAll(TrimSpace(code));
    var chosen := if upper == "" then "USD" else upper;
    if chosen in CURRENCIES then Some(chosen) else None
  }

  // ---------- Sums and counts over one project's rows ----------

  function Total(entries: seq<Entry>, p: string, kind: string): int {
    if entries == [] then 0
    else
      var last := entries[|entries| - 1];
      Total(entries[..|entries| - 1], p, kind) + if last.project == p && last.kind == kind then last.amount else 0
  }

  /** The balance of one reserve kind, added over all rows. */
  function ReserveTotal(reserves: seq<Reserve>, p: string, kind: string): int {
    if reserves == [] then 0
    else
      var last := reserves[|reserves| - 1];
      ReserveTotal(reserves[..|reserves| - 1], p, kind)
      + if last.project == p && last.kind == kind then last.amount else 0
  }

  /** The balance of one reserve kind as the approval reads it: the last row wins. */
  function LastReserve(reserves: seq<Reserve>, p: string, kind: string): int {
    if reserves == [] then 0
    else
      var last := reserves[|reserves| - 1];
      if last.project == p && last.kind == kind then last.amount else LastReserve(reserves[..|reserves| - 1], p, kind)
  }

  function Count(baselines: seq<Snapshot>, p: string): nat {
    if baselines == [] then 0
    else Count(baselines[..|baselines| - 1], p) + if baselines[|baselines| - 1].project == p then 1 else 0
  }

  /** COALESCE(MAX(version), 0). */
  function MaxVersion(baselines: seq<Snapshot>, p: string): int {
    if baselines == [] then 0
    else
      var before, last := MaxVersion(baselines[..|baselines| - 1], p), baselines[|baselines| - 1];
      if last.project == p && (last.version > before || Count(baselines[..|baselines| - 1], p) == 0)
      then last.version else before
  }

  // ---------- The operations ----------

  /** What stops a change of reporting currency. */
  predicate Locked(l: Ledger, p: string)
    requires p in l.projects
  {
    || (exists e :: e in l.entries && e.project == p)
    || (exists r :: r in l.reserves && r.project == p && r.amount != 0)
    || Count(l.baselines, p) > 0
    || l.projects[p].budget != 0
  }

  function UpsertProject(l: Ledger, p: string, code: string, budget: int): Result<Ledger, Failure> {
    var currency := CanonicalCurrency(code);
    if currency.None? then Err(UnsupportedCurrency)
    else if p in l.projects && l.projects[p].currency != currency.value && Locked(l, p) then Err(CurrencyLocked)
    else Ok(l.(projects := l.projects[p := Project(currency.value, budget)]))
  }

  function SeedType(l: Ledger, id: string, t: CostType): Result<Ledger, Failure> {
    if id in l.types || t.project !in l.projects || t.attribution !in ATTRIBUTIONS
       || t.behavior !in BEHAVIORS || t.treatment !in TREATMENTS then Err(Database)
    else Ok(l.(types := l.types[id := t]))
  }

  function SaveEntry(l: Ledger, e: Entry, dateValid: bool): Result<Ledger, Failure> {
    if e.project == "" || e.costType == "" || e.description == "" || e.date == "" then Err(InvalidInput)
    else if e.amount == 0 || e.kind !in ENTRY_KINDS || !dateValid then Err(InvalidInput)
    else if e.costType !in l.types || l.types[e.costType].project != e.project then Err(NoCostType)
    else if !l.types[e.costType].active then Err(Archived)
    else if (exists other :: other in l.entries && other.id == e.id) || e.project !in l.projects then Err(Database)
    else Ok(l.(entries := l.entries + [e]))
  }

  function SetReserve(reserves: seq<Reserve>, r: Reserve): seq<Reserve> {
    if reserves == [] then [r]
    else if reserves[0].project == r.project && reserves[0].kind == r.kind then [r] + reserves[1..]
    else [reserves[0]] + SetReserve(reserves[1..], r)
  }

  function SaveReserve(l: Ledger, r: Reserve): Result<Ledger, Failure> {
    if r.project == "" || r.kind !in RESERVE_KINDS || r.amount < 0 || TrimSpace(r.description) == ""
    then Err(InvalidInput)
    else if r.project !in l.projects then Err(Database)
    else Ok(l.(reserves := SetReserve(l.reserves, r)))
  }

  function Approve(l: Ledger, p: string, actor: string, note: string): Result<Snapshot, Failure> {
    if p == "" || TrimSpace(actor) == "" || TrimSpace(note) == "" then Err(InvalidInput)
    else if p !in l.projects then Err(NoProject)
    else
      var planned := Total(l.entries, p, "planned");
      var contingency := LastReserve(l.reserves, p, "contingency");
      var management := LastReserve(l.reserves, p, "management");
      if !Fits(planned) || !Fits(planned + contingency) then Err(TooLarge)
      else if planned + contingency <= 0 then Err(NotPositive)
      else if !Fits(planned + contingency + management) then Err(TooLarge)
      else
        Ok(Snapshot(p, MaxVersion(l.baselines, p) + 1, l.projects[p].currency, planned, contingency, management,
                    TrimSpace(actor), TrimSpace(note)))
  }

  function Record(l: Ledger, s: Snapshot): Ledger { l.(baselines := l.baselines + [s]) }

  // ---------- Runs ----------

  datatype Event =
    | Upsert(p: string, code: string, budget: int)
    | Seed(id: string, costType: CostType)
    | Enter(entry: Entry, dateValid: bool)
    | SetBalance(reserve: Reserve)
    | ApproveBaseline(p: string, actor: string, note: string)

  /** Values of Go's int64 fields. */
  predicate Typed(e: Event) {
    match e
    case Upsert(_, _, budget) => Fits(budget)
    case Enter(entry, _) => Fits(entry.amount)
    case SetBalance(r) => Fits(r.amount)
    case _ => true
  }

  function Attempt(l: Ledger, e: Event): Result<Ledger, Failure> {
    match e
    case Upsert(p, code, budget) => UpsertProject(l, p, code, budget)
    case Seed(id, t) => SeedType(l, id, t)
    case Enter(entry, dateValid) => SaveEntry(l, entry, dateValid)
    case SetBalance(r) => SaveReserve(l, r)
    case ApproveBaseline(p, actor, note) =>
      var s := Approve(l, p, actor, note);
      if s.Ok? then Ok(Record(l, s.value)) else Err(s.error)
  }

  /** One transaction: it commits whole or leaves the tables alone. */
  function Step(l: Ledger, e: Event, committed: bool): Ledger {
    if committed && Attempt(l, e).Ok? then Attempt(l, e).value else l
  }

  const EMPTY := Ledger(map[], map[], [], [], [])

  function Run(events: seq<(Event, bool)>): Ledger
    decreases |events|
  {
    if events == [] then EMPTY
    else Step(Run(events[..|events| - 1]), events[|events| - 1].0, events[|events| - 1].1)
  }

  // ---------- What every run keeps ----------

  predicate EntryOk(l: Ledger, e: Entry) {
    && e.project in l.projects && e.kind in ENTRY_KINDS && Fits(e.amount) && e.amount != 0
    && e.costType in l.types && l.types[e.costType].project == e.project
  }

  predicate TypeOk(l: Ledger, t: CostType) {
    t.project in l.projects && t.attribution in ATTRIBUTIONS && t.behavior in BEHAVIORS && t.treatment in TREATMENTS
  }

  predicate ReserveOk(l: Ledger, r: Reserve) {
    r.project in l.projects && r.kind in RESERVE_KINDS && 0 <= r.amount && Fits(r.amount)
  }

  /** One row for each project and kind. */
  predicate ReservesUnique(reserves: seq<Reserve>) {
    forall i, j :: 0 <= i < j < |reserves| && reserves[i].project == reserves[j].project ==>
      reserves[i].kind != reserves[j].kind
  }

  predicate SnapshotOk(l: Ledger, s: Snapshot) {
    && s.project in l.projects && s.currency == l.projects[s.project].currency
    && Fits(s.planned) && Fits(s.planned + s.contingency) && Fits(s.planned + s.contingency + s.management)
    && 0 < s.planned + s.contingency && 0 <= s.contingency && 0 <= s.management
  }

  /** A project's snapshots are numbered 1, 2, 3, … in the order they were approved. */
  predicate VersionsGapless(baselines: seq<Snapshot>) {
    forall i :: 0 <= i < |baselines| ==> baselines[i].version == Count(baselines[..i], baselines[i].project) + 1
  }

  ghost predicate Inv(l: Ledger) {
    && (forall e :: e in l.entries ==> EntryOk(l, e))
    && (forall id :: id in l.types ==> TypeOk(l, l.types[id]))
    && (forall r :: r in l.reserves ==> ReserveOk(l, r)) && ReservesUnique(l.reserves)
    && (forall s :: s in l.baselines ==> SnapshotOk(l, s)) && VersionsGapless(l.baselines)
    && (forall p :: p in l.projects ==> l.projects[p].currency in CURRENCIES)
  }

  lemma {:induction false} HeldSnapshotsAreCounted(baselines: seq<Snapshot>, p: string)
    ensures Count(baselines, p) > 0 <==> exists s :: s in baselines && s.project == p
    decreases |baselines|
  {
    if baselines != [] {
      var before, last := baselines[..|baselines| - 1], baselines[|baselines| - 1];
      HeldSnapshotsAreCounted(before, p);
      assert baselines == before + [last];
    }
  }

  lemma {:induction false} MaxVersionIsCount(baselines: seq<Snapshot>, p: string)
    requires VersionsGapless(baselines)
    ensures MaxVersion(baselines, p) == Count(baselines, p)
    decreases |baselines|
  {
    if baselines != [] {
      var before := baselines[..|baselines| - 1];
      forall i | 0 <= i < |before| ensures before[i].version == Count(before[..i], before[i].project) + 1 {
        assert before[..i] == baselines[..i];
      }
      MaxVersionIsCount(before, p);
    }
  }

  /** An upsert changes one row in place, or appends it when no row has its key. */
  lemma {:induction false} SetReserveChangesOneRow(reserves: seq<Reserve>, r: Reserve)
    ensures var after := SetReserve(reserves, r);
            && |reserves| <= |after| <= |reserves| + 1
            && (forall i :: 0 <= i < |reserves| ==>
                  && after[i].project == reserves[i].project && after[i].kind == reserves[i].kind
                  && (after[i] == reserves[i] || after[i] == r))
            && (|after| == |reserves| + 1 ==>
                  && after[|reserves|] == r
                  && forall i :: 0 <= i < |reserves| ==> reserves[i].project != r.project || reserves[i].kind != r.kind)
    decreases |reserves|
  {
    if reserves != [] && !(reserves[0].project == r.project && reserves[0].kind == r.kind) {
      SetReserveChangesOneRow(reserves[1..], r);
      assert forall i :: 1 <= i < |reserves| ==> reserves[1..][i - 1] == reserves[i];
    }
  }

  lemma SetReserveKeepsRows(l: Ledger, reserves: seq<Reserve>, r: Reserve)
    requires (forall x :: x in reserves ==> ReserveOk(l, x)) && ReserveOk(l, r) && ReservesUnique(reserves)
    ensures var after := SetReserve(reserves, r);
            (forall x :: x in after ==> ReserveOk(l, x)) && ReservesUnique(after)
  {
    SetReserveChangesOneRow(reserves, r);
    var after := SetReserve(reserves, r);
    forall i | 0 <= i < |after| ensures ReserveOk(l, after[i]) {
      if i < |reserves| { assert reserves[i] in reserves; }
    }
  }

  lemma UpsertKeeps(l: Ledger, p: string, code: string, budget: int)
    requires Inv(l) && UpsertProject(l, p, code, budget).Ok?
    ensures Inv(UpsertProject(l, p, code, budget).value)
  {
    var after := UpsertProject(l, p, code, budget).value;
    forall s | s in after.baselines ensures SnapshotOk(after, s) {
      assert SnapshotOk(l, s);
      if s.project == p { HeldSnapshotsAreCounted(l.baselines, p); }
    }
    forall e | e in after.entries ensures EntryOk(after, e) { assert EntryOk(l, e); }
    forall id | id in after.types ensures TypeOk(after, after.types[id]) { assert TypeOk(l, l.types[id]); }
    forall r | r in after.reserves ensures ReserveOk(after, r) { assert ReserveOk(l, r); }
  }

  lemma EntryKeeps(l: Ledger, e: Entry, dateValid: bool)
    requires Inv(l) && Fits(e.amount) && SaveEntry(l, e, dateValid).Ok?
    ensures Inv(SaveEntry(l, e, dateValid).value)
  {
    var after := SaveEntry(l, e, dateValid).value;
    forall x | x in after.entries ensures EntryOk(after, x) { if x != e { assert x in l.entries && EntryOk(l, x); } }
    assert forall s :: s in after.baselines ==> SnapshotOk(l, s);
    assert forall r :: r in after.reserves ==> ReserveOk(l, r);
    assert forall id :: id in after.types ==> TypeOk(l, l.types[id]);
  }

  lemma SeedKeeps(l: Ledger, id: string, t: CostType)
    requires Inv(l) && SeedType(l, id, t).Ok?
    ensures Inv(SeedType(l, id, t).value)
  {
    var after := SeedType(l, id, t).value;
    forall e | e in after.entries ensures EntryOk(after, e) { assert EntryOk(l, e); }
    assert forall s :: s in after.baselines ==> SnapshotOk(l, s);
    assert forall r :: r in after.reserves ==> ReserveOk(l, r);
    forall i | i in after.types ensures TypeOk(after, after.types[i]) { if i != id { assert TypeOk(l, l.types[i]); } }
  }

  lemma ReserveKeeps(l: Ledger, r: Reserve)
    requires Inv(l) && Fits(r.amount) && SaveReserve(l, r).Ok?
    ensures Inv(SaveReserve(l, r).value)
  {
    var after := SaveReserve(l, r).value;
    SetReserveKeepsRows(l, l.reserves, r);
    assert forall e :: e in after.entries ==> EntryOk(l, e);
    assert forall s :: s in after.baselines ==> SnapshotOk(l, s);
    assert forall x :: x in after.reserves ==> ReserveOk(l, x);
    assert forall id :: id in after.types ==> TypeOk(l, l.types[id]);
  }

  lemma {:induction false} ReserveBalances(l: Ledger, reserves: seq<Reserve>, p: string, kind: string)
    requires (forall x :: x in reserves ==> ReserveOk(l, x)) && ReservesUnique(reserves)
    ensures LastReserve(reserves, p, kind) == ReserveTotal(reserves, p, kind)
    ensures 0 <= LastReserve(reserves, p, kind) && Fits(LastReserve(reserves, p, kind))
    ensures (forall r :: r in reserves ==> r.project != p || r.kind != kind) ==> LastReserve(reserves, p, kind) == 0
    decreases |reserves|
  {
    if reserves != [] {
      var before, last := reserves[..|reserves| - 1], reserves[|reserves| - 1];
      assert reserves == before + [last];
      ReserveBalances(l, before, p, kind);
      assert ReserveOk(l, last);
      if last.project == p && last.kind == kind {
        forall r | r in before ensures r.project != p || r.kind != kind {
          var i :| 0 <= i < |before| && before[i] == r;
          assert reserves[i] == r && reserves[|reserves| - 1] == last;
        }
      }
    }
  }

  lemma RecordKeeps(l: Ledger, p: string, actor: string, note: string)
    requires Inv(l) && Approve(l, p, actor, note).Ok?
    ensures Inv(Record(l, Approve(l, p, actor, note).value))
  {
    var s := Approve(l, p, actor, note).value;
    var after := Record(l, s);
    ReserveBalances(l, l.reserves, p, "contingency");
    ReserveBalances(l, l.reserves, p, "management");
    MaxVersionIsCount(l.baselines, p);
    forall i | 0 <= i < |after.baselines|
      ensures after.baselines[i].version == Count(after.baselines[..i], after.baselines[i].project) + 1 {
      assert after.baselines[..i] == if i < |l.baselines| then l.baselines[..i] else l.baselines;
    }
    forall x | x in after.baselines ensures SnapshotOk(after, x) {
      if x != s { assert x in l.baselines && SnapshotOk(l, x); }
    }
    assert forall e :: e in after.entries ==> EntryOk(l, e);
    assert forall r :: r in after.reserves ==> ReserveOk(l, r);
    assert forall id :: id in after.types ==> TypeOk(l, l.types[id]);
  }

  lemma StepKeeps(l: Ledger, e: Event, committed: bool)
    requires Inv(l) && Typed(e)
    ensures Inv(Step(l, e, committed))
  {
    if committed && Attempt(l, e).Ok? {
      match e
      case Upsert(p, code, budget) => UpsertKeeps(l, p, code, budget);
      case Seed(id, t) => SeedKeeps(l, id, t);
      case Enter(entry, dateValid) => EntryKeeps(l, entry, dateValid);
      case SetBalance(r) => ReserveKeeps(l, r);
      case ApproveBaseline(p, actor, note) => RecordKeeps(l, p, actor, note);
    }
  }

  lemma {:induction false} RunKeeps(events: seq<(Event, bool)>)
    requires forall i :: 0 <= i < |events| ==> Typed(events[i].0)
    ensures Inv(Run(events))
    decreases |events|
  {
    if events != [] {
      var before := events[..|events| - 1];
      RunKeeps(before);
      StepKeeps(Run(before), events[|events| - 1].0, events[|events| - 1].1);
    }
  }
}
