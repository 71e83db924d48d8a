/**
 The database object whose methods change the ledger's tables. Each method is one transaction: any failure,
 a failed commit included, leaves every table as it was.
 */
module CostDatabase {
  import opened Wrappers
  import opened Money
  import opened Text
  import opened CostLedger

  /** The result of the attempt when its commit succeeds, and otherwise no change at all. */
  ghost predicate Applies(before: Ledger, e: Event, commits: bool, after: Ledger, r: Option<Failure>) {
    match Attempt(before, e)
    case Err(f) => r == Some(f) && after == before
    case Ok(l) => if commits then r == None && after == l else r == Some(Database) && after == before
  }

  lemma {:induction false} SetReserveAt(reserves: seq<Reserve>, r: Reserve, i: nat)
    requires i <= |reserves|
    requires forall k :: 0 <= k < i ==> reserves[k].project != r.project || reserves[k].kind != r.kind
    ensures i == |reserves| ==> SetReserve(reserves, r) == reserves + [r]
    ensures (i < |reserves| && reserves[i].project == r.project && reserves[i].kind == r.kind)
            ==> SetReserve(reserves, r) == reserves[i := r]
    decreases |reserves|
  {
    if reserves != [] && i > 0 {
      var rest := reserves[1..];
      SetReserveAt(rest, r, i - 1);
      assert reserves == [reserves[0]] + rest;
      if i < |reserves| { assert reserves[i := r] == [reserves[0]] + rest[i - 1 := r]; }
    }
  }

  class Database {
    var projects: map<string, Project>
    var types: map<string, CostType>
    var entries: seq<Entry>
    var reserves: seq<Reserve>
    var baselines: seq<Snapshot>

    constructor ()
      ensures Value() == EMPTY
    {
      projects, types, entries, reserves, baselines := map[], map[], [], [], [];
    }

    ghost function Value(): Ledger
      reads this
    {
      Ledger(projects, types, entries, reserves, baselines)
    }

    method UpsertProject(p: string, code: string, budget: int, commits: bool) returns (r: Option<Failure>)
      modifies this
      ensures Applies(old(Value()), Upsert(p, code, budget), commits, Value(), r)
    {
      var currency := CanonicalCurrency(code);
      if currency.None? { return Some(UnsupportedCurrency); }
      if p in projects && projects[p].currency != currency.value {
        var count, reserveCount, baselineCount := 0, 0, 0;
        for i := 0 to |entries|
          invariant count > 0 <==> exists k :: 0 <= k < i && entries[k].project == p
        {
          if entries[i].project == p { count := count + 1; }
        }
        for i := 0 to |reserves|
          invariant reserveCount > 0 <==> exists k :: 0 <= k < i && reserves[k].project == p && reserves[k].amount != 0
        {
          if reserves[i].project == p && reserves[i].amount != 0 { reserveCount := reserveCount + 1; }
        }
        for i := 0 to |baselines|
          invariant baselineCount == Count(baselines[..i], p)
        {
          assert baselines[..i + 1][..i] == baselines[..i];
          if baselines[i].project == p { baselineCount := baselineCount + 1; }
        }
        assert baselines[..|baselines|] == baselines;
        if count > 0 || reserveCount > 0 || baselineCount > 0 || projects[p].budget != 0 {
          return Some(CurrencyLocked);
        }
      }
      if !commits { return Some(Failure.Database); }
      projects := projects[p := Project(currency.value, budget)];
      r := None;
    }

    method SaveCostEntry(e: Entry, dateValid: bool, commits: bool) returns (r: Option<Failure>)
      modifies this
      ensures Applies(old(Value()), Enter(e, dateValid), commits, Value(), r)
    {
      if e.project == "" || e.costType == "" || e.description == "" || e.date == "" { return Some(InvalidInput); }
      if e.amount == 0 { return Some(InvalidInput); }
      if e.kind != "planned" && e.kind != "commitment" && e.kind != "actual" { return Some(InvalidInput); }
      if !dateValid { return Some(InvalidInput); }
      if e.costType !in types || types[e.costType].project != e.project { return Some(NoCostType); }
      if !types[e.costType].active { return Some(Archived); }
      if (exists other :: other in entries && other.id == e.id) || e.project !in projects {
        return Some(Failure.Database);
      }
      if !commits { return Some(Failure.Database); }
      entries := entries + [e];
      r := None;
    }

    method SaveCostReserve(row: Reserve, commits: bool) returns (r: Option<Failure>)
      modifies this
      ensures Applies(old(Value()), SetBalance(row), commits, Value(), r)
    {
      if row.project == "" || (row.kind != "contingency" && row.kind != "management") || row.amount < 0
         || TrimSpace(row.description) == "" { return Some(InvalidInput); }
      if row.project !in projects { return Some(Failure.Database); }
      var i := 0;
      while i < |reserves| && !(reserves[i].project == row.project && reserves[i].kind == row.kind)
        invariant 0 <= i <= |reserves|
        invariant forall k :: 0 <= k < i ==> reserves[k].project != row.project || reserves[k].kind != row.kind
      {
        i := i + 1;
      }
      if !commits { return Some(Failure.Database); }
      SetReserveAt(reserves, row, i);
      reserves := if i < |reserves| then reserves[i := row] else reserves + [row];
      r := None;
    }

    /** The rows of one reserve kind, the last one winning. */
    method ReadReserve(p: string) returns (contingency: int, management: int)
      ensures contingency == LastReserve(reserves, p, "contingency")
      ensures management == LastReserve(reserves, p, "management")
    {
      contingency, management := 0, 0;
      for i := 0 to |reserves|
        invariant contingency == LastReserve(reserves[..i], p, "contingency")
        invariant management == LastReserve(reserves[..i], p, "management")
      {
        assert reserves[..i + 1][..i] == reserves[..i];
        if reserves[i].project == p {
          match reserves[i].kind {
            case "contingency" => contingency := reserves[i].amount;
            case "management" => management := reserves[i].amount;
            case _ =>
          }
        }
      }
      assert reserves[..|reserves|] == reserves;
    }

    method ApproveCostBaseline(p: string, actor: string, note: string, commits: bool)
      returns (r: Result<Snapshot, Failure>)
      modifies this
      ensures Applies(old(Value()), ApproveBaseline(p, actor, note), commits, Value(),
                      if r.Ok? then None else Some(r.error))
      ensures r.Ok? ==> Approve(old(Value()), p, actor, note) == r
    {
      if p == "" || TrimSpace(actor) == "" || TrimSpace(note) == "" { return Err(InvalidInput); }
      if p !in projects { return Err(NoProject); }
      var planned := 0;
      for i := 0 to |entries|
        invariant planned == Total(entries[..i], p, "planned")
      {
        assert entries[..i + 1][..i] == entries[..i];
        if entries[i].project == p && entries[i].kind == "planned" { planned := planned + entries[i].amount; }
      }
      assert entries[..|entries|] == entries;
      if Amount(planned).Err? { return Err(TooLarge); }
      var contingency, management := ReadReserve(p);
      var base := Plus(planned, contingency);
      if base.Err? { return Err(TooLarge); }
      if base.value <= 0 { return Err(NotPositive); }
      if Plus(base.value, management).Err? { return Err(TooLarge); }
      var s := Snapshot(p, MaxVersion(baselines, p) + 1, projects[p].currency, planned, contingency, management,
                        TrimSpace(actor), TrimSpace(note));
      if !commits { return Err(Failure.Database); }
      baselines := baselines + [s];
      r := Ok(s);
    }
  }
}
