/** What each write of the cost ledger stores, when it is accepted, and what it leaves alone. */
module CostEffects {
  import opened Wrappers
  import opened Money
  import opened Text
  import opened CostLedger

  // ---------- Currency ----------

  lemma {:induction false} UpperIsPointwise(s: string)
    ensures |UpperAll(s)| == |s| && forall k :: 0 <= k < |s| ==> UpperAll(s)[k] == Upper(s[k])
  {
    if s != "" { UpperIsPointwise(s[1..]); }
  }

  /** The letter itself, its lower case, or a character whose upper case it is. */
  predicate Spells(c: char, letter: char) {
    || c == letter || c as int == letter as int + 32
    || (letter == 'S' && c == '\U{017F}') || (letter == 'I' && c == '\U{0131}')
  }

  /** A code names a currency exactly when, trimmed, it spells its three letters; nothing names US dollars. */
  lemma CurrencyIsNamedByItsLetters(code: string, currency: string)
    requires currency in CURRENCIES
    ensures var t := TrimSpace(code);
            CanonicalCurrency(code) == Some(currency) <==>
              (t == "" && currency == "USD")
              || (|t| == |currency| == 3 && forall k :: 0 <= k < 3 ==> Spells(t[k], currency[k]))
  {
    var t := TrimSpace(code);
    UpperIsPointwise(t);
    assert |currency| == 3 && forall k :: 0 <= k < 3 ==> 'A' <= currency[k] <= 'Z';
    if |t| == 3 {
      forall k | 0 <= k < 3 ensures UpperAll(t)[k] == currency[k] <==> Spells(t[k], currency[k]) {}
      assert UpperAll(t) == currency <==> forall k :: 0 <= k < 3 ==> UpperAll(t)[k] == currency[k];
    }
    if t == "" { assert UpperAll(t) == ""; }
  }

  // ---------- Writes ----------

  /** A project update that is accepted sets that project's currency and budget, and nothing else. */
  lemma UpsertStores(l: Ledger, p: string, code: string, budget: int)
    ensures UpsertProject(l, p, code, budget).Ok? ==>
              var l' := UpsertProject(l, p, code, budget).value;
              && l'.projects.Keys == l.projects.Keys + {p}
              && CanonicalCurrency(code) == Some(l'.projects[p].currency) && l'.projects[p].budget == budget
              && (forall q :: q in l.projects && q != p ==> l'.projects[q] == l.projects[q])
              && l'.types == l.types && l'.entries == l.entries && l'.reserves == l.reserves
              && l'.baselines == l.baselines
    ensures p !in l.projects && CanonicalCurrency(code).Some? ==> UpsertProject(l, p, code, budget).Ok?
    ensures p in l.projects && CanonicalCurrency(code) == Some(l.projects[p].currency) ==>
              UpsertProject(l, p, code, budget).Ok?
    ensures CanonicalCurrency(code).None? ==> UpsertProject(l, p, code, budget) == Err(UnsupportedCurrency)
  {
  }

  /**
   An entry is accepted exactly when it is complete, dated, of a known kind, not zero, of an active type of its
   own project, and new; it is then the last row, and nothing else changes.
   */
  lemma EntryIsStoredIff(l: Ledger, e: Entry, dateValid: bool)
    ensures SaveEntry(l, e, dateValid).Ok? <==>
              && e.project != "" && e.costType != "" && e.description != "" && e.date != "" && dateValid
              && e.amount != 0 && e.kind in {"planned", "commitment", "actual"}
              && e.costType in l.types && l.types[e.costType].project == e.project && l.types[e.costType].active
              && e.project in l.projects && forall other :: other in l.entries ==> other.id != e.id
    ensures SaveEntry(l, e, dateValid).Ok? ==>
              var l' := SaveEntry(l, e, dateValid).value;
              && l'.entries == l.entries + [e] && l'.projects == l.projects && l'.types == l.types
              && l'.reserves == l.reserves && l'.baselines == l.baselines
  {
  }

  /** The amount in reserve of one kind, from whatever row holds it. */
  predicate HasBalance(reserves: seq<Reserve>, r: Reserve) {
    exists i :: 0 <= i < |reserves| && reserves[i] == r
  }

  lemma {:induction false} SetReserveSets(reserves: seq<Reserve>, r: Reserve)
    ensures HasBalance(SetReserve(reserves, r), r)
    ensures forall x :: x in SetReserve(reserves, r) && (x.project != r.project || x.kind != r.kind) ==> x in reserves
    ensures forall x :: x in reserves && (x.project != r.project || x.kind != r.kind) ==> x in SetReserve(reserves, r)
  {
    if reserves == [] {
      assert SetReserve(reserves, r)[0] == r;
    } else {
      assert reserves == [reserves[0]] + reserves[1..];
      if reserves[0].project == r.project && reserves[0].kind == r.kind {
        assert SetReserve(reserves, r)[0] == r;
      } else {
        SetReserveSets(reserves[1..], r);
        var rest := SetReserve(reserves[1..], r);
        var i :| 0 <= i < |rest| && rest[i] == r;
        assert SetReserve(reserves, r)[i + 1] == r;
      }
    }
  }

  /** A reserve is accepted exactly when it is described, of a known kind, not negative, and its project exists. */
  lemma ReserveIsStoredIff(l: Ledger, r: Reserve)
    ensures SaveReserve(l, r).Ok? <==>
              && r.project != "" && r.kind in {"contingency", "management"} && r.amount >= 0
              && TrimSpace(r.description) != "" && r.project in l.projects
    ensures SaveReserve(l, r).Ok? ==>
              var l' := SaveReserve(l, r).value;
              && r in l'.reserves
              && (forall x: Reserve :: x.project != r.project || x.kind != r.kind ==>
                    (x in l'.reserves <==> x in l.reserves))
              && l'.projects == l.projects && l'.types == l.types && l'.entries == l.entries
              && l'.baselines == l.baselines
  {
    SetReserveSets(l.reserves, r);
  }

  /** A snapshot names its approver and keeps the note, trimmed, under the next version. */
  lemma SnapshotIsSigned(l: Ledger, p: string, actor: string, note: string)
    requires Inv(l) && Approve(l, p, actor, note).Ok?
    ensures var s := Approve(l, p, actor, note).value;
            && s.project == p && s.approvedBy == TrimSpace(actor) != "" && s.note == TrimSpace(note) != ""
            && p in l.projects && s.currency == l.projects[p].currency
            && s.version == Count(l.baselines, p) + 1
            && Record(l, s).baselines == l.baselines + [s]
            && Record(l, s).(baselines := l.baselines) == l
  {
    MaxVersionIsCount(l.baselines, p);
  }

  /** An approval is refused exactly when it is unsigned, unfounded, or its totals do not fit or are not positive. */
  lemma ApprovalIsRefusedIff(l: Ledger, p: string, actor: string, note: string)
    requires Inv(l)
    ensures var planned := Total(l.entries, p, "planned");
            var baseline := planned + ReserveTotal(l.reserves, p, "contingency");
            var funding := baseline + ReserveTotal(l.reserves, p, "management");
            && (Approve(l, p, actor, note) == Err(InvalidInput) <==>
                  p == "" || TrimSpace(actor) == "" || TrimSpace(note) == "")
            && (Approve(l, p, actor, note).Ok? <==>
                  && p != "" && TrimSpace(actor) != "" && TrimSpace(note) != "" && p in l.projects
                  && Fits(planned) && Fits(baseline) && baseline > 0 && Fits(funding))
  {
    ReserveBalances(l, l.reserves, p, "contingency");
    ReserveBalances(l, l.reserves, p, "management");
  }
}
