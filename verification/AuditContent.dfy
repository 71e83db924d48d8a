/** What the rows of an audit chain hold, and which rows a chain is made of. */
module AuditContent {
  import opened Wrappers
  import opened Money
  import opened AuditChain

  // ---------- The chain is the project's rows in sequence order ----------

  predicate InOrder(rows: seq<Event>) {
    forall i, j :: 0 <= i < j < |rows| ==> rows[i].body.sequence <= rows[j].body.sequence
  }

  lemma {:induction false} InsertedRows(e: Event, rows: seq<Event>)
    ensures multiset(InsertBySequence(e, rows)) == multiset(rows) + multiset{e}
  {
    if rows != [] {
      InsertedRows(e, rows[..|rows| - 1]);
      assert rows == rows[..|rows| - 1] + [rows[|rows| - 1]];
    }
  }

  lemma {:induction false} InsertedInOrder(e: Event, rows: seq<Event>)
    requires InOrder(rows)
    ensures InOrder(InsertBySequence(e, rows))
  {
    if rows != [] && rows[|rows| - 1].body.sequence > e.body.sequence {
      var before, last := rows[..|rows| - 1], rows[|rows| - 1];
      InsertedInOrder(e, before);
      InsertedRows(e, before);
      var front := InsertBySequence(e, before);
      forall i | 0 <= i < |front| ensures front[i].body.sequence <= last.body.sequence {
        assert front[i] in multiset(front);
        assert front[i] == e || front[i] in before;
      }
    }
  }

  lemma LastIsInserted(rows: seq<Event>)
    requires rows != []
    ensures var before, last := rows[..|rows| - 1], rows[|rows| - 1];
            && BySequence(rows) == InsertBySequence(last, BySequence(before))
            && multiset(rows) == multiset(before) + multiset{last}
  {
    assert rows == rows[..|rows| - 1] + [rows[|rows| - 1]];
  }

  lemma {:induction false} SortedRows(rows: seq<Event>)
    ensures multiset(BySequence(rows)) == multiset(rows)
  {
    if rows != [] {
      LastIsInserted(rows);
      SortedRows(rows[..|rows| - 1]);
      InsertedRows(rows[|rows| - 1], BySequence(rows[..|rows| - 1]));
    }
  }

  lemma {:induction false} SortedInOrder(rows: seq<Event>)
    ensures InOrder(BySequence(rows))
  {
    if rows != [] {
      SortedInOrder(rows[..|rows| - 1]);
      InsertedInOrder(rows[|rows| - 1], BySequence(rows[..|rows| - 1]));
    }
  }

  lemma {:induction false} ProjectRows(table: seq<Event>, p: string)
    ensures forall e :: multiset(OfProject(table, p))[e] == if e.body.projectID == p then multiset(table)[e] else 0
  {
    if table != [] {
      ProjectRows(table[..|table| - 1], p);
      assert table == table[..|table| - 1] + [table[|table| - 1]];
    }
  }

  /** The rows a verification walks: all of the project's, each as often as it is stored, in sequence order. */
  lemma ChainIsTheProjectInOrder(table: seq<Event>, p: string)
    ensures InOrder(Chain(table, p))
    ensures forall e :: multiset(Chain(table, p))[e] == if e.body.projectID == p then multiset(table)[e] else 0
  {
    SortedInOrder(OfProject(table, p));
    SortedRows(OfProject(table, p));
    ProjectRows(table, p);
  }

  // ---------- Every row carries its request ----------

  function Accepts(codec: Codec, table: seq<Event>, r: Request): bool {
    Append(codec, table, r.input, r.id, r.timestamp).Some?
  }

  /** The accepted requests of one project, in order. */
  function AcceptedOf(codec: Codec, rs: seq<Request>, p: string): seq<Request> {
    if rs == [] then []
    else
      var before, last := rs[..|rs| - 1], rs[|rs| - 1];
      AcceptedOf(codec, before, p)
      + if last.input.projectID == p && Accepts(codec, Run(codec, before), last) then [last] else []
  }

  predicate AllCarry(codec: Codec, rows: seq<Event>, accepted: seq<Request>) {
    |rows| == |accepted| && forall k :: 0 <= k < |rows| ==> Carries(codec, rows[k], accepted[k])
  }

  lemma OneMoreCarries(codec: Codec, rows: seq<Event>, accepted: seq<Request>, e: Event, r: Request)
    requires AllCarry(codec, rows, accepted) && Carries(codec, e, r)
    ensures AllCarry(codec, rows + [e], accepted + [r])
  {
  }

  /** An accepted request adds its row at the end of its project's chain, and to no other. */
  lemma ChainGrows(codec: Codec, rs: seq<Request>, r: Request, p: string)
    requires |rs| < MAX_INT64 && Accepts(codec, Run(codec, rs), r)
    ensures var e := Append(codec, Run(codec, rs), r.input, r.id, r.timestamp).value;
            Chain(Run(codec, rs + [r]), p) == Chain(Run(codec, rs), p) + if r.input.projectID == p then [e] else []
  {
    var e := Append(codec, Run(codec, rs), r.input, r.id, r.timestamp).value;
    assert (rs + [r])[..|rs|] == rs;
    RunsVerify(codec, rs, p);
    RunsVerify(codec, rs + [r], p);
    OfProjectSnoc(Run(codec, rs), e, p);
  }

  lemma {:induction false} RowsCarry(codec: Codec, rs: seq<Request>, p: string)
    requires |rs| <= MAX_INT64
    ensures AllCarry(codec, Chain(Run(codec, rs), p), AcceptedOf(codec, rs, p))
  {
    if rs != [] {
      var before, last := rs[..|rs| - 1], rs[|rs| - 1];
      assert rs == before + [last];
      RowsCarry(codec, before, p);
      if Accepts(codec, Run(codec, before), last) {
        var e := Append(codec, Run(codec, before), last.input, last.id, last.timestamp).value;
        AppendedRowCarriesItsRequest(codec, Run(codec, before), last);
        ChainGrows(codec, before, last, p);
        OneMoreCarries(codec, Chain(Run(codec, before), p), AcceptedOf(codec, before, p), e, last);
      }
    }
  }

  /** Over every run, the k-th row of a project's chain carries the k-th accepted request of that project. */
  lemma RowsCarryTheirRequests(codec: Codec, rs: seq<Request>, p: string)
    requires |rs| <= MAX_INT64
    ensures var rows, accepted := Chain(Run(codec, rs), p), AcceptedOf(codec, rs, p);
            && |rows| == |accepted|
            && forall k :: 0 <= k < |rows| ==> Carries(codec, rows[k], accepted[k]) && rows[k].body.sequence == k + 1
  {
    RunsVerify(codec, rs, p);
    RowsCarry(codec, rs, p);
    var rows := Chain(Run(codec, rs), p);
    forall k | 0 <= k < |rows| ensures rows[k].body.sequence == k + 1 { assert LinkedAt(codec.hash, rows, k); }
  }

  /** Over every run an append is accepted exactly when its names are given, its JSON is valid and its id is new. */
  lemma AppendIsAcceptedIff(codec: Codec, rs: seq<Request>, r: Request)
    requires |rs| < MAX_INT64
    ensures Accepts(codec, Run(codec, rs), r) <==>
              && r.input.projectID != "" && r.input.eventType != "" && r.input.entityType != ""
              && (r.input.before == "" || codec.json(r.input.before).Some?)
              && (r.input.after == "" || codec.json(r.input.after).Some?)
              && (forall e :: e in Run(codec, rs) ==> e.id != r.id)
  {
    var table := Run(codec, rs);
    if && r.input.projectID != "" && r.input.eventType != "" && r.input.entityType != ""
       && (r.input.before == "" || codec.json(r.input.before).Some?)
       && (r.input.after == "" || codec.json(r.input.after).Some?) && (forall e :: e in table ==> e.id != r.id) {
      FreshAppendAccepted(codec, rs, r);
      assert (rs + [r])[..|rs|] == rs;
    }
    if Accepts(codec, table, r) {
      var e := Append(codec, table, r.input, r.id, r.timestamp).value;
      forall x | x in table ensures x.id != r.id {
        var i :| 0 <= i < |table| && table[i] == x;
        assert table[i].id != e.id;
      }
    }
  }
}
