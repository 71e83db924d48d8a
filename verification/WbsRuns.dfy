/** What holds over every run of the WBS store and the ordinary chart writer. */
module WbsRuns {
  import opened Wrappers
  import opened Decimal
  import opened ByteOrder
  import opened WbsStore
  import opened WbsHistory

  datatype Event =
    | OpenStore(binding: Binding, env: Env)
    | SaveWbs(session: Session, write: Write, env: Env)
    | SaveOrdinary(chartID: string, chart: Chart, env: Env)
    | DeleteOrdinary(chartID: string, env: Env)

  function Step(t: Tables, e: Event): Tables {
    match e
    case OpenStore(b, env) => Open(t, b, env).0
    case SaveWbs(s, w, env) => Save(t, s, w, env).0
    case SaveOrdinary(id, c, env) => SaveChart(t, id, c, env).0
    case DeleteOrdinary(id, env) => DeleteChart(t, id, env).0
  }

  function Run(t: Tables, es: seq<Event>): Tables {
    if es == [] then t else Step(Run(t, es[..|es| - 1]), es[|es| - 1])
  }

  /** The event is a save that reached the tables, whatever its caller was told. */
  predicate Applies(t: Tables, e: Event) {
    e.SaveWbs? && Decide(t, e.session, e.write, e.env).Apply? && e.env.commit != Unacknowledged(false)
  }

  function AppliedBy(e: Event): Applied
    requires e.SaveWbs? && e.write.payload.Some?
  {
    NewWrite(e.session, e.write, e.env.freshID)
  }

  function Extend(h: History, t: Tables, e: Event): History {
    if Applies(t, e) then h[e.write.chartID := Of(h, e.write.chartID) + [AppliedBy(e)]] else h
  }

  function HistoryOf(t: Tables, es: seq<Event>): History {
    if es == [] then map[]
    else Extend(HistoryOf(t, es[..|es| - 1]), Run(t, es[..|es| - 1]), es[|es| - 1])
  }

  /** A project file before its WBS store is first opened. */
  ghost predicate Fresh(t: Tables) {
    Represents(t, map[]) && t.schema.Absent?
  }

  // ---------- Every step keeps the tables faithful to the history ----------

  /** What Save has checked by the time it writes. */
  predicate Admits(t: Tables, s: Session, w: Write, next: string, auditID: string) {
    && t.schema.Present? && t.schema.copyID == s.copyID
    && t.schema.copyProject == s.binding.projectID == t.projectID
    && w.payload.Some? && w.payload.value.revision == w.expected && w.payload.value.links == []
    && (w.chartID, w.requestID) !in t.schema.receipts
    && auditID !in AuditIDs(t.audit)
    && NextRevision(w.expected) == Ok(next)
    && if w.create then w.expected == "0" && w.chartID !in t.charts
       else ReadRecord(t, w.chartID, s.binding.projectID).Ok?
            && ReadRecord(t, w.chartID, s.binding.projectID).value.1 == w.expected
  }

  lemma ApplyIsAdmitted(t: Tables, s: Session, w: Write, env: Env)
    requires Decide(t, s, w, env).Apply?
    ensures Admits(t, s, w, Decide(t, s, w, env).next, env.freshID)
    ensures Decide(t, s, w, env).before == w.expected
  {
  }

  function NewWrite(s: Session, w: Write, auditID: string): Applied
    requires w.payload.Some?
  {
    Applied(w.requestID, FingerprintOf(s, w), auditID, s.binding.lifetimeID)
  }

  lemma AdmittedRevision(t: Tables, h: History, s: Session, w: Write, next: string, auditID: string)
    requires Represents(t, h) && Admits(t, s, w, next, auditID)
    ensures w.create <==> w.chartID !in h
    ensures w.expected == Format(|Of(h, w.chartID)|)
  {
    if w.create {
      assert w.chartID !in h;
      assert Format(0) == "0";
    } else {
      assert w.chartID in h && ChartRepresents(t, h[w.chartID], w.chartID);
    }
  }

  lemma ApplyAgreesWithLog(t: Tables, h: History, s: Session, w: Write, next: string, auditID: string)
    requires Represents(t, h) && Admits(t, s, w, next, auditID)
    ensures w.create <==> w.chartID !in h
    ensures w.chartID in h ==> h[w.chartID] != []
    ensures w.expected == Format(|Of(h, w.chartID)|)
    ensures |Of(h, w.chartID)| < MAX_REVISION
    ensures next == Format(|Of(h, w.chartID)| + 1)
  {
    AdmittedRevision(t, h, s, w, next, auditID);
    NextRevisionIsSuccessor(|Of(h, w.chartID)|);
    if w.chartID in h { PriorReceipts(t, h, w.chartID); }
  }

  lemma InsertedReceipts(r: Receipts, log: seq<Applied>, a: Applied, c: string, from: nat)
    requires ReceiptsRepresent(r, log, c, from) && from <= |log|
    requires (c, a.requestID) !in r
    ensures ReceiptsRepresent(r[(c, a.requestID) := RowOf(a, |log|)], log + [a], c, from)
  {
    var r' := r[(c, a.requestID) := RowOf(a, |log|)];
    var log' := log + [a];
    forall i | from <= i < |log'|
      ensures (c, log'[i].requestID) in r' && r'[(c, log'[i].requestID)] == RowOf(log'[i], i)
    {
      if i < |log| {
        assert (c, log[i].requestID) in r;
      }
    }
    forall k | k in r' && k.0 == c
      ensures Requested(log', from, k.1)
    {
      var i: nat := |log|;
      if k.1 != a.requestID { i := RequestedIndex(log, from, k.1); }
      assert log'[i].requestID == k.1;
      RequestedAt(log', from, i);
    }
  }

  lemma PriorReceipts(t: Tables, h: History, c: string)
    requires Represents(t, h) && t.schema.Present?
    ensures ReceiptsRepresent(t.schema.receipts, Of(h, c), c, Oldest(|Of(h, c)|))
    ensures c in h ==> ChartRepresents(t, h[c], c)
  {
    if c !in h {
      assert forall k :: k in t.schema.receipts ==> k.0 != c;
    }
  }

  lemma ReceiptsAfter(r: Receipts, prior: seq<Applied>, a: Applied, c: string, r': Receipts)
    requires ReceiptsRepresent(r, prior, c, Oldest(|prior|)) && (c, a.requestID) !in r
    requires r' == Prune(r[(c, a.requestID) := RowOf(a, |prior|)], c)
    ensures ReceiptsRepresent(r', prior + [a], c, Oldest(|prior| + 1))
    ensures forall k :: k in r' && k.0 != c ==> k in r && r'[k] == r[k]
    ensures forall k :: k in r && k.0 != c ==> k in r'
  {
    InsertedReceipts(r, prior, a, c, Oldest(|prior|));
    PruneKeepsNewest(r[(c, a.requestID) := RowOf(a, |prior|)], prior + [a], c, Oldest(|prior|));
  }

  lemma {:induction false} ChartAfter(t: Tables, t': Tables, prior: seq<Applied>, a: Applied, c: string)
    requires t.schema.Present? && t'.schema.Present? && (prior != [] ==> ChartRepresents(t, prior, c))
    requires t'.projectID == t.projectID && t'.schema.copyID == t.schema.copyID
    requires t'.audit == t.audit + [AuditOf(a, c, |prior|)]
    requires c in t'.charts && t'.charts[c] == ChartOf(a, |prior| + 1)
    requires c in t'.schema.records && t'.schema.records[c] == Format(|prior| + 1)
    requires Addresses(a, t', c, |prior|) && |prior| < MAX_REVISION
    ensures ChartRepresents(t', prior + [a], c)
  {
    var log := prior + [a];
    forall i | 0 <= i < |log|
      ensures Addresses(log[i], t', c, i) && AuditOf(log[i], c, i) in t'.audit
    {
      if i < |prior| {
        assert Addresses(prior[i], t, c, i) && AuditOf(prior[i], c, i) in t.audit;
      } else {
        assert t'.audit[|t.audit|] == AuditOf(a, c, i);
      }
    }
  }

  lemma OtherChartsKept(t: Tables, t': Tables, log: seq<Applied>, c: string)
    requires t.schema.Present? && t'.schema.Present? && ChartRepresents(t, log, c)
    requires t'.projectID == t.projectID && t'.schema.copyID == t.schema.copyID
    requires c in t'.charts && t'.charts[c] == t.charts[c]
    requires c in t'.schema.records && t'.schema.records[c] == t.schema.records[c]
    requires t.audit <= t'.audit
    ensures ChartRepresents(t', log, c)
  {
    forall i | 0 <= i < |log| ensures Addresses(log[i], t', c, i) && AuditOf(log[i], c, i) in t'.audit {
      assert Addresses(log[i], t, c, i);
      var j :| 0 <= j < |t.audit| && t.audit[j] == AuditOf(log[i], c, i);
      assert t'.audit[j] == t.audit[j];
    }
  }

  /** The write changed only this chart's rows and appended one audit event. */
  ghost predicate OthersUntouched(t: Tables, t': Tables, c: string) {
    && t.schema.Present? && t'.schema.Present?
    && t'.projectID == t.projectID
    && t'.schema.copyID == t.schema.copyID && t'.schema.copyProject == t.schema.copyProject
    && t.audit <= t'.audit
    && (forall d :: d != c ==> (d in t'.charts <==> d in t.charts) && (d in t.charts ==> t'.charts[d] == t.charts[d]))
    && (forall d :: d != c ==> (d in t'.schema.records <==> d in t.schema.records)
                               && (d in t.schema.records ==> t'.schema.records[d] == t.schema.records[d]))
    && (forall k :: k in t'.schema.receipts && k.0 != c ==>
          k in t.schema.receipts && t'.schema.receipts[k] == t.schema.receipts[k])
    && (forall k :: k in t.schema.receipts && k.0 != c ==> k in t'.schema.receipts)
  }

  lemma OtherAfter(t: Tables, h: History, t': Tables, c: string, d: string)
    requires Represents(t, h) && OthersUntouched(t, t', c) && d in h && d != c
    ensures ChartRepresents(t', h[d], d) && ReceiptsRepresent(t'.schema.receipts, h[d], d, Oldest(|h[d]|))
  {
    PriorReceipts(t, h, d);
    OtherChartsKept(t, t', h[d], d);
    ReceiptsKept(t.schema.receipts, t'.schema.receipts, h[d], d, Oldest(|h[d]|), c);
  }

  lemma LogsAfter(t: Tables, h: History, t': Tables, c: string, log: seq<Applied>)
    requires Represents(t, h) && OthersUntouched(t, t', c)
    requires ChartRepresents(t', log, c) && ReceiptsRepresent(t'.schema.receipts, log, c, Oldest(|log|))
    ensures LogsRepresent(t', h[c := log])
  {
    var h' := h[c := log];
    forall d | d in h'
      ensures ChartRepresents(t', h'[d], d) && ReceiptsRepresent(t'.schema.receipts, h'[d], d, Oldest(|h'[d]|))
    {
      if d != c { OtherAfter(t, h, t', c, d); }
    }
  }

  lemma BookkeepingAfter(t: Tables, h: History, t': Tables, c: string, log: seq<Applied>)
    requires Bookkeeping(t, h) && OthersUntouched(t, t', c)
    requires c in t'.charts && t'.charts[c].kind == WBS_KIND && c in t'.schema.records
    ensures Bookkeeping(t', h[c := log])
  {
    assert t'.schema.records.Keys == h[c := log].Keys;
  }

  lemma ReceiptsKept(r: Receipts, r': Receipts, log: seq<Applied>, c: string, from: nat, other: string)
    requires ReceiptsRepresent(r, log, c, from) && c != other
    requires forall k :: k in r' && k.0 != other ==> k in r && r'[k] == r[k]
    requires forall k :: k in r && k.0 != other ==> k in r'
    ensures ReceiptsRepresent(r', log, c, from)
  {
  }

  lemma AuditStaysDistinct(t: Tables, row: AuditRow)
    requires DistinctAudit(t.audit)
    requires row.id !in AuditIDs(t.audit)
    ensures DistinctAudit(t.audit + [row])
  {
    forall i | 0 <= i < |t.audit| ensures t.audit[i].id != row.id {
      assert t.audit[i] in t.audit;
    }
  }

  lemma WrittenTouchesOneChart(t: Tables, s: Session, w: Write, next: string, auditID: string)
    requires t.schema.Present? && w.payload.Some?
    ensures OthersUntouched(t, Written(t, s, w, next, auditID), w.chartID)
  {
    var t' := Written(t, s, w, next, auditID);
    var inserted := t.schema.receipts[(w.chartID, w.requestID) := ReceiptRow(FingerprintOf(s, w), next, auditID)];
    assert t'.schema.receipts == Prune(inserted, w.chartID);
  }

  lemma WrittenExtendsLog(t: Tables, prior: seq<Applied>, s: Session, w: Write, next: string, auditID: string)
    requires Admits(t, s, w, next, auditID)
    requires next == Format(|prior| + 1) && w.expected == Format(|prior|) && |prior| < MAX_REVISION
    requires w.create <==> prior == []
    requires prior != [] ==> ChartRepresents(t, prior, w.chartID)
    requires ReceiptsRepresent(t.schema.receipts, prior, w.chartID, Oldest(|prior|))
    ensures var t' := Written(t, s, w, next, auditID);
            var log := prior + [NewWrite(s, w, auditID)];
            ChartRepresents(t', log, w.chartID)
            && ReceiptsRepresent(t'.schema.receipts, log, w.chartID, Oldest(|log|))
  {
    var t' := Written(t, s, w, next, auditID);
    var a := NewWrite(s, w, auditID);
    ReceiptsAfter(t.schema.receipts, prior, a, w.chartID, t'.schema.receipts);
    assert t'.audit == t.audit + [AuditOf(a, w.chartID, |prior|)];
    ChartAfter(t, t', prior, a, w.chartID);
  }

  lemma WrittenRepresents(t: Tables, h: History, s: Session, w: Write, next: string, auditID: string)
    requires Represents(t, h) && Admits(t, s, w, next, auditID)
    ensures Represents(Written(t, s, w, next, auditID),
                       h[w.chartID := Of(h, w.chartID) + [NewWrite(s, w, auditID)]])
  {
    var c, prior := w.chartID, Of(h, w.chartID);
    var t', log := Written(t, s, w, next, auditID), prior + [NewWrite(s, w, auditID)];
    ApplyAgreesWithLog(t, h, s, w, next, auditID);
    PriorReceipts(t, h, c);
    WrittenExtendsLog(t, prior, s, w, next, auditID);
    WrittenTouchesOneChart(t, s, w, next, auditID);
    LogsAfter(t, h, t', c, log);
    BookkeepingAfter(t, h, t', c, log);
    AuditStaysDistinct(t, t'.audit[|t.audit|]);
  }

  lemma SaveOutcome(t: Tables, e: Event)
    requires e.SaveWbs?
    ensures Applies(t, e) ==>
              var next := Decide(t, e.session, e.write, e.env).next;
              Admits(t, e.session, e.write, next, e.env.freshID)
              && Step(t, e) == Written(t, e.session, e.write, next, e.env.freshID)
    ensures !Applies(t, e) ==> Step(t, e) == t
  {
    if Applies(t, e) { ApplyIsAdmitted(t, e.session, e.write, e.env); }
  }

  lemma SaveRepresents(t: Tables, h: History, e: Event)
    requires e.SaveWbs? && Represents(t, h)
    ensures Represents(Step(t, e), Extend(h, t, e))
  {
    SaveOutcome(t, e);
    if Applies(t, e) {
      WrittenRepresents(t, h, e.session, e.write, Decide(t, e.session, e.write, e.env).next, e.env.freshID);
    }
  }

  lemma OrdinaryChangeRepresents(t: Tables, t': Tables, h: History, chartID: string, row: AuditRow)
    requires Represents(t, h) && chartID !in h
    requires t'.projectID == t.projectID && t'.schema == t.schema && t'.audit == t.audit + [row]
    requires t'.charts.Keys - {chartID} == t.charts.Keys - {chartID}
    requires forall c :: c in t.charts && c != chartID ==> c in t'.charts && t'.charts[c] == t.charts[c]
    requires chartID in t'.charts ==> t'.charts[chartID].kind != WBS_KIND
    requires row.id !in AuditIDs(t.audit)
    ensures Represents(t', h)
  {
    AuditStaysDistinct(t, row);
    assert forall c :: c in t'.charts && c != chartID ==> c in t.charts by {
      forall c | c in t'.charts && c != chartID ensures c in t.charts {
        assert c in t'.charts.Keys - {chartID};
      }
    }
    assert forall c :: c in t.charts && c != chartID ==> c in t'.charts by {
      forall c | c in t.charts && c != chartID ensures c in t'.charts {
        assert c in t.charts.Keys - {chartID};
      }
    }
    if t.schema.Present? {
      forall c | c in h ensures ChartRepresents(t', h[c], c) {
        assert ChartRepresents(t, h[c], c);
        OtherChartsKept(t, t', h[c], c);
      }
    }
  }

  lemma OrdinaryRepresents(t: Tables, h: History, e: Event)
    requires (e.SaveOrdinary? || e.DeleteOrdinary?) && Represents(t, h)
    ensures Represents(Step(t, e), h)
  {
    var t' := Step(t, e);
    if t' != t {
      assert e.chartID !in h;
      OrdinaryChangeRepresents(t, t', h, e.chartID, t'.audit[|t.audit|]);
    }
  }

  lemma OpenRepresents(t: Tables, h: History, e: Event)
    requires e.OpenStore? && Represents(t, h)
    ensures Represents(Step(t, e), h)
  {
  }

  lemma StepRepresents(t: Tables, h: History, e: Event)
    requires Represents(t, h)
    ensures Represents(Step(t, e), Extend(h, t, e))
  {
    match e
    case OpenStore(_, _) => OpenRepresents(t, h, e);
    case SaveWbs(_, _, _) => SaveRepresents(t, h, e);
    case SaveOrdinary(_, _, _) => OrdinaryRepresents(t, h, e);
    case DeleteOrdinary(_, _) => OrdinaryRepresents(t, h, e);
  }

  /**
   Main invariant: after any run, every WBS chart's record and data revision equal the number of
   writes applied to it, its receipts are its last 256 writes, and each write has its audit event.
   */
  lemma {:induction false} RunRepresents(t: Tables, es: seq<Event>)
    requires Fresh(t)
    ensures Represents(Run(t, es), HistoryOf(t, es))
  {
    if es != [] {
      RunRepresents(t, es[..|es| - 1]);
      StepRepresents(Run(t, es[..|es| - 1]), HistoryOf(t, es[..|es| - 1]), es[|es| - 1]);
    }
  }
}
