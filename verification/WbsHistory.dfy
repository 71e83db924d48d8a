/**
 The WBS tables against an independent reference: for every chart, the list of writes applied
 to it. Runs mix store opens, saves by any session, ordinary chart saves and deletes, failures and
 commits whose outcome the caller never learns.
 */
module WbsHistory {
  import opened Wrappers
  import opened Decimal
  import opened ByteOrder
  import opened WbsStore

  datatype Applied = Applied(requestID: string, fingerprint: Fingerprint, auditID: string, sessionID: string)

  /** The reference: each WBS chart's applied writes, oldest first. */
  type History = map<string, seq<Applied>>

  function Oldest(n: nat): nat {
    if n > RECEIPT_LIMIT then n - RECEIPT_LIMIT else 0
  }

  function Of(h: History, chartID: string): seq<Applied> {
    if chartID in h then h[chartID] else []
  }

  function RowOf(a: Applied, i: nat): ReceiptRow {
    ReceiptRow(a.fingerprint, Format(i + 1), a.auditID)
  }

  function ChartOf(a: Applied, n: nat): Chart {
    Chart(a.fingerprint.projectID, WBS_KIND, a.fingerprint.title, Scope(a.fingerprint.content.(revision := Format(n))))
  }

  function AuditOf(a: Applied, chartID: string, i: nat): AuditRow {
    AuditRow(a.auditID, if i == 0 then "chart.create" else "chart.update",
             chartID, a.fingerprint.actorID, a.sessionID)
  }

  /** The i-th applied write was made against revision i, for this copy and chart. */
  predicate Addresses(a: Applied, t: Tables, chartID: string, i: nat)
    requires t.schema.Present?
  {
    && a.fingerprint.copyID == t.schema.copyID
    && a.fingerprint.projectID == t.projectID
    && a.fingerprint.chartID == chartID
    && a.fingerprint.expected == Format(i)
    && (a.fingerprint.create <==> i == 0)
  }

  ghost predicate ChartRepresents(t: Tables, log: seq<Applied>, chartID: string)
    requires t.schema.Present?
  {
    && 0 < |log| <= MAX_REVISION
    && chartID in t.charts && t.charts[chartID] == ChartOf(log[|log| - 1], |log|)
    && chartID in t.schema.records && t.schema.records[chartID] == Format(|log|)
    && (forall i :: 0 <= i < |log| ==> Addresses(log[i], t, chartID, i))
    && (forall i :: 0 <= i < |log| ==> AuditOf(log[i], chartID, i) in t.audit)
  }

  /** Some write at position `from` or later carried this request identity. */
  predicate Requested(log: seq<Applied>, from: nat, requestID: string)
    decreases |log| - from
  {
    from < |log| && (log[from].requestID == requestID || Requested(log, from + 1, requestID))
  }

  lemma {:induction false} RequestedAt(log: seq<Applied>, from: nat, i: nat)
    requires from <= i < |log|
    ensures Requested(log, from, log[i].requestID)
    decreases i - from
  {
    if from < i { RequestedAt(log, from + 1, i); }
  }

  lemma {:induction false} RequestedIndex(log: seq<Applied>, from: nat, requestID: string) returns (i: nat)
    requires Requested(log, from, requestID)
    ensures from <= i < |log| && log[i].requestID == requestID
    decreases |log| - from
  {
    if log[from].requestID == requestID { i := from; } else { i := RequestedIndex(log, from + 1, requestID); }
  }

  /** The chart's receipts are exactly its newest RECEIPT_LIMIT writes. */
  ghost predicate ReceiptsRepresent(receipts: Receipts, log: seq<Applied>, chartID: string, from: nat) {
    && (forall i :: from <= i < |log| ==>
          (chartID, log[i].requestID) in receipts && receipts[(chartID, log[i].requestID)] == RowOf(log[i], i))
    && (forall k :: k in receipts && k.0 == chartID ==> Requested(log, from, k.1))
  }

  ghost predicate DistinctAudit(audit: seq<AuditRow>) {
    forall i, j :: 0 <= i < j < |audit| ==> audit[i].id != audit[j].id
  }

  /** Which charts are WBS charts, and whose copy this is. */
  ghost predicate Bookkeeping(t: Tables, h: History) {
    match t.schema
    case Absent => h == map[] && (forall c :: c in t.charts ==> t.charts[c].kind != WBS_KIND)
    case Incomplete => false
    case Present(copyID, copyProject, records, receipts) =>
      && copyProject == t.projectID && IsIdentifier(copyID)
      && records.Keys == h.Keys
      && (forall c :: c in t.charts ==> (t.charts[c].kind == WBS_KIND <==> c in h))
      && (forall k :: k in receipts ==> k.0 in h)
  }

  ghost predicate LogsRepresent(t: Tables, h: History)
    requires t.schema.Present?
  {
    forall c :: c in h ==>
      ChartRepresents(t, h[c], c) && ReceiptsRepresent(t.schema.receipts, h[c], c, Oldest(|h[c]|))
  }

  ghost predicate Represents(t: Tables, h: History) {
    && DistinctAudit(t.audit)
    && Bookkeeping(t, h)
    && (t.schema.Present? ==> LogsRepresent(t, h))
  }

  // ---------- Pruning keeps the newest writes ----------

  function RequestsFrom(log: seq<Applied>, from: nat): set<string> {
    set i | from <= i < |log| :: log[i].requestID
  }

  lemma {:induction false} DistinctRequestsCount(log: seq<Applied>, from: nat)
    requires from <= |log|
    requires forall i, j :: from <= i < j < |log| ==> log[i].requestID != log[j].requestID
    ensures |RequestsFrom(log, from)| == |log| - from
    decreases |log| - from
  {
    if from < |log| {
      DistinctRequestsCount(log, from + 1);
      assert RequestsFrom(log, from) == {log[from].requestID} + RequestsFrom(log, from + 1);
      assert log[from].requestID !in RequestsFrom(log, from + 1);
    } else {
      assert RequestsFrom(log, from) == {};
    }
  }

  lemma WindowDistinct(receipts: Receipts, log: seq<Applied>, chartID: string, from: nat, i: nat, j: nat)
    requires ReceiptsRepresent(receipts, log, chartID, from) && from <= i < j < |log|
    ensures log[i].requestID != log[j].requestID
  {
    if log[i].requestID == log[j].requestID {
      FormatInjective(i + 1, j + 1);
      assert false;
    }
  }

  lemma NewerAreLaterWrites(receipts: Receipts, log: seq<Applied>, chartID: string, from: nat, i: nat)
    requires ReceiptsRepresent(receipts, log, chartID, from) && from <= i < |log|
    ensures Newer(receipts, chartID, Format(i + 1)) == RequestsFrom(log, i + 1)
    ensures |Newer(receipts, chartID, Format(i + 1))| == |log| - 1 - i
  {
    var newer := Newer(receipts, chartID, Format(i + 1));
    forall r | r in newer ensures r in RequestsFrom(log, i + 1) {
      var j := RequestedIndex(log, from, r);
      LengthThenBytesIsNumeric(i + 1, j + 1);
    }
    forall r | r in RequestsFrom(log, i + 1) ensures r in newer {
      var j :| i + 1 <= j < |log| && log[j].requestID == r;
      LengthThenBytesIsNumeric(i + 1, j + 1);
      assert (chartID, r) in receipts;
    }
    assert newer == RequestsFrom(log, i + 1);
    forall x, y | i + 1 <= x < y < |log| ensures log[x].requestID != log[y].requestID {
      WindowDistinct(receipts, log, chartID, from, x, y);
    }
    DistinctRequestsCount(log, i + 1);
  }

  /** Ordering by length then bytes, the prune keeps exactly the last RECEIPT_LIMIT writes of the chart. */
  lemma PruneKeepsNewest(receipts: Receipts, log: seq<Applied>, chartID: string, from: nat)
    requires ReceiptsRepresent(receipts, log, chartID, from) && from <= Oldest(|log|)
    ensures ReceiptsRepresent(Prune(receipts, chartID), log, chartID, Oldest(|log|))
    ensures forall k :: k in Prune(receipts, chartID) ==> k in receipts && Prune(receipts, chartID)[k] == receipts[k]
    ensures forall k :: k in receipts && k.0 != chartID ==> k in Prune(receipts, chartID)
  {
    var kept := Prune(receipts, chartID);
    forall i | from <= i < |log|
      ensures (chartID, log[i].requestID) in kept <==> Oldest(|log|) <= i
    {
      NewerAreLaterWrites(receipts, log, chartID, from, i);
    }
    forall k | k in kept && k.0 == chartID
      ensures Requested(log, Oldest(|log|), k.1)
    {
      var i := RequestedIndex(log, from, k.1);
      assert k == (chartID, log[i].requestID);
      RequestedAt(log, Oldest(|log|), i);
    }
  }
}
