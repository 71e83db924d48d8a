/** Idempotence and progress of the WBS store over whole runs. */
module WbsGuarantees {
  import opened Wrappers
  import opened Decimal
  import opened WbsStore
  import opened WbsHistory
  import opened WbsRuns

  /** Event i of the run is a save that reached the tables. */
  predicate AppliedAt(t: Tables, es: seq<Event>, i: nat)
    requires i < |es|
  {
    Applies(Run(t, es[..i]), es[i])
  }

  /** Two submissions of one write: same chart, request identity and fingerprint. */
  predicate SameWrite(e: Event, f: Event) {
    && e.SaveWbs? && f.SaveWbs? && e.write.payload.Some? && f.write.payload.Some?
    && e.write.requestID == f.write.requestID
    && FingerprintOf(e.session, e.write) == FingerprintOf(f.session, f.write)
  }

  lemma PrefixOfPrefix<T>(es: seq<T>, i: nat, j: nat)
    requires i <= j <= |es|
    ensures es[..j][..i] == es[..i]
  {
  }

  /** One event: its chart's list is extended by it, or nothing changes. */
  lemma HistoryStep(t: Tables, es: seq<Event>, i: nat)
    requires i < |es|
    ensures Run(t, es[..i + 1]) == Step(Run(t, es[..i]), es[i])
    ensures HistoryOf(t, es[..i + 1]) == Extend(HistoryOf(t, es[..i]), Run(t, es[..i]), es[i])
  {
    PrefixOfPrefix(es, i, i + 1);
    assert es[..i + 1][i] == es[i];
  }

  lemma HistoryGrowsOnce(t: Tables, es: seq<Event>, i: nat, c: string)
    requires i < |es|
    ensures Of(HistoryOf(t, es[..i]), c) <= Of(HistoryOf(t, es[..i + 1]), c)
  {
    HistoryStep(t, es, i);
    ExtendGrows(HistoryOf(t, es[..i]), Run(t, es[..i]), es[i], c);
  }

  lemma {:induction false} HistoryGrows(t: Tables, es: seq<Event>, i: nat, j: nat, c: string)
    requires i <= j <= |es|
    ensures Of(HistoryOf(t, es[..i]), c) <= Of(HistoryOf(t, es[..j]), c)
    decreases j - i
  {
    if i < j {
      HistoryGrows(t, es, i, j - 1, c);
      HistoryGrowsOnce(t, es, j - 1, c);
    }
  }

  lemma ExtendGrows(h: History, t: Tables, e: Event, c: string)
    ensures Of(h, c) <= Of(Extend(h, t, e), c)
  {
  }

  lemma AppliedExpects(t: Tables, es: seq<Event>, i: nat)
    requires Fresh(t) && i < |es| && AppliedAt(t, es, i)
    ensures var before := Of(HistoryOf(t, es[..i]), es[i].write.chartID);
            es[i].write.expected == Format(|before|)
            && Of(HistoryOf(t, es[..i + 1]), es[i].write.chartID) == before + [AppliedBy(es[i])]
  {
    RunRepresents(t, es[..i]);
    HistoryStep(t, es, i);
    var s := Run(t, es[..i]);
    ApplyIsAdmitted(s, es[i].session, es[i].write, es[i].env);
    AdmittedRevision(s, HistoryOf(t, es[..i]), es[i].session, es[i].write,
                     Decide(s, es[i].session, es[i].write, es[i].env).next, es[i].env.freshID);
  }

  /** Over any run at most one write is applied per chart and expected revision. */
  lemma AtMostOneWritePerRevision(t: Tables, es: seq<Event>, i: nat, j: nat)
    requires Fresh(t) && i < j < |es| && AppliedAt(t, es, i) && AppliedAt(t, es, j)
    requires es[i].write.chartID == es[j].write.chartID
    ensures es[i].write.expected != es[j].write.expected
  {
    AppliedExpects(t, es, i);
    AppliedExpects(t, es, j);
    HistoryGrows(t, es, i + 1, j, es[i].write.chartID);
    if es[i].write.expected == es[j].write.expected {
      var chartID := es[i].write.chartID;
      FormatInjective(|Of(HistoryOf(t, es[..i]), chartID)|, |Of(HistoryOf(t, es[..j]), chartID)|);
      assert false;
    }
  }

  /** Every write in the reference history was applied by an event of the run. */
  lemma {:induction false} Provenance(t: Tables, es: seq<Event>, c: string, k: nat) returns (i: nat)
    requires Fresh(t) && k < |Of(HistoryOf(t, es), c)|
    ensures i < |es| && AppliedAt(t, es, i) && es[i].write.chartID == c
    ensures Of(HistoryOf(t, es), c)[k] == AppliedBy(es[i])
    ensures k == |Of(HistoryOf(t, es[..i]), c)|
  {
    var n := |es| - 1;
    assert es == es[..n + 1];
    HistoryStep(t, es, n);
    HistoryGrows(t, es, n, n + 1, c);
    var before := Of(HistoryOf(t, es[..n]), c);
    if k < |before| {
      i := Provenance(t, es[..n], c, k);
      PrefixOfPrefix(es, i, n);
    } else {
      i := n;
      AppliedExpects(t, es, n);
    }
  }

  /** A receipt in the tables belongs to an applied write. */
  lemma ReceiptIsApplied(t: Tables, h: History, k: (string, string)) returns (i: nat)
    requires Represents(t, h) && t.schema.Present? && k in t.schema.receipts
    ensures k.0 in h && Oldest(|h[k.0]|) <= i < |h[k.0]|
    ensures h[k.0][i].requestID == k.1 && t.schema.receipts[k] == RowOf(h[k.0][i], i)
  {
    PriorReceipts(t, h, k.0);
    i := RequestedIndex(h[k.0], Oldest(|h[k.0]|), k.1);
    assert k == (k.0, h[k.0][i].requestID);
  }

  lemma AppliedRevision(t: Tables, es: seq<Event>, j: nat)
    requires Fresh(t) && j < |es| && es[j].SaveWbs?
    requires Decide(Run(t, es[..j]), es[j].session, es[j].write, es[j].env).Apply?
    ensures es[j].write.payload.Some?
    ensures Decide(Run(t, es[..j]), es[j].session, es[j].write, es[j].env).next
            == Format(|Of(HistoryOf(t, es[..j]), es[j].write.chartID)| + 1)
  {
    var tj, s, w := Run(t, es[..j]), es[j].session, es[j].write;
    RunRepresents(t, es[..j]);
    ApplyIsAdmitted(tj, s, w, es[j].env);
    ApplyAgreesWithLog(tj, HistoryOf(t, es[..j]), s, w, Decide(tj, s, w, es[j].env).next, es[j].env.freshID);
  }

  lemma ReplayComesFromReceipt(t: Tables, s: Session, w: Write, env: Env)
    requires Decide(t, s, w, env).Replay?
    ensures t.schema.Present? && (w.chartID, w.requestID) in t.schema.receipts && w.payload.Some?
    ensures var row := t.schema.receipts[(w.chartID, w.requestID)];
            row.fingerprint == FingerprintOf(s, w)
            && Decide(t, s, w, env).receipt == Receipt(w.requestID, row.revision, row.auditID, true)
  {
  }

  lemma ReplayedWasApplied(t: Tables, es: seq<Event>, j: nat) returns (i: nat)
    requires Fresh(t) && j < |es| && es[j].SaveWbs?
    requires Decide(Run(t, es[..j]), es[j].session, es[j].write, es[j].env).Replay?
    ensures i < j && AppliedAt(t, es, i) && SameWrite(es[i], es[j])
    ensures var r := Decide(Run(t, es[..j]), es[j].session, es[j].write, es[j].env).receipt;
            r.auditID == es[i].env.freshID && r.replayed
            && r.revision == Format(|Of(HistoryOf(t, es[..i]), es[i].write.chartID)| + 1)
  {
    var w := es[j].write;
    ReplayComesFromReceipt(Run(t, es[..j]), es[j].session, w, es[j].env);
    i := ReceiptWrittenBy(t, es[..j], (w.chartID, w.requestID));
    PrefixOfPrefix(es, i, j);
  }

  /** Every receipt held after a run was written by one event of it. */
  lemma ReceiptWrittenBy(t: Tables, es: seq<Event>, key: (string, string)) returns (i: nat)
    requires Fresh(t) && Run(t, es).schema.Present? && key in Run(t, es).schema.receipts
    ensures i < |es| && AppliedAt(t, es, i) && es[i].write.payload.Some?
    ensures es[i].write.chartID == key.0 && es[i].write.requestID == key.1
    ensures Run(t, es).schema.receipts[key]
            == ReceiptRow(FingerprintOf(es[i].session, es[i].write),
                          Format(|Of(HistoryOf(t, es[..i]), key.0)| + 1), es[i].env.freshID)
  {
    var k := ReceiptInHistory(t, es, key);
    i := WriterOf(t, es, key, k);
  }

  lemma WriterOf(t: Tables, es: seq<Event>, key: (string, string), k: nat) returns (i: nat)
    requires Fresh(t) && k < |Of(HistoryOf(t, es), key.0)| && Of(HistoryOf(t, es), key.0)[k].requestID == key.1
    ensures i < |es| && AppliedAt(t, es, i) && es[i].write.payload.Some?
    ensures es[i].write.chartID == key.0 && es[i].write.requestID == key.1
    ensures RowOf(Of(HistoryOf(t, es), key.0)[k], k)
            == ReceiptRow(FingerprintOf(es[i].session, es[i].write),
                          Format(|Of(HistoryOf(t, es[..i]), key.0)| + 1), es[i].env.freshID)
  {
    i := Provenance(t, es, key.0, k);
    HistoryRowIsTheWrites(t, es, key, k, i);
  }

  lemma HistoryRowIsTheWrites(t: Tables, es: seq<Event>, key: (string, string), k: nat, i: nat)
    requires i < |es| && AppliedAt(t, es, i) && k < |Of(HistoryOf(t, es), key.0)|
    requires es[i].write.payload.Some? ==> Of(HistoryOf(t, es), key.0)[k] == AppliedBy(es[i])
    requires Of(HistoryOf(t, es), key.0)[k].requestID == key.1
    ensures es[i].write.payload.Some? && es[i].write.requestID == key.1
    ensures RowOf(Of(HistoryOf(t, es), key.0)[k], k)
            == ReceiptRow(FingerprintOf(es[i].session, es[i].write), Format(k + 1), es[i].env.freshID)
  {
    AppliedHasPayload(Run(t, es[..i]), es[i]);
    RowOfWrite(es[i], k);
  }

  lemma AppliedHasPayload(t: Tables, e: Event)
    requires Applies(t, e)
    ensures e.write.payload.Some?
  {
    ApplyIsAdmitted(t, e.session, e.write, e.env);
  }

  lemma RowOfWrite(e: Event, k: nat)
    requires e.SaveWbs? && e.write.payload.Some?
    ensures AppliedBy(e).requestID == e.write.requestID
    ensures RowOf(AppliedBy(e), k) == ReceiptRow(FingerprintOf(e.session, e.write), Format(k + 1), e.env.freshID)
  {
  }

  lemma ReceiptInHistory(t: Tables, es: seq<Event>, key: (string, string)) returns (k: nat)
    requires Fresh(t) && Run(t, es).schema.Present? && key in Run(t, es).schema.receipts
    ensures Oldest(|Of(HistoryOf(t, es), key.0)|) <= k < |Of(HistoryOf(t, es), key.0)|
    ensures Of(HistoryOf(t, es), key.0)[k].requestID == key.1
    ensures Run(t, es).schema.receipts[key] == RowOf(Of(HistoryOf(t, es), key.0)[k], k)
  {
    RunRepresents(t, es);
    k := ReceiptIsApplied(Run(t, es), HistoryOf(t, es), key);
  }

  /** The receipts of a chart's last 256 writes are all held. */
  lemma RecentReceiptHeld(t: Tables, es: seq<Event>, c: string, k: nat)
    requires Fresh(t) && Oldest(|Of(HistoryOf(t, es), c)|) <= k < |Of(HistoryOf(t, es), c)|
    ensures Run(t, es).schema.Present?
    ensures var log := Of(HistoryOf(t, es), c);
            (c, log[k].requestID) in Run(t, es).schema.receipts
            && Run(t, es).schema.receipts[(c, log[k].requestID)] == RowOf(log[k], k)
  {
    RunRepresents(t, es);
    PriorReceipts(Run(t, es), HistoryOf(t, es), c);
  }

  /**
   A save that returns a receipt stands for exactly one application of that write in the whole run,
   made at or before it: so retrying after an indeterminate commit cannot apply it twice.
   */
  lemma SuccessMeansAppliedExactlyOnce(t: Tables, es: seq<Event>, j: nat) returns (i: nat)
    requires Fresh(t) && j < |es| && es[j].SaveWbs?
    requires Save(Run(t, es[..j]), es[j].session, es[j].write, es[j].env).1.Ok?
    ensures i <= j && AppliedAt(t, es, i) && SameWrite(es[i], es[j])
    ensures forall k :: 0 <= k < |es| && AppliedAt(t, es, k) && SameWrite(es[k], es[j]) ==> k == i
    ensures var r := Save(Run(t, es[..j]), es[j].session, es[j].write, es[j].env).1.value;
            r.auditID == es[i].env.freshID && r.replayed == (i < j)
            && r.revision == Format(|Of(HistoryOf(t, es[..i]), es[i].write.chartID)| + 1)
  {
    var s, w := es[j].session, es[j].write;
    var tj := Run(t, es[..j]);
    if Decide(tj, s, w, es[j].env).Apply? {
      i := j;
      AppliedRevision(t, es, j);
    } else {
      i := ReplayedWasApplied(t, es, j);
    }
    forall k | 0 <= k < |es| && AppliedAt(t, es, k) && SameWrite(es[k], es[j]) ensures k == i {
      if k < i { AtMostOneWritePerRevision(t, es, k, i); }
      if i < k { AtMostOneWritePerRevision(t, es, i, k); }
    }
  }

  // ---------- Resubmitting an applied write ----------

  /** The request's checks that come before the receipt lookup all pass. */
  predicate ReachesLookup(t: Tables, s: Session, w: Write, env: Env) {
    && Addressed(s, w) && w.payload.Some? && w.payload.value.revision == w.expected
    && (w.create ==> w.expected == "0") && !env.failsEarly && CheckCopy(t, s).None?
  }

  lemma HeldReceiptDecides(t: Tables, s: Session, w: Write, env: Env)
    requires ReachesLookup(t, s, w, env) && (w.chartID, w.requestID) in t.schema.receipts
    ensures var row := t.schema.receipts[(w.chartID, w.requestID)];
            Decide(t, s, w, env) == if row.fingerprint == FingerprintOf(s, w)
                                    then Replay(Receipt(w.requestID, row.revision, row.auditID, true))
                                    else Reject(RequestReuse)
  {
  }

  lemma StaleWriteConflicts(t: Tables, s: Session, w: Write, env: Env)
    requires ReachesLookup(t, s, w, env) && (w.chartID, w.requestID) !in t.schema.receipts
    requires w.payload.value.links == []
    requires w.create ==> w.chartID in t.charts
    requires !w.create ==> ReadRecord(t, w.chartID, s.binding.projectID).Ok?
                           && ReadRecord(t, w.chartID, s.binding.projectID).value.1 != w.expected
    ensures Decide(t, s, w, env) == Reject(RevisionConflict)
  {
  }

  /** What the represented chart says about a write it has already applied at position k. */
  lemma AppliedWriteInTables(t: Tables, h: History, s: Session, w: Write, k: nat)
    requires Represents(t, h) && t.schema.Present? && w.chartID in h && k < |h[w.chartID]|
    requires w.payload.Some? && FingerprintOf(s, w) == h[w.chartID][k].fingerprint
    ensures CheckCopy(t, s).None? && (w.create <==> k == 0) && w.expected == Format(k)
    ensures w.chartID in t.charts
    ensures ReadRecord(t, w.chartID, s.binding.projectID) == Ok((t.charts[w.chartID], Format(|h[w.chartID]|)))
  {
    PriorReceipts(t, h, w.chartID);
    assert Addresses(h[w.chartID][k], t, w.chartID, k);
    CurrentRecord(t, h, w.chartID);
  }

  lemma HeldReceiptOf(t: Tables, h: History, c: string, k: nat)
    requires Represents(t, h) && t.schema.Present? && c in h && k < |h[c]|
    requires (c, h[c][k].requestID) in t.schema.receipts
    ensures var row := t.schema.receipts[(c, h[c][k].requestID)];
            if k >= Oldest(|h[c]|) then row == RowOf(h[c][k], k) else row.fingerprint != h[c][k].fingerprint
  {
    PriorReceipts(t, h, c);
    var i := ReceiptIsApplied(t, h, (c, h[c][k].requestID));
    if k < Oldest(|h[c]|) && h[c][i].fingerprint == h[c][k].fingerprint {
      assert Addresses(h[c][i], t, c, i) && Addresses(h[c][k], t, c, k);
      FormatInjective(i, k);
      assert false;
    }
  }

  lemma ResubmitDecision(t: Tables, h: History, s: Session, w: Write, env: Env, k: nat)
    requires Represents(t, h) && t.schema.Present? && w.chartID in h && k < |h[w.chartID]|
    requires w.payload.Some? && FingerprintOf(s, w) == h[w.chartID][k].fingerprint
    requires w.requestID == h[w.chartID][k].requestID
    requires w.payload.value.revision == w.expected && w.payload.value.links == []
    requires Addressed(s, w) && !env.failsEarly
    ensures k >= Oldest(|h[w.chartID]|) ==>
              Decide(t, s, w, env) == Replay(Receipt(w.requestID, Format(k + 1), h[w.chartID][k].auditID, true))
    ensures k < Oldest(|h[w.chartID]|) && (w.chartID, w.requestID) in t.schema.receipts ==>
              Decide(t, s, w, env) == Reject(RequestReuse)
    ensures k < Oldest(|h[w.chartID]|) && (w.chartID, w.requestID) !in t.schema.receipts ==>
              Decide(t, s, w, env) == Reject(RevisionConflict)
  {
    var c, log := w.chartID, h[w.chartID];
    AppliedWriteInTables(t, h, s, w, k);
    assert Format(0) == "0";
    assert ReachesLookup(t, s, w, env);
    if k >= Oldest(|log|) { PriorReceipts(t, h, c); assert (c, log[k].requestID) in t.schema.receipts; }
    if (c, w.requestID) in t.schema.receipts {
      HeldReceiptOf(t, h, c, k);
      HeldReceiptDecides(t, s, w, env);
    } else {
      if Format(|log|) == Format(k) { FormatInjective(|log|, k); }
      StaleWriteConflicts(t, s, w, env);
    }
  }

  /**
   Resubmitting a write applied by event i, after any further events, never changes the tables. It
   returns the original receipt exactly when fewer than 256 later writes followed; otherwise it is a
   revision conflict, unless a later write of the chart reused the request identity and its receipt
   is still held, when the reuse is refused.
   */
  lemma ResubmissionIsSafe(t: Tables, es: seq<Event>, i: nat, s: Session, w: Write, env: Env)
    requires Fresh(t) && i < |es| && AppliedAt(t, es, i) && SameWrite(es[i], SaveWbs(s, w, env))
    requires Addressed(s, w) && !env.failsEarly
    ensures w.chartID in HistoryOf(t, es) && Run(t, es).schema.Present?
    ensures Save(Run(t, es), s, w, env).0 == Run(t, es)
    ensures var later := |HistoryOf(t, es)[w.chartID]| - |Of(HistoryOf(t, es[..i]), w.chartID)| - 1;
            var answer := Save(Run(t, es), s, w, env).1;
            later >= 0
            && (answer.Ok? <==> later < RECEIPT_LIMIT)
            && (answer.Ok? ==> answer.value.auditID == es[i].env.freshID && answer.value.replayed)
            && (answer == Err(RequestReuse) <==>
                  later >= RECEIPT_LIMIT && (w.chartID, w.requestID) in Run(t, es).schema.receipts)
            && (answer == Err(RevisionConflict) <==>
                  later >= RECEIPT_LIMIT && (w.chartID, w.requestID) !in Run(t, es).schema.receipts)
  {
    var k := AppliedPosition(t, es, i);
    ApplyIsAdmitted(Run(t, es[..i]), es[i].session, es[i].write, es[i].env);
    SameContent(es[i].session, es[i].write, s, w);
    ResubmitAfterRun(t, es, s, w, env, k);
  }

  /** Where an applied write sits in its chart's history from then on. */
  lemma AppliedPosition(t: Tables, es: seq<Event>, i: nat) returns (k: nat)
    requires Fresh(t) && i < |es| && AppliedAt(t, es, i)
    ensures k == |Of(HistoryOf(t, es[..i]), es[i].write.chartID)|
    ensures k < |Of(HistoryOf(t, es), es[i].write.chartID)|
    ensures Of(HistoryOf(t, es), es[i].write.chartID)[k] == AppliedBy(es[i])
  {
    AppliedExpects(t, es, i);
    HistoryGrows(t, es, i + 1, |es|, es[i].write.chartID);
    assert es[..|es|] == es;
    k := |Of(HistoryOf(t, es[..i]), es[i].write.chartID)|;
  }

  lemma ResubmitAfterRun(t: Tables, es: seq<Event>, s: Session, w: Write, env: Env, k: nat)
    requires Fresh(t) && k < |Of(HistoryOf(t, es), w.chartID)|
    requires w.payload.Some? && FingerprintOf(s, w) == Of(HistoryOf(t, es), w.chartID)[k].fingerprint
    requires w.requestID == Of(HistoryOf(t, es), w.chartID)[k].requestID
    requires w.payload.value.revision == w.expected && w.payload.value.links == []
    requires Addressed(s, w) && !env.failsEarly
    ensures Run(t, es).schema.Present?
    ensures Decide(Run(t, es), s, w, env) ==
            var log := HistoryOf(t, es)[w.chartID];
            if k >= Oldest(|log|) then Replay(Receipt(w.requestID, Format(k + 1), log[k].auditID, true))
            else if (w.chartID, w.requestID) in Run(t, es).schema.receipts then Reject(RequestReuse)
            else Reject(RevisionConflict)
  {
    RunRepresents(t, es);
    ResubmitDecision(Run(t, es), HistoryOf(t, es), s, w, env, k);
  }

  lemma SameContent(s0: Session, w0: Write, s: Session, w: Write)
    requires w0.payload.Some? && w.payload.Some? && FingerprintOf(s0, w0) == FingerprintOf(s, w)
    ensures w0.expected == w.expected && w0.payload.value.revision == w.payload.value.revision
    ensures w0.payload.value.links == w.payload.value.links
  {
    assert Normalize(w0.payload.value) == Normalize(w.payload.value);
    assert Normalize(w.payload.value).links == w.payload.value.links;
    assert Normalize(w0.payload.value).links == w0.payload.value.links;
  }

  // ---------- Progress ----------

  /** A write made against the current revision, under a request identity with no receipt, is accepted. */
  lemma CurrentRevisionIsAccepted(t: Tables, h: History, s: Session, w: Write, env: Env)
    requires Represents(t, h) && t.schema.Present? && s.copyID == t.schema.copyID && s.binding.projectID == t.projectID
    requires Addressed(s, w) && w.payload.Some? && w.payload.value.revision == w.expected && w.payload.value.links == []
    requires (w.chartID, w.requestID) !in t.schema.receipts
    requires if w.create then w.chartID !in t.charts && w.expected == "0"
             else w.chartID in h && w.expected == Format(|h[w.chartID]|) && |h[w.chartID]| < MAX_REVISION
    requires !env.failsEarly && !env.failsLate && env.freshID !in AuditIDs(t.audit)
    ensures Decide(t, s, w, env) == Apply(w.expected, Format(|Of(h, w.chartID)| + 1))
  {
    var n := |Of(h, w.chartID)|;
    if w.chartID in h { CurrentRecord(t, h, w.chartID); }
    assert Format(0) == "0";
    NextRevisionIsSuccessor(n);
    AdmittedIsApplied(t, s, w, env, Format(n + 1));
  }

  lemma AdmittedIsApplied(t: Tables, s: Session, w: Write, env: Env, next: string)
    requires Admits(t, s, w, next, env.freshID) && ReachesLookup(t, s, w, env) && !env.failsLate
    ensures Decide(t, s, w, env) == Apply(w.expected, next)
  {
  }

  lemma CurrentRecord(t: Tables, h: History, c: string)
    requires Represents(t, h) && t.schema.Present? && c in h
    ensures c in t.charts && h[c] != []
    ensures ReadRecord(t, c, t.projectID) == Ok((t.charts[c], Format(|h[c]|)))
  {
    PriorReceipts(t, h, c);
    var last := |h[c]| - 1;
    assert Addresses(h[c][last], t, c, last);
  }

  /** After any run, opening succeeds for the project's binding whenever storage and entropy do. */
  lemma ReopenSucceeds(t: Tables, es: seq<Event>, binding: Binding, env: Env)
    requires Fresh(t)
    requires IsIdentifier(binding.projectID) && IsIdentifier(binding.actorID) && IsIdentifier(binding.lifetimeID)
    requires IsIdentifier(env.freshID) && !env.failsEarly && !env.failsLate && env.commit.Acknowledged?
    ensures Open(Run(t, es), binding, env).1.Ok? <==> binding.projectID == Run(t, es).projectID
    ensures Run(t, es).schema.Present? ==> Open(Run(t, es), binding, env).0 == Run(t, es)
    ensures Run(t, es).schema.Present? && binding.projectID == Run(t, es).projectID ==>
              Open(Run(t, es), binding, env).1 == Ok(Session(binding, Run(t, es).schema.copyID, false))
  {
    RunRepresents(t, es);
    var t', h := Run(t, es), HistoryOf(t, es);
    if t'.schema.Present? {
      forall id | id in WbsChartIDs(t') ensures ReadRecord(t', id, t'.projectID).Ok? {
        assert id in h;
        PriorReceipts(t', h, id);
      }
    }
  }

  /** Reads after any run return the last applied content at the chart's revision. */
  lemma ReadReturnsLastWrite(t: Tables, es: seq<Event>, s: Session, c: string, env: Env)
    requires Fresh(t) && c in HistoryOf(t, es) && Run(t, es).schema.Present?
    requires !s.closed && IsIdentifier(c) && !env.failsEarly
    requires s.copyID == Run(t, es).schema.copyID && s.binding.projectID == Run(t, es).projectID
    ensures var log := HistoryOf(t, es)[c];
            0 < |log| && Read(Run(t, es), s, c, env) == Ok(ChartOf(log[|log| - 1], |log|))
  {
    RunRepresents(t, es);
    PriorReceipts(Run(t, es), HistoryOf(t, es), c);
  }
}
