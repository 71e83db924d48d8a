/** What the WBS store keeps of a submitted scope, and what its readers and its audit rows show. */
module WbsContent {
  import opened Wrappers
  import opened Decimal
  import opened WbsStore
  import opened WbsHistory
  import opened WbsRuns
  import opened WbsGuarantees
  import opened Text

  // ---------- What normalising keeps ----------

  /** The same tree, except that an empty dictionary is no dictionary. */
  predicate Alike(submitted: Node, stored: Node)
    decreases submitted
  {
    && stored.id == submitted.id && stored.title == submitted.title
    && (stored.dictionary == None <==> submitted.dictionary == None || submitted.dictionary == Some(EMPTY_DICTIONARY))
    && (stored.dictionary != None ==> stored.dictionary == submitted.dictionary)
    && |stored.children| == |submitted.children|
    && forall k :: 0 <= k < |submitted.children| ==> Alike(submitted.children[k], stored.children[k])
  }

  lemma {:induction false} NormalizedChildren(ns: seq<Node>)
    ensures |NormalizeAll(ns)| == |ns|
    ensures forall k :: 0 <= k < |ns| ==> NormalizeAll(ns)[k] == NormalizeNode(ns[k])
  {
    if ns != [] { NormalizedChildren(ns[1..]); }
  }

  lemma {:induction false} NormalizedIsAlike(n: Node)
    ensures Alike(n, NormalizeNode(n))
    decreases n
  {
    NormalizedChildren(n.children);
    forall k | 0 <= k < |n.children| ensures Alike(n.children[k], NormalizeNode(n.children[k])) {
      NormalizedIsAlike(n.children[k]);
    }
  }

  /** Only one tree is so related to a submitted one: normalising it gives that tree. */
  lemma {:induction false} AlikeIsNormalized(n: Node, m: Node)
    requires Alike(n, m)
    ensures m == NormalizeNode(n)
    decreases n
  {
    NormalizedChildren(n.children);
    forall k | 0 <= k < |n.children| ensures m.children[k] == NormalizeNode(n.children[k]) {
      AlikeIsNormalized(n.children[k], m.children[k]);
    }
    assert m.children == NormalizeAll(n.children);
  }

  lemma {:induction false} NormalIsAlikeItself(n: Node, m: Node)
    requires Alike(n, m)
    ensures Alike(m, m)
    decreases n
  {
    forall k | 0 <= k < |m.children| ensures Alike(m.children[k], m.children[k]) {
      NormalIsAlikeItself(n.children[k], m.children[k]);
    }
  }

  /** Normalising twice is normalising once. */
  lemma NormalizingIsIdempotent(n: Node)
    ensures NormalizeNode(NormalizeNode(n)) == NormalizeNode(n)
  {
    NormalizedIsAlike(n);
    NormalIsAlikeItself(n, NormalizeNode(n));
    AlikeIsNormalized(NormalizeNode(n), NormalizeNode(n));
  }

  /** The chart that holds a submitted scope at a revision. */
  predicate Holds(c: Chart, projectID: string, w: Write, n: nat)
    requires w.payload.Some?
  {
    && c.projectID == projectID && c.kind == "wbs_v2" && c.title == w.title && c.body.Scope?
    && c.body.aggregate.revision == Format(n) && c.body.aggregate.links == w.payload.value.links
    && Alike(w.payload.value.root, c.body.aggregate.root)
  }

  // ---------- What a read returns ----------

  /** The last save of the run that reached chart c. */
  predicate LastApplied(t: Tables, es: seq<Event>, i: nat, c: string) {
    && i < |es| && AppliedAt(t, es, i) && es[i].write.chartID == c
    && forall j :: i < j < |es| && AppliedAt(t, es, j) ==> es[j].write.chartID != c
  }

  lemma LastEntryIsLastApplied(t: Tables, es: seq<Event>, c: string) returns (i: nat)
    requires Fresh(t) && c in HistoryOf(t, es) && HistoryOf(t, es)[c] != []
    ensures LastApplied(t, es, i, c)
    ensures HistoryOf(t, es)[c][|HistoryOf(t, es)[c]| - 1] == AppliedBy(es[i])
    ensures es[i].write.payload.Some? && es[i].session.binding.projectID == Run(t, es[..i]).projectID
  {
    var log := HistoryOf(t, es)[c];
    i := Provenance(t, es, c, |log| - 1);
    ApplyIsAdmitted(Run(t, es[..i]), es[i].session, es[i].write, es[i].env);
    forall j | i < j < |es| && AppliedAt(t, es, j) ensures es[j].write.chartID != c {
      if es[j].write.chartID == c {
        AppliedExpects(t, es, i);
        HistoryGrows(t, es, i + 1, j, c);
        var k := AppliedPosition(t, es, j);
        assert false;
      }
    }
  }

  lemma {:induction false} ProjectStays(t: Tables, es: seq<Event>)
    ensures Run(t, es).projectID == t.projectID
    decreases |es|
  {
    if es != [] { ProjectStays(t, es[..|es| - 1]); }
  }

  /** After any run a read returns the scope, links and title that the last applied save of the chart submitted. */
  lemma ReadReturnsLastSubmission(t: Tables, es: seq<Event>, s: Session, c: string, env: Env) returns (i: nat)
    requires Fresh(t) && c in HistoryOf(t, es) && Run(t, es).schema.Present?
    requires !s.closed && IsIdentifier(c) && !env.failsEarly
    requires s.copyID == Run(t, es).schema.copyID && s.binding.projectID == Run(t, es).projectID
    ensures LastApplied(t, es, i, c) && es[i].write.payload.Some?
    ensures Read(Run(t, es), s, c, env).Ok?
    ensures Holds(Read(Run(t, es), s, c, env).value, t.projectID, es[i].write, |HistoryOf(t, es)[c]|)
  {
    ReadReturnsLastWrite(t, es, s, c, env);
    i := LastEntryIsLastApplied(t, es, c);
    ProjectStays(t, es[..i]);
    NormalizedIsAlike(es[i].write.payload.value.root);
  }

  // ---------- What is audited ----------

  lemma StepKeepsAudit(t: Tables, e: Event)
    ensures t.audit <= Step(t, e).audit
  {
  }

  lemma {:induction false} AuditOnlyGrows(t: Tables, es: seq<Event>, n: nat)
    requires n <= |es|
    ensures Run(t, es[..n]).audit <= Run(t, es).audit
    decreases |es| - n
  {
    if n == |es| {
      assert es[..n] == es;
    } else {
      HistoryStep(t, es, n);
      StepKeepsAudit(Run(t, es[..n]), es[n]);
      AuditOnlyGrows(t, es, n + 1);
    }
  }

  /** Every applied save is audited once and for all, under its own actor and session. */
  lemma AppliedIsAudited(t: Tables, es: seq<Event>, i: nat)
    requires i < |es| && AppliedAt(t, es, i)
    ensures var e := es[i];
            AuditRow(e.env.freshID, if e.write.create then "chart.create" else "chart.update", e.write.chartID,
                     e.session.binding.actorID, e.session.binding.lifetimeID) in Run(t, es).audit
  {
    var e := es[i];
    HistoryStep(t, es, i);
    ApplyIsAdmitted(Run(t, es[..i]), e.session, e.write, e.env);
    var audit := Run(t, es[..i + 1]).audit;
    assert audit[|audit| - 1].id == e.env.freshID;
    AuditOnlyGrows(t, es, i + 1);
  }

  // ---------- When a save is applied ----------

  /** The session's own checks of a request. */
  predicate HasAddress(s: Session, w: Write) {
    && !s.closed && w.copyID == s.copyID && w.lifetimeID == s.binding.lifetimeID
    && IsIdentifier(w.chartID) && IsIdentifier(w.requestID) && |w.title| <= 65536
  }

  /** They pass, and so do the request's checks of itself. */
  predicate WellAddressed(s: Session, w: Write) {
    HasAddress(s, w) && w.payload.Some? && w.payload.value.revision == w.expected
  }

  /** The request fits the chart's history h, and nothing fails. */
  predicate Acceptable(t: Tables, h: History, s: Session, w: Write, env: Env) {
    && t.schema.Present? && s.copyID == t.schema.copyID && s.binding.projectID == t.projectID
    && WellAddressed(s, w) && w.payload.value.links == []
    && (w.chartID, w.requestID) !in t.schema.receipts
    && w.expected == Format(|Of(h, w.chartID)|) && |Of(h, w.chartID)| < 0xFFFF_FFFF_FFFF_FFFF
    && (if w.create then w.chartID !in t.charts else w.chartID in h)
    && !env.failsEarly && !env.failsLate && env.freshID !in AuditIDs(t.audit)
  }

  lemma AppliedIsAcceptable(t: Tables, h: History, s: Session, w: Write, env: Env)
    requires Represents(t, h) && Decide(t, s, w, env).Apply?
    ensures Acceptable(t, h, s, w, env)
  {
    ApplyIsAdmitted(t, s, w, env);
    AdmittedRevision(t, h, s, w, Decide(t, s, w, env).next, env.freshID);
    NextRevisionIsSuccessor(|Of(h, w.chartID)|);
  }

  lemma AcceptableIsApplied(t: Tables, h: History, s: Session, w: Write, env: Env)
    requires Represents(t, h) && Acceptable(t, h, s, w, env)
    ensures Decide(t, s, w, env).Apply?
  {
    assert Format(0) == "0";
    if w.create && w.chartID in h { CurrentRecord(t, h, w.chartID); }
    CurrentRevisionIsAccepted(t, h, s, w, env);
  }

  /**
   In every reachable state a save is applied exactly when it is well addressed to this copy, carries no links,
   its request identity has no receipt, its expected revision is the number of writes applied to the chart, and
   nothing fails.
   */
  lemma SaveIsAppliedIff(t: Tables, h: History, s: Session, w: Write, env: Env)
    requires Represents(t, h)
    ensures Decide(t, s, w, env).Apply? <==> Acceptable(t, h, s, w, env)
  {
    if Decide(t, s, w, env).Apply? { AppliedIsAcceptable(t, h, s, w, env); }
    if Acceptable(t, h, s, w, env) { AcceptableIsApplied(t, h, s, w, env); }
  }

  /** In every reachable state a read is answered exactly for a chart of the history, by an open store of this copy. */
  lemma ReadIsAnsweredIff(t: Tables, h: History, s: Session, c: string, env: Env)
    requires Represents(t, h)
    ensures Read(t, s, c, env).Ok? <==>
              && t.schema.Present? && s.copyID == t.schema.copyID && s.binding.projectID == t.projectID
              && !s.closed && IsIdentifier(c) && c in h && !env.failsEarly
  {
    if t.schema.Present? && c in h { CurrentRecord(t, h, c); }
  }

  /** A save that is not well addressed, or not to this copy, changes nothing and is refused. */
  lemma MisaddressedIsRefused(t: Tables, s: Session, w: Write, env: Env)
    requires !WellAddressed(s, w) || !t.schema.Present? || s.copyID != t.schema.copyID
             || s.binding.projectID != t.projectID
    ensures Save(t, s, w, env).0 == t && Save(t, s, w, env).1.Err?
  {
  }

  // ---------- How requests are refused, and stores opened ----------

  /** An identifier is not blank and not too long. */
  lemma IdentifierIff(v: string)
    ensures IsIdentifier(v) <==> TrimSpace(v) != "" && |v| <= 256
  {
    var i, j := TrimSpaceTakesTheMiddle(v);
    if i < j { assert !IsSpace(v[i]); }
  }

  /** A well-addressed request to this copy under a new identity. */
  predicate IsNew(t: Tables, s: Session, w: Write, env: Env) {
    && t.schema.Present? && s.copyID == t.schema.copyID && s.binding.projectID == t.schema.copyProject == t.projectID
    && WellAddressed(s, w) && (w.create ==> w.expected == "0") && !env.failsEarly
    && (w.chartID, w.requestID) !in t.schema.receipts
  }

  /** Links are refused; so is creating a chart that exists, or updating one that does not. */
  lemma RefusalsNameTheirCause(t: Tables, s: Session, w: Write, env: Env)
    requires IsNew(t, s, w, env)
    ensures w.payload.value.links != [] ==> Save(t, s, w, env) == (t, Err(Associations))
    ensures w.payload.value.links == [] ==>
              && (w.create && w.chartID in t.charts ==> Save(t, s, w, env) == (t, Err(RevisionConflict)))
              && (!w.create && w.chartID !in t.charts ==> Save(t, s, w, env) == (t, Err(NotFound)))
  {
  }

  lemma OtherChartsAreForeign(t: Tables, h: History, s: Session, w: Write, env: Env)
    requires Represents(t, h) && IsNew(t, s, w, env) && w.payload.value.links == []
    requires !w.create && w.chartID in t.charts && w.chartID !in h
    ensures Save(t, s, w, env) == (t, Err(InvalidBinding))
  {
  }

  lemma OtherRevisionsConflict(t: Tables, s: Session, w: Write, env: Env, current: string)
    requires IsNew(t, s, w, env) && w.payload.value.links == [] && !w.create && w.expected != current
    requires ReadRecord(t, w.chartID, t.projectID).Ok? && ReadRecord(t, w.chartID, t.projectID).value.1 == current
    ensures Save(t, s, w, env) == (t, Err(RevisionConflict))
  {
  }

  /** In every reachable state an update conflicts unless it expects the number of writes applied to its chart. */
  lemma StaleUpdatesConflict(t: Tables, h: History, s: Session, w: Write, env: Env)
    requires Represents(t, h) && IsNew(t, s, w, env) && w.payload.value.links == []
    requires !w.create && w.chartID in h && w.expected != Format(|h[w.chartID]|)
    ensures Save(t, s, w, env) == (t, Err(RevisionConflict))
  {
    CurrentRecord(t, h, w.chartID);
    OtherRevisionsConflict(t, s, w, env, Format(|h[w.chartID]|));
  }

  /** Where the request itself is at fault, the refusal says whether its address, its payload or its revision is. */
  lemma BadRequestsAreRefused(t: Tables, s: Session, w: Write, env: Env)
    ensures !HasAddress(s, w) ==> Save(t, s, w, env) == (t, Err(InvalidBinding))
    ensures HasAddress(s, w) && w.payload.None? ==> Save(t, s, w, env) == (t, Err(InvalidPayload))
    ensures HasAddress(s, w) && w.payload.Some?
            && (w.payload.value.revision != w.expected || (w.create && w.expected != "0")) ==>
              Save(t, s, w, env) == (t, Err(InvalidRevision))
  {
  }

  /** In every reachable state opening succeeds exactly for the project's own binding; the first makes the tables. */
  lemma OpeningSucceedsIff(t: Tables, h: History, binding: Binding, env: Env)
    requires Represents(t, h)
    ensures var (t', r) := Open(t, binding, env);
            && (r.Ok? <==>
                  && IsIdentifier(binding.projectID) && IsIdentifier(binding.actorID)
                  && IsIdentifier(binding.lifetimeID) && binding.projectID == t.projectID
                  && (t.schema.Absent? ==> IsIdentifier(env.freshID))
                  && !env.failsEarly && !env.failsLate && env.commit.Acknowledged?)
            && (r.Ok? ==>
                  && t'.charts == t.charts && t'.audit == t.audit && t'.projectID == t.projectID
                  && (t.schema.Absent? ==> t'.schema == Present(env.freshID, t.projectID, map[], map[]))
                  && (t.schema.Present? ==> t'.schema == t.schema)
                  && r.value == Session(binding, t'.schema.copyID, false))
  {
    if t.schema.Present? {
      forall id | id in WbsChartIDs(t) ensures ReadRecord(t, id, t.projectID).Ok? { CurrentRecord(t, h, id); }
    }
  }

  /** A file is not opened while it has WBS charts but none of the store's tables, or only some of them. */
  lemma FilesWithoutTablesStayClosed(t: Tables, binding: Binding, env: Env)
    requires t.schema.Incomplete? || (t.schema.Absent? && exists id :: id in t.charts && t.charts[id].kind == "wbs_v2")
    ensures Open(t, binding, env).0 == t && Open(t, binding, env).1.Err?
  {
  }

  /** A file is not opened while a WBS chart in it has no readable record, or a record no chart. */
  lemma UnreadableFilesStayClosed(t: Tables, binding: Binding, env: Env, id: string)
    requires t.schema.Present? && ((id in t.charts && t.charts[id].kind == "wbs_v2") || id in t.schema.records)
    requires id !in t.charts || id !in t.schema.records || t.charts[id].kind != "wbs_v2" || !t.charts[id].body.Scope?
             || t.charts[id].projectID != t.projectID || t.charts[id].body.aggregate.revision != t.schema.records[id]
    ensures Open(t, binding, env).0 == t && Open(t, binding, env).1.Err?
  {
    if binding.projectID == t.projectID {
      assert id in WbsChartIDs(t) && ReadRecord(t, id, binding.projectID).Err?;
    }
  }

  // ---------- Ordinary chart writes ----------

  /** Whether the ordinary writer may touch the chart. */
  predicate Ordinary(t: Tables, chartID: string) {
    chartID in t.charts ==>
      && t.charts[chartID].kind != "wbs_v2" && t.charts[chartID].body.Json?
      && !(t.charts[chartID].body.hasRoot && t.charts[chartID].body.hasSchemaVersion)
      && (t.schema.Present? ==> chartID !in t.schema.records)
  }

  /**
   An ordinary save that reaches the tables stores its kind, title and body, keeps the project of a chart that
   was there, touches no other chart and no WBS table, and adds one audit row.
   */
  lemma OrdinarySaveStores(t: Tables, chartID: string, c: Chart, env: Env)
    ensures var t' := SaveChart(t, chartID, c, env).0;
            t' != t ==>
              && Ordinary(t, chartID) && c.kind != "wbs_v2"
              && c.body.Json? && !(c.body.hasRoot && c.body.hasSchemaVersion)
              && t'.charts.Keys == t.charts.Keys + {chartID}
              && t'.charts[chartID].kind == c.kind && t'.charts[chartID].title == c.title
              && t'.charts[chartID].body == c.body
              && t'.charts[chartID].projectID == (if chartID in t.charts then t.charts[chartID] else c).projectID
              && (forall d :: d in t.charts && d != chartID ==> t'.charts[d] == t.charts[d])
              && t'.schema == t.schema && t'.projectID == t.projectID
              && t'.audit == t.audit + [AuditRow(env.freshID,
                                                 if chartID in t.charts then "chart.update" else "chart.create",
                                                 chartID, "", "")]
    ensures SaveChart(t, chartID, c, env).1.Ok? <==>
              && Ordinary(t, chartID) && c.kind != "wbs_v2"
              && c.body.Json? && !(c.body.hasRoot && c.body.hasSchemaVersion)
              && (if chartID in t.charts then t.charts[chartID] else c).projectID != ""
              && !env.failsEarly && !env.failsLate && env.freshID !in AuditIDs(t.audit) && env.commit.Acknowledged?
    ensures SaveChart(t, chartID, c, env).1.Ok? ==> SaveChart(t, chartID, c, env).0 != t
  {
    var t' := SaveChart(t, chartID, c, env).0;
    if SaveChart(t, chartID, c, env).1.Ok? { assert |t'.audit| == |t.audit| + 1; }
  }

  /** An ordinary delete that reaches the tables takes that one chart and adds one audit row. */
  lemma OrdinaryDeleteRemoves(t: Tables, chartID: string, env: Env)
    ensures var t' := DeleteChart(t, chartID, env).0;
            t' != t ==>
              && chartID in t.charts && Ordinary(t, chartID) && t'.charts == t.charts - {chartID}
              && t'.schema == t.schema && t'.projectID == t.projectID
              && t'.audit == t.audit + [AuditRow(env.freshID, "chart.delete", chartID, "", "")]
    ensures DeleteChart(t, chartID, env).1.Ok? ==> chartID !in DeleteChart(t, chartID, env).0.charts
    ensures DeleteChart(t, chartID, env).1.Ok? <==>
              && !env.failsEarly && !env.failsLate && env.commit.Acknowledged?
              && (chartID in t.charts ==>
                    Ordinary(t, chartID) && t.charts[chartID].projectID != "" && env.freshID !in AuditIDs(t.audit))
  {
  }
}
