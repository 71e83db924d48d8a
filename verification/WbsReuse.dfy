/**
 A run showing that an applied write, resubmitted unchanged, can also be answered "request identity
 reused": 257 writes push its receipt out, and the 258th takes its identity.
 */
module WbsReuse {
  import opened Wrappers
  import Text
  import opened Decimal
  import opened WbsStore
  import opened WbsHistory
  import opened WbsRuns
  import opened WbsGuarantees

  const START := Tables("p", map[], Absent, [])
  const OWNER := Session(Binding("p", "a", "l"), "copy", false)
  const CYCLE: nat := RECEIPT_LIMIT + 1

  function Steady(freshID: string): Env {
    Env(freshID, false, false, Acknowledged)
  }

  /** The i-th write; identities repeat after CYCLE writes. */
  function WriteAt(i: nat): Write {
    Write("copy", "c", "l", Format(i % CYCLE), Format(i), i == 0, "t",
          Some(Aggregate(Format(i), Node("n", "t", None, []), [])))
  }

  function EventAt(i: nat): Event {
    if i == 0 then OpenStore(OWNER.binding, Steady("copy")) else SaveWbs(OWNER, WriteAt(i - 1), Steady(Format(i)))
  }

  /** The store is opened, then n writes are made. */
  function Writes(n: nat): seq<Event> {
    seq(n + 1, i requires i >= 0 => EventAt(i))
  }

  lemma WritesGrow(n: nat)
    requires n > 0
    ensures Writes(n) == Writes(n - 1) + [EventAt(n)]
  {
  }

  lemma StartIsFresh()
    ensures Fresh(START)
    ensures IsIdentifier("p") && IsIdentifier("a") && IsIdentifier("l") && IsIdentifier("copy") && IsIdentifier("c")
  {
    assert !Text.IsSpace("p"[0]) && !Text.IsSpace("a"[0]) && !Text.IsSpace("l"[0]);
    assert !Text.IsSpace("copy"[0]) && !Text.IsSpace("c"[0]);
  }

  /** After the n writes: their identities in order, and no other chart or audit event. */
  ghost predicate Progressed(es: seq<Event>, n: nat) {
    var t, log := Run(START, es), Of(HistoryOf(START, es), "c");
    && t.schema.Present? && t.schema.copyID == "copy" && t.projectID == "p"
    && (forall id :: id in t.charts ==> id == "c" && n > 0)
    && |log| == n
    && (forall k :: 0 <= k < n ==> log[k].requestID == Format(k % CYCLE))
    && Numbered(AuditIDs(t.audit), n)
  }

  /** Only numbers up to n identify audit events so far. */
  ghost predicate Numbered(ids: set<string>, n: nat) {
    forall id :: id in ids ==> exists k :: 1 <= k <= n && id == Format(k)
  }

  lemma OneMoreNumber(ids: set<string>, n: nat)
    requires Numbered(ids, n)
    ensures Numbered(ids + {Format(n + 1)}, n + 1)
  {
    var more := ids + {Format(n + 1)};
    forall id | id in more ensures exists k :: 1 <= k <= n + 1 && id == Format(k) {
      if id in ids {
        var k :| 1 <= k <= n && id == Format(k);
      } else {
        assert id == Format(n + 1);
      }
    }
  }

  lemma Opened()
    ensures Progressed(Writes(0), 0)
  {
    StartIsFresh();
    assert Writes(0) == [EventAt(0)];
    assert Writes(0)[..0] == [];
  }

  lemma ShortIdentifier(k: nat)
    requires k < CYCLE
    ensures IsIdentifier(Format(k))
  {
    var s := Format(k);
    FormatRoundTrip(k);
    assert !Text.IsSpace(s[0]) by { assert IsDigit(s[0]); }
    assert Pow10(3) == 1000;
    ValueBounds(s);
    if |s| > 3 { Pow10Monotone(3, |s| - 1); }
  }

  lemma CycleDiffers(k: nat, n: nat)
    requires Oldest(n) <= k < n <= CYCLE
    ensures Format(k % CYCLE) != Format(n % CYCLE)
  {
    assert k % CYCLE == k;
    assert n < CYCLE ==> n % CYCLE == n;
    assert n == CYCLE ==> n % CYCLE == 0 && k > 0;
    if Format(k % CYCLE) == Format(n % CYCLE) { FormatInjective(k % CYCLE, n % CYCLE); }
  }

  lemma NextIdentityIsFree(t: Tables, es: seq<Event>, c: string, n: nat)
    requires Fresh(t) && n <= CYCLE && |Of(HistoryOf(t, es), c)| == n
    requires forall k :: 0 <= k < n ==> Of(HistoryOf(t, es), c)[k].requestID == Format(k % CYCLE)
    requires Run(t, es).schema.Present?
    ensures (c, Format(n % CYCLE)) !in Run(t, es).schema.receipts
  {
    var key := (c, Format(n % CYCLE));
    if key in Run(t, es).schema.receipts {
      var k := ReceiptInHistory(t, es, key);
      CycleDiffers(k, n);
      assert false;
    }
  }

  lemma WriteIsAccepted(n: nat)
    requires n <= CYCLE && Progressed(Writes(n), n)
    ensures var d := Decide(Run(START, Writes(n)), OWNER, WriteAt(n), Steady(Format(n + 1)));
            d == Apply(Format(n), Format(n + 1))
  {
    StartIsFresh();
    var t, h := Run(START, Writes(n)), HistoryOf(START, Writes(n));
    ShortIdentifier(n % CYCLE);
    NextIdentityIsFree(START, Writes(n), "c", n);
    if Format(n + 1) in AuditIDs(t.audit) {
      var k :| 1 <= k <= n && Format(n + 1) == Format(k);
      FormatInjective(n + 1, k);
      assert false;
    }
    RunRepresents(START, Writes(n));
    if n == 0 {
      if "c" in h { PriorReceipts(t, h, "c"); assert false; }
    }
    assert Format(0) == "0";
    CurrentRevisionIsAccepted(t, h, OWNER, WriteAt(n), Steady(Format(n + 1)));
  }

  lemma AppliedStep(t: Tables, es: seq<Event>, e: Event)
    requires Applies(Run(t, es), e)
    ensures var before, after := Run(t, es), Run(t, es + [e]);
            && before.schema.Present? && after.schema.Present? && after.schema.copyID == before.schema.copyID
            && after.projectID == before.projectID
            && after.charts.Keys == before.charts.Keys + {e.write.chartID}
            && AuditIDs(after.audit) == AuditIDs(before.audit) + {e.env.freshID}
    ensures e.write.payload.Some?
    ensures Of(HistoryOf(t, es + [e]), e.write.chartID) == Of(HistoryOf(t, es), e.write.chartID) + [AppliedBy(e)]
  {
    assert (es + [e])[..|es|] == es;
    var before := Run(t, es);
    SaveOutcome(before, e);
    var row := Run(t, es + [e]).audit[|before.audit|];
    assert AuditIDs(before.audit + [row]) == AuditIDs(before.audit) + {row.id};
  }

  lemma ProgressStep(es: seq<Event>, e: Event, n: nat)
    requires Progressed(es, n) && Applies(Run(START, es), e)
    requires e.write.chartID == "c" && e.write.requestID == Format(n % CYCLE) && e.env.freshID == Format(n + 1)
    ensures Progressed(es + [e], n + 1)
  {
    AppliedStep(START, es, e);
    OneMoreNumber(AuditIDs(Run(START, es).audit), n);
  }

  lemma NextProgressed(n: nat)
    requires n <= CYCLE && Progressed(Writes(n), n)
    ensures Progressed(Writes(n + 1), n + 1)
  {
    WriteIsAccepted(n);
    WritesGrow(n + 1);
    ProgressStep(Writes(n), EventAt(n + 1), n);
  }

  lemma {:induction false} AllProgressed(n: nat)
    requires n <= CYCLE + 1
    ensures Progressed(Writes(n), n)
  {
    if n == 0 { Opened(); } else { AllProgressed(n - 1); NextProgressed(n - 1); }
  }

  lemma FirstWriteApplied(es: seq<Event>)
    requires |es| > 1 && es[..1] == Writes(0) && es[1] == EventAt(1)
    ensures AppliedAt(START, es, 1) && SameWrite(es[1], SaveWbs(OWNER, WriteAt(0), Steady("x")))
    ensures Of(HistoryOf(START, es[..1]), "c") == []
  {
    Opened();
    WriteIsAccepted(0);
  }

  lemma IdentityTaken(t: Tables, es: seq<Event>, i: nat, s: Session, w: Write, env: Env)
    requires Fresh(t) && i < |es| && AppliedAt(t, es, i) && SameWrite(es[i], SaveWbs(s, w, env))
    requires Addressed(s, w) && !env.failsEarly
    requires |Of(HistoryOf(t, es), w.chartID)| - |Of(HistoryOf(t, es[..i]), w.chartID)| - 1 >= RECEIPT_LIMIT
    requires Run(t, es).schema.Present? && (w.chartID, w.requestID) in Run(t, es).schema.receipts
    ensures Save(Run(t, es), s, w, env) == (Run(t, es), Err(RequestReuse))
  {
    ResubmissionIsSafe(t, es, i, s, w, env);
  }

  lemma OwnerAddresses()
    ensures Addressed(OWNER, WriteAt(0))
  {
    StartIsFresh();
    ShortIdentifier(0);
  }

  /** The first write was applied, its receipt is gone, and its identity now belongs to the last write. */
  lemma AppliedWriteCanBeRefusedAsReuse(es: seq<Event>)
    requires es == Writes(CYCLE + 1)
    ensures Fresh(START) && AppliedAt(START, es, 1)
    ensures SameWrite(es[1], SaveWbs(OWNER, WriteAt(0), Steady("x")))
    ensures Save(Run(START, es), OWNER, WriteAt(0), Steady("x")).1 == Err(RequestReuse)
  {
    assert es[..1] == Writes(0) && es[1] == EventAt(1);
    StartIsFresh();
    FirstWriteApplied(es);
    AllProgressed(CYCLE + 1);
    OwnerAddresses();
    LastHoldsIdentity(es);
    IdentityTaken(START, es, 1, OWNER, WriteAt(0), Steady("x"));
  }

  lemma LastHoldsIdentity(es: seq<Event>)
    requires |Of(HistoryOf(START, es), "c")| == CYCLE + 1
    requires Of(HistoryOf(START, es), "c")[CYCLE].requestID == Format(CYCLE % CYCLE)
    ensures Run(START, es).schema.Present? && ("c", Format(0)) in Run(START, es).schema.receipts
  {
    StartIsFresh();
    RecentReceiptHeld(START, es, "c", CYCLE);
  }
}
