/**
 The per-project audit hash chain (internal/db/audit.go). The digest is any function from the hashed
 fields to text; results that need it collision-free name the collision instead.
 */
module AuditChain {
  import opened Money
  import opened Wrappers

  /** The fields that enter the hash: all but the row id and the hash itself. */
  datatype Body = Body(projectID: string, sequence: int, previousHash: string, eventType: string,
                       entityType: string, entityID: string, before: string, after: string,
                       userID: string, sessionID: string, timestamp: string,
                       signatureStatus: string, signatureBlob: string)

  datatype Event = Event(id: string, eventHash: string, body: Body)

  datatype Input = Input(projectID: string, eventType: string, entityType: string, entityID: string,
                         before: string, after: string, userID: string, sessionID: string,
                         signatureStatus: string, signatureBlob: string)

  /** SHA-256 over the previous hash and the JSON of the fields; and JSON re-encoding, None when invalid. */
  datatype Codec = Codec(hash: Body -> string, json: string -> Option<string>)

  // ---------- The query: one project's rows in sequence order ----------

  function OfProject(table: seq<Event>, p: string): seq<Event> {
    if table == [] then []
    else var rest := OfProject(table[..|table| - 1], p);
         var e := table[|table| - 1];
         if e.body.projectID == p then rest + [e] else rest
  }

  function InsertBySequence(e: Event, rows: seq<Event>): seq<Event> {
    if rows == [] then [e]
    else if rows[|rows| - 1].body.sequence <= e.body.sequence then rows + [e]
    else InsertBySequence(e, rows[..|rows| - 1]) + [rows[|rows| - 1]]
  }

  function BySequence(rows: seq<Event>): seq<Event> {
    if rows == [] then [] else InsertBySequence(rows[|rows| - 1], BySequence(rows[..|rows| - 1]))
  }

  function Chain(table: seq<Event>, p: string): seq<Event> {
    BySequence(OfProject(table, p))
  }

  // ---------- Appending ----------

  function CanonicalJSON(codec: Codec, raw: string): Option<string> {
    if raw == "" then Some("null") else codec.json(raw)
  }

  function Terminal(rows: seq<Event>): string {
    if rows == [] then "" else rows[|rows| - 1].eventHash
  }

  /** int64 successor. */
  function NextSequence(rows: seq<Event>): int {
    if rows == [] then 1
    else if rows[|rows| - 1].body.sequence == MAX_INT64 then MIN_INT64
    else rows[|rows| - 1].body.sequence + 1
  }

  /** Sequence numbers count up, as 64-bit integers do. */
  lemma SequencesCountUp(rows: seq<Event>)
    ensures NextSequence([]) == 1
    ensures rows != [] && Fits(rows[|rows| - 1].body.sequence) ==>
              NextSequence(rows) == Wrap(rows[|rows| - 1].body.sequence + 1)
  {
    if rows != [] { WrapKeepsInRange(rows[|rows| - 1].body.sequence + 1); }
  }

  function NewEvent(codec: Codec, rows: seq<Event>, in0: Input, before: string, after: string,
                    id: string, timestamp: string): Event {
    var status := if in0.signatureStatus == "" then "unsigned" else in0.signatureStatus;
    var body := Body(in0.projectID, NextSequence(rows), Terminal(rows), in0.eventType, in0.entityType, in0.entityID,
                     before, after, in0.userID, in0.sessionID, timestamp, status, in0.signatureBlob);
    Event(id, codec.hash(body), body)
  }

  /** The PRIMARY KEY on id and UNIQUE(project_id, sequence_number). */
  predicate Insertable(table: seq<Event>, e: Event) {
    forall i :: 0 <= i < |table| ==>
      table[i].id != e.id
      && !(table[i].body.projectID == e.body.projectID && table[i].body.sequence == e.body.sequence)
  }

  function Append(codec: Codec, table: seq<Event>, in0: Input, id: string, timestamp: string): Option<Event> {
    if in0.projectID == "" || in0.eventType == "" || in0.entityType == "" then None else
    match (CanonicalJSON(codec, in0.before), CanonicalJSON(codec, in0.after))
    case (Some(before), Some(after)) =>
      var e := NewEvent(codec, Chain(table, in0.projectID), in0, before, after, id, timestamp);
      if Insertable(table, e) then Some(e) else None
    case _ => None
  }

  // ---------- Verifying ----------

  function HashBefore(rows: seq<Event>, i: int): string
    requires 0 <= i <= |rows|
  {
    if i == 0 then "" else rows[i - 1].eventHash
  }

  predicate LinkedAt(hash: Body -> string, rows: seq<Event>, i: int)
    requires 0 <= i < |rows|
  {
    && rows[i].body.sequence == i + 1
    && rows[i].body.previousHash == HashBefore(rows, i)
    && hash(rows[i].body) == rows[i].eventHash
  }

  predicate IntactTo(hash: Body -> string, rows: seq<Event>, n: int)
    requires 0 <= n <= |rows|
  {
    forall i :: 0 <= i < n ==> LinkedAt(hash, rows, i)
  }

  predicate Intact(hash: Body -> string, rows: seq<Event>) {
    IntactTo(hash, rows, |rows|)
  }

  datatype Reason = Gap | BrokenLink | BadHash

  datatype Report = Report(projectID: string, checked: nat, valid: bool, firstInvalidSequence: int,
                           firstInvalidID: string, reason: Option<Reason>, terminalHash: string)

  /** The reason names the first check of row i that fails. */
  ghost predicate Explains(hash: Body -> string, rows: seq<Event>, i: int, reason: Reason)
    requires 0 <= i < |rows|
  {
    var inPlace := rows[i].body.sequence == i + 1;
    var linked := rows[i].body.previousHash == HashBefore(rows, i);
    && (reason.Gap? <==> !inPlace)
    && (reason.BrokenLink? <==> inPlace && !linked)
    && (reason.BadHash? <==> inPlace && linked && hash(rows[i].body) != rows[i].eventHash)
  }

  /** An intact chain is counted whole; otherwise the report names its earliest bad row and the hash before it. */
  ghost predicate Reports(hash: Body -> string, p: string, rows: seq<Event>, r: Report) {
    && r.projectID == p
    && (r.valid <==> Intact(hash, rows))
    && (r.valid ==> r == Report(p, |rows|, true, 0, "", None, Terminal(rows)))
    && (!r.valid ==>
          && 0 < r.checked <= |rows|
          && IntactTo(hash, rows, r.checked - 1)
          && !LinkedAt(hash, rows, r.checked - 1)
          && r == Report(p, r.checked, false, rows[r.checked - 1].body.sequence, rows[r.checked - 1].id,
                         r.reason, HashBefore(rows, r.checked - 1))
          && r.reason.Some? && Explains(hash, rows, r.checked - 1, r.reason.value))
  }

  method Verify(hash: Body -> string, table: seq<Event>, p: string) returns (report: Report)
    ensures Reports(hash, p, Chain(table, p), report)
  {
    var rows := Chain(table, p);
    report := Report(p, 0, true, 0, "", None, "");
    var previousHash := "";
    var expected := 1;
    for i := 0 to |rows|
      invariant expected == i + 1 && previousHash == HashBefore(rows, i)
      invariant report == Report(p, i, true, 0, "", None, previousHash)
      invariant IntactTo(hash, rows, i)
    {
      var e := rows[i];
      report := report.(checked := report.checked + 1);
      if e.body.sequence != expected {
        assert !LinkedAt(hash, rows, i);
        return Invalid(report, e, Gap);
      }
      if e.body.previousHash != previousHash {
        assert !LinkedAt(hash, rows, i);
        return Invalid(report, e, BrokenLink);
      }
      if hash(e.body) != e.eventHash {
        assert !LinkedAt(hash, rows, i);
        return Invalid(report, e, BadHash);
      }
      previousHash := e.eventHash;
      report := report.(terminalHash := previousHash);
      expected := expected + 1;
    }
  }

  function Invalid(report: Report, e: Event, reason: Reason): Report {
    report.(valid := false, firstInvalidSequence := e.body.sequence, firstInvalidID := e.id, reason := Some(reason))
  }

  /** A file that predates the table has an empty valid chain. */
  method ReadChain(hash: Body -> string, table: Option<seq<Event>>, p: string) returns (report: Report)
    ensures Reports(hash, p, if table.Some? then Chain(table.value, p) else [], report)
  {
    if table.None? { return Report(p, 0, true, 0, "", None, ""); }
    report := Verify(hash, table.value, p);
  }

  datatype Request = Request(input: Input, id: string, timestamp: string)

  /** The text stored for a JSON value: null when there is none, else its re-encoding. */
  predicate Encodes(codec: Codec, raw: string, stored: string) {
    if raw == "" then stored == "null" else codec.json(raw) == Some(stored)
  }

  /** The row holds what the request asked to record. */
  predicate Carries(codec: Codec, e: Event, r: Request) {
    && e.id == r.id && e.body.timestamp == r.timestamp
    && e.body.projectID == r.input.projectID && e.body.eventType == r.input.eventType
    && e.body.entityType == r.input.entityType && e.body.entityID == r.input.entityID
    && e.body.userID == r.input.userID && e.body.sessionID == r.input.sessionID
    && Encodes(codec, r.input.before, e.body.before) && Encodes(codec, r.input.after, e.body.after)
    && e.body.signatureStatus == (if r.input.signatureStatus == "" then "unsigned" else r.input.signatureStatus)
    && e.body.signatureBlob == r.input.signatureBlob
  }

  lemma AppendedRowCarriesItsRequest(codec: Codec, table: seq<Event>, r: Request)
    requires Append(codec, table, r.input, r.id, r.timestamp).Some?
    ensures Carries(codec, Append(codec, table, r.input, r.id, r.timestamp).value, r)
  {
  }

  function Appended(codec: Codec, table: seq<Event>, r: Request): seq<Event> {
    match Append(codec, table, r.input, r.id, r.timestamp)
    case Some(e) => table + [e]
    case None => table
  }

  /** The audit_events table as its writers see it. */
  class AuditLog {
    var table: seq<Event>

    constructor ()
      ensures table == []
    {
      table := [];
    }

    method AppendEvent(codec: Codec, r: Request) returns (added: Option<Event>)
      modifies this
      ensures added == Append(codec, old(table), r.input, r.id, r.timestamp)
      ensures table == Appended(codec, old(table), r)
      ensures added.Some? ==> Carries(codec, added.value, r)
    {
      var input := r.input;
      if input.projectID == "" || input.eventType == "" || input.entityType == "" { return None; }
      var before := CanonicalJSON(codec, input.before);
      if before.None? { return None; }
      var after := CanonicalJSON(codec, input.after);
      if after.None? { return None; }
      if input.signatureStatus == "" { input := input.(signatureStatus := "unsigned"); }
      var rows := Chain(table, input.projectID);
      var previousHash, sequence := "", 1;
      if rows != [] {
        var last := rows[|rows| - 1];
        previousHash := last.eventHash;
        sequence := if last.body.sequence == MAX_INT64 then MIN_INT64 else last.body.sequence + 1;
      }
      var body := Body(input.projectID, sequence, previousHash, input.eventType, input.entityType, input.entityID,
                       before.value, after.value, input.userID, input.sessionID, r.timestamp,
                       input.signatureStatus, input.signatureBlob);
      var e := Event(r.id, codec.hash(body), body);
      if !Insertable(table, e) { return None; }
      table := table + [e];
      added := Some(e);
    }
  }

  // ---------- Every interleaving of appends yields chains the verifier accepts ----------

  /** Appends to any projects, in any order; refused ones leave the table alone. */
  function Run(codec: Codec, rs: seq<Request>): seq<Event> {
    if rs == [] then [] else Appended(codec, Run(codec, rs[..|rs| - 1]), rs[|rs| - 1])
  }

  lemma {:induction false} InOrderIsFixed(rows: seq<Event>)
    requires forall i :: 0 <= i < |rows| ==> rows[i].body.sequence == i + 1
    ensures BySequence(rows) == rows
  {
    if rows != [] {
      InOrderIsFixed(rows[..|rows| - 1]);
      assert rows == rows[..|rows| - 1] + [rows[|rows| - 1]];
    }
  }

  lemma OfProjectSnoc(table: seq<Event>, e: Event, p: string)
    ensures OfProject(table + [e], p) == OfProject(table, p) + (if e.body.projectID == p then [e] else [])
  {
    assert (table + [e])[..|table|] == table;
  }

  lemma {:induction false} OfProjectShorter(table: seq<Event>, p: string)
    ensures |OfProject(table, p)| <= |table|
  {
    if table != [] { OfProjectShorter(table[..|table| - 1], p); }
  }

  ghost predicate Healthy(codec: Codec, table: seq<Event>, p: string) {
    Chain(table, p) == OfProject(table, p) && Intact(codec.hash, Chain(table, p))
  }

  lemma AppendKeepsHealthy(codec: Codec, table: seq<Event>, r: Request, p: string)
    requires Healthy(codec, table, p) && |table| < MAX_INT64
    requires Append(codec, table, r.input, r.id, r.timestamp).Some?
    ensures Healthy(codec, Appended(codec, table, r), p)
    ensures |Chain(Appended(codec, table, r), p)| == |Chain(table, p)| + (if r.input.projectID == p then 1 else 0)
  {
    var e := Append(codec, table, r.input, r.id, r.timestamp).value;
    var rows := OfProject(table, p);
    OfProjectSnoc(table, e, p);
    OfProjectShorter(table, p);
    if r.input.projectID == p {
      var rows' := rows + [e];
      assert rows == [] || LinkedAt(codec.hash, rows, |rows| - 1);
      forall i | 0 <= i < |rows'|
        ensures LinkedAt(codec.hash, rows', i) && rows'[i].body.sequence == i + 1
      {
        if i < |rows| { assert LinkedAt(codec.hash, rows, i); }
      }
      InOrderIsFixed(rows');
    }
  }

  /** In a run no longer than the table can hold, every project's chain is intact and holds each accepted append. */
  lemma {:induction false} RunsVerify(codec: Codec, rs: seq<Request>, p: string)
    requires |rs| <= MAX_INT64
    ensures Healthy(codec, Run(codec, rs), p)
    ensures |Run(codec, rs)| <= |rs|
  {
    if rs != [] {
      RunsVerify(codec, rs[..|rs| - 1], p);
      var before := Run(codec, rs[..|rs| - 1]);
      if Append(codec, before, rs[|rs| - 1].input, rs[|rs| - 1].id, rs[|rs| - 1].timestamp).Some? {
        AppendKeepsHealthy(codec, before, rs[|rs| - 1], p);
      }
    }
  }

  /** A well-formed append under an unused id is always accepted, whatever came before. */
  lemma FreshAppendAccepted(codec: Codec, rs: seq<Request>, r: Request)
    requires |rs| < MAX_INT64
    requires r.input.projectID != "" && r.input.eventType != "" && r.input.entityType != ""
    requires CanonicalJSON(codec, r.input.before).Some? && CanonicalJSON(codec, r.input.after).Some?
    requires forall e :: e in Run(codec, rs) ==> e.id != r.id
    ensures Run(codec, rs + [r]) != Run(codec, rs)
    ensures |Chain(Run(codec, rs + [r]), r.input.projectID)| == |Chain(Run(codec, rs), r.input.projectID)| + 1
  {
    var table, p := Run(codec, rs), r.input.projectID;
    RunsVerify(codec, rs, p);
    assert (rs + [r])[..|rs|] == rs;
    var rows := Chain(table, p);
    OfProjectShorter(table, p);
    assert rows == [] || LinkedAt(codec.hash, rows, |rows| - 1);
    forall i | 0 <= i < |table| && table[i].body.projectID == p ensures table[i].body.sequence <= |rows| {
      var k := PositionInProject(table, p, i);
      assert LinkedAt(codec.hash, rows, k);
    }
    AppendKeepsHealthy(codec, table, r, p);
  }

  lemma {:induction false} PositionInProject(table: seq<Event>, p: string, i: nat) returns (k: nat)
    requires i < |table| && table[i].body.projectID == p
    ensures k < |OfProject(table, p)| && OfProject(table, p)[k] == table[i]
  {
    var rest := table[..|table| - 1];
    if i == |table| - 1 {
      k := |OfProject(rest, p)|;
    } else {
      k := PositionInProject(rest, p, i);
    }
  }

  // ---------- Tamper evidence ----------

  predicate SameHashed(a: seq<Event>, b: seq<Event>) {
    |a| == |b| && forall i :: 0 <= i < |a| ==> a[i].body == b[i].body && a[i].eventHash == b[i].eventHash
  }

  /** Two different bodies, one from each chain, with the same digest. */
  ghost predicate Collide(hash: Body -> string, a: seq<Event>, b: seq<Event>) {
    exists i, j :: 0 <= i < |a| && 0 <= j < |b| && a[i].body != b[j].body && hash(a[i].body) == hash(b[j].body)
  }

  lemma CollideInPrefix(hash: Body -> string, a: seq<Event>, b: seq<Event>, m: nat, n: nat)
    requires m <= |a| && n <= |b| && Collide(hash, a[..m], b[..n])
    ensures Collide(hash, a, b)
  {
    var i, j :| 0 <= i < m && 0 <= j < n && a[..m][i].body != b[..n][j].body
                && hash(a[..m][i].body) == hash(b[..n][j].body);
    assert a[i].body != b[j].body;
  }

  /**
   The terminal hash alone fixes an accepted chain: two accepted chains ending in the same hash have
   the same length and the same hashed fields throughout, or exhibit a digest collision.
   */
  lemma {:induction false} TerminalHashFixesChain(hash: Body -> string, a: seq<Event>, b: seq<Event>)
    requires Intact(hash, a) && Intact(hash, b) && Terminal(a) == Terminal(b)
    requires forall x :: hash(x) != ""
    ensures SameHashed(a, b) || Collide(hash, a, b)
    decreases |a|
  {
    if a == [] || b == [] {
      assert b != [] ==> LinkedAt(hash, b, |b| - 1);
      assert a != [] ==> LinkedAt(hash, a, |a| - 1);
    } else {
      var m, n := |a| - 1, |b| - 1;
      assert LinkedAt(hash, a, m) && LinkedAt(hash, b, n);
      if a[m].body == b[n].body {
        var a', b' := a[..m], b[..n];
        forall i | 0 <= i < m ensures LinkedAt(hash, a', i) { assert LinkedAt(hash, a, i); }
        forall i | 0 <= i < n ensures LinkedAt(hash, b', i) { assert LinkedAt(hash, b, i); }
        TerminalHashFixesChain(hash, a', b');
        if Collide(hash, a', b') {
          CollideInPrefix(hash, a, b, m, n);
        } else {
          forall i | 0 <= i < |a| ensures a[i].body == b[i].body && a[i].eventHash == b[i].eventHash {
            if i < m { assert a'[i].body == b'[i].body && a'[i].eventHash == b'[i].eventHash; }
          }
        }
      }
    }
  }

  /**
   Any change to a hashed field, any insertion, removal or reordering of an accepted chain's rows either
   changes the terminal hash, or fails verification, or exhibits a collision.
   */
  lemma TamperingIsDetected(hash: Body -> string, p: string, original: seq<Event>, altered: seq<Event>, report: Report)
    requires Intact(hash, original) && (forall x :: hash(x) != "")
    requires !SameHashed(original, altered) && Reports(hash, p, altered, report)
    ensures !report.valid || report.terminalHash != Terminal(original) || Collide(hash, original, altered)
  {
    if report.valid && report.terminalHash == Terminal(original) {
      TerminalHashFixesChain(hash, original, altered);
    }
  }

  lemma FirstFaultIsUnique(hash: Body -> string, rows: seq<Event>, m: nat, n: nat)
    requires m < |rows| && n < |rows| && IntactTo(hash, rows, m) && IntactTo(hash, rows, n)
    requires !LinkedAt(hash, rows, m) && !LinkedAt(hash, rows, n)
    ensures m == n
  {
  }

  /** What Verify promises leaves it no choice. */
  lemma ReportIsUnique(hash: Body -> string, p: string, rows: seq<Event>, r: Report, s: Report)
    requires Reports(hash, p, rows, r) && Reports(hash, p, rows, s)
    ensures r == s
  {
    if !r.valid {
      FirstFaultIsUnique(hash, rows, r.checked - 1, s.checked - 1);
    }
  }
}
