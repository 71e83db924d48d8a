/**
 The WBS chart writer (internal/db/wbs_store.go) with the ordinary chart writer's guards
 (internal/db/charts.go). A transaction works on a copy of the tables; commit publishes it.
 Fingerprints and stored JSON are kept as the values they encode.
 */
module WbsStore {
  import opened Wrappers
  import opened Decimal
  import opened ByteOrder
  import Text

  const RECEIPT_LIMIT: nat := 256
  const MAX_REVISION: nat := 0xFFFF_FFFF_FFFF_FFFF
  const MAX_IDENTIFIER_BYTES: nat := 256
  const MAX_TEXT_BYTES: nat := 65536
  const WBS_KIND := "wbs_v2"

  // ---------- Scope documents ----------

  datatype Dictionary = Dictionary(description: string, scopeIn: string, scopeOut: string, acceptance: string)

  const EMPTY_DICTIONARY := Dictionary("", "", "", "")

  datatype Node = Node(id: string, title: string, dictionary: Option<Dictionary>, children: seq<Node>)

  datatype Aggregate = Aggregate(revision: string, root: Node, links: seq<string>)

  function NormalizeNode(n: Node): Node {
    n.(dictionary := if n.dictionary == Some(EMPTY_DICTIONARY) then None else n.dictionary,
       children := NormalizeAll(n.children))
  }

  function NormalizeAll(ns: seq<Node>): (r: seq<Node>)
  {
    if ns == [] then [] else [NormalizeNode(ns[0])] + NormalizeAll(ns[1..])
  }

  function Normalize(a: Aggregate): Aggregate {
    a.(root := NormalizeNode(a.root))
  }

  // ---------- Revisions (internal/wbs/revision.go) ----------

  /** revisionValue: the canonical decimal text of a uint64. */
  function RevisionValue(s: string): Option<nat> {
    if Canonical(s) && Value(s) <= MAX_REVISION then Some(Value(s)) else None
  }

  function NextRevision(current: string): Result<string, Error> {
    match RevisionValue(current)
    case None => Err(InvalidRevision)
    case Some(v) => if v == MAX_REVISION then Err(RevisionExhausted) else Ok(Format(v + 1))
  }

  lemma NextRevisionIsSuccessor(n: nat)
    ensures NextRevision(Format(n)) ==
            if n < MAX_REVISION then Ok(Format(n + 1))
            else Err(if n == MAX_REVISION then RevisionExhausted else InvalidRevision)
  {
    FormatRoundTrip(n);
  }

  // ---------- Tables ----------

  datatype Body = Scope(aggregate: Aggregate) | Json(text: string, hasRoot: bool, hasSchemaVersion: bool)

  datatype Chart = Chart(projectID: string, kind: string, title: string, body: Body)

  datatype Fingerprint = Fingerprint(copyID: string, projectID: string, chartID: string, actorID: string,
                                     expected: string, title: string, content: Aggregate, create: bool)

  datatype ReceiptRow = ReceiptRow(fingerprint: Fingerprint, revision: string, auditID: string)

  type Receipts = map<(string, string), ReceiptRow>

  datatype AuditRow = AuditRow(id: string, eventType: string, chartID: string, actorID: string, sessionID: string)

  datatype Schema =
    | Absent
    | Incomplete
    | Present(copyID: string, copyProject: string, records: map<string, string>, receipts: Receipts)

  datatype Tables = Tables(projectID: string, charts: map<string, Chart>, schema: Schema, audit: seq<AuditRow>)

  // ---------- Requests and answers ----------

  datatype Error =
    | InvalidBinding | InvalidPayload | InvalidRevision | RevisionExhausted | RevisionConflict
    | RequestReuse | Associations | Protected | Indeterminate | CommitFailed | Storage | NotFound

  datatype Binding = Binding(projectID: string, actorID: string, lifetimeID: string)

  datatype Session = Session(binding: Binding, copyID: string, closed: bool)

  datatype Write = Write(copyID: string, chartID: string, lifetimeID: string, requestID: string,
                         expected: string, create: bool, title: string, payload: Option<Aggregate>)

  datatype Receipt = Receipt(requestID: string, revision: string, auditID: string, replayed: bool)

  /** How COMMIT ends: acknowledged, or with an error that leaves the outcome unknown to the caller. */
  datatype Commit = Acknowledged | Unacknowledged(durable: bool)

  /** What the environment decides for one call: entropy, statement failures, and the commit. */
  datatype Env = Env(freshID: string, failsEarly: bool, failsLate: bool, commit: Commit)

  predicate IsIdentifier(v: string) {
    |v| <= MAX_IDENTIFIER_BYTES && exists i :: 0 <= i < |v| && !Text.IsSpace(v[i])
  }

  function AuditIDs(audit: seq<AuditRow>): set<string> {
    set row | row in audit :: row.id
  }

  function AppendAudit(t: Tables, row: AuditRow): Tables {
    t.(audit := t.audit + [row])
  }

  // ---------- Pruning ----------

  /** Requests of the chart whose receipts sort before `revision` in ORDER BY length DESC, bytes DESC. */
  function Newer(receipts: Receipts, chartID: string, revision: string): set<string> {
    set k | k in receipts && k.0 == chartID && LongerThenBytes(revision, receipts[k].revision) :: k.1
  }

  /** The DELETE that leaves the chart its RECEIPT_LIMIT first receipts in that order. */
  function Prune(receipts: Receipts, chartID: string): Receipts {
    map k | k in receipts
        && (k.0 == chartID ==> |Newer(receipts, chartID, receipts[k].revision)| < RECEIPT_LIMIT) :: receipts[k]
  }

  // ---------- Reading and writing ----------

  function ReadRecord(t: Tables, chartID: string, projectID: string): Result<(Chart, string), Error> {
    if chartID !in t.charts then Err(NotFound) else
    var c := t.charts[chartID];
    if c.projectID != projectID || c.kind != WBS_KIND then Err(InvalidBinding)
    else if !t.schema.Present? || chartID !in t.schema.records then Err(Storage)
    else if !c.body.Scope? then Err(InvalidPayload)
    else if c.body.aggregate.revision != t.schema.records[chartID] then Err(InvalidBinding)
    else Ok((c, t.schema.records[chartID]))
  }

  function CheckCopy(t: Tables, s: Session): Option<Error> {
    if !t.schema.Present? then Some(Storage)
    else if t.schema.copyID != s.copyID || t.schema.copyProject != s.binding.projectID then Some(InvalidBinding)
    else if t.projectID != t.schema.copyProject then Some(InvalidBinding)
    else None
  }

  predicate Addressed(s: Session, w: Write) {
    !s.closed && w.copyID == s.copyID && w.lifetimeID == s.binding.lifetimeID
    && IsIdentifier(w.chartID) && IsIdentifier(w.requestID) && |w.title| <= MAX_TEXT_BYTES
  }

  function FingerprintOf(s: Session, w: Write): Fingerprint
    requires w.payload.Some?
  {
    Fingerprint(s.copyID, s.binding.projectID, w.chartID, s.binding.actorID,
                w.expected, w.title, Normalize(w.payload.value), w.create)
  }

  datatype Decision =
    | Reject(error: Error)
    | Replay(receipt: Receipt)
    | Apply(before: string, next: string)

  /** Everything Save does before its first write. */
  function Decide(t: Tables, s: Session, w: Write, env: Env): Decision {
    if !Addressed(s, w) then Reject(InvalidBinding)
    else if w.payload.None? then Reject(InvalidPayload)
    else if w.payload.value.revision != w.expected || (w.create && w.expected != "0") then Reject(InvalidRevision)
    else if env.failsEarly then Reject(Storage)
    else if CheckCopy(t, s).Some? then Reject(CheckCopy(t, s).value)
    else if (w.chartID, w.requestID) in t.schema.receipts then
      var row := t.schema.receipts[(w.chartID, w.requestID)];
      if row.fingerprint != FingerprintOf(s, w) then Reject(RequestReuse)
      else Replay(Receipt(w.requestID, row.revision, row.auditID, true))
    else if w.payload.value.links != [] then Reject(Associations)
    else if w.create && w.chartID in t.charts then Reject(RevisionConflict)
    else
      var current := if w.create then Ok("0") else
        match ReadRecord(t, w.chartID, s.binding.projectID) { case Ok(r) => Ok(r.1) case Err(e) => Err(e) };
      match current
      case Err(e) => Reject(e)
      case Ok(current) =>
        if current != w.expected then Reject(RevisionConflict) else
        match NextRevision(current)
        case Err(e) => Reject(e)
        case Ok(next) =>
          if env.failsLate || env.freshID in AuditIDs(t.audit) then Reject(Storage) else Apply(current, next)
  }

  /** The transaction's writes, up to but not including COMMIT. */
  function Written(t: Tables, s: Session, w: Write, next: string, auditID: string): Tables
    requires t.schema.Present? && w.payload.Some?
  {
    var chart := Chart(s.binding.projectID, WBS_KIND, w.title, Scope(Normalize(w.payload.value).(revision := next)));
    var row := AuditRow(auditID, if w.create then "chart.create" else "chart.update",
                        w.chartID, s.binding.actorID, s.binding.lifetimeID);
    var receipts := t.schema.receipts[(w.chartID, w.requestID) := ReceiptRow(FingerprintOf(s, w), next, auditID)];
    t.(charts := t.charts[w.chartID := chart],
       schema := t.schema.(records := t.schema.records[w.chartID := next], receipts := Prune(receipts, w.chartID)),
       audit := t.audit + [row])
  }

  /** The store reports an unacknowledged commit as indeterminate; an ordinary writer returns the commit's own error. */
  function Finish<T>(before: Tables, after: Tables, ok: T, commit: Commit, failure: Error): (Tables, Result<T, Error>) {
    match commit
    case Acknowledged => (after, Ok(ok))
    case Unacknowledged(durable) => (if durable then after else before, Err(failure))
  }

  function Save(t: Tables, s: Session, w: Write, env: Env): (Tables, Result<Receipt, Error>) {
    match Decide(t, s, w, env)
    case Reject(e) => (t, Err(e))
    case Replay(r) => (t, Ok(r))
    case Apply(_, next) =>
      Finish(t, Written(t, s, w, next, env.freshID), Receipt(w.requestID, next, env.freshID, false), env.commit,
             Indeterminate)
  }

  function Read(t: Tables, s: Session, chartID: string, env: Env): Result<Chart, Error> {
    if s.closed || !IsIdentifier(chartID) then Err(InvalidBinding)
    else if env.failsEarly then Err(Storage)
    else if CheckCopy(t, s).Some? then Err(CheckCopy(t, s).value)
    else match ReadRecord(t, chartID, s.binding.projectID) { case Ok(r) => Ok(r.0) case Err(e) => Err(e) }
  }

  // ---------- Opening ----------

  function Initialized(t: Tables, binding: Binding, freshID: string): Result<Tables, Error> {
    match t.schema
    case Absent =>
      if exists id :: id in t.charts && t.charts[id].kind == WBS_KIND then Err(InvalidBinding)
      else Ok(t.(schema := Present(freshID, binding.projectID, map[], map[])))
    case Incomplete => Err(InvalidBinding)
    case Present(_, _, _, _) => Ok(t)
  }

  function WbsChartIDs(t: Tables): set<string>
    requires t.schema.Present?
  {
    (set id | id in t.charts && t.charts[id].kind == WBS_KIND) + t.schema.records.Keys
  }

  predicate EveryRecordReads(t: Tables, projectID: string)
    requires t.schema.Present?
  {
    forall id :: id in WbsChartIDs(t) ==> ReadRecord(t, id, projectID).Ok?
  }

  function Open(t: Tables, binding: Binding, env: Env): (Tables, Result<Session, Error>) {
    if !IsIdentifier(binding.projectID) || !IsIdentifier(binding.actorID) || !IsIdentifier(binding.lifetimeID)
    then (t, Err(InvalidBinding))
    else if env.failsEarly || env.failsLate then (t, Err(Storage))
    else if t.projectID != binding.projectID then (t, Err(InvalidBinding))
    else match Initialized(t, binding, env.freshID)
      case Err(e) => (t, Err(e))
      case Ok(t') =>
        if !IsIdentifier(t'.schema.copyID) || t'.schema.copyProject != binding.projectID then (t, Err(InvalidBinding))
        else if !EveryRecordReads(t', binding.projectID) then (t, Err(InvalidBinding))
        else Finish(t, t', Session(binding, t'.schema.copyID, false), env.commit, Indeterminate)
  }

  // ---------- Ordinary chart writes ----------

  predicate ProtectedPayload(kind: string, body: Body) {
    kind == WBS_KIND || body.Scope? || (body.hasRoot && body.hasSchemaVersion)
  }

  predicate ProtectedChart(t: Tables, chartID: string)
    requires chartID in t.charts
  {
    ProtectedPayload(t.charts[chartID].kind, t.charts[chartID].body)
    || (t.schema.Present? && chartID in t.schema.records)
  }

  function SaveChart(t: Tables, chartID: string, c: Chart, env: Env): (Tables, Result<(), Error>) {
    if ProtectedPayload(c.kind, c.body) then (t, Err(Protected))
    else if env.failsEarly || env.failsLate then (t, Err(Storage))
    else if chartID in t.charts && ProtectedChart(t, chartID) then (t, Err(Protected))
    else
      var kept := if chartID in t.charts then t.charts[chartID].projectID else c.projectID;
      if kept == "" || env.freshID in AuditIDs(t.audit) then (t, Err(Storage)) else
      var row := AuditRow(env.freshID, if chartID in t.charts then "chart.update" else "chart.create", chartID, "", "");
      Finish(t, AppendAudit(t.(charts := t.charts[chartID := c.(projectID := kept)]), row), (), env.commit,
             CommitFailed)
  }

  function DeleteChart(t: Tables, chartID: string, env: Env): (Tables, Result<(), Error>) {
    if env.failsEarly || env.failsLate then (t, Err(Storage))
    else if chartID !in t.charts then Finish(t, t, (), env.commit, CommitFailed)
    else if ProtectedChart(t, chartID) then (t, Err(Protected))
    else if t.charts[chartID].projectID == "" || env.freshID in AuditIDs(t.audit) then (t, Err(Storage))
    else
      var row := AuditRow(env.freshID, "chart.delete", chartID, "", "");
      Finish(t, AppendAudit(t.(charts := t.charts - {chartID}), row), (), env.commit, CommitFailed)
  }
}
