/** The database handle and the store as objects: transactions edit a private copy and publish it at COMMIT. */
module WbsObjects {
  import opened Wrappers
  import opened WbsStore

  class Database {
    var tables: Tables

    constructor (t: Tables)
      ensures tables == t
    {
      tables := t;
    }

    method Commit(tx: Tables, commit: Commit) returns (acknowledged: bool)
      modifies this
      ensures tables == if commit == Unacknowledged(false) then old(tables) else tx
      ensures acknowledged == commit.Acknowledged?
    {
      if commit != Unacknowledged(false) { tables := tx; }
      acknowledged := commit.Acknowledged?;
    }

    method SaveChart(chartID: string, c: Chart, env: Env) returns (r: Result<(), Error>)
      modifies this
      ensures (tables, r) == WbsStore.SaveChart(old(tables), chartID, c, env)
    {
      if ProtectedPayload(c.kind, c.body) { return Err(Protected); }
      if env.failsEarly || env.failsLate { return Err(Storage); }
      var tx := tables;
      var isCreate := chartID !in tx.charts;
      if !isCreate && ProtectedChart(tx, chartID) { return Err(Protected); }
      var after := c;
      if !isCreate { after := c.(projectID := tx.charts[chartID].projectID); }
      tx := tx.(charts := tx.charts[chartID := after]);
      if after.projectID == "" || env.freshID in AuditIDs(tx.audit) { return Err(Storage); }
      var eventType := "chart.create";
      if !isCreate { eventType := "chart.update"; }
      tx := AppendAudit(tx, AuditRow(env.freshID, eventType, chartID, "", ""));
      var acknowledged := Commit(tx, env.commit);
      r := if acknowledged then Ok(()) else Err(CommitFailed);
    }

    method DeleteChart(chartID: string, env: Env) returns (r: Result<(), Error>)
      modifies this
      ensures (tables, r) == WbsStore.DeleteChart(old(tables), chartID, env)
    {
      if env.failsEarly || env.failsLate { return Err(Storage); }
      var tx := tables;
      if chartID in tx.charts {
        if ProtectedChart(tx, chartID) { return Err(Protected); }
        var before := tx.charts[chartID];
        tx := tx.(charts := tx.charts - {chartID});
        if before.projectID == "" || env.freshID in AuditIDs(tx.audit) { return Err(Storage); }
        tx := AppendAudit(tx, AuditRow(env.freshID, "chart.delete", chartID, "", ""));
      }
      var acknowledged := Commit(tx, env.commit);
      r := if acknowledged then Ok(()) else Err(CommitFailed);
    }
  }

  class Store {
    const db: Database
    const binding: Binding
    const copyID: string
    var closed: bool

    constructor (db: Database, binding: Binding, copyID: string)
      ensures this.db == db && this.binding == binding && this.copyID == copyID && !closed
    {
      this.db, this.binding, this.copyID, this.closed := db, binding, copyID, false;
    }

    function AsSession(): Session
      reads this
    {
      Session(binding, copyID, closed)
    }

    method Close()
      modifies this
      ensures closed
    {
      closed := true;
    }

    method Read(chartID: string, env: Env) returns (r: Result<Chart, Error>)
      ensures r == WbsStore.Read(db.tables, AsSession(), chartID, env)
    {
      if closed || !IsIdentifier(chartID) { return Err(InvalidBinding); }
      if env.failsEarly { return Err(Storage); }
      var refused := CheckCopy(db.tables, AsSession());
      if refused.Some? { return Err(refused.value); }
      var record := ReadRecord(db.tables, chartID, binding.projectID);
      match record
      case Ok(found) => r := Ok(found.0);
      case Err(e) => r := Err(e);
    }

    method Save(w: Write, env: Env) returns (r: Result<Receipt, Error>)
      modifies db
      ensures (db.tables, r) == WbsStore.Save(old(db.tables), AsSession(), w, env)
      ensures closed == old(closed)
    {
      if !Addressed(AsSession(), w) { return Err(InvalidBinding); }
      if w.payload.None? { return Err(InvalidPayload); }
      var a := w.payload.value;
      if a.revision != w.expected || (w.create && w.expected != "0") { return Err(InvalidRevision); }
      a := Normalize(a);
      var fingerprint := Fingerprint(copyID, binding.projectID, w.chartID, binding.actorID,
                                     w.expected, w.title, a, w.create);
      if env.failsEarly { return Err(Storage); }
      var tx := db.tables;
      var refused := CheckCopy(tx, AsSession());
      if refused.Some? { return Err(refused.value); }
      var key := (w.chartID, w.requestID);
      if key in tx.schema.receipts {
        var retained := tx.schema.receipts[key];
        if retained.fingerprint != fingerprint { return Err(RequestReuse); }
        return Ok(Receipt(w.requestID, retained.revision, retained.auditID, true));
      }
      if a.links != [] { return Err(Associations); }
      var current := "0";
      if w.create {
        if w.chartID in tx.charts { return Err(RevisionConflict); }
      } else {
        var before := ReadRecord(tx, w.chartID, binding.projectID);
        if before.Err? { return Err(before.error); }
        current := before.value.1;
      }
      if current != w.expected { return Err(RevisionConflict); }
      var next := NextRevision(current);
      if next.Err? { return Err(next.error); }
      a := a.(revision := next.value);
      if env.failsLate || env.freshID in AuditIDs(tx.audit) { return Err(Storage); }
      tx := tx.(charts := tx.charts[w.chartID := Chart(binding.projectID, WBS_KIND, w.title, Scope(a))]);
      tx := tx.(schema := tx.schema.(records := tx.schema.records[w.chartID := next.value]));
      var eventType := "chart.update";
      if w.create { eventType := "chart.create"; }
      tx := AppendAudit(tx, AuditRow(env.freshID, eventType, w.chartID, binding.actorID, binding.lifetimeID));
      var receipts := tx.schema.receipts[key := ReceiptRow(fingerprint, next.value, env.freshID)];
      receipts := Prune(receipts, w.chartID);
      tx := tx.(schema := tx.schema.(receipts := receipts));
      var acknowledged := db.Commit(tx, env.commit);
      r := if acknowledged then Ok(Receipt(w.requestID, next.value, env.freshID, false)) else Err(Indeterminate);
    }
  }

  method OpenStore(db: Database, binding: Binding, env: Env) returns (r: Result<Store, Error>)
    modifies db
    ensures db.tables == Open(old(db.tables), binding, env).0
    ensures match Open(old(db.tables), binding, env).1
            case Ok(s) => r.Ok? && fresh(r.value) && r.value.db == db && r.value.AsSession() == s
            case Err(e) => r == Err(e)
  {
    if !IsIdentifier(binding.projectID) || !IsIdentifier(binding.actorID) || !IsIdentifier(binding.lifetimeID) {
      return Err(InvalidBinding);
    }
    if env.failsEarly || env.failsLate { return Err(Storage); }
    if db.tables.projectID != binding.projectID { return Err(InvalidBinding); }
    var initialized := Initialized(db.tables, binding, env.freshID);
    if initialized.Err? { return Err(initialized.error); }
    var tx := initialized.value;
    if !IsIdentifier(tx.schema.copyID) || tx.schema.copyProject != binding.projectID { return Err(InvalidBinding); }
    if !EveryRecordReads(tx, binding.projectID) { return Err(InvalidBinding); }
    var acknowledged := db.Commit(tx, env.commit);
    if !acknowledged { return Err(Indeterminate); }
    var s := new Store(db, binding, tx.schema.copyID);
    r := Ok(s);
  }
}
