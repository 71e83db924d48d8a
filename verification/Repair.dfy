/**
 Check and repair (internal/db/repair.go; RepairAndSwap and recoverFromFailedSwapLocked in
 internal/desktop/app_documents.go): rebuild a copy beside a damaged project, then swap the two files with
 two renames. Every file operation and every call into the database engine may fail.
 */
module Repair {
  import opened Disk

  datatype Outcome =
    | NoProject | Healthy | NotHealed | Locked | NotSwapped | Swapped | ProjectClosed

  /**
   The open project at the start of a run, what the engine can still read of it, and what the integrity
   checks would answer: intact of the project, sound of the rebuilt copy.
   */
  datatype Case = Case(
    cipher: Cipher, rebuilt: Data, intact: bool, sound: bool,
    ghost inFile: Data, ghost inLog: Data, ghost start: nat, ghost base: Files)

  /** The damaged original, before or after its log was folded in. */
  ghost predicate Original(c: Case, f: Files, p: Path) {
    p in f && (f[p] == Database(c.cipher, c.inFile) || f[p] == Database(c.cipher, c.inLog))
  }

  /** This run's rebuilt copy. */
  ghost predicate Copy(c: Case, f: Files, p: Path) {
    p in f && f[p] == Database(c.cipher, c.rebuilt)
  }

  /** A log beside the project file that still holds pages. */
  predicate PagesInLog(f: Files) {
    Wal(Live) in f && f[Wal(Live)].Frames?
  }

  function Reads(f: Files): Data
    requires Live in f && f[Live].Database?
  {
    if PagesInLog(f) then f[Wal(Live)].data else f[Live].data
  }

  // ---------- What a successful repair leaves ----------

  /** The engine closed the last connection: it folded the log in and removed what it could, or left both. */
  ghost predicate Closes(c: Case, before: Files, after: Files)
    requires Live in before && before[Live].Database?
  {
    var folded := before[Live := Database(c.cipher, Reads(before))];
    || after == before || after == folded
    || after == folded - {Wal(Live)} || after == folded - {Wal(Live), Shm(Live)}
  }

  function Aside(f: Files): Files
    requires Live in f
  {
    (f - {Live})[Corrupt := f[Live]]
  }

  function MovedIn(f: Files): Files
    requires Snapshot in f
  {
    (f - {Snapshot})[Live := f[Snapshot]]
  }

  /** The schema migration of a fresh connection, written to the log. */
  function Opened(f: Files, cipher: Cipher): Files
    requires Live in f && f[Live].Database?
  {
    f[Wal(Live) := Frames(cipher, Reads(f).(upgraded := true))][Shm(Live) := Empty]
  }

  /** The repaired project, from the files as the closed connection left them. */
  function Repaired(c: Case, closed: Files): Files
    requires Live in closed && Snapshot in closed && closed[Snapshot].Database?
  {
    Opened(MovedIn(Aside(closed)), c.cipher)
  }

  /** A project beside whose file this run's copy is ready. */
  ghost predicate Ready(c: Case, f: Files) {
    Original(c, f, Live) && Reads(f) == c.inLog && Copy(c, f, Snapshot)
  }

  /** A log that survived the close is read over the repaired file. */
  lemma LeftLogIsRead(c: Case, f: Files, closed: Files)
    requires Ready(c, f) && Closes(c, f, closed)
    ensures Original(c, closed, Live) && Copy(c, closed, Snapshot)
    ensures PagesInLog(closed) ==> PagesInLog(f)
    ensures Reads(Repaired(c, closed)).records == if PagesInLog(closed) then c.inLog.records else c.rebuilt.records
  {
    var moved := MovedIn(Aside(closed));
    assert PagesInLog(moved) <==> PagesInLog(closed);
  }

  /**
   Whatever the engine does with the log, the repaired project shows the rebuilt records: exactly when the
   log held no pages before the repair, or the very records that were rebuilt.
   */
  lemma RebuiltRecordsAreShownIff(c: Case, f: Files)
    requires Ready(c, f)
    ensures (forall closed: Files :: Closes(c, f, closed) ==>
               && Live in closed && Snapshot in closed && closed[Snapshot].Database?
               && Reads(Repaired(c, closed)).records == c.rebuilt.records)
            <==> (PagesInLog(f) ==> c.inLog.records == c.rebuilt.records)
  {
    forall closed: Files | Closes(c, f, closed)
      ensures Original(c, closed, Live) && Copy(c, closed, Snapshot) && (PagesInLog(closed) ==> PagesInLog(f))
      ensures Reads(Repaired(c, closed)).records
              == if PagesInLog(closed) then c.inLog.records else c.rebuilt.records {
      LeftLogIsRead(c, f, closed);
    }
    assert Closes(c, f, f);
  }

  /** A project whose last edits are only in its log, and a copy rebuilt without them: the repair has no effect. */
  lemma LeftLogHidesTheRepair()
    ensures var saved, damaged, rebuilt := Data("saved", true), Data("damaged", true), Data("rebuilt", true);
            var c := Case(Plain, rebuilt, false, true, saved, damaged, 0, map[]);
            var f := map[Live := Database(Plain, c.inFile), Wal(Live) := Frames(Plain, c.inLog),
                         Snapshot := Database(Plain, c.rebuilt)];
            var closed := f[Live := Database(Plain, c.inLog)] - {Wal(Live), Shm(Live)};
            && Ready(c, f) && Closes(c, f, f) && Closes(c, f, closed)
            && Reads(Repaired(c, f)).records == "damaged" && Reads(Repaired(c, closed)).records == "rebuilt"
  {
    var c := Case(Plain, Data("rebuilt", true), false, true, Data("saved", true), Data("damaged", true), 0, map[]);
    var f := map[Live := Database(Plain, c.inFile), Wal(Live) := Frames(Plain, c.inLog),
                 Snapshot := Database(Plain, c.rebuilt)];
    var closed := f[Live := Database(Plain, c.inLog)] - {Wal(Live), Shm(Live)};
    LeftLogIsRead(c, f, f);
    LeftLogIsRead(c, f, closed);
    assert "rebuilt" != "damaged" by { assert "rebuilt"[0] != "damaged"[0]; }
  }

  // ---------- What every crash point keeps ----------

  const TOUCHED: set<Path> := {Live, Corrupt, Snapshot, Wal(Live), Shm(Live)}

  /**
   Nothing is lost: the original is at one of its two places, and only it or this run's copy, once that
   has passed its check, is the project.
   */
  ghost predicate Safe(c: Case, f: Files) {
    && (Original(c, f, Live) || Original(c, f, Corrupt))
    && (Live in f ==> Original(c, f, Live) || (c.sound && Copy(c, f, Live)))
    && (Live !in f ==> Copy(c, f, Snapshot))
    && SameOutside(f, c.base, TOUCHED)
  }

  ghost predicate CopyKept(c: Case, f: Files) {
    Copy(c, f, Snapshot) || Copy(c, f, Live)
  }

  ghost predicate Kept(c: Case, d: Folder)
    reads d
  {
    c.start <= |d.trace| && Safe(c, d.files) && forall k :: c.start <= k < |d.trace| ==> Safe(c, d.trace[k])
  }

  ghost predicate CopyKeptSince(c: Case, d: Folder, from: nat)
    reads d
  {
    from <= |d.trace| && CopyKept(c, d.files) && forall k :: from <= k < |d.trace| ==> CopyKept(c, d.trace[k])
  }

  /** A connection pool; once closed it stays closed. */
  class Handle {
    var usable: bool
    constructor ()
      ensures usable
    {
      usable := true;
    }
  }

  /** While the pool is usable the damaged project is still in place, and the copy beside it. */
  ghost predicate InPlace(c: Case, h: Handle, d: Folder)
    reads h, d
  {
    h.usable ==> Ready(c, d.files)
  }

  /** Close the pool. The engine may fold the log into the file and delete it, or leave both. */
  method Close(h: Handle, d: Folder, c: Case, ghost from: nat) returns (ok: bool)
    requires Kept(c, d) && CopyKeptSince(c, d, from) && InPlace(c, h, d)
    modifies h, d
    ensures d.failures >= old(d.failures) + if ok then 0 else 1
    ensures !h.usable && Kept(c, d) && CopyKeptSince(c, d, from)
    ensures SameOutside(d.files, old(d.files), {Live, Wal(Live), Shm(Live)})
    ensures !old(h.usable) ==> d.files == old(d.files)
    ensures old(h.usable) ==> Original(c, d.files, Live) && Closes(c, old(d.files), d.files)
  {
    ok := d.Try();
    var fold := *;
    if h.usable && fold {
      d.Put(Live, Database(c.cipher, Reads(d.files)));
      label folded:
      var removed := d.RemoveSidecars(Live);
      forall k | old@folded(|d.trace|) <= k < |d.trace| ensures Safe(c, d.trace[k]) && CopyKept(c, d.trace[k]) {
        assert Live in d.trace[k] && Snapshot in d.trace[k];
        assert Corrupt in d.trace[k] <==> Corrupt in old@folded(d.files);
      }
      assert Corrupt in d.files <==> Corrupt in old@folded(d.files);
    }
    h.usable := false;
  }

  /** InitDB and InitEncryptedDB on an existing file: open it and migrate the schema into the log. */
  method Open(d: Folder, c: Case, ghost from: nat) returns (h: Handle, ok: bool)
    requires Kept(c, d) && CopyKeptSince(c, d, from)
    requires Live in d.files
    modifies d
    ensures d.failures >= old(d.failures) + if ok then 0 else 1
    ensures Kept(c, d) && CopyKeptSince(c, d, from) && fresh(h) && (ok ==> h.usable)
    ensures SameOutside(d.files, old(d.files), {Wal(Live), Shm(Live)})
    ensures Reads(d.files).records == Reads(old(d.files)).records
    ensures ok ==> d.files == Opened(old(d.files), c.cipher) && Reads(d.files).upgraded
  {
    h := new Handle();
    ok := d.Try();
    if !ok { return; }
    d.Put(Wal(Live), Frames(c.cipher, Reads(d.files).(upgraded := true)));
    d.Put(Shm(Live), Empty);
    ok := d.Try();
  }

  /** CreateSnapshot: VACUUM INTO writes a new file, and refuses to overwrite one. */
  method CreateSnapshot(d: Folder, c: Case) returns (ok: bool)
    requires Kept(c, d) && Original(c, d.files, Live)
    modifies d
    ensures d.failures >= old(d.failures) + if ok || Snapshot in old(d.files) then 0 else 1
    ensures Kept(c, d) && SameOutside(d.files, old(d.files), {Snapshot})
    ensures ok ==> d.files == old(d.files)[Snapshot := Database(c.cipher, c.rebuilt)]
    ensures Snapshot in old(d.files) ==> !ok && d.files == old(d.files)
  {
    ok := d.Try();
    if Snapshot in d.files { ok := false; }
    if !ok { return; }
    d.Put(Snapshot, Partial);
    ok := d.Try();
    if !ok { return; }
    d.Put(Snapshot, Database(c.cipher, c.rebuilt));
    ok := d.Try();
  }

  /** An earlier run's copy is removed before this run's is written. */
  method WriteCopy(d: Folder, c: Case) returns (ok: bool)
    requires Kept(c, d) && Original(c, d.files, Live)
    modifies d
    ensures d.failures >= old(d.failures) + if ok then 0 else 1
    ensures Kept(c, d) && SameOutside(d.files, old(d.files), {Snapshot})
    ensures ok ==> d.files == old(d.files)[Snapshot := Database(c.cipher, c.rebuilt)]
  {
    ok := true;
    if Snapshot in d.files { ok := d.Remove(Snapshot); }
    if ok { ok := CreateSnapshot(d, c); }
  }

  /** InformativeSelfHeal. A copy is reported only when the engine finished writing it in this run. */
  method SelfHeal(d: Folder, c: Case) returns (outcome: Outcome)
    requires Kept(c, d) && Original(c, d.files, Live)
    modifies d
    ensures d.failures >= old(d.failures) + if outcome.NotHealed? then 1 else 0
    ensures Kept(c, d) && SameOutside(d.files, old(d.files), {Snapshot})
    ensures outcome in {Healthy, NotHealed, NotSwapped}
    ensures outcome.NotSwapped? ==> d.files == old(d.files)[Snapshot := Database(c.cipher, c.rebuilt)]
    ensures c.intact || outcome.Healthy? ==> d.files == old(d.files) && d.trace == old(d.trace)
    ensures outcome.Healthy? ==> c.intact
    ensures outcome.NotSwapped? ==> !c.intact
  {
    var checked := d.Try();
    if !checked { outcome := NotHealed; return; }
    if c.intact { outcome := Healthy; return; }
    var ok := WriteCopy(d, c);
    outcome := if ok then NotSwapped else NotHealed;
  }

  /** The stale damaged file of an earlier run makes room for this one's. */
  method ClearCorrupt(d: Folder, c: Case, ghost from: nat) returns (ok: bool)
    requires Kept(c, d) && CopyKeptSince(c, d, from) && Original(c, d.files, Live)
    modifies d
    ensures d.failures >= old(d.failures) + if ok then 0 else 1
    ensures Kept(c, d) && CopyKeptSince(c, d, from) && SameOutside(d.files, old(d.files), {Corrupt})
    ensures ok ==> d.files == old(d.files) - {Corrupt}
  {
    ok := d.Remove(Corrupt);
  }

  /** Damaged file aside, copy into its place, and back again if that fails. */
  method Exchange(d: Folder, c: Case, ghost from: nat) returns (ok: bool)
    requires Kept(c, d) && CopyKeptSince(c, d, from)
    requires Original(c, d.files, Live) && Copy(c, d.files, Snapshot) && c.sound && Corrupt !in d.files
    modifies d
    ensures d.failures >= old(d.failures) + if ok then 0 else 1
    ensures Kept(c, d) && CopyKeptSince(c, d, from)
    ensures SameOutside(d.files, old(d.files), {Live, Corrupt, Snapshot})
    ensures ok ==> d.files == MovedIn(Aside(old(d.files)))
    ensures !ok && d.failures == old(d.failures) + 1 ==> d.files == old(d.files)
  {
    var movedLive := false;
    ok := true;
    if Live in d.files {
      ok := d.Rename(Live, Corrupt);
      if !ok { return; }
      movedLive := true;
    }
    ok := d.Rename(Snapshot, Live);
    if !ok && movedLive { var restored := d.Rename(Corrupt, Live); }
  }

  /** SwapInSnapshot and SwapInEncryptedSnapshot. closed is the folder as the closed connection left it. */
  method Swap(h: Handle, d: Folder, c: Case, ghost from: nat)
    returns (next: Handle, ok: bool, ghost closed: Files)
    requires Kept(c, d) && CopyKeptSince(c, d, from) && InPlace(c, h, d) && h.usable
    modifies h, d
    ensures d.failures == old(d.failures) + 1 ==> Live in d.files
    ensures d.failures >= old(d.failures) + if ok || !c.sound then 0 else 1
    ensures Kept(c, d) && CopyKeptSince(c, d, from) && InPlace(c, h, d)
    ensures !c.sound ==> h.usable
    ensures ok ==> c.sound && !h.usable && fresh(next) && next.usable
    ensures ok ==> Closes(c, old(d.files) - {Corrupt}, closed) && Ready(c, old(d.files) - {Corrupt})
                   && Original(c, closed, Live) && Copy(c, closed, Snapshot) && d.files == Repaired(c, closed)
  {
    next, closed := h, d.files;
    ok := d.Try();                                 // stat, opening the copy
    ok := ok && c.sound;
    if !ok { return; }
    ok := ClearCorrupt(d, c, from);
    if !ok { return; }
    ghost var cleared := d.files;
    ok := Close(h, d, c, from);
    if !ok { return; }
    closed := d.files;
    LeftLogIsRead(c, cleared, closed);
    ok := Exchange(d, c, from);
    if !ok { return; }
    next, ok := Open(d, c, from);
  }

  /** The desktop application's open project. */
  class App {
    var db: Handle?
    const folder: Folder

    constructor (folder: Folder, h: Handle)
      ensures this.folder == folder && db == h
    {
      this.folder, db := folder, h;
    }

    /** An open project has a usable pool on an existing file. */
    ghost predicate Valid()
      reads this, folder, db
    {
      db != null ==> db.usable && Live in folder.files && folder.files[Live].Database?
    }

    /**
     recoverFromFailedSwapLocked: keep a pool that still answers; otherwise reopen the file now at the
     project's path, or close the project. A missing file is never opened, since that would create it.
     */
    method Recover(h: Handle, c: Case, ghost from: nat) returns (closed: bool)
      requires db == h && Kept(c, folder) && CopyKeptSince(c, folder, from) && InPlace(c, h, folder)
      modifies this, h, folder
      ensures folder.failures >= old(folder.failures)
      ensures folder.failures == old(folder.failures) && Live in old(folder.files) ==> !closed
      ensures folder.failures <= old(folder.failures) + 1 && old(h.usable) ==> !closed
      ensures folder.failures == old(folder.failures) && old(h.usable) ==> db == h
      ensures Valid() && Kept(c, folder) && CopyKeptSince(c, folder, from)
      ensures closed <==> db == null
      ensures !closed ==> db == h || fresh(db)
    {
      var answers := folder.Try();
      if h.usable && answers { closed := false; return; }
      var ok := Close(h, folder, c, from);
      var reopened := h;
      ok := folder.Try();                          // stat
      if Live in folder.files && ok {
        reopened, ok := Open(folder, c, from);
      } else {
        ok := false;
      }
      closed := !ok;
      db := if ok then reopened else null;
    }

    /** The case a run starts from. */
    ghost predicate Describes(c: Case)
      reads this, folder
    {
      && Live in folder.files && folder.files[Live] == Database(c.cipher, c.inFile)
      && Reads(folder.files) == c.inLog && c.base == folder.files && c.start == |folder.trace|
    }

    /** The swap, and what follows one that failed. */
    method SwapOrRecover(h: Handle, c: Case, ghost healed: nat) returns (outcome: Outcome, ghost closed: Files)
      requires db == h && h.usable && Kept(c, folder) && CopyKeptSince(c, folder, healed) && InPlace(c, h, folder)
      modifies this, folder, h
      ensures outcome in {Swapped, NotSwapped, ProjectClosed}
      ensures Valid() && Kept(c, folder) && CopyKeptSince(c, folder, healed)
      ensures folder.failures >= old(folder.failures)
      ensures folder.failures == old(folder.failures) ==>
                outcome == (if c.sound then Swapped else NotSwapped) && (!c.sound ==> db == h)
      ensures folder.failures == old(folder.failures) + 1 ==> db != null
      ensures outcome.ProjectClosed? <==> db == null
      ensures outcome.Swapped? ==> c.sound && fresh(db)
      ensures outcome.Swapped? ==>
                var ready := old(folder.files) - {Corrupt};
                && Ready(c, ready) && Closes(c, ready, closed) && Original(c, closed, Live)
                && Copy(c, closed, Snapshot) && folder.files == Repaired(c, closed)
    {
      var next, ok;
      next, ok, closed := Swap(h, folder, c, healed);
      if ok {
        db := next;
        outcome := Swapped;
      } else {
        var projectClosed := Recover(h, c, healed);
        outcome := if projectClosed then ProjectClosed else NotSwapped;
      }
    }

    method RepairAndSwap(c: Case, keyHeld: bool)
      returns (outcome: Outcome, ghost healed: nat, ghost closed: Files)
      requires Valid() && (db != null ==> Describes(c))
      modifies this, folder, db
      ensures Valid()
      // every crash point
      ensures old(db) != null ==>
                && |old(folder.trace)| <= |folder.trace|
                && (forall k :: |old(folder.trace)| <= k < |folder.trace| ==> Safe(c, folder.trace[k]))
      // once this run's copy is complete, every later crash point still has it
      ensures outcome in {Locked, NotSwapped, Swapped, ProjectClosed} ==> CopyKeptSince(c, folder, healed)
      // which outcome is given
      ensures outcome.Healthy? ==> c.intact
      ensures outcome.Locked? ==> !c.intact && c.cipher.Keyed? && !keyHeld
      ensures c.cipher.Keyed? && !keyHeld ==> !outcome.Swapped? && !outcome.ProjectClosed?
      ensures folder.failures >= old(folder.failures)
      ensures folder.failures == old(folder.failures) && old(db) != null ==>
                outcome == if c.intact then Healthy
                           else if c.cipher.Keyed? && !keyHeld then Locked
                           else if c.sound then Swapped
                           else NotSwapped
      ensures folder.failures == old(folder.failures) && !outcome.Swapped? ==> db == old(db)
      // one failure never closes the project
      ensures folder.failures == old(folder.failures) + 1 && old(db) != null ==> db != null
      // which project is open
      ensures outcome.NoProject? <==> old(db) == null
      ensures c.intact ==> folder.files == old(folder.files) && folder.trace == old(folder.trace) && db == old(db)
      ensures outcome.Swapped? ==> !c.intact && c.sound
      ensures outcome in {NoProject, Healthy, NotHealed, Locked} ==> db == old(db)
      ensures outcome in {Healthy, NotHealed, Locked} ==>
                && folder.files[Live] == old(folder.files)[Live]
                && SameOutside(folder.files, old(folder.files), {Snapshot})
      ensures old(db) != null ==> (outcome.ProjectClosed? <==> db == null)
      ensures outcome.Swapped? ==> fresh(db) && Copy(c, folder.files, Live) && Original(c, folder.files, Corrupt)
      // the repaired project, and the records it shows
      ensures outcome.Swapped? ==>
                var ready := old(folder.files)[Snapshot := Database(c.cipher, c.rebuilt)] - {Corrupt};
                && Ready(c, ready) && Closes(c, ready, closed)
                && Original(c, closed, Live) && Copy(c, closed, Snapshot) && folder.files == Repaired(c, closed)
                && (Reads(folder.files).records == c.rebuilt.records
                    <==> (PagesInLog(closed) ==> c.inLog.records == c.rebuilt.records))
      ensures db != null ==> Original(c, folder.files, Live) || Copy(c, folder.files, Live)
    {
      healed, closed := 0, folder.files;
      if db == null { outcome := NoProject; return; }
      var h := db;
      outcome := SelfHeal(folder, c);
      if !outcome.NotSwapped? { return; }
      healed := |folder.trace|;
      var ok := folder.Try();                      // reading the file's header
      if !ok { return; }
      if c.cipher.Keyed? && !keyHeld { outcome := Locked; return; }
      ghost var ready := folder.files - {Corrupt};
      outcome, closed := SwapOrRecover(h, c, healed);
      if outcome.Swapped? { LeftLogIsRead(c, ready, closed); }
    }
  }
}
