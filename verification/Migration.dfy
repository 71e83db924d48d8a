/**
 MigratePlaintextToEncrypted (internal/db/encryption.go): everything fallible happens before the one
 rename that publishes the encrypted file. `shared` says that another process has the project open;
 SQLite then leaves its write-ahead log in place without reporting an error.
 */
module Migration {
  import opened Wrappers
  import opened Disk

  datatype Failure = BadKey | NoSource | AlreadyEncrypted | BackupExists | Io | Engine

  // ---------- What a reader finds ----------

  /** The data of the database at p, its log included. */
  function DataAt(f: Files, p: Path): Data
    requires p in f && f[p].Database?
  {
    if Wal(p) in f && f[Wal(p)].Frames? then f[Wal(p)].data else f[p].data
  }

  /** The file opens in clear or under the key, and any log beside it belongs to it. */
  predicate Opens(f: Files, p: Path, key: string) {
    && p in f && f[p].Database? && (f[p].cipher == Plain || f[p].cipher == Keyed(key))
    && (Wal(p) in f ==> f[Wal(p)].Empty? || (f[Wal(p)].Frames? && f[Wal(p)].cipher == f[p].cipher))
  }

  predicate Readable(f: Files, key: string, records: string) {
    Opens(f, Live, key) && DataAt(f, Live).records == records
  }

  predicate PlainSource(f: Files, key: string) {
    Opens(f, Live, key) && f[Live].cipher == Plain
  }

  /** Nothing is waiting in the log of p. */
  predicate Drained(f: Files, p: Path) {
    Wal(p) in f ==> f[Wal(p)].Empty?
  }

  function FileSet(p: Path): set<Path> { {p, Wal(p), Shm(p)} }

  /** Every path the migration may touch. */
  function Owned(temp: nat): set<Path> {
    FileSet(Live) + FileSet(EncryptedTemp) + FileSet(Backup) + {Temp(temp)}
  }

  /** damage is what the engine leaves in the copy instead of the project's data, if the export goes wrong. */
  datatype Goal = Goal(ghost start: nat, key: string, ghost records: string, shared: bool, temp: nat,
                       damage: Option<Data>, ghost base: Files)

  /** A run that is not refused starts here. */
  ghost predicate Starts(g: Goal) {
    PlainSource(g.base, g.key) && g.records == DataAt(g.base, Live).records && Backup !in g.base
  }

  /** No other process has the project open, or the log it keeps holds nothing newer than the file. */
  predicate LogIsSafe(f: Files, shared: bool)
    requires Live in f && f[Live].Database?
  {
    !shared || f[Live].data.records == DataAt(f, Live).records
  }

  // ---------- The moves of a run ----------

  /** Opening p writes the schema migration to its log. */
  predicate LogWritten(f: Files, after: Files, p: Path, key: string) {
    && Opens(f, p, key)
    && (|| after == f[Wal(p) := Frames(f[p].cipher, DataAt(f, p).(upgraded := true))]
        || after == f[Shm(p) := Empty])
  }

  /** A checkpoint folds the log of p into the file, then empties it. */
  predicate LogFolded(f: Files, after: Files, p: Path, key: string) {
    && Opens(f, p, key) && !Drained(f, p)
    && (|| after == f[p := Database(f[p].cipher, DataAt(f, p))]
        || (f[p].data == f[Wal(p)].data && after == f[Wal(p) := Empty]))
  }

  /** What the export writes. */
  function CopyOf(f: Files, g: Goal): Data
    requires Live in f && f[Live].Database?
  {
    if g.damage.Some? then g.damage.value else DataAt(f, Live)
  }

  predicate CopyWritten(f: Files, after: Files, g: Goal) {
    || (EncryptedTemp !in f && after == f[EncryptedTemp := Partial])
    || (EncryptedTemp in f && f[EncryptedTemp].Partial? && Opens(f, Live, g.key)
        && after == f[EncryptedTemp := Database(Keyed(g.key), CopyOf(f, g))])
  }

  /** What the export must have left at EncryptedTemp. */
  predicate Exported(f: Files, g: Goal) {
    EncryptedTemp in f && f[EncryptedTemp].Database? && f[EncryptedTemp].cipher == Keyed(g.key)
  }

  /** The copy passed its checks, and its log is in it. */
  ghost predicate Verified(f: Files, g: Goal) {
    g.damage.None? && Exported(f, g) && Drained(f, EncryptedTemp) && f[EncryptedTemp].data.records == g.records
  }

  /** The source's sidecars go once the copy is verified; an unshared log has been emptied by then. */
  ghost predicate SidecarsMayGo(f: Files, g: Goal) {
    Verified(f, g) && (g.shared || Drained(f, Live))
  }

  predicate BackupWritten(f: Files, after: Files, g: Goal) {
    && Wal(Live) !in f && Live in f
    && (|| (Temp(g.temp) !in f && after == f[Temp(g.temp) := Partial])
        || (Temp(g.temp) in f && f[Temp(g.temp)].Partial? && after == f[Temp(g.temp) := f[Live]]))
  }

  /** The two renames of a publication, done on f. */
  function WithBackup(f: Files, temp: nat): Files
    requires Temp(temp) in f
  {
    (f - {Temp(temp)})[Backup := f[Temp(temp)]]
  }

  function WithEncrypted(f: Files): Files
    requires EncryptedTemp in f
  {
    (f - {EncryptedTemp})[Live := f[EncryptedTemp]]
  }

  /** The backup first, then the encrypted copy; neither database has sidecars left. */
  ghost predicate Published(f: Files, after: Files, g: Goal) {
    && Live in f && Wal(Live) !in f && Shm(Live) !in f
    && (|| (Temp(g.temp) in f && f[Temp(g.temp)] == f[Live] && Backup !in f
            && after == WithBackup(f, g.temp))
        || (Backup in f && f[Backup] == f[Live] && Verified(f, g)
            && Wal(EncryptedTemp) !in f && Shm(EncryptedTemp) !in f
            && after == WithEncrypted(f)))
  }

  /** What a run may remove at any time: none of it is the source. */
  function Removable(g: Goal): set<Path> {
    FileSet(EncryptedTemp) + FileSet(Backup) + {Temp(g.temp)}
  }

  /** One step of a run, failed steps included. Nothing moves once the encrypted file is published. */
  ghost predicate Moved(g: Goal, f: Files, after: Files) {
    && PlainSource(f, g.key)
    && (|| RemovesOne(f, after, Removable(g))
        || (SidecarsMayGo(f, g) && RemovesOne(f, after, {Wal(Live), Shm(Live)}))
        || LogWritten(f, after, Live, g.key) || LogWritten(f, after, EncryptedTemp, g.key)
        || LogFolded(f, after, Live, g.key) || LogFolded(f, after, EncryptedTemp, g.key)
        || CopyWritten(f, after, g) || BackupWritten(f, after, g) || Published(f, after, g))
  }

  function Before(states: seq<Files>, k: nat): Files
    requires 0 < k <= |states|
  {
    states[k - 1]
  }

  /** The file maps of a run, in order. */
  ghost predicate IsRun(g: Goal, states: seq<Files>) {
    && states != [] && states[0] == g.base
    && forall k {:trigger Before(states, k)} :: 0 < k < |states| ==> Moved(g, Before(states, k), states[k])
  }

  lemma Extended(g: Goal, states: seq<Files>, after: Files)
    requires IsRun(g, states) && Moved(g, states[|states| - 1], after)
    ensures IsRun(g, states + [after])
  {
    var longer := states + [after];
    forall k: nat | 0 < k < |longer| ensures Moved(g, Before(longer, k), longer[k]) {
      if k < |states| { assert Moved(g, Before(states, k), states[k]); }
    }
  }

  // ---------- What every crash point keeps ----------

  ghost predicate Safe(g: Goal, f: Files)
    requires Starts(g)
  {
    && Opens(f, Live, g.key) && SameOutside(f, g.base, Owned(g.temp))
    && (LogIsSafe(g.base, g.shared) ==>
          DataAt(f, Live).records == g.records && (g.shared ==> f[Live].data.records == g.records))
    && (g.damage.Some? ==> DataAt(f, Live).records == g.records)
  }

  lemma RemovalIsSafe(g: Goal, f: Files, after: Files)
    requires Starts(g) && Safe(g, f)
    requires RemovesOne(f, after, Removable(g))
             || (SidecarsMayGo(f, g) && RemovesOne(f, after, {Wal(Live), Shm(Live)}))
    ensures Safe(g, after)
  {
  }

  lemma LogMoveIsSafe(g: Goal, f: Files, after: Files, p: Path)
    requires Starts(g) && Safe(g, f) && p in {Live, EncryptedTemp}
    requires LogWritten(f, after, p, g.key) || LogFolded(f, after, p, g.key)
    ensures Safe(g, after)
  {
  }

  lemma PublicationIsSafe(g: Goal, f: Files, after: Files)
    requires Starts(g) && Safe(g, f) && Published(f, after, g)
    ensures Safe(g, after)
  {
  }

  lemma MoveIsSafe(g: Goal, f: Files, after: Files)
    requires Starts(g) && Safe(g, f) && Moved(g, f, after)
    ensures Safe(g, after)
  {
    if RemovesOne(f, after, Removable(g)) {
      RemovalIsSafe(g, f, after);
    } else if SidecarsMayGo(f, g) && RemovesOne(f, after, {Wal(Live), Shm(Live)}) {
      RemovalIsSafe(g, f, after);
    } else if LogWritten(f, after, Live, g.key) || LogFolded(f, after, Live, g.key) {
      LogMoveIsSafe(g, f, after, Live);
    } else if LogWritten(f, after, EncryptedTemp, g.key) || LogFolded(f, after, EncryptedTemp, g.key) {
      LogMoveIsSafe(g, f, after, EncryptedTemp);
    } else if Published(f, after, g) {
      PublicationIsSafe(g, f, after);
    }
  }

  lemma {:induction false} RunIsSafe(g: Goal, states: seq<Files>, k: nat)
    requires Starts(g) && IsRun(g, states) && k < |states|
    ensures Safe(g, states[k])
  {
    if k > 0 {
      RunIsSafe(g, states, k - 1);
      MoveIsSafe(g, Before(states, k), states[k]);
    }
  }

  // ---------- Another process and a log that cannot be emptied ----------

  lemma Extend(g: Goal, states: seq<Files>, after: Files) returns (longer: seq<Files>)
    requires IsRun(g, states) && Moved(g, states[|states| - 1], after)
    ensures IsRun(g, longer) && longer[|longer| - 1] == after
  {
    Extended(g, states, after);
    longer := states + [after];
  }

  /** The leftovers are cleared and the source opened; its checkpoint is busy, so its log stays. */
  lemma OpenedRun(g: Goal) returns (states: seq<Files>, f: Files)
    requires Starts(g)
    ensures IsRun(g, states) && f == states[|states| - 1] && PlainSource(f, g.key)
    ensures f[Live] == g.base[Live] && DataAt(f, Live).records == g.records
    ensures forall p :: p in FileSet(EncryptedTemp) ==> p !in f
    ensures SameOutside(f, g.base, FileSet(EncryptedTemp) + FileSet(Live))
  {
    f, states := g.base, [g.base];
    states := Extend(g, states, f - {EncryptedTemp});
    f := f - {EncryptedTemp};
    states := Extend(g, states, f - {Wal(EncryptedTemp)});
    f := f - {Wal(EncryptedTemp)};
    states := Extend(g, states, f - {Shm(EncryptedTemp)});
    f := f - {Shm(EncryptedTemp)};
    var log := Frames(Plain, DataAt(f, Live).(upgraded := true));
    states := Extend(g, states, f[Wal(Live) := log]);
    f := f[Wal(Live) := log];
    states := Extend(g, states, f[Shm(Live) := Empty]);
    f := f[Shm(Live) := Empty];
  }

  /** The copy is exported. */
  lemma ExportedRun(g: Goal) returns (states: seq<Files>, f: Files, data: Data)
    requires Starts(g) && g.damage.None?
    ensures IsRun(g, states) && f == states[|states| - 1] && PlainSource(f, g.key)
    ensures EncryptedTemp in f && f[EncryptedTemp] == Database(Keyed(g.key), data) && data.records == g.records
    ensures f[Live] == g.base[Live] && Wal(EncryptedTemp) !in f && Shm(EncryptedTemp) !in f
    ensures SameOutside(f, g.base, FileSet(EncryptedTemp) + FileSet(Live))
  {
    states, f := OpenedRun(g);
    states := Extend(g, states, f[EncryptedTemp := Partial]);
    f, data := f[EncryptedTemp := Partial], DataAt(f, Live);
    states := Extend(g, states, f[EncryptedTemp := Database(Keyed(g.key), data)]);
    f := f[EncryptedTemp := Database(Keyed(g.key), data)];
  }

  /** The copy is opened with its key, and upgraded. */
  lemma CopyOpenedRun(g: Goal) returns (states: seq<Files>, f: Files, data: Data)
    requires Starts(g) && g.damage.None?
    ensures IsRun(g, states) && f == states[|states| - 1] && PlainSource(f, g.key) && data.records == g.records
    ensures EncryptedTemp in f && f[EncryptedTemp].Database? && f[EncryptedTemp].cipher == Keyed(g.key)
    ensures Wal(EncryptedTemp) in f && f[Wal(EncryptedTemp)] == Frames(Keyed(g.key), data)
    ensures Shm(EncryptedTemp) in f && f[Shm(EncryptedTemp)] == Empty && f[Live] == g.base[Live]
    ensures SameOutside(f, g.base, FileSet(EncryptedTemp) + FileSet(Live))
  {
    states, f, data := ExportedRun(g);
    data := data.(upgraded := true);
    states := Extend(g, states, f[Wal(EncryptedTemp) := Frames(Keyed(g.key), data)]);
    f := f[Wal(EncryptedTemp) := Frames(Keyed(g.key), data)];
    states := Extend(g, states, f[Shm(EncryptedTemp) := Empty]);
    f := f[Shm(EncryptedTemp) := Empty];
  }

  /** It is folded into its main file. */
  lemma VerifiedRun(g: Goal) returns (states: seq<Files>, f: Files)
    requires Starts(g) && g.damage.None?
    ensures IsRun(g, states) && f == states[|states| - 1] && PlainSource(f, g.key) && Verified(f, g)
    ensures f[Live] == g.base[Live]
    ensures SameOutside(f, g.base, FileSet(EncryptedTemp) + FileSet(Live))
  {
    var data;
    states, f, data := CopyOpenedRun(g);
    states := Extend(g, states, f[EncryptedTemp := Database(Keyed(g.key), data)]);
    f := f[EncryptedTemp := Database(Keyed(g.key), data)];
    states := Extend(g, states, f[Wal(EncryptedTemp) := Empty]);
    f := f[Wal(EncryptedTemp) := Empty];
  }

  /** The source's log is deleted although it was never folded in. */
  lemma LogDeletedRun(g: Goal) returns (states: seq<Files>, f: Files)
    requires Starts(g) && g.shared && g.damage.None?
    ensures IsRun(g, states) && f == states[|states| - 1] && PlainSource(f, g.key) && Verified(f, g)
    ensures f[Live] == g.base[Live] && Wal(Live) !in f
    ensures SameOutside(f, g.base, FileSet(EncryptedTemp) + FileSet(Live))
  {
    states, f := VerifiedRun(g);
    assert Wal(Live) in {Wal(Live), Shm(Live)} && RemovesOne(f, f - {Wal(Live)}, {Wal(Live), Shm(Live)});
    states := Extend(g, states, f - {Wal(Live)});
    f := f - {Wal(Live)};
  }

  /** The other sidecars go too. */
  lemma SidecarsDeletedRun(g: Goal) returns (states: seq<Files>, f: Files)
    requires Starts(g) && g.shared && g.damage.None?
    ensures IsRun(g, states) && f == states[|states| - 1] && PlainSource(f, g.key) && Verified(f, g)
    ensures f[Live] == g.base[Live] && Wal(Live) !in f && Shm(Live) !in f
    ensures Wal(EncryptedTemp) !in f && Shm(EncryptedTemp) !in f
    ensures SameOutside(f, g.base, FileSet(EncryptedTemp) + FileSet(Live))
  {
    states, f := LogDeletedRun(g);
    assert Shm(Live) in {Wal(Live), Shm(Live)} && RemovesOne(f, f - {Shm(Live)}, {Wal(Live), Shm(Live)});
    states := Extend(g, states, f - {Shm(Live)});
    f := f - {Shm(Live)};
    states := Extend(g, states, f - {Wal(EncryptedTemp)});
    f := f - {Wal(EncryptedTemp)};
    states := Extend(g, states, f - {Shm(EncryptedTemp)});
    f := f - {Shm(EncryptedTemp)};
  }

  /** The rest of that run, to its success. */
  lemma FinishedRun(g: Goal) returns (states: seq<Files>, f: Files)
    requires Starts(g) && g.shared && g.damage.None? && Temp(g.temp) !in g.base
    ensures IsRun(g, states) && f == states[|states| - 1]
    ensures Live in f && f[Live].Database? && f[Live].cipher == Keyed(g.key)
    ensures Backup in f && f[Backup] == g.base[Live]
  {
    states, f := SidecarsDeletedRun(g);
    var temp := Temp(g.temp);
    states := Extend(g, states, f[temp := Partial]);
    f := f[temp := Partial];
    states := Extend(g, states, f[temp := f[Live]]);
    f := f[temp := f[Live]];
    states := Extend(g, states, WithBackup(f, g.temp));
    f := WithBackup(f, g.temp);
    states := Extend(g, states, WithEncrypted(f));
    f := WithEncrypted(f);
  }

  ghost predicate HasRecords(f: Files, p: Path, records: string) {
    p in f && f[p].Database? && DataAt(f, p).records == records
  }

  /** Every crash point of every run has the project's records: exactly when its log is safe, or the copy is not. */
  lemma RecordsSurviveEveryRunIff(g: Goal)
    requires Starts(g)
    ensures (forall states: seq<Files>, k: nat :: IsRun(g, states) && k < |states| ==>
               HasRecords(states[k], Live, g.records))
            <==> LogIsSafe(g.base, g.shared) || g.damage.Some?
  {
    if LogIsSafe(g.base, g.shared) || g.damage.Some? {
      forall states: seq<Files>, k: nat | IsRun(g, states) && k < |states|
        ensures HasRecords(states[k], Live, g.records) {
        RunIsSafe(g, states, k);
      }
    } else {
      var states, f := LogDeletedRun(g);
      assert !HasRecords(states[|states| - 1], Live, g.records);
    }
  }

  /** A run that published the encrypted file. */
  ghost predicate Finished(g: Goal, states: seq<Files>) {
    IsRun(g, states) && Live in states[|states| - 1] && states[|states| - 1][Live].Database?
    && states[|states| - 1][Live].cipher != Plain
  }

  lemma FinishedHasBackup(g: Goal, states: seq<Files>)
    requires Starts(g) && Finished(g, states) && (LogIsSafe(g.base, g.shared) || g.damage.Some?)
    ensures Backup in states[|states| - 1] && states[|states| - 1][Backup].Database?
    ensures states[|states| - 1][Backup].data.records == g.records
  {
    var last := |states| - 1;
    RunIsSafe(g, states, last - 1);
    assert Moved(g, Before(states, last), states[last]);
    assert Published(states[last - 1], states[last], g);
  }

  /** The backup of every finished run has the project's records: exactly when its log is safe, or no run finishes. */
  lemma BackupHasTheRecordsIff(g: Goal)
    requires Starts(g) && Temp(g.temp) !in g.base
    ensures (forall states: seq<Files> :: Finished(g, states) ==>
               var f := states[|states| - 1];
               Backup in f && f[Backup].Database? && f[Backup].data.records == g.records)
            <==> LogIsSafe(g.base, g.shared) || g.damage.Some?
  {
    if LogIsSafe(g.base, g.shared) || g.damage.Some? {
      forall states: seq<Files> | Finished(g, states)
        ensures Backup in states[|states| - 1] && states[|states| - 1][Backup].Database?
        ensures states[|states| - 1][Backup].data.records == g.records {
        FinishedHasBackup(g, states);
      }
    } else {
      var states, f := FinishedRun(g);
      assert Finished(g, states);
    }
  }

  // ---------- Steps ----------

  /** The file maps of the run so far. */
  ghost function States(g: Goal, trace: seq<Files>): seq<Files>
    requires g.start <= |trace|
  {
    [g.base] + trace[g.start..]
  }

  /** Every entry of the trace since the start is a move of the run. */
  ghost predicate Kept(g: Goal, d: Folder)
    reads d
  {
    && Starts(g) && g.start <= |d.trace| && IsRun(g, States(g, d.trace))
    && d.files == States(g, d.trace)[|d.trace| - g.start]
  }

  lemma Grown(g: Goal, trace: seq<Files>, after: Files)
    requires g.start <= |trace| && IsRun(g, States(g, trace))
    requires Moved(g, States(g, trace)[|trace| - g.start], after)
    ensures IsRun(g, States(g, trace + [after])) && States(g, trace + [after])[|trace| + 1 - g.start] == after
  {
    Extended(g, States(g, trace), after);
    assert States(g, trace + [after]) == States(g, trace) + [after];
  }

  method Write(d: Folder, p: Path, c: Content, g: Goal)
    requires Kept(g, d) && Moved(g, d.files, d.files[p := c])
    modifies d
    ensures Kept(g, d) && d.files == old(d.files)[p := c] && d.failures == old(d.failures)
  {
    Grown(g, d.trace, d.files[p := c]);
    d.Put(p, c);
  }

  ghost predicate MayRemove(g: Goal, f: Files, ps: set<Path>) {
    PlainSource(f, g.key) && (ps <= Removable(g) || (SidecarsMayGo(f, g) && ps <= {Wal(Live), Shm(Live)}))
  }

  lemma RemovalMoves(g: Goal, f: Files, after: Files, ps: set<Path>)
    requires MayRemove(g, f, ps) && RemovesOne(f, after, ps)
    ensures Moved(g, f, after) && MayRemove(g, after, ps)
  {
    if ps <= Removable(g) {
      assert RemovesOne(f, after, Removable(g));
    } else {
      assert RemovesOne(f, after, {Wal(Live), Shm(Live)});
    }
  }

  /** Removing files one by one goes on with the run, up to any entry of the trace. */
  lemma {:induction false} RemovalsMove(g: Goal, before: Files, trace: seq<Files>, from: nat, upTo: nat, ps: set<Path>)
    requires Starts(g) && g.start <= from <= upTo <= |trace| && IsRun(g, States(g, trace[..from]))
    requires before == States(g, trace[..from])[from - g.start]
    requires MayRemove(g, before, ps) && RemovesOneByOne(before, trace, from, ps)
    ensures IsRun(g, States(g, trace[..upTo])) && MayRemove(g, States(g, trace[..upTo])[upTo - g.start], ps)
    decreases upTo
  {
    if from < upTo {
      var n := upTo - 1;
      RemovalsMove(g, before, trace, from, n, ps);
      var f := States(g, trace[..n])[n - g.start];
      assert f == Prior(before, trace, from, n);
      RemovalMoves(g, f, trace[n], ps);
      Grown(g, trace[..n], trace[n]);
      assert trace[..n] + [trace[n]] == trace[..upTo];
    }
  }

  lemma RemovedInRun(g: Goal, before: Files, trace: seq<Files>, from: nat, ps: set<Path>)
    requires Starts(g) && g.start <= from <= |trace| && IsRun(g, States(g, trace[..from]))
    requires before == States(g, trace[..from])[from - g.start]
    requires MayRemove(g, before, ps) && RemovesOneByOne(before, trace, from, ps)
    ensures IsRun(g, States(g, trace)) && States(g, trace)[|trace| - g.start] == trace[|trace| - 1]
    ensures MayRemove(g, trace[|trace| - 1], ps)
  {
    RemovalsMove(g, before, trace, from, |trace|, ps);
    assert trace[..|trace|] == trace;
  }

  /** removeIfExists on a file of the run. */
  method RemoveFile(d: Folder, p: Path, g: Goal) returns (ok: bool)
    requires Kept(g, d) && PlainSource(d.files, g.key) && p in Removable(g)
    modifies d
    ensures d.failures >= old(d.failures) + if ok then 0 else 1
    ensures Kept(g, d) && PlainSource(d.files, g.key)
    ensures d.files == if ok then old(d.files) - {p} else old(d.files)
  {
    ghost var before := d.files;
    assert RemovesOne(before, before - {p}, Removable(g)) && RemovesOne(before, before, Removable(g));
    Grown(g, d.trace, before);
    Grown(g, d.trace, before - {p});
    ok := d.Remove(p);
  }

  method RemoveSidecarsOf(d: Folder, p: Path, g: Goal) returns (ok: bool)
    requires Kept(g, d) && PlainSource(d.files, g.key) && p in {Live, EncryptedTemp, Backup}
    requires p == Live ==> SidecarsMayGo(d.files, g)
    modifies d
    ensures d.failures >= old(d.failures) + if ok then 0 else 1
    ensures Kept(g, d) && PlainSource(d.files, g.key) && Trimmed(old(d.files), d.files, {Wal(p), Shm(p)})
    ensures ok ==> d.files == old(d.files) - {Wal(p), Shm(p)}
  {
    assert MayRemove(g, d.files, {Wal(p), Shm(p)});
    ok := d.RemoveSidecars(p);
    assert d.trace[..|old(d.trace)|] == old(d.trace);
    RemovedInRun(g, old(d.files), d.trace, |old(d.trace)|, {Wal(p), Shm(p)});
  }

  /** removeSQLiteFileSet. */
  method RemoveSet(d: Folder, p: Path, g: Goal) returns (ok: bool)
    requires Kept(g, d) && PlainSource(d.files, g.key) && p in {EncryptedTemp, Backup}
    modifies d
    ensures d.failures >= old(d.failures) + if ok then 0 else 1
    ensures Kept(g, d) && PlainSource(d.files, g.key) && Trimmed(old(d.files), d.files, FileSet(p))
    ensures ok ==> d.files == old(d.files) - FileSet(p)
  {
    ok := RemoveFile(d, p, g);
    if ok { ok := RemoveSidecarsOf(d, p, g); }
  }

  /** InitDB and InitEncryptedDB: open, then migrate the schema into the log. */
  method OpenDatabase(d: Folder, p: Path, g: Goal) returns (ok: bool)
    requires Kept(g, d) && PlainSource(d.files, g.key) && p in {Live, EncryptedTemp} && Opens(d.files, p, g.key)
    modifies d
    ensures d.failures >= old(d.failures) + if ok then 0 else 1
    ensures Kept(g, d) && PlainSource(d.files, g.key) && Opens(d.files, p, g.key)
    ensures SameOutside(d.files, old(d.files), {Wal(p), Shm(p)})
    ensures DataAt(d.files, p).records == DataAt(old(d.files), p).records
    ensures ok ==> DataAt(d.files, p).upgraded && Shm(p) in d.files
  {
    ok := d.Try();
    if !ok { return; }
    var upgraded := DataAt(d.files, p).(upgraded := true);
    Write(d, Wal(p), Frames(d.files[p].cipher, upgraded), g);
    Write(d, Shm(p), Empty, g);
    ok := d.Try();
  }

  /** PRAGMA wal_checkpoint(TRUNCATE): fold the log into the file, then empty it. */
  method Checkpoint(d: Folder, p: Path, shared: bool, g: Goal) returns (ok: bool)
    requires Kept(g, d) && PlainSource(d.files, g.key) && p in {Live, EncryptedTemp} && Opens(d.files, p, g.key)
    modifies d
    ensures d.failures >= old(d.failures) + if ok then 0 else 1
    ensures Kept(g, d) && PlainSource(d.files, g.key) && Opens(d.files, p, g.key)
    ensures SameOutside(d.files, old(d.files), {p, Wal(p)})
    ensures d.files[p].cipher == old(d.files)[p].cipher && DataAt(d.files, p) == DataAt(old(d.files), p)
    ensures ok && !shared ==> Drained(d.files, p)
    ensures Drained(old(d.files), p) ==> Drained(d.files, p)
  {
    ok := d.Try();
    var busy := *;
    if !ok || (shared && busy) || Drained(d.files, p) { return; }
    var merged := Database(d.files[p].cipher, DataAt(d.files, p));
    Write(d, p, merged, g);
    Write(d, Wal(p), Empty, g);
  }

  /** exportEncryptedCopy: check, checkpoint, attach, sqlcipher_export, user_version, detach. */
  method ExportEncryptedCopy(d: Folder, g: Goal) returns (ok: bool)
    requires Kept(g, d) && PlainSource(d.files, g.key) && EncryptedTemp !in d.files
    modifies d
    ensures d.failures >= old(d.failures) + if ok then 0 else 1
    ensures Kept(g, d) && PlainSource(d.files, g.key)
    ensures SameOutside(d.files, old(d.files), {Live, Wal(Live), EncryptedTemp})
    ensures DataAt(d.files, Live).records == DataAt(old(d.files), Live).records
    ensures ok && !g.shared ==> Drained(d.files, Live)
    ensures ok ==> EncryptedTemp in d.files && d.files[EncryptedTemp].Database?
                   && d.files[EncryptedTemp].cipher == Keyed(g.key)
                   && (g.damage.None? ==> d.files[EncryptedTemp].data.records == DataAt(old(d.files), Live).records)
  {
    ok := d.Try();
    if !ok { return; }
    ok := Checkpoint(d, Live, g.shared, g);
    if !ok { return; }
    Write(d, EncryptedTemp, Partial, g);
    ok := d.Try();
    if !ok { return; }
    var exported := Database(Keyed(g.key), CopyOf(d.files, g));
    Write(d, EncryptedTemp, exported, g);
    ok := d.Try();
  }

  /** createPrivatePlaintextBackup: a new private file, the bytes of the main file, synced. */
  method CreateBackupCopy(d: Folder, g: Goal) returns (made: bool, ok: bool)
    requires Kept(g, d) && PlainSource(d.files, g.key) && Wal(Live) !in d.files
    modifies d
    ensures d.failures >= old(d.failures) + if ok || Temp(g.temp) in old(d.files) then 0 else 1
    ensures Kept(g, d) && SameOutside(d.files, old(d.files), {Temp(g.temp)})
    ensures !made ==> !ok && d.files == old(d.files)
    ensures made ==> Temp(g.temp) !in old(d.files)
    ensures ok ==> Temp(g.temp) in d.files && d.files[Temp(g.temp)] == d.files[Live]
  {
    made := d.Try();
    ok := false;
    if Temp(g.temp) in d.files { made := false; }
    if !made { return; }
    Write(d, Temp(g.temp), Partial, g);
    ok := d.Try();
    if !ok { return; }
    Write(d, Temp(g.temp), d.files[Live], g);
    ok := d.Try();
  }

  /** The deferred cleanup of a run that did not publish. */
  method CleanUp(d: Folder, madeTemp: bool, publishedBackup: bool, g: Goal) returns (ghost complete: bool)
    requires Kept(g, d) && PlainSource(d.files, g.key)
    modifies d
    ensures d.failures >= old(d.failures) + if complete then 0 else 1
    ensures Kept(g, d) && PlainSource(d.files, g.key)
    ensures SameOutside(d.files, old(d.files), FileSet(EncryptedTemp) + FileSet(Backup) + {Temp(g.temp)})
    ensures d.files.Keys <= old(d.files).Keys
    ensures complete ==> d.files == old(d.files) - FileSet(EncryptedTemp)
                                    - (if madeTemp then {Temp(g.temp)} else {})
                                    - (if publishedBackup then FileSet(Backup) else {})
  {
    var ok := RemoveSet(d, EncryptedTemp, g);
    complete := ok;
    if madeTemp {
      ok := RemoveFile(d, Temp(g.temp), g);
      complete := complete && ok;
    }
    if publishedBackup {
      ok := RemoveSet(d, Backup, g);
      complete := complete && ok;
    }
  }

  /** Open the source, export it under the key, close it. */
  method Export(d: Folder, g: Goal) returns (ok: bool)
    requires Kept(g, d) && PlainSource(d.files, g.key)
    requires EncryptedTemp !in d.files && Wal(EncryptedTemp) !in d.files
    modifies d
    ensures d.failures >= old(d.failures) + if ok then 0 else 1
    ensures Kept(g, d) && PlainSource(d.files, g.key)
    ensures SameOutside(d.files, old(d.files), FileSet(Live) + {EncryptedTemp})
    ensures DataAt(d.files, Live).records == DataAt(old(d.files), Live).records
    ensures ok ==> Exported(d.files, g) && Opens(d.files, EncryptedTemp, g.key)
                   && (g.damage.None? ==> DataAt(d.files, EncryptedTemp).records == DataAt(d.files, Live).records)
    ensures ok && !g.shared ==> Drained(d.files, Live)
  {
    ok := OpenDatabase(d, Live, g);
    if !ok { return; }
    ok := ExportEncryptedCopy(d, g);
    if !ok { return; }
    ok := d.Try();                                 // plain.Close
  }

  /** Open the copy with the key, check it, fold its log into it, close it. */
  method VerifyCopy(d: Folder, g: Goal) returns (ok: bool)
    requires Kept(g, d) && PlainSource(d.files, g.key)
    requires Exported(d.files, g) && Opens(d.files, EncryptedTemp, g.key)
    modifies d
    ensures d.failures >= old(d.failures) + if ok || g.damage.Some? then 0 else 1
    ensures ok ==> g.damage.None?
    ensures Kept(g, d) && PlainSource(d.files, g.key) && Exported(d.files, g)
    ensures SameOutside(d.files, old(d.files), FileSet(EncryptedTemp))
    ensures ok ==> Drained(d.files, EncryptedTemp)
    ensures ok ==> d.files[EncryptedTemp].data == DataAt(old(d.files), EncryptedTemp).(upgraded := true)
  {
    ok := OpenDatabase(d, EncryptedTemp, g);
    if !ok { return; }
    ok := d.Try();                                 // both integrity checks
    ok := ok && g.damage.None?;
    if !ok { return; }
    ok := Checkpoint(d, EncryptedTemp, false, g);  // prepareForRename
    if !ok { return; }
    ok := d.Try();                                 // verified.Close
  }

  /** Both sets of sidecars go; the copy is made private; the backup is copied. */
  method StageBackup(d: Folder, g: Goal) returns (madeTemp: bool, ok: bool)
    requires Kept(g, d) && PlainSource(d.files, g.key) && SidecarsMayGo(d.files, g)
    modifies d
    ensures d.failures >= old(d.failures) + if ok || Temp(g.temp) in old(d.files) then 0 else 1
    ensures Kept(g, d) && PlainSource(d.files, g.key)
    ensures SameOutside(d.files, old(d.files),
            {Wal(Live), Shm(Live), Wal(EncryptedTemp), Shm(EncryptedTemp), Temp(g.temp)})
    ensures !madeTemp ==> (Temp(g.temp) in d.files <==> Temp(g.temp) in old(d.files))
    ensures madeTemp ==> Temp(g.temp) !in old(d.files)
    ensures ok ==> madeTemp && Temp(g.temp) in d.files && d.files[Temp(g.temp)] == d.files[Live]
    ensures ok ==> Wal(Live) !in d.files && Shm(Live) !in d.files
    ensures ok ==> Wal(EncryptedTemp) !in d.files && Shm(EncryptedTemp) !in d.files
  {
    madeTemp := false;
    ok := RemoveSidecarsOf(d, Live, g);
    if !ok { return; }
    ok := RemoveSidecarsOf(d, EncryptedTemp, g);
    if !ok { return; }
    ok := d.Try();                                 // private mode
    if !ok { return; }
    madeTemp, ok := CreateBackupCopy(d, g);
  }

  /** The run cannot succeed even if nothing fails: the copy is damaged, or the backup's temporary name is taken. */
  predicate Hindered(g: Goal, f: Files) { g.damage.Some? || Temp(g.temp) in f }

  /** Everything between the cleared temporary set and the publication of the backup. */
  method Prepare(d: Folder, g: Goal) returns (madeTemp: bool, ok: bool)
    requires Kept(g, d) && PlainSource(d.files, g.key) && DataAt(d.files, Live).records == g.records
    requires forall p :: p in FileSet(EncryptedTemp) ==> p !in d.files
    modifies d
    ensures d.failures >= old(d.failures) + if ok || Hindered(g, old(d.files)) then 0 else 1
    ensures ok ==> g.damage.None?
    ensures Kept(g, d) && PlainSource(d.files, g.key)
    ensures SameOutside(d.files, old(d.files), FileSet(Live) + FileSet(EncryptedTemp) + {Temp(g.temp)})
    ensures !madeTemp ==> (Temp(g.temp) in d.files <==> Temp(g.temp) in old(d.files))
    ensures madeTemp ==> Temp(g.temp) !in old(d.files)
    ensures ok ==> madeTemp && Temp(g.temp) in d.files && d.files[Temp(g.temp)] == d.files[Live]
    ensures ok ==> Wal(Live) !in d.files && Shm(Live) !in d.files
    ensures ok ==> Exported(d.files, g) && d.files[EncryptedTemp].data == Data(g.records, true)
    ensures ok ==> Wal(EncryptedTemp) !in d.files && Shm(EncryptedTemp) !in d.files
  {
    madeTemp := false;
    ok := Export(d, g);
    if !ok { return; }
    ok := VerifyCopy(d, g);
    if !ok { return; }
    madeTemp, ok := StageBackup(d, g);
  }

  /** What a successful migration leaves. */
  ghost predicate Migrated(f: Files, before: Files, key: string, temp: nat, shared: bool)
    requires Opens(before, Live, key)
  {
    var records := DataAt(before, Live).records;
    && Live in f && f[Live] == Database(Keyed(key), Data(records, true))
    && Wal(Live) !in f && Shm(Live) !in f && Temp(temp) !in f
    && (forall p :: p in FileSet(EncryptedTemp) ==> p !in f)
    && Backup in f && f[Backup].Database? && f[Backup].cipher == Plain
    && (LogIsSafe(before, shared) ==> f[Backup].data.records == records)
  }

  lemma PublishedIsMigrated(g: Goal, f: Files)
    requires Starts(g) && Safe(g, f) && PlainSource(f, g.key) && Verified(f, g) && f[EncryptedTemp].data.upgraded
    requires Temp(g.temp) in f && f[Temp(g.temp)] == f[Live] && Wal(Live) !in f && Shm(Live) !in f
    requires Wal(EncryptedTemp) !in f && Shm(EncryptedTemp) !in f
    ensures Migrated(WithEncrypted(WithBackup(f, g.temp)), g.base, g.key, g.temp, g.shared)
  {
  }

  /** The publication steps: the backup first, then the one rename that changes the project. */
  method Publish(d: Folder, g: Goal) returns (publishedBackup: bool, ok: bool)
    requires Kept(g, d) && PlainSource(d.files, g.key)
    requires Temp(g.temp) in d.files && d.files[Temp(g.temp)] == d.files[Live] && Backup !in d.files
    requires Wal(Live) !in d.files && Shm(Live) !in d.files
    requires Verified(d.files, g) && d.files[EncryptedTemp].data.upgraded
    requires Wal(EncryptedTemp) !in d.files && Shm(EncryptedTemp) !in d.files
    modifies d
    ensures d.failures >= old(d.failures) + if ok then 0 else 1
    ensures Kept(g, d) && (ok ==> publishedBackup)
    ensures SameOutside(d.files, old(d.files), {Live, EncryptedTemp, Backup, Temp(g.temp)})
    ensures if publishedBackup
            then Backup in d.files && d.files[Backup] == old(d.files)[Live] && Temp(g.temp) !in d.files
            else d.files == old(d.files)
    ensures ok ==> Migrated(d.files, g.base, g.key, g.temp, g.shared)
    ensures !ok ==>
              Live in d.files && d.files[Live] == old(d.files)[Live]
              && d.files.Keys <= old(d.files).Keys + {Backup}
  {
    RunIsSafe(g, States(g, d.trace), |d.trace| - g.start);
    Grown(g, d.trace, d.files);
    Grown(g, d.trace, WithBackup(d.files, g.temp));
    PublishedIsMigrated(g, d.files);
    ok := d.Rename(Temp(g.temp), Backup);
    publishedBackup := ok;
    if !ok { return; }
    Grown(g, d.trace, d.files);
    Grown(g, d.trace, WithEncrypted(d.files));
    ok := d.Rename(EncryptedTemp, Live);
  }

  /** The run from the cleared temporary set on, for a source the database engine opens. */
  method Convert(d: Folder, g: Goal) returns (ok: bool, ghost complete: bool)
    requires Kept(g, d) && PlainSource(d.files, g.key) && DataAt(d.files, Live).records == g.records
    requires Backup !in d.files && forall p :: p in FileSet(EncryptedTemp) ==> p !in d.files
    modifies d
    ensures d.failures >= old(d.failures) + if ok || Hindered(g, old(d.files)) then 0 else 1
    ensures ok ==> g.damage.None?
    ensures Kept(g, d)
    ensures ok ==> Migrated(d.files, g.base, g.key, g.temp, g.shared)
    ensures !ok ==> PlainSource(d.files, g.key)
    ensures !ok && complete ==> d.files.Keys <= old(d.files).Keys + {Wal(Live), Shm(Live)}
    ensures d.failures == old(d.failures) ==> complete
    ensures d.failures == old(d.failures) + 1 && !Hindered(g, old(d.files)) ==> complete
  {
    var madeTemp, publishedBackup;
    madeTemp, ok := Prepare(d, g);
    publishedBackup, complete := false, true;
    if ok {
      publishedBackup, ok := Publish(d, g);
      madeTemp := !publishedBackup;
    }
    if !ok { complete := CleanUp(d, madeTemp, publishedBackup, g); }
  }

  /** Every entry of a run's trace is safe. */
  lemma TraceIsSafe(g: Goal, d: Folder)
    requires Kept(g, d)
    ensures forall k :: g.start <= k < |d.trace| ==> Safe(g, d.trace[k])
    ensures Safe(g, d.files)
  {
    forall k | g.start <= k < |d.trace| ensures Safe(g, d.trace[k]) {
      RunIsSafe(g, States(g, d.trace), k + 1 - g.start);
    }
    RunIsSafe(g, States(g, d.trace), |d.trace| - g.start);
  }

  /** The first step of a run: what an earlier run left is cleared. */
  lemma ClearedIsRun(g: Goal, d: Folder)
    requires Starts(g) && g.start < |d.trace| && d.files == d.trace[|d.trace| - 1]
    requires RemovesOneByOne(g.base, d.trace, g.start, FileSet(EncryptedTemp))
    ensures Kept(g, d) && PlainSource(d.files, g.key)
  {
    assert States(g, d.trace[..g.start]) == [g.base];
    RemovedInRun(g, g.base, d.trace, g.start, FileSet(EncryptedTemp));
  }

  /** The run that a project which is not refused begins. */
  ghost function GoalOf(f: Files, start: nat, key: string, shared: bool, temp: nat, damage: Option<Data>): Goal
    requires PlainSource(f, key)
  {
    Goal(start, key, DataAt(f, Live).records, shared, temp, damage, f)
  }

  /** Clear what an earlier run left, then open the source, which the engine may refuse. */
  method ClearAndConvert(d: Folder, key: string, shared: bool, temp: nat, damage: Option<Data>)
    returns (r: Result<Path, Failure>, ghost complete: bool)
    requires Backup !in d.files
    modifies d
    ensures PlainSource(old(d.files), key) ==> Kept(GoalOf(old(d.files), |old(d.trace)|, key, shared, temp, damage), d)
    ensures |old(d.trace)| <= |d.trace|
    ensures d.failures >= old(d.failures)
    ensures d.failures == old(d.failures) ==>
              && (!PlainSource(old(d.files), key) ==> r == Err(Engine))
              && (PlainSource(old(d.files), key) && damage.None? && Temp(temp) !in old(d.files) ==> r.Ok?)
    ensures d.failures == old(d.failures) ==> complete
    ensures d.failures == old(d.failures) + 1 && damage.None? && Temp(temp) !in old(d.files) ==> complete
    ensures r.Ok? ==> r.value == Backup && PlainSource(old(d.files), key) && damage.None?
                      && Migrated(d.files, old(d.files), key, temp, shared)
    ensures r.Err? ==> r.error.Io? || r.error.Engine?
    ensures r.Err? && PlainSource(old(d.files), key) ==> PlainSource(d.files, key)
    ensures r.Err? && complete ==> d.files.Keys <= old(d.files).Keys + {Wal(Live), Shm(Live)}
  {
    ghost var before, start := d.files, |d.trace|;
    var ok := d.RemoveFileSet(EncryptedTemp);
    complete := true;
    if PlainSource(before, key) { ClearedIsRun(GoalOf(before, start, key, shared, temp, damage), d); }
    if !ok { r := Err(Io); return; }
    if !PlainSource(d.files, key) {                // InitDB refuses it
      ok := d.RemoveFileSet(EncryptedTemp);
      r := Err(Engine);
      return;
    }
    var g := Goal(start, key, DataAt(before, Live).records, shared, temp, damage, before);
    ok, complete := Convert(d, g);
    r := if ok then Ok(Backup) else Err(Engine);
  }

  /** IsEncryptedFile. */
  predicate Encrypted(f: Files) { Live in f && f[Live].Database? && f[Live].cipher != Plain }

  /** A source that is there and not encrypted. */
  predicate Clear(f: Files) { Live in f && !Encrypted(f) }

  method Migrate(d: Folder, key: string, keyValid: bool, regular: bool, shared: bool, temp: nat, damage: Option<Data>)
    returns (r: Result<Path, Failure>, ghost complete: bool)
    modifies d
    // the moves of one run, and what every crash point of a project that opens keeps
    ensures |old(d.trace)| <= |d.trace|
    ensures PlainSource(old(d.files), key) && Backup !in old(d.files) ==>
              IsRun(GoalOf(old(d.files), |old(d.trace)|, key, shared, temp, damage),
                    [old(d.files)] + d.trace[|old(d.trace)|..])
    ensures Opens(old(d.files), Live, key) ==>
              && Opens(d.files, Live, key)
              && (forall k :: |old(d.trace)| <= k < |d.trace| ==>
                    && Opens(d.trace[k], Live, key)
                    && (LogIsSafe(old(d.files), shared) || damage.Some? ==>
                          DataAt(d.trace[k], Live).records == DataAt(old(d.files), Live).records)
                    && SameOutside(d.trace[k], old(d.files), Owned(temp)))
    // success
    ensures r.Ok? ==> r.value == Backup && Opens(old(d.files), Live, key) && damage.None?
                      && Migrated(d.files, old(d.files), key, temp, shared)
    // every failure
    ensures r.Err? && PlainSource(old(d.files), key) ==> PlainSource(d.files, key)
    ensures r.Err? && complete ==> d.files.Keys <= old(d.files).Keys + {Wal(Live), Shm(Live)}
    ensures d.failures == old(d.failures) ==> complete
    ensures d.failures == old(d.failures) + 1 && damage.None? && Temp(temp) !in old(d.files) ==> complete
    // refusals change nothing; a backup that was there is one of the reasons to refuse
    ensures r.Err? && !r.error.Io? && !r.error.Engine? ==> d.files == old(d.files) && d.trace == old(d.trace)
    ensures Backup in old(d.files) || !regular || Encrypted(old(d.files)) ==>
              r.Err? && d.files == old(d.files) && d.trace == old(d.trace)
    // each refusal exactly when it is due, in this order; a source that cannot be looked at counts as none
    ensures r == Err(BadKey) <==> !keyValid
    ensures keyValid && (Live !in old(d.files) || !regular) ==> r == Err(NoSource)
    ensures r == Err(NoSource) ==> keyValid && (Live !in old(d.files) || !regular || d.failures > old(d.failures))
    ensures r == Err(AlreadyEncrypted) ==> keyValid && regular && Encrypted(old(d.files))
    ensures d.failures == old(d.failures) && keyValid && regular && Encrypted(old(d.files)) ==>
              r == Err(AlreadyEncrypted)
    ensures r == Err(BackupExists) ==> keyValid && regular && Clear(old(d.files)) && Backup in old(d.files)
    ensures d.failures == old(d.failures) && keyValid && regular && Clear(old(d.files)) && Backup in old(d.files) ==>
              r == Err(BackupExists)
    // nothing fails: a plain source without a backup is migrated exactly when the engine reads it
    ensures d.failures == old(d.failures) && keyValid && regular && Clear(old(d.files)) && Backup !in old(d.files) ==>
              (PlainSource(old(d.files), key) && damage.None? && Temp(temp) !in old(d.files) ==> r == Ok(Backup))
              && (!PlainSource(old(d.files), key) ==> r == Err(Engine))
  {
    complete := true;
    if !keyValid { r := Err(BadKey); return; }
    var ok := d.Try();                             // stat and header read
    if Live !in d.files || !ok { r := Err(NoSource); return; }
    if !regular { r := Err(NoSource); return; }
    if Encrypted(d.files) { r := Err(AlreadyEncrypted); return; }
    if Backup in d.files { r := Err(BackupExists); return; }
    r, complete := ClearAndConvert(d, key, shared, temp, damage);
    if PlainSource(old(d.files), key) {
      TraceIsSafe(GoalOf(old(d.files), |old(d.trace)|, key, shared, temp, damage), d);
    }
  }
}
