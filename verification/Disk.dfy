/**
 A project folder: every operation may fail, and a ghost counter says how many did. The ghost trace records
 the files after each step, so a property of every trace entry is a property of every crash point.
 */
module Disk {

  /** The file names the database package derives from one project path. */
  datatype Path =
    | Live | EncryptedTemp | Backup | Temp(n: nat) | Snapshot | Corrupt
    | Wal(of: Path) | Shm(of: Path) | Other(name: string)

  datatype Cipher = Plain | Keyed(key: string)

  /** What a database holds: the user's records, and whether the schema migration has run on it. */
  datatype Data = Data(records: string, upgraded: bool)

  /** Frames is a write-ahead log holding newer pages than its main file; Empty is a truncated log or index. */
  datatype Content = Database(cipher: Cipher, data: Data) | Frames(cipher: Cipher, data: Data) | Empty | Partial

  type Files = map<Path, Content>

  /** after is before with some of the named files removed. */
  ghost predicate Trimmed(before: Files, after: Files, ps: set<Path>) {
    && after.Keys <= before.Keys && before.Keys - ps <= after.Keys
    && forall p :: p in after ==> after[p] == before[p]
  }

  ghost predicate SameOutside(a: Files, b: Files, ps: set<Path>) {
    forall p :: p !in ps ==> (p in a <==> p in b) && (p in a ==> a[p] == b[p])
  }

  /** One attempt to remove one of the named files. */
  ghost predicate RemovesOne(before: Files, after: Files, ps: set<Path>) {
    after == before || exists p :: p in ps && after == before - {p}
  }

  /** The file map ahead of entry k, for entries that begin at from after the file map before. */
  ghost function Prior(before: Files, trace: seq<Files>, from: nat, k: nat): Files
    requires from <= k <= |trace|
  {
    if k == from then before else trace[k - 1]
  }

  /** From the file map before on, each later entry of the trace is one such attempt after the one ahead of it. */
  ghost predicate RemovesOneByOne(before: Files, trace: seq<Files>, from: nat, ps: set<Path>) {
    && from < |trace|
    && forall k {:trigger Prior(before, trace, from, k)} :: from <= k < |trace| ==>
         RemovesOne(Prior(before, trace, from, k), trace[k], ps)
  }

  /** One attempt to remove p, then attempts on others, are attempts on all of them. */
  lemma OneThenMore(before: Files, trace: seq<Files>, from: nat, p: Path, more: set<Path>)
    requires from < |trace| && RemovesOne(before, trace[from], {p})
    requires RemovesOneByOne(trace[from], trace, from + 1, more)
    ensures RemovesOneByOne(before, trace, from, {p} + more)
  {
    assert p in {p} + more;
    forall k | from <= k < |trace| ensures RemovesOne(Prior(before, trace, from, k), trace[k], {p} + more) {
      if k > from { assert RemovesOne(Prior(trace[from], trace, from + 1, k), trace[k], more); }
    }
  }

  class Folder {
    var files: Files
    ghost var failures: nat
    ghost var trace: seq<Files>

    constructor (files: Files)
      ensures this.files == files && trace == [files] && failures == 0
    {
      this.files, failures, trace := files, 0, [files];
    }

    /** A step that changes no file, and may fail. */
    method Try() returns (ok: bool)
      modifies `failures
      ensures failures == old(failures) + if ok then 0 else 1
    {
      ok := *;
      if !ok { failures := failures + 1; }
    }

    /** A step of the database engine or of a copy loop. */
    method Put(p: Path, c: Content)
      modifies this
      ensures files == old(files)[p := c] && trace == old(trace) + [files] && failures == old(failures)
    {
      files := files[p := c];
      trace := trace + [files];
    }

    /** removeIfExists. */
    method Remove(p: Path) returns (ok: bool)
      modifies this
      ensures failures == old(failures) + if ok then 0 else 1
      ensures files == if ok then old(files) - {p} else old(files)
      ensures trace == old(trace) + [files]
    {
      ok := Try();
      if ok { files := files - {p}; }
      trace := trace + [files];
    }

    /** One same-directory rename: it replaces the destination or changes nothing. */
    method Rename(from: Path, to: Path) returns (ok: bool)
      modifies this
      ensures ok ==> from in old(files)
      ensures failures == old(failures) + if ok || from !in old(files) then 0 else 1
      ensures files == if ok then (old(files) - {from})[to := old(files)[from]] else old(files)
      ensures trace == old(trace) + [files]
    {
      ok := false;
      if from in files { ok := Try(); }
      if ok { files := (files - {from})[to := files[from]]; }
      trace := trace + [files];
    }

    /** The -wal and -shm files; stops at the first failure. */
    method RemoveSidecars(p: Path) returns (ok: bool)
      modifies this
      ensures failures == old(failures) + if ok then 0 else 1
      ensures ok ==> files == old(files) - {Wal(p), Shm(p)}
      ensures Trimmed(old(files), files, {Wal(p), Shm(p)})
      ensures !ok ==> files == old(files) || files == old(files) - {Wal(p)}
      ensures old(trace) <= trace && RemovesOneByOne(old(files), trace, |old(trace)|, {Wal(p), Shm(p)})
      ensures files == trace[|trace| - 1]
      ensures forall k :: |old(trace)| <= k < |trace| ==> Trimmed(old(files), trace[k], {Wal(p), Shm(p)})
    {
      ghost var ps := {Wal(p), Shm(p)};
      ok := Remove(Wal(p));
      assert Wal(p) in ps && RemovesOne(old(files), files, ps);
      if !ok { return; }
      ghost var before := files;
      ok := Remove(Shm(p));
      assert Shm(p) in ps && RemovesOne(before, files, ps);
    }

    /** The database file, then its sidecars; stops at the first failure. */
    method RemoveFileSet(p: Path) returns (ok: bool)
      modifies this
      ensures failures == old(failures) + if ok then 0 else 1
      ensures ok ==> files == old(files) - {p, Wal(p), Shm(p)}
      ensures Trimmed(old(files), files, {p, Wal(p), Shm(p)})
      ensures old(trace) <= trace && RemovesOneByOne(old(files), trace, |old(trace)|, {p, Wal(p), Shm(p)})
      ensures files == trace[|trace| - 1]
      ensures forall k :: |old(trace)| <= k < |trace| ==> Trimmed(old(files), trace[k], {p, Wal(p), Shm(p)})
    {
      ok := Remove(p);
      assert p in {p} && RemovesOne(old(files), files, {p});
      if !ok { return; }
      ok := RemoveSidecars(p);
      OneThenMore(old(files), trace, |old(trace)|, p, {Wal(p), Shm(p)});
      assert {p} + {Wal(p), Shm(p)} == {p, Wal(p), Shm(p)};
    }
  }
}
