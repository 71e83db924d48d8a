/**
 The write-ahead deletion log (internal/deletionlog/log.go) and DeleteProject with removeProjectFiles
 (internal/desktop/app_projects.go). The application may stop after any step.
 */
module DeletionLog {
  import opened Wrappers

  /** A file of the user's projects folder; folder is "" in the legacy flat layout. */
  datatype File = File(folder: string, name: string)

  datatype Audit = Audit(events: nat, valid: bool, terminalHash: string)

  /** A project, an initialised file with no project row, or a file the session's key does not open. */
  datatype Content = Project(id: string, name: string, audit: Audit) | NoProject | Unreadable

  datatype Request = Request(path: File, projectId: string, projectName: string, audit: Audit)

  datatype Kind = Requested(request: Request) | Deleted | Failed(detail: string)

  datatype Row = Row(id: string, kind: Kind)

  /** written are the files written since the last deletion read what it describes. */
  datatype State = State(files: map<File, Content>, rows: seq<Row>, written: set<File>)

  // ---------- The log ----------

  predicate HasRequest(rows: seq<Row>, id: string) {
    exists i :: 0 <= i < |rows| && rows[i].id == id && rows[i].kind.Requested?
  }

  predicate HasOutcome(rows: seq<Row>, id: string) {
    exists i :: 0 <= i < |rows| && rows[i].id == id && !rows[i].kind.Requested?
  }

  /** The statement's guards: a fresh identifier for a request, an open request for an outcome. */
  predicate Accepts(rows: seq<Row>, r: Row) {
    if r.kind.Requested? then !HasRequest(rows, r.id) else HasRequest(rows, r.id) && !HasOutcome(rows, r.id)
  }

  /** Each row was accepted by the rows before it. */
  ghost predicate WellFormed(rows: seq<Row>) {
    forall i :: 0 <= i < |rows| ==> Accepts(rows[..i], rows[i])
  }

  lemma AcceptedRowsKeepTheLogWellFormed(rows: seq<Row>, r: Row)
    ensures WellFormed(rows + [r]) <==> WellFormed(rows) && Accepts(rows, r)
  {
    var longer := rows + [r];
    assert longer[..|rows|] == rows && longer[|rows|] == r;
    forall i | 0 <= i < |rows| ensures longer[..i] == rows[..i] && longer[i] == rows[i] {}
    if WellFormed(longer) {
      forall i | 0 <= i < |rows| ensures Accepts(rows[..i], rows[i]) { assert Accepts(longer[..i], longer[i]); }
      assert Accepts(longer[..|rows|], longer[|rows|]);
    }
  }

  /** Requests have distinct identifiers; an outcome follows its request, and no request has two. */
  lemma OneRequestOneOutcome(rows: seq<Row>, i: nat, j: nat)
    requires WellFormed(rows) && i < j < |rows| && rows[i].id == rows[j].id
    ensures rows[i].kind.Requested? && !rows[j].kind.Requested?
  {
    assert rows[..j][i] == rows[i];
    assert Accepts(rows[..j], rows[j]);
  }

  // ---------- What a deletion covers ----------

  /** The files removed with the project at path: its folder, or the flat file with its sidecars. */
  predicate Covers(path: File, f: File) {
    if path.folder != "" then f.folder == path.folder
    else f.folder == "" && (f.name == path.name || f.name == path.name + "-wal" || f.name == path.name + "-shm")
  }

  function Describe(path: File, c: Content): Option<Request> {
    match c
    case Project(id, name, audit) => Some(Request(path, id, name, audit))
    case NoProject =>
      Some(Request(path, "", if path.folder != "" then path.folder else path.name, Audit(0, false, "")))
    case Unreadable => None
  }

  /** q tells which project c is: its id, name and audit chain, or for a file with none the name it goes by. */
  predicate Tells(path: File, c: Content, q: Request) {
    && q.path == path && !c.Unreadable?
    && (c.Project? ==> q.projectId == c.id && q.projectName == c.name && q.audit == c.audit)
    && (c.NoProject? ==> q.projectId == "" && q.audit.events == 0 && !q.audit.valid && q.audit.terminalHash == "")
    && (c.NoProject? && path.folder == "" ==> q.projectName == path.name)
    && (c.NoProject? && path.folder != "" ==> q.projectName == path.folder)
  }

  /** A deletion of path, holding c, added its request to the log and then these outcomes. */
  ghost predicate Logged(before: seq<Row>, after: seq<Row>, id: string, path: File, c: Content, outcomes: seq<Kind>) {
    && |before| < |after| && after[|before|].id == id && after[|before|].kind.Requested?
    && Tells(path, c, after[|before|].kind.request) && |after| == |before| + 1 + |outcomes|
    && after[..|before|] == before
    && forall k :: 0 <= k < |outcomes| ==> after[|before| + 1 + k] == Row(id, outcomes[k])
  }

  /** An open request that covers f and, when f is the project file itself and nobody wrote it, describes it. */
  ghost predicate Announced(s: State, f: File) {
    exists i ::
      && 0 <= i < |s.rows| && s.rows[i].kind.Requested? && !HasOutcome(s.rows, s.rows[i].id)
      && Covers(s.rows[i].kind.request.path, f)
      && (f == s.rows[i].kind.request.path && f in s.files && f !in s.written ==>
            Describe(f, s.files[f]) == Some(s.rows[i].kind.request))
  }

  /** Somebody writes one file. */
  ghost predicate Writes(s: State, t: State, f: File) {
    f in t.files && t == State(s.files[f := t.files[f]], s.rows, s.written + {f})
  }

  /** The step records that the deletion with this request is complete. */
  ghost predicate Records(t: State, request: Request) {
    && |t.rows| > 0 && t.rows[|t.rows| - 1].kind.Deleted?
    && Row(t.rows[|t.rows| - 1].id, Requested(request)) in t.rows
  }

  /** One step of a run: what it may remove, and what it may add to the log. */
  ghost predicate StepOk(s: State, t: State) {
    && WellFormed(t.rows)
    && (t.rows == s.rows || (|t.rows| == |s.rows| + 1 && t.rows[..|s.rows|] == s.rows))
    && (forall f :: f in s.files && f !in t.files ==> Announced(s, f))
    && (t.rows != s.rows ==> forall q, f :: Records(t, q) && Covers(q.path, f) ==> f !in t.files)
    && (t.written != s.written ==>
          (t.written == {} && t.files == s.files && t.rows == s.rows) || (exists f :: Writes(s, t, f)))
  }

  /** Only files that somebody wrote are new or changed. */
  ghost predicate Undisturbed(before: map<File, Content>, after: map<File, Content>, written: set<File>) {
    forall f :: f in after && f !in written ==> f in before && after[f] == before[f]
  }

  /** Only files of the project at path are gone. */
  ghost predicate Confined(path: File, before: map<File, Content>, after: map<File, Content>) {
    forall f :: f in before && f !in after ==> Covers(path, f)
  }

  // ---------- Writes between the description and the removal ----------

  /** One step of a deletion of path before it removes anything: its request is committed, or a file of w is written. */
  ghost predicate Prepares(s: State, t: State, request: Row, w: set<File>) {
    || (t == s.(rows := s.rows + [request]) && Accepts(s.rows, request))
    || (exists f :: f in w && Writes(s, t, f))
  }

  /** The states from the description of c at path to the one whose project file is removed. */
  ghost predicate IsDeletion(states: seq<State>, path: File, c: Content, request: Row, w: set<File>) {
    && states != [] && path in states[0].files && states[0].files[path] == c && states[0].written == {}
    && (forall k {:trigger Before(states, k)} :: 0 < k < |states| ==>
          Prepares(Before(states, k), states[k], request, w))
    && path in states[|states| - 1].files && request in states[|states| - 1].rows
  }

  function Before(states: seq<State>, k: nat): State
    requires 0 < k <= |states|
  {
    states[k - 1]
  }

  lemma {:induction false} UnwrittenIsUnchanged(
    states: seq<State>, path: File, c: Content, request: Row, w: set<File>, k: nat)
    requires IsDeletion(states, path, c, request, w) && path !in w && k < |states|
    ensures path in states[k].files && states[k].files[path] == c
  {
    if k > 0 {
      UnwrittenIsUnchanged(states, path, c, request, w, k - 1);
      assert Prepares(Before(states, k), states[k], request, w);
    }
  }

  lemma WriteIsAllowed(s: State, t: State, f: File)
    requires WellFormed(s.rows) && Writes(s, t, f)
    ensures StepOk(s, t)
  {
  }

  /** The project described, its request committed, the project overwritten: each step is allowed. */
  lemma OverwritingIsAllowed(s: State, path: File, d: Content, request: Row)
    requires s.rows == [] && request.kind.Requested?
    ensures var t := s.(rows := [request]);
            var u := State(t.files[path := d], t.rows, t.written + {path});
            Accepts([], request) && StepOk(s, t) && StepOk(t, u) && Writes(t, u, path)
  {
    var t := s.(rows := [request]);
    assert [] + [request] == [request];
    InsertIsAllowed(s, request);
    WriteIsAllowed(t, State(t.files[path := d], t.rows, t.written + {path}), path);
  }

  lemma Overwritten(path: File, c: Content, d: Content, request: Row, w: set<File>) returns (states: seq<State>)
    requires path in w && request.kind.Requested?
    ensures IsDeletion(states, path, c, request, w) && |states| == 3
    ensures states[0] == State(map[path := c], [], {}) && states[1] == states[0].(rows := [request])
    ensures states[2] == State(map[path := d], [request], {path})
  {
    var s := State(map[path := c], [], {});
    var t := s.(rows := [request]);
    var u := State(map[path := d], [request], {path});
    assert t.files[path := d] == u.files && Writes(t, u, path);
    assert s.rows + [request] == [request];
    assert Prepares(s, t, request, w) && Prepares(t, u, request, w);
    states := [s, t, u];
    forall k: nat | 0 < k < |states| ensures Prepares(Before(states, k), states[k], request, w) {
      assert k == 1 || k == 2;
    }
  }

  /**
   What is removed is what the request describes, whoever writes the files of w in between: exactly when the
   project file is not one of them. Nothing in the source keeps it from being one.
   */
  lemma RemovedAsDescribedIff(path: File, c: Content, id: string, w: set<File>)
    requires Describe(path, c).Some?
    ensures var request := Row(id, Requested(Describe(path, c).value));
            (forall states: seq<State> :: IsDeletion(states, path, c, request, w) ==>
               Describe(path, states[|states| - 1].files[path]) == Describe(path, c))
            <==> path !in w
  {
    var request := Row(id, Requested(Describe(path, c).value));
    if path in w {
      var states := Overwritten(path, c, Unreadable, request, w);
      assert IsDeletion(states, path, c, request, w);
    } else {
      forall states: seq<State> | IsDeletion(states, path, c, request, w)
        ensures Describe(path, states[|states| - 1].files[path]) == Describe(path, c) {
        UnwrittenIsUnchanged(states, path, c, request, w, |states| - 1);
      }
    }
  }

  /** A project that gains an audit event after it was described: the log shows one event fewer than were removed. */
  lemma LateEventIsNotDescribed() returns (states: seq<State>)
    ensures |states| == 3 && StepOk(states[0], states[1]) && StepOk(states[1], states[2])
    ensures var path := File("plan", "plan.gopmgr");
            var c, d := Project("p", "Plan", Audit(7, true, "h7")), Project("p", "Plan", Audit(8, true, "h8"));
            var request := Row("r", Requested(Describe(path, c).value));
            && IsDeletion(states, path, c, request, {path}) && states[|states| - 1].files[path] == d
            && Announced(states[|states| - 1], path) && Describe(path, d) != Some(request.kind.request)
  {
    var path := File("plan", "plan.gopmgr");
    var c, d := Project("p", "Plan", Audit(7, true, "h7")), Project("p", "Plan", Audit(8, true, "h8"));
    var request := Row("r", Requested(Describe(path, c).value));
    states := Overwritten(path, c, d, request, {path});
    var s := states[2];
    OverwritingIsAllowed(states[0], path, d, request);
    assert states[1].files[path := d] == s.files && states[1].written + {path} == s.written;
    assert s.rows[0] == request && Covers(path, path) && !HasOutcome(s.rows, s.rows[0].id);
  }

  // ---------- List ----------

  datatype Deletion = Deletion(id: string, request: Request, outcome: Option<Kind>)

  /** The outcome rows the join finds for one request. */
  function Matches(rows: seq<Row>, id: string, request: Request): seq<Deletion> {
    if rows == [] then []
    else
      var last := rows[|rows| - 1];
      Matches(rows[..|rows| - 1], id, request)
      + if last.id == id && !last.kind.Requested? then [Deletion(id, request, Some(last.kind))] else []
  }

  function Joined(rows: seq<Row>, id: string, request: Request): seq<Deletion> {
    var found := Matches(rows, id, request);
    if found == [] then [Deletion(id, request, None)] else found
  }

  /** The left join over the first n rows, newest request first. */
  function Listed(rows: seq<Row>, n: nat): seq<Deletion>
    requires n <= |rows|
  {
    if n == 0 then []
    else if rows[n - 1].kind.Requested?
    then Joined(rows, rows[n - 1].id, rows[n - 1].kind.request) + Listed(rows, n - 1)
    else Listed(rows, n - 1)
  }

  /** The positions of the requests among the first n rows, newest first. */
  function Requests(rows: seq<Row>, n: nat): seq<nat>
    requires n <= |rows|
  {
    if n == 0 then []
    else if rows[n - 1].kind.Requested? then [n - 1] + Requests(rows, n - 1)
    else Requests(rows, n - 1)
  }

  lemma {:induction false} RequestsAreAllNewestFirst(rows: seq<Row>, n: nat)
    requires n <= |rows|
    ensures var at := Requests(rows, n);
            && (forall k :: 0 <= k < |at| ==> at[k] < n && rows[at[k]].kind.Requested?)
            && (forall i :: 0 <= i < n && rows[i].kind.Requested? ==> i in at)
            && (forall j, k :: 0 <= j < k < |at| ==> at[j] > at[k])
    decreases n
  {
    if n > 0 { RequestsAreAllNewestFirst(rows, n - 1); }
  }

  /** Whether d is the list's entry for the request at position i. */
  ghost predicate IsEntry(rows: seq<Row>, i: nat, d: Deletion)
    requires i < |rows| && rows[i].kind.Requested?
  {
    && d.id == rows[i].id && d.request == rows[i].kind.request
    && (d.outcome.None? <==> !HasOutcome(rows, d.id))
    && (d.outcome.Some? ==> !d.outcome.value.Requested? && Row(d.id, d.outcome.value) in rows)
  }

  lemma OutcomeInExtension(rows: seq<Row>, r: Row, id: string)
    ensures HasOutcome(rows + [r], id) <==> HasOutcome(rows, id) || (r.id == id && !r.kind.Requested?)
  {
    var longer := rows + [r];
    assert longer[|rows|] == r;
    if HasOutcome(rows, id) {
      var k :| 0 <= k < |rows| && rows[k].id == id && !rows[k].kind.Requested?;
      assert longer[k] == rows[k];
    }
  }

  /** A join entry shows an outcome row of its request. */
  ghost predicate ShowsOutcome(rows: seq<Row>, id: string, request: Request, d: Deletion) {
    && d.id == id && d.request == request && d.outcome.Some? && !d.outcome.value.Requested?
    && Row(id, d.outcome.value) in rows
  }

  lemma {:induction false} MatchesShowOutcomes(rows: seq<Row>, id: string, request: Request)
    ensures forall d :: d in Matches(rows, id, request) ==> ShowsOutcome(rows, id, request, d)
  {
    if rows != [] {
      var before, last := rows[..|rows| - 1], rows[|rows| - 1];
      MatchesShowOutcomes(before, id, request);
      assert last == Row(last.id, last.kind) && last in rows;
      forall d | d in Matches(before, id, request) ensures ShowsOutcome(rows, id, request, d) {
        assert ShowsOutcome(before, id, request, d);
      }
    }
  }

  lemma {:induction false} MatchesAreCounted(rows: seq<Row>, id: string, request: Request)
    requires WellFormed(rows)
    ensures |Matches(rows, id, request)| == if HasOutcome(rows, id) then 1 else 0
    decreases |rows|
  {
    if rows != [] {
      var before, last := rows[..|rows| - 1], rows[|rows| - 1];
      assert rows == before + [last];
      AcceptedRowsKeepTheLogWellFormed(before, last);
      MatchesAreCounted(before, id, request);
      OutcomeInExtension(before, last, id);
    }
  }

  lemma JoinFindsTheOutcome(rows: seq<Row>, i: nat)
    requires WellFormed(rows) && i < |rows| && rows[i].kind.Requested?
    ensures var found := Joined(rows, rows[i].id, rows[i].kind.request);
            |found| == 1 && IsEntry(rows, i, found[0])
  {
    var id, request := rows[i].id, rows[i].kind.request;
    MatchesAreCounted(rows, id, request);
    MatchesShowOutcomes(rows, id, request);
    if HasOutcome(rows, id) {
      var found := Matches(rows, id, request);
      assert found[0] in found;
      assert ShowsOutcome(rows, id, request, found[0]);
    }
  }

  /** The list is its newest request's one entry followed by the list without that request. */
  lemma ListedStep(rows: seq<Row>, n: nat) returns (head: Deletion)
    requires WellFormed(rows) && 0 < n <= |rows| && rows[n - 1].kind.Requested?
    ensures Listed(rows, n) == [head] + Listed(rows, n - 1) && IsEntry(rows, n - 1, head)
  {
    JoinFindsTheOutcome(rows, n - 1);
    var found := Joined(rows, rows[n - 1].id, rows[n - 1].kind.request);
    head := found[0];
    assert found == [head];
  }

  ghost predicate AreEntries(rows: seq<Row>, at: seq<nat>, list: seq<Deletion>) {
    |list| == |at| && forall k :: 0 <= k < |at| ==>
      at[k] < |rows| && rows[at[k]].kind.Requested? && IsEntry(rows, at[k], list[k])
  }

  /** List has exactly one entry for each request, newest first, with that request's outcome. */
  lemma {:induction false} ListHasOneEntryPerRequest(rows: seq<Row>, n: nat)
    requires WellFormed(rows) && n <= |rows|
    ensures AreEntries(rows, Requests(rows, n), Listed(rows, n))
    decreases n
  {
    if n > 0 {
      ListHasOneEntryPerRequest(rows, n - 1);
      if rows[n - 1].kind.Requested? {
        var head := ListedStep(rows, n);
        AddEntry(rows, n - 1, head, Requests(rows, n - 1), Listed(rows, n - 1));
      }
    }
  }

  lemma AddEntry(rows: seq<Row>, i: nat, d: Deletion, at: seq<nat>, list: seq<Deletion>)
    requires i < |rows| && rows[i].kind.Requested? && IsEntry(rows, i, d) && AreEntries(rows, at, list)
    ensures AreEntries(rows, [i] + at, [d] + list)
  {
  }

  /** The outcome rows the join finds for one request. */
  method FindOutcomes(rows: seq<Row>, id: string, request: Request) returns (found: seq<Deletion>)
    ensures found == Matches(rows, id, request)
  {
    found := [];
    for m := 0 to |rows|
      invariant found == Matches(rows[..m], id, request)
    {
      assert rows[..m + 1][..m] == rows[..m];
      if rows[m].id == id && !rows[m].kind.Requested? {
        found := found + [Deletion(id, request, Some(rows[m].kind))];
      }
    }
    assert rows[..|rows|] == rows;
  }

  // ---------- The user's folder and log, step by step ----------

  datatype Removal = Done | Broken | Stopped

  /** Ready is the one that goes on: a committed request, and nothing removed yet. */
  datatype Outcome = Refused | NotRecorded | Ready | RemovalFailed | Gone | Crashed

  datatype Event = Delete(path: File, id: string) | Write(file: File, content: Content)

  class Machine {
    var files: map<File, Content>
    var rows: seq<Row>
    ghost var written: set<File>
    ghost var trace: seq<State>

    /** Every step does what it is asked: nothing fails and the application is not stopped. */
    const reliable: bool

    constructor (files: map<File, Content>, reliable: bool)
      ensures Good() && this.files == files && rows == [] && this.reliable == reliable
    {
      this.files, rows, written, trace := files, [], {}, [State(files, [], {})];
      this.reliable := reliable;
    }

    /** Whether the next step succeeds. */
    method Try() returns (ok: bool)
      ensures reliable ==> ok
    {
      ok := *;
      if reliable { ok := true; }
    }

    ghost function Now(): State
      reads this
    {
      State(files, rows, written)
    }

    /** Every step so far was allowed, and the last state is the present one. */
    ghost predicate Good()
      reads this
    {
      && |trace| > 0 && trace[|trace| - 1] == Now() && WellFormed(rows)
      && forall k :: 0 < k < |trace| ==> StepOk(trace[k - 1], trace[k])
    }

    /** One INSERT: refused by its guards, lost, or committed; an error may be reported all the same. */
    method Insert(r: Row) returns (ok: bool)
      requires Good()
      requires r.kind.Deleted? ==> forall q, f :: Row(r.id, Requested(q)) in rows && Covers(q.path, f) ==> f !in files
      modifies this
      ensures Good() && old(trace) <= trace && files == old(files) && written == old(written)
      ensures rows == old(rows) || (rows == old(rows) + [r] && Accepts(old(rows), r))
      ensures ok ==> rows == old(rows) + [r]
      ensures reliable && Accepts(old(rows), r) ==> ok
    {
      var committed := Try();
      var reported := Try();
      ok := committed && reported && Accepts(rows, r);
      if committed && Accepts(rows, r) {
        InsertIsAllowed(Now(), r);
        rows := rows + [r];
        trace := trace + [Now()];
      }
    }

    method RemoveOne(f: File) returns (ok: bool)
      requires Good() && (f in files ==> Announced(Now(), f))
      modifies this
      ensures Good() && old(trace) <= trace && rows == old(rows) && written == old(written)
      ensures files == if ok then old(files) - {f} else old(files)
      ensures reliable ==> ok
    {
      ok := Try();
      if ok && f in files {
        files := files - {f};
        trace := trace + [Now()];
      }
    }

    /** A write that no lock holds back. */
    method WriteFile(f: File, c: Content)
      requires Good()
      modifies this
      ensures Good() && old(trace) <= trace && rows == old(rows)
      ensures files == old(files)[f := c] && written == old(written) + {f}
    {
      files, written := files[f := c], written + {f};
      assert Writes(old(Now()), Now(), f);
      trace := trace + [Now()];
    }

    /** The user's projects go on being written; once a removal has begun, its project gains no more files. */
    method Meanwhile(path: File, removing: bool)
      requires Good()
      modifies this
      ensures Good() && old(trace) <= trace && rows == old(rows)
      ensures old(files).Keys <= files.Keys && old(written) <= written && Undisturbed(old(files), files, written)
      ensures removing ==> forall f :: f in files && Covers(path, f) ==> f in old(files)
    {
      var n: int := *;
      while n > 0
        invariant Good() && old(trace) <= trace && rows == old(rows)
        invariant old(files).Keys <= files.Keys && old(written) <= written && Undisturbed(old(files), files, written)
        invariant removing ==> forall f :: f in files && Covers(path, f) ==> f in old(files)
      {
        var f: File, c: Content := *, *;
        if !removing || !Covers(path, f) || f in files { WriteFile(f, c); }
        n := n - 1;
      }
    }

    /** rows[i] is the open request for path, and describes the project if it is still there and nobody wrote it. */
    ghost predicate Opened(i: nat, path: File)
      reads this
    {
      && i < |rows| && rows[i].kind.Requested? && !HasOutcome(rows, rows[i].id) && rows[i].kind.request.path == path
      && (path in files && path !in written ==> Describe(path, files[path]) == Some(rows[i].kind.request))
    }

    /** os.RemoveAll on the project's folder: entries in some order, going on after a failure. */
    method RemoveFolder(path: File, ghost i: nat) returns (r: Removal)
      requires Good() && path.folder != "" && Opened(i, path)
      modifies this
      ensures Good() && old(trace) <= trace && rows == old(rows) && old(written) <= written
      ensures Confined(path, old(files), files) && Undisturbed(old(files), files, written)
      ensures r.Done? ==> forall f :: Covers(path, f) ==> f !in files
      ensures reliable ==> r.Done?
    {
      var left := set f | f in files && f.folder == path.folder;
      r := Done;
      while left != {}
        invariant Good() && old(trace) <= trace && rows == old(rows) && Opened(i, path)
        invariant Confined(path, old(files), files) && Undisturbed(old(files), files, written)
        invariant old(written) <= written
        invariant forall f :: f in left ==> f.folder == path.folder
        invariant r.Done? ==> forall f :: f in files && Covers(path, f) ==> f in left
        invariant reliable ==> r.Done?
        decreases left
      {
        var f :| f in left;
        var go := Try();
        if !go { r := Stopped; return; }
        Meanwhile(path, true);
        var ok := RemoveOne(f);
        if !ok { r := Broken; }
        left := left - {f};
      }
    }

    /** The legacy layout: the file, then its sidecars; the first failure ends it. */
    method RemoveFlat(path: File, ghost i: nat) returns (r: Removal)
      requires Good() && path.folder == "" && Opened(i, path)
      modifies this
      ensures Good() && old(trace) <= trace && rows == old(rows) && old(written) <= written
      ensures Confined(path, old(files), files) && Undisturbed(old(files), files, written)
      ensures r.Done? ==> forall f :: Covers(path, f) ==> f !in files
      ensures reliable ==> r.Done?
    {
      var names := [path, File("", path.name + "-wal"), File("", path.name + "-shm")];
      for n := 0 to |names|
        invariant Good() && old(trace) <= trace && rows == old(rows) && Opened(i, path)
        invariant Confined(path, old(files), files) && Undisturbed(old(files), files, written)
        invariant old(written) <= written
        invariant forall m :: 0 <= m < n ==> names[m] !in files
      {
        var go := Try();
        if !go { r := Stopped; return; }
        Meanwhile(path, true);
        var ok := RemoveOne(names[n]);
        if !ok { r := Broken; return; }
      }
      r := Done;
      forall f | Covers(path, f) ensures f !in files { assert f == names[0] || f == names[1] || f == names[2]; }
    }

    /** Up to the committed request. */
    method Announce(path: File, id: string) returns (o: Outcome, request: Row)
      requires Good()
      modifies this
      ensures Good() && old(trace) <= trace && old(rows) <= rows
      ensures old(files).Keys <= files.Keys && Undisturbed(old(files), files, written)
      ensures o in {Crashed, Refused, NotRecorded, Ready}
      ensures o.Crashed? || o.Refused? ==> rows == old(rows)
      ensures path !in old(files) || old(files)[path].Unreadable? ==> o.Refused? || o.Crashed?
      ensures o.Ready? ==> rows == old(rows) + [request] && request.id == id && Opened(|old(rows)|, path)
                               && Accepts(old(rows), request)
      ensures o.Ready? ==> path in old(files) && Logged(old(rows), rows, id, path, old(files)[path], [])
      ensures o.NotRecorded? ==> path in old(files) && !old(files)[path].Unreadable?
      ensures o.NotRecorded? ==> rows == old(rows) || Logged(old(rows), rows, id, path, old(files)[path], [])
      ensures reliable && path in old(files) && !old(files)[path].Unreadable? ==>
                o == if HasRequest(old(rows), id) then NotRecorded else Ready
      ensures reliable ==> !o.Crashed?
    {
      var go := Try();
      var ok := Try();
      request := Row(id, Deleted);
      if !go { o := Crashed; return; }
      o := Refused;
      if path !in files { return; }                // projectPathFor
      var described := Describe(path, files[path]);
      written := {};
      trace := trace + [Now()];
      Meanwhile(path, false);
      if !ok || described.None? { return; }
      request := Row(id, Requested(described.value));
      ok := Insert(request);
      if !ok { o := NotRecorded; return; }
      o := Ready;
      NewRequestIsOpen(old(rows), request);
      assert rows[|old(rows)|] == request;
      Meanwhile(path, false);
    }

    /** The outcome of a removal that came to an end. */
    method Conclude(removal: Removal, path: File, request: Row, ghost before: seq<Row>) returns (o: Outcome)
      requires Good() && rows == before + [request] && !removal.Stopped?
      requires !HasRequest(before, request.id) && Opened(|before|, path)
      requires removal.Done? ==> forall f :: Covers(path, f) ==> f !in files
      modifies this
      ensures Good() && old(trace) <= trace && old(rows) <= rows && files == old(files) && written == old(written)
      ensures o.Crashed? || o == if removal.Done? then Gone else RemovalFailed
      ensures o.RemovalFailed? ==> Row(request.id, Deleted) !in rows
      ensures rows == old(rows) || rows == old(rows) + [Row(request.id, if removal.Done? then Deleted else Failed(""))]
      ensures o.Crashed? ==> rows == old(rows)
      ensures reliable ==> !o.Crashed? && rows != old(rows)
    {
      var go := Try();
      if !go { o := Crashed; return; }
      assert rows[|before|] == request;
      NewRequestHasNoOutcome(before, request);
      AcceptedRowsKeepTheLogWellFormed(before, request);
      NewRequestIsOpen(before, request);
      var ok;
      if removal.Broken? {
        ok := Insert(Row(request.id, Failed("")));
        o := RemovalFailed;
      } else {
        OnlyOneRequest(before, request);
        ok := Insert(Row(request.id, Deleted));
        o := Gone;
      }
    }

    method DeleteProject(path: File, id: string) returns (o: Outcome)
      requires Good()
      modifies this
      ensures Good() && old(trace) <= trace && old(rows) <= rows
      ensures Confined(path, old(files), files) && Undisturbed(old(files), files, written)
      ensures !o.Ready? && (o.Refused? ==> rows == old(rows))
      ensures o.Refused? || o.NotRecorded? ==> old(files).Keys <= files.Keys
      ensures path !in old(files) || old(files)[path].Unreadable? ==> o.Refused? || o.Crashed?
      ensures path !in old(files) || old(files)[path].Unreadable? ==>
                old(files).Keys <= files.Keys && rows == old(rows)
      ensures o.Gone? || o.RemovalFailed? ==> HasRequest(rows, id) && !HasRequest(old(rows), id)
      ensures o.Gone? ==> forall f :: Covers(path, f) ==> f !in files
      ensures o.Gone? && path.folder == "" ==>
                path !in files && File("", path.name + "-wal") !in files && File("", path.name + "-shm") !in files
      ensures o.Gone? && path.folder != "" ==> forall f: File :: f.folder == path.folder ==> f !in files
      ensures forall f :: f in old(files) && f !in files ==>
                if path.folder == "" then f in {path, File("", path.name + "-wal"), File("", path.name + "-shm")}
                else f.folder == path.folder
      ensures o.RemovalFailed? ==> Row(id, Deleted) !in rows
      ensures o.NotRecorded? || o.Gone? || o.RemovalFailed? ==> path in old(files)
      ensures o.NotRecorded? ==> rows == old(rows) || Logged(old(rows), rows, id, path, old(files)[path], [])
      ensures o.Gone? || o.RemovalFailed? ==>
                || Logged(old(rows), rows, id, path, old(files)[path], [])
                || Logged(old(rows), rows, id, path, old(files)[path], [if o.Gone? then Deleted else Failed("")])
      ensures reliable && path in old(files) && !old(files)[path].Unreadable? ==>
                if HasRequest(old(rows), id) then o.NotRecorded?
                else o.Gone? && Logged(old(rows), rows, id, path, old(files)[path], [Deleted])
      ensures reliable ==> (o.Refused? <==> path !in old(files) || old(files)[path].Unreadable?)
    {
      var request;
      o, request := Announce(path, id);
      if !o.Ready? { return; }
      ghost var i := |old(rows)|;
      var removal;
      if path.folder != "" { removal := RemoveFolder(path, i); } else { removal := RemoveFlat(path, i); }
      if removal.Stopped? { o := Crashed; return; }
      assert rows[i] == request;
      o := Conclude(removal, path, request, old(rows));
      assert rows[i] == request;
    }

    /** Any run of deletions, crashes and other writes to the folder, before, between and during the deletions. */
    method Run(events: seq<Event>)
      requires Good()
      modifies this
      ensures Good() && old(trace) <= trace && old(rows) <= rows
    {
      for n := 0 to |events|
        invariant Good() && old(trace) <= trace && old(rows) <= rows
      {
        match events[n]
        case Delete(path, id) =>
          var o := DeleteProject(path, id);
        case Write(f, c) =>
          WriteFile(f, c);
      }
    }

    method List() returns (list: seq<Deletion>)
      ensures list == Listed(rows, |rows|)
    {
      list := [];
      var n := |rows|;
      while n > 0
        invariant 0 <= n <= |rows|
        invariant list + Listed(rows, n) == Listed(rows, |rows|)
      {
        n := n - 1;
        if rows[n].kind.Requested? {
          var id, request := rows[n].id, rows[n].kind.request;
          var found := FindOutcomes(rows, id, request);
          if found == [] { found := [Deletion(id, request, None)]; }
          list := list + found;
        }
      }
    }
  }

  lemma OutcomeHasRequest(rows: seq<Row>, id: string)
    requires WellFormed(rows)
    ensures HasOutcome(rows, id) ==> HasRequest(rows, id)
  {
    if HasOutcome(rows, id) {
      var k :| 0 <= k < |rows| && rows[k].id == id && !rows[k].kind.Requested?;
      assert Accepts(rows[..k], rows[k]);
      var j :| 0 <= j < k && rows[..k][j].id == id && rows[..k][j].kind.Requested?;
      assert rows[j].id == id && rows[j].kind.Requested?;
    }
  }

  lemma NewRequestIsOpen(rows: seq<Row>, request: Row)
    requires WellFormed(rows) && Accepts(rows, request) && request.kind.Requested?
    ensures !HasOutcome(rows + [request], request.id) && HasRequest(rows + [request], request.id)
  {
    var longer := rows + [request];
    assert longer[|rows|] == request;
    OutcomeHasRequest(rows, request.id);
    OutcomeInExtension(rows, request, request.id);
  }

  lemma NewRequestHasNoOutcome(rows: seq<Row>, request: Row)
    requires !HasRequest(rows, request.id) && WellFormed(rows + [request]) && request.kind.Requested?
    ensures Row(request.id, Deleted) !in rows + [request]
  {
    AcceptedRowsKeepTheLogWellFormed(rows, request);
    NewRequestIsOpen(rows, request);
    var longer, d := rows + [request], Row(request.id, Deleted);
    forall k | 0 <= k < |longer| ensures longer[k] != d {
      assert longer[k].id == request.id ==> longer[k].kind.Requested?;
    }
  }

  /** Only one request has the identifier of a request just written. */
  lemma OnlyOneRequest(rows: seq<Row>, request: Row)
    requires !HasRequest(rows, request.id) && request.kind.Requested?
    ensures forall q :: Row(request.id, Requested(q)) in rows + [request] ==> q == request.kind.request
  {
    forall q | q != request.kind.request ensures Row(request.id, Requested(q)) !in rows + [request] {
      var other := Row(request.id, Requested(q));
      assert forall k :: 0 <= k < |rows| && rows[k] == other ==> rows[k].id == request.id && rows[k].kind.Requested?;
    }
  }

  lemma InsertIsAllowed(before: State, r: Row)
    requires WellFormed(before.rows) && Accepts(before.rows, r)
    requires r.kind.Deleted? ==>
               forall q, f :: Row(r.id, Requested(q)) in before.rows && Covers(q.path, f) ==> f !in before.files
    ensures StepOk(before, before.(rows := before.rows + [r]))
  {
    AcceptedRowsKeepTheLogWellFormed(before.rows, r);
    var now := before.(rows := before.rows + [r]);
    assert now.rows[..|before.rows|] == before.rows && now.rows[|now.rows| - 1] == r;
    forall q, f | Records(now, q) && Covers(q.path, f) ensures f !in now.files {
      assert Row(r.id, Requested(q)) in before.rows;
    }
  }
}
