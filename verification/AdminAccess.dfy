/**
 Administrator access (internal/desktop/app_admin_access.go) under the session epoch
 (internal/desktop/session_state.go). Every section that holds App.mu is one event, and so is every slow
 step between two of them; calls in flight are part of the state, so a run is any interleaving.
 */
module AdminAccess {
  import opened Wrappers

  datatype Account = Account(name: string, admin: bool)

  /** A project copy being viewed: the data folder it was copied from, and the folder holding it. */
  datatype View = View(source: string, folder: nat)

  datatype Access = Access(target: string, dataDir: string, key: nat, view: Option<View>, epoch: nat)

  datatype Grant = Grant(actor: string, target: string)

  /**
   The App fields, the key buffers made and zeroed so far, the copy folders made so far and those on disk.
   stuck are the folders whose removal was tried and failed; the application only logs that. dropped are the
   key copies a listing took and left to the garbage collector.
   */
  datatype Desk = Desk(
    epoch: nat, user: Option<Account>, sessionKey: Option<nat>, access: Option<Access>,
    keysMade: nat, zeroed: set<nat>, dropped: set<nat>,
    foldersMade: nat, folders: set<nat>, stuck: set<nat>, grants: set<Grant>)

  // ---------- Sections that hold the lock ----------

  function Zero(d: Desk, key: nat): Desk { d.(zeroed := d.zeroed + {key}) }

  function Drop(d: Desk, key: nat): Desk { d.(dropped := d.dropped + {key}) }

  function RemoveFolder(d: Desk, folder: nat, removed: bool): Desk {
    if removed then d.(folders := d.folders - {folder}) else d.(stuck := d.stuck + {folder})
  }

  /** closeAdminViewLocked. */
  function CloseView(d: Desk, removed: bool): Desk {
    if d.access.None? || d.access.value.view.None? then d
    else
      RemoveFolder(d, d.access.value.view.value.folder, removed)
      .(access := Some(d.access.value.(view := None)))
  }

  /** stopAdminAccessLocked. */
  function StopAccess(d: Desk, removed: bool): Desk {
    if d.access.None? then d else Zero(CloseView(d, removed), d.access.value.key).(access := None)
  }

  /** clearSessionLocked. */
  function ClearSession(d: Desk, removed: bool): Desk {
    var stopped := StopAccess(d, removed);
    var wiped := if stopped.sessionKey.Some? then Zero(stopped, stopped.sessionKey.value) else stopped;
    wiped.(user := None, sessionKey := None, epoch := d.epoch + 1)
  }

  /** setSessionLocked. */
  function SetSession(d: Desk, account: Account, key: nat, removed: bool): Desk {
    ClearSession(d, removed).(user := Some(account), sessionKey := Some(key))
  }

  /** The last section of AdminOpenUserData. */
  function PublishAccess(d: Desk, target: string, dataDir: string, key: nat, epoch: nat, removed: bool): Desk {
    if d.epoch != epoch then Zero(d, key)
    else StopAccess(d, removed).(access := Some(Access(target, dataDir, key, None, epoch)))
  }

  /** openAccess hands out a copy of the open access's key. */
  predicate AccessOpen(d: Desk) { d.access.Some? && d.access.value.epoch == d.epoch }

  predicate ViewStillWanted(d: Desk, dataDir: string, epoch: nat) {
    d.access.Some? && d.access.value.dataDir == dataDir && d.access.value.epoch == epoch && d.epoch == epoch
  }

  /** The last section of AdminViewUserProject; the call's copy of the key is zeroed on the way out. */
  function PublishView(d: Desk, dataDir: string, key: nat, folder: nat, epoch: nat, removed: bool): Desk {
    Zero(if ViewStillWanted(d, dataDir, epoch)
         then var closed := CloseView(d, removed);
              closed.(access := Some(closed.access.value.(view := Some(View(dataDir, folder)))))
         else RemoveFolder(d, folder, removed), key)
  }

  // ---------- Calls in flight ----------

  /** AdminListUserProjects, AdminViewUserProject, and the methods that read the viewed copy. */
  datatype Purpose = ToList | ToView | ToRead

  datatype Call =
    | SigningIn(epoch: nat)
    | SignedIn(epoch: nat, account: Account, key: nat)
    | Opening(epoch: nat, caller: string, target: string)
    | Asking(epoch: nat, caller: string, target: string, key: nat)
    | Granted(epoch: nat, caller: string, target: string, key: nat)
    | Cleared(epoch: nat, caller: string, target: string, dataDir: string, key: nat)
    | Using(epoch: nat, purpose: Purpose)
    | Known(epoch: nat, purpose: Purpose)
    | Unfit(epoch: nat)
    | Checked(epoch: nat, purpose: Purpose)
    | Admitted(epoch: nat, dataDir: string, key: nat)
    | Copying(epoch: nat, dataDir: string, key: nat, folder: nat)
    | Copied(epoch: nat, dataDir: string, key: nat, folder: nat)

  datatype World = World(desk: Desk, calls: map<nat, Call>)

  /** Each event names its call and what the file system, the account store or the user decided. */
  datatype Event =
    | BeginSignIn(call: nat)
    | CheckPassword(call: nat, account: Option<Account>)
    | FinishSignIn(call: nat, refused: bool, removed: bool)
    | SignOut(removed: bool)                          // Logout and shutdown
    | BeginOpen(call: nat, target: string)
    | TakeSessionKey(call: nat)
    | AskStore(call: nat, allowed: bool)
    | StopEarlier(call: nat, dataDir: Option<string>, removed: bool, stale: set<nat>)
    | FinishOpen(call: nat, removed: bool)
    | BeginUse(call: nat, purpose: Purpose)
    | ReadCaller(call: nat)                           // checkAccessCaller: the user, the store, and the stop
    | RequireSuper(call: nat, super: bool)
    | StopUnfit(call: nat, removed: bool)
    | TakeAccess(call: nat, confined: bool)
    | MakeFolder(call: nat, made: bool)
    | CopyProject(call: nat, copied: bool, removed: bool)
    | FinishView(call: nat, removed: bool)
    | StopUserData(removed: bool)

  function Advance(w: World, d: Desk, call: nat, next: Call): World { World(d, w.calls[call := next]) }

  function Finish(w: World, d: Desk, call: nat): World { World(d, w.calls - {call}) }

  function Mint(d: Desk): Desk { d.(keysMade := d.keysMade + 1) }

  function MintFolder(d: Desk): Desk {
    d.(foldersMade := d.foldersMade + 1, folders := d.folders + {d.foldersMade})
  }

  function Step(w: World, e: Event): World {
    var d := w.desk;
    match e
    case BeginSignIn(c) =>
      if c in w.calls then w else Advance(w, d, c, SigningIn(d.epoch))
    case CheckPassword(c, account) =>
      if c !in w.calls || !w.calls[c].SigningIn? then w
      else if account.None? then Finish(w, d, c)
      else Advance(w, Mint(d), c, SignedIn(w.calls[c].epoch, account.value, d.keysMade))
    case FinishSignIn(c, refused, removed) =>
      if c !in w.calls || !w.calls[c].SignedIn? then w
      else if d.epoch != w.calls[c].epoch || refused then Finish(w, Zero(d, w.calls[c].key), c)
      else Finish(w, SetSession(d, w.calls[c].account, w.calls[c].key, removed), c)
    case SignOut(removed) => World(ClearSession(d, removed), w.calls)
    case BeginOpen(c, target) =>
      if c in w.calls || d.user.None? || !d.user.value.admin then w
      else Advance(w, d, c, Opening(d.epoch, d.user.value.name, target))
    case TakeSessionKey(c) =>
      if c !in w.calls || !w.calls[c].Opening? then w
      else if w.calls[c].epoch != d.epoch || d.sessionKey.None? then Finish(w, d, c)
      else Advance(w, Mint(d), c, Asking(w.calls[c].epoch, w.calls[c].caller, w.calls[c].target, d.keysMade))
    case AskStore(c, allowed) =>
      if c !in w.calls || !w.calls[c].Asking? then w
      else if !allowed then Finish(w, Zero(d, w.calls[c].key), c)
      else
        var given := d.grants + {Grant(w.calls[c].caller, w.calls[c].target)};
        Advance(w, Zero(Mint(d), w.calls[c].key).(grants := given), c,
                Granted(w.calls[c].epoch, w.calls[c].caller, w.calls[c].target, d.keysMade))
    case StopEarlier(c, dataDir, removed, stale) =>
      if c !in w.calls || !w.calls[c].Granted? then w
      else if dataDir.None? then Finish(w, Zero(d, w.calls[c].key), c)
      else
        var stopped := StopAccess(d, removed);
        Advance(w, stopped.(folders := stopped.folders - stale), c,
                Cleared(w.calls[c].epoch, w.calls[c].caller, w.calls[c].target, dataDir.value, w.calls[c].key))
    case FinishOpen(c, removed) =>
      if c !in w.calls || !w.calls[c].Cleared? then w
      else
        var o := w.calls[c];
        Finish(w, PublishAccess(d, o.target, o.dataDir, o.key, o.epoch, removed), c)
    case BeginUse(c, purpose) =>
      if c in w.calls then w else Advance(w, d, c, Using(d.epoch, purpose))
    case ReadCaller(c) =>
      if c !in w.calls || !w.calls[c].Using? then w
      else if d.user.None? || !d.user.value.admin then Finish(w, d, c)
      else Advance(w, d, c, Known(w.calls[c].epoch, w.calls[c].purpose))
    case RequireSuper(c, super) =>
      if c !in w.calls || !w.calls[c].Known? then w
      else if super then Advance(w, d, c, Checked(w.calls[c].epoch, w.calls[c].purpose))
      else Advance(w, d, c, Unfit(w.calls[c].epoch))
    case StopUnfit(c, removed) =>
      if c !in w.calls || !w.calls[c].Unfit? then w else Finish(w, StopAccess(d, removed), c)
    case TakeAccess(c, confined) =>
      if c !in w.calls || !w.calls[c].Checked? then w
      else if w.calls[c].purpose.ToRead? || !AccessOpen(d) then Finish(w, d, c)
      else if w.calls[c].purpose.ToList? then Finish(w, Drop(Mint(d), d.keysMade), c)
      else if !confined then Finish(w, Zero(Mint(d), d.keysMade), c)
      else Advance(w, Mint(d), c, Admitted(w.calls[c].epoch, d.access.value.dataDir, d.keysMade))
    case MakeFolder(c, made) =>
      if c !in w.calls || !w.calls[c].Admitted? then w
      else if !made then Finish(w, Zero(d, w.calls[c].key), c)
      else Advance(w, MintFolder(d), c, Copying(w.calls[c].epoch, w.calls[c].dataDir, w.calls[c].key, d.foldersMade))
    case CopyProject(c, copied, removed) =>
      if c !in w.calls || !w.calls[c].Copying? then w
      else if !copied then Finish(w, Zero(RemoveFolder(d, w.calls[c].folder, removed), w.calls[c].key), c)
      else Advance(w, d, c, Copied(w.calls[c].epoch, w.calls[c].dataDir, w.calls[c].key, w.calls[c].folder))
    case FinishView(c, removed) =>
      if c !in w.calls || !w.calls[c].Copied? then w
      else
        var v := w.calls[c];
        Finish(w, PublishView(d, v.dataDir, v.key, v.folder, v.epoch, removed), c)
    case StopUserData(removed) => World(StopAccess(d, removed), w.calls)
  }

  function Run(w: World, events: seq<Event>): World
    decreases |events|
  {
    if events == [] then w else Step(Run(w, events[..|events| - 1]), events[|events| - 1])
  }

  const START := World(Desk(0, None, None, None, 0, {}, {}, 0, {}, {}, {}), map[])

  // ---------- The application object ----------

  class App {
    var epoch: nat
    var user: Option<Account>
    var sessionKey: Option<nat>
    var access: Option<Access>
    var keysMade: nat
    var zeroed: set<nat>
    var dropped: set<nat>
    var foldersMade: nat
    var folders: set<nat>
    var stuck: set<nat>
    var grants: set<Grant>

    ghost function Value(): Desk
      reads this
    {
      Desk(epoch, user, sessionKey, access, keysMade, zeroed, dropped, foldersMade, folders, stuck, grants)
    }

    constructor ()
      ensures Value() == START.desk
    {
      epoch, user, sessionKey, access := 0, None, None, None;
      keysMade, zeroed, dropped, foldersMade, folders, stuck, grants := 0, {}, {}, 0, {}, {}, {};
    }

    method ZeroBytes(key: nat)
      modifies this
      ensures Value() == Zero(old(Value()), key)
    {
      zeroed := zeroed + {key};
    }

    /** The locked section of openAccess: the folder and a fresh copy of the key, which the caller must zero. */
    method CopyAccessKey() returns (dataDir: string, key: nat, ok: bool)
      modifies this
      ensures ok <==> AccessOpen(old(Value()))
      ensures Value() == if ok then Mint(old(Value())) else old(Value())
      ensures ok ==> key == old(keysMade) && dataDir == old(access).value.dataDir
    {
      dataDir, key, ok := "", 0, false;
      if access.None? || access.value.epoch != epoch { return; }
      dataDir, key, ok := access.value.dataDir, keysMade, true;
      keysMade := keysMade + 1;
    }

    /** AdminListUserProjects after its check: it keeps the folder and drops the copy of the key. */
    method TakeListedFolder() returns (dataDir: string, ok: bool)
      modifies this
      ensures ok <==> AccessOpen(old(Value()))
      ensures Value() == if ok then Drop(Mint(old(Value())), old(keysMade)) else old(Value())
    {
      var key;
      dataDir, key, ok := CopyAccessKey();
      if ok { dropped := dropped + {key}; }
    }

    /** os.RemoveAll; a failure is only logged. */
    method RemoveAll(folder: nat, removed: bool)
      modifies this
      ensures Value() == RemoveFolder(old(Value()), folder, removed)
    {
      if removed { folders := folders - {folder}; } else { stuck := stuck + {folder}; }
    }

    method CloseAdminViewLocked(removed: bool)
      modifies this
      ensures Value() == CloseView(old(Value()), removed)
    {
      if access.None? || access.value.view.None? { return; }
      RemoveAll(access.value.view.value.folder, removed);
      access := Some(access.value.(view := None));
    }

    method StopAdminAccessLocked(removed: bool)
      modifies this
      ensures Value() == StopAccess(old(Value()), removed)
    {
      if access.None? { return; }
      CloseAdminViewLocked(removed);
      ZeroBytes(access.value.key);
      access := None;
    }

    method ClearSessionLocked(removed: bool)
      modifies this
      ensures Value() == ClearSession(old(Value()), removed)
    {
      StopAdminAccessLocked(removed);
      user := None;
      if sessionKey.Some? { ZeroBytes(sessionKey.value); }
      sessionKey := None;
      epoch := epoch + 1;
    }

    method SetSessionLocked(account: Account, key: nat, removed: bool)
      modifies this
      ensures Value() == SetSession(old(Value()), account, key, removed)
    {
      ClearSessionLocked(removed);
      user := Some(account);
      sessionKey := Some(key);
    }

    /** The last locked section of AdminOpenUserData. */
    method PublishOpenedAccess(target: string, dataDir: string, key: nat, started: nat, removed: bool)
      returns (ok: bool)
      modifies this
      ensures Value() == PublishAccess(old(Value()), target, dataDir, key, started, removed)
      ensures ok <==> started == old(epoch)
    {
      if epoch != started {
        ZeroBytes(key);
        ok := false;
        return;
      }
      StopAdminAccessLocked(removed);
      access := Some(Access(target, dataDir, key, None, started));
      ok := true;
    }

    /** The last locked section of AdminViewUserProject. */
    method PublishViewedCopy(dataDir: string, key: nat, folder: nat, started: nat, removed: bool)
      returns (ok: bool)
      modifies this
      ensures Value() == PublishView(old(Value()), dataDir, key, folder, started, removed)
      ensures ok <==> ViewStillWanted(old(Value()), dataDir, started)
    {
      if access.None? || access.value.dataDir != dataDir || access.value.epoch != started || epoch != started {
        RemoveAll(folder, removed);
        ok := false;
      } else {
        CloseAdminViewLocked(removed);
        access := Some(access.value.(view := Some(View(dataDir, folder))));
        ok := true;
      }
      ZeroBytes(key);
    }
  }
}
