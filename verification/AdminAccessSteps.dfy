/**
 Administrator access, step by step: who holds each key buffer and each copy folder, and the bond between
 open access and the session, kept by every event.
 */
module AdminAccessSteps {
  import opened Wrappers
  import opened AdminAccess

  // ---------- Who holds what ----------

  datatype Holder = TheSession | TheAccess | InCall(call: nat)

  function CallKey(c: Call): Option<nat> {
    if c.SigningIn? || c.Opening? || c.Using? || c.Known? || c.Unfit? || c.Checked? then None else Some(c.key)
  }

  function CallFolder(c: Call): Option<nat> {
    if c.Copying? || c.Copied? then Some(c.folder) else None
  }

  function KeyOf(w: World, h: Holder): Option<nat> {
    match h
    case TheSession => w.desk.sessionKey
    case TheAccess => if w.desk.access.Some? then Some(w.desk.access.value.key) else None
    case InCall(c) => if c in w.calls then CallKey(w.calls[c]) else None
  }

  function FolderOf(w: World, h: Holder): Option<nat> {
    match h
    case TheSession => None
    case TheAccess =>
      if w.desk.access.Some? && w.desk.access.value.view.Some?
      then Some(w.desk.access.value.view.value.folder) else None
    case InCall(c) => if c in w.calls then CallFolder(w.calls[c]) else None
  }

  /** Open access belongs to the signed-in administrator's present session, and its copy to its own folder. */
  predicate AccessIsCurrent(d: Desk) {
    d.access.Some? ==>
      && d.access.value.epoch == d.epoch
      && d.user.Some? && d.user.value.admin && Grant(d.user.value.name, d.access.value.target) in d.grants
      && (d.access.value.view.Some? ==> d.access.value.view.value.source == d.access.value.dataDir)
  }

  /** What a call in flight remembers still describes the session it began in. */
  predicate CallIsSound(d: Desk, c: Call) {
    && c.epoch <= d.epoch
    && (c.Granted? || c.Cleared? ==> Grant(c.caller, c.target) in d.grants)
    && (c.Opening? || c.Asking? || c.Granted? || c.Cleared? ==>
          c.epoch == d.epoch ==> d.user == Some(Account(c.caller, true)))
  }

  ghost predicate CallsAreSound(w: World) {
    forall c :: c in w.calls ==> CallIsSound(w.desk, w.calls[c])
  }

  /** owner names the one holder of every key that is neither zeroed nor dropped; the others have none. */
  ghost predicate KeysOwned(w: World, owner: map<nat, Holder>) {
    && (forall k :: k in owner ==> k < w.desk.keysMade && KeyOf(w, owner[k]) == Some(k))
    && (forall k :: k in owner ==> k !in w.desk.zeroed && k !in w.desk.dropped)
    && (forall h :: KeyOf(w, h).Some? ==> KeyOf(w, h).value in owner && owner[KeyOf(w, h).value] == h)
    && (forall k: nat :: k < w.desk.keysMade ==> k in owner || k in w.desk.zeroed || k in w.desk.dropped)
    && (forall k :: k in w.desk.zeroed ==> k < w.desk.keysMade && k !in w.desk.dropped)
    && (forall k :: k in w.desk.dropped ==> k < w.desk.keysMade)
  }

  /** owner names the one holder of every copy folder on disk whose removal has not failed; the others have none. */
  ghost predicate FoldersOwned(w: World, owner: map<nat, Holder>) {
    && (forall f :: f in owner ==> f < w.desk.foldersMade && FolderOf(w, owner[f]) == Some(f) && f !in w.desk.stuck)
    && (forall f :: f in w.desk.stuck ==> f < w.desk.foldersMade)
    && (forall h :: FolderOf(w, h).Some? ==> FolderOf(w, h).value in owner && owner[FolderOf(w, h).value] == h)
    && (forall f :: f in w.desk.folders ==> f < w.desk.foldersMade && (f in owner || f in w.desk.stuck))
  }

  datatype Owners = Owners(keys: map<nat, Holder>, folders: map<nat, Holder>)

  ghost predicate Inv(w: World, o: Owners) {
    AccessIsCurrent(w.desk) && CallsAreSound(w) && KeysOwned(w, o.keys) && FoldersOwned(w, o.folders)
  }

  // ---------- Every step keeps the invariant ----------

  lemma CloseViewKeeps(w: World, removed: bool, o: Owners) returns (owners: Owners)
    requires Inv(w, o)
    ensures Inv(World(CloseView(w.desk, removed), w.calls), owners)
  {
    owners := o;
    if w.desk.access.Some? && w.desk.access.value.view.Some? {
      var f := w.desk.access.value.view.value.folder;
      assert FolderOf(w, TheAccess) == Some(f);
      var after := World(CloseView(w.desk, removed), w.calls);
      forall h ensures KeyOf(after, h) == KeyOf(w, h) {}
      forall h ensures FolderOf(after, h) == if h.TheAccess? then None else FolderOf(w, h) {}
      owners := o.(folders := o.folders - {f});
      assert forall g :: g in owners.folders ==> o.folders[g] != TheAccess;
    }
  }

  /** An access without a copy ends: its key is zeroed. */
  lemma EndAccessKeeps(w: World, o: Owners) returns (owners: Owners)
    requires Inv(w, o) && w.desk.access.Some? && w.desk.access.value.view.None?
    ensures Inv(World(Zero(w.desk, w.desk.access.value.key).(access := None), w.calls), owners)
  {
    var key := w.desk.access.value.key;
    assert KeyOf(w, TheAccess) == Some(key);
    var after := World(Zero(w.desk, key).(access := None), w.calls);
    forall h ensures KeyOf(after, h) == if h.TheAccess? then None else KeyOf(w, h) {}
    forall h ensures FolderOf(after, h) == FolderOf(w, h) {}
    owners := o.(keys := o.keys - {key});
    assert forall k :: k in owners.keys ==> o.keys[k] != TheAccess;
  }

  lemma StopKeeps(w: World, removed: bool, o: Owners) returns (owners: Owners)
    requires Inv(w, o)
    ensures Inv(World(StopAccess(w.desk, removed), w.calls), owners)
  {
    owners := o;
    if w.desk.access.Some? {
      owners := CloseViewKeeps(w, removed, o);
      owners := EndAccessKeeps(World(CloseView(w.desk, removed), w.calls), owners);
    }
  }

  /** A call moves on without making or dropping anything. */
  lemma AdvanceKeeps(w: World, c: nat, next: Call, o: Owners)
    requires Inv(w, o) && CallIsSound(w.desk, next)
    requires CallKey(next) == KeyOf(w, InCall(c)) && CallFolder(next) == FolderOf(w, InCall(c))
    ensures Inv(Advance(w, w.desk, c, next), o)
  {
    var after := Advance(w, w.desk, c, next);
    forall h ensures KeyOf(after, h) == KeyOf(w, h) && FolderOf(after, h) == FolderOf(w, h) {}
  }

  /** A call without a key moves on with a key just made. */
  lemma MintKeeps(w: World, c: nat, next: Call, o: Owners) returns (owners: Owners)
    requires Inv(w, o) && CallIsSound(w.desk, next)
    requires KeyOf(w, InCall(c)) == FolderOf(w, InCall(c)) == None
    requires CallKey(next) == Some(w.desk.keysMade) && CallFolder(next) == None
    ensures Inv(Advance(w, Mint(w.desk), c, next), owners)
  {
    var after := Advance(w, Mint(w.desk), c, next);
    owners := o.(keys := o.keys[w.desk.keysMade := InCall(c)]);
    forall h ensures KeyOf(after, h) == if h == InCall(c) then CallKey(next) else KeyOf(w, h) {}
    forall h ensures FolderOf(after, h) == FolderOf(w, h) {}
  }

  /** A call ends: its key, if any, is zeroed. */
  lemma EndKeeps(w: World, c: nat, o: Owners) returns (owners: Owners)
    requires Inv(w, o) && c in w.calls && CallFolder(w.calls[c]) == None
    ensures var d := if CallKey(w.calls[c]).Some? then Zero(w.desk, CallKey(w.calls[c]).value) else w.desk;
            Inv(Finish(w, d, c), owners)
  {
    var key := CallKey(w.calls[c]);
    assert KeyOf(w, InCall(c)) == key;
    var d := if key.Some? then Zero(w.desk, key.value) else w.desk;
    var after := Finish(w, d, c);
    owners := if key.Some? then o.(keys := o.keys - {key.value}) else o;
    forall h ensures KeyOf(after, h) == if h == InCall(c) then None else KeyOf(w, h) {}
    forall h ensures FolderOf(after, h) == FolderOf(w, h) {}
    assert forall k :: k in owners.keys ==> o.keys[k] != InCall(c);
  }

  /** One holder gives up its folder, which goes or is stuck. */
  lemma FolderGivenUp(w: World, after: World, giver: Holder, f: nat, removed: bool, owner: map<nat, Holder>)
    requires FoldersOwned(w, owner) && FolderOf(w, giver) == Some(f)
    requires after.desk.foldersMade == w.desk.foldersMade
    requires after.desk.folders == RemoveFolder(w.desk, f, removed).folders
    requires after.desk.stuck == RemoveFolder(w.desk, f, removed).stuck
    requires forall h :: FolderOf(after, h) == if h == giver then None else FolderOf(w, h)
    ensures FoldersOwned(after, owner - {f})
  {
    assert forall g :: g in owner - {f} ==> owner[g] != giver;
  }

  /** A call gives up its folder. */
  lemma GiveUpFolderKeeps(w: World, c: nat, removed: bool, next: Call, o: Owners) returns (owners: Owners)
    requires Inv(w, o) && c in w.calls && CallFolder(w.calls[c]).Some?
    requires CallIsSound(w.desk, next) && CallKey(next) == CallKey(w.calls[c]) && CallFolder(next) == None
    ensures Inv(Advance(w, RemoveFolder(w.desk, CallFolder(w.calls[c]).value, removed), c, next), owners)
  {
    var f := CallFolder(w.calls[c]).value;
    assert FolderOf(w, InCall(c)) == Some(f);
    var after := Advance(w, RemoveFolder(w.desk, f, removed), c, next);
    owners := o.(folders := o.folders - {f});
    forall h ensures KeyOf(after, h) == KeyOf(w, h) {}
    forall h ensures FolderOf(after, h) == if h == InCall(c) then None else FolderOf(w, h) {}
    FolderGivenUp(w, after, InCall(c), f, removed, o.folders);
  }

  lemma ClearKeeps(w: World, removed: bool, o: Owners) returns (owners: Owners)
    requires Inv(w, o)
    ensures Inv(World(ClearSession(w.desk, removed), w.calls), owners)
  {
    var stopped := World(StopAccess(w.desk, removed), w.calls);
    owners := StopKeeps(w, removed, o);
    var after := World(ClearSession(w.desk, removed), w.calls);
    forall h ensures KeyOf(after, h) == if h.TheSession? then None else KeyOf(stopped, h) {}
    forall h ensures FolderOf(after, h) == FolderOf(stopped, h) {}
    if stopped.desk.sessionKey.Some? {
      var k := stopped.desk.sessionKey.value;
      assert KeyOf(stopped, TheSession) == Some(k);
      assert forall j :: j in owners.keys && j != k ==> owners.keys[j] != TheSession;
      owners := owners.(keys := owners.keys - {k});
    }
  }

  /** A sign-in's key becomes the session's. */
  lemma AdoptKeyKeeps(w: World, c: nat, account: Account, o: Owners) returns (owners: Owners)
    requires Inv(w, o) && c in w.calls && w.calls[c].SignedIn? && w.desk.sessionKey.None? && w.desk.access.None?
    requires forall c :: c in w.calls ==> w.calls[c].epoch < w.desk.epoch
    ensures Inv(Finish(w, w.desk.(user := Some(account), sessionKey := Some(w.calls[c].key)), c), owners)
  {
    var key := w.calls[c].key;
    assert KeyOf(w, InCall(c)) == Some(key) && KeyOf(w, TheSession) == None;
    var after := Finish(w, w.desk.(user := Some(account), sessionKey := Some(key)), c);
    forall h ensures KeyOf(after, h) ==
      if h.TheSession? then Some(key) else if h == InCall(c) then None else KeyOf(w, h) {}
    forall h ensures FolderOf(after, h) == FolderOf(w, h) {}
    owners := o.(keys := o.keys[key := TheSession]);
  }

  lemma SignInKeeps(w: World, c: nat, removed: bool, o: Owners) returns (owners: Owners)
    requires Inv(w, o) && c in w.calls && w.calls[c].SignedIn?
    ensures Inv(Finish(w, SetSession(w.desk, w.calls[c].account, w.calls[c].key, removed), c), owners)
  {
    var cleared := World(ClearSession(w.desk, removed), w.calls);
    owners := ClearKeeps(w, removed, o);
    assert forall c :: c in w.calls ==> CallIsSound(w.desk, w.calls[c]);
    owners := AdoptKeyKeeps(cleared, c, w.calls[c].account, owners);
  }

  /** An opening call's key becomes the access's. */
  lemma HandOverKeyKeeps(w: World, c: nat, o: Owners) returns (owners: Owners)
    requires Inv(w, o) && c in w.calls && w.calls[c].Cleared? && w.calls[c].epoch == w.desk.epoch && w.desk.access.None?
    ensures var a := w.calls[c];
            Inv(Finish(w, w.desk.(access := Some(Access(a.target, a.dataDir, a.key, None, a.epoch))), c), owners)
  {
    var a := w.calls[c];
    assert CallIsSound(w.desk, a) && KeyOf(w, InCall(c)) == Some(a.key) && KeyOf(w, TheAccess) == None;
    var after := Finish(w, w.desk.(access := Some(Access(a.target, a.dataDir, a.key, None, a.epoch))), c);
    forall h ensures KeyOf(after, h) ==
      if h.TheAccess? then Some(a.key) else if h == InCall(c) then None else KeyOf(w, h) {}
    forall h ensures FolderOf(after, h) == FolderOf(w, h) {}
    owners := o.(keys := o.keys[a.key := TheAccess]);
  }

  lemma OpenKeeps(w: World, c: nat, removed: bool, o: Owners) returns (owners: Owners)
    requires Inv(w, o) && c in w.calls && w.calls[c].Cleared? && w.calls[c].epoch == w.desk.epoch
    ensures var a := w.calls[c];
            Inv(Finish(w, PublishAccess(w.desk, a.target, a.dataDir, a.key, a.epoch, removed), c), owners)
  {
    owners := StopKeeps(w, removed, o);
    owners := HandOverKeyKeeps(World(StopAccess(w.desk, removed), w.calls), c, owners);
  }

  /** A viewing call's folder becomes the access's. */
  lemma HandOverFolderKeeps(w: World, c: nat, o: Owners) returns (owners: Owners)
    requires Inv(w, o) && c in w.calls && w.calls[c].Copied?
    requires ViewStillWanted(w.desk, w.calls[c].dataDir, w.calls[c].epoch) && w.desk.access.value.view.None?
    ensures var v := w.calls[c];
            Inv(Advance(w, w.desk.(access := Some(w.desk.access.value.(view := Some(View(v.dataDir, v.folder))))),
                        c, Admitted(v.epoch, v.dataDir, v.key)), owners)
  {
    var v := w.calls[c];
    var after := Advance(w, w.desk.(access := Some(w.desk.access.value.(view := Some(View(v.dataDir, v.folder))))),
                         c, Admitted(v.epoch, v.dataDir, v.key));
    assert FolderOf(w, InCall(c)) == Some(v.folder) && FolderOf(w, TheAccess) == None;
    forall h ensures KeyOf(after, h) == KeyOf(w, h) {}
    forall h ensures FolderOf(after, h) ==
      if h.TheAccess? then Some(v.folder) else if h == InCall(c) then None else FolderOf(w, h) {}
    owners := o.(folders := o.folders[v.folder := TheAccess]);
  }

  lemma ViewKeeps(w: World, c: nat, removed: bool, o: Owners) returns (owners: Owners)
    requires Inv(w, o) && c in w.calls && w.calls[c].Copied?
    requires ViewStillWanted(w.desk, w.calls[c].dataDir, w.calls[c].epoch)
    ensures var v := w.calls[c];
            Inv(Finish(w, PublishView(w.desk, v.dataDir, v.key, v.folder, v.epoch, removed), c), owners)
  {
    var v := w.calls[c];
    var closed := World(CloseView(w.desk, removed), w.calls);
    owners := CloseViewKeeps(w, removed, o);
    owners := HandOverFolderKeeps(closed, c, owners);
    var viewing := closed.desk.(access := Some(closed.desk.access.value.(view := Some(View(v.dataDir, v.folder)))));
    var handed := Advance(closed, viewing, c, Admitted(v.epoch, v.dataDir, v.key));
    owners := EndKeeps(handed, c, owners);
    assert Finish(handed, Zero(viewing, v.key), c).calls == w.calls - {c};
  }

  /** A call zeroes its key and goes on without one. */
  lemma DropKeyKeeps(w: World, c: nat, next: Call, o: Owners) returns (owners: Owners)
    requires Inv(w, o) && c in w.calls && CallFolder(w.calls[c]).None? && CallKey(w.calls[c]).Some?
    requires CallIsSound(w.desk, next) && CallKey(next) == CallFolder(next) == None
    ensures Inv(Advance(w, Zero(w.desk, CallKey(w.calls[c]).value), c, next), owners)
  {
    var key := CallKey(w.calls[c]).value;
    assert KeyOf(w, InCall(c)) == Some(key);
    var after := Advance(w, Zero(w.desk, key), c, next);
    owners := o.(keys := o.keys - {key});
    forall h ensures KeyOf(after, h) == if h == InCall(c) then None else KeyOf(w, h) {}
    forall h ensures FolderOf(after, h) == FolderOf(w, h) {}
    assert forall k :: k in owners.keys ==> o.keys[k] != InCall(c);
  }

  lemma RecordKeeps(w: World, g: Grant, o: Owners)
    requires Inv(w, o)
    ensures Inv(World(w.desk.(grants := w.desk.grants + {g}), w.calls), o)
  {
    var after := World(w.desk.(grants := w.desk.grants + {g}), w.calls);
    assert forall c :: c in w.calls ==> CallIsSound(w.desk, w.calls[c]);
    forall h ensures KeyOf(after, h) == KeyOf(w, h) && FolderOf(after, h) == FolderOf(w, h) {}
  }

  lemma AskKeeps(w: World, c: nat, o: Owners) returns (owners: Owners)
    requires Inv(w, o) && c in w.calls && w.calls[c].Asking?
    ensures Inv(Step(w, AskStore(c, true)), owners)
  {
    var a := w.calls[c];
    assert CallIsSound(w.desk, a);
    var asking := Opening(a.epoch, a.caller, a.target);
    owners := DropKeyKeeps(w, c, asking, o);
    var dropped := Advance(w, Zero(w.desk, a.key), c, asking);
    RecordKeeps(dropped, Grant(a.caller, a.target), owners);
    var recorded := World(dropped.desk.(grants := dropped.desk.grants + {Grant(a.caller, a.target)}), dropped.calls);
    var granted := Granted(a.epoch, a.caller, a.target, w.desk.keysMade);
    assert CallIsSound(recorded.desk, granted);
    owners := MintKeeps(recorded, c, granted, owners);
    assert Advance(recorded, Mint(recorded.desk), c, granted) == Step(w, AskStore(c, true));
  }

  lemma FolderMade(w: World, after: World, maker: Holder, owner: map<nat, Holder>)
    requires FoldersOwned(w, owner) && FolderOf(w, maker) == None
    requires after.desk.foldersMade == MintFolder(w.desk).foldersMade
    requires after.desk.folders == MintFolder(w.desk).folders
    requires after.desk.stuck == w.desk.stuck
    requires forall h :: FolderOf(after, h) == if h == maker then Some(w.desk.foldersMade) else FolderOf(w, h)
    ensures FoldersOwned(after, owner[w.desk.foldersMade := maker])
  {
  }

  lemma MakeFolderKeeps(w: World, c: nat, o: Owners) returns (owners: Owners)
    requires Inv(w, o) && c in w.calls && w.calls[c].Admitted?
    ensures Inv(Step(w, MakeFolder(c, true)), owners)
  {
    var after := Step(w, MakeFolder(c, true));
    var made := w.desk.foldersMade;
    assert CallIsSound(w.desk, w.calls[c]);
    forall h ensures KeyOf(after, h) == KeyOf(w, h) {}
    forall h ensures FolderOf(after, h) == if h == InCall(c) then Some(made) else FolderOf(w, h) {}
    FolderMade(w, after, InCall(c), o.folders);
    owners := o.(folders := o.folders[made := InCall(c)]);
  }

  /** A call that gives up its folder and then ends. */
  lemma AbandonKeeps(w: World, c: nat, removed: bool, o: Owners) returns (owners: Owners)
    requires Inv(w, o) && c in w.calls && (w.calls[c].Copying? || w.calls[c].Copied?)
    ensures Inv(Finish(w, Zero(RemoveFolder(w.desk, w.calls[c].folder, removed), w.calls[c].key), c), owners)
  {
    var v := w.calls[c];
    var without := Admitted(v.epoch, v.dataDir, v.key);
    assert CallIsSound(w.desk, v);
    owners := GiveUpFolderKeeps(w, c, removed, without, o);
    var midway := Advance(w, RemoveFolder(w.desk, v.folder, removed), c, without);
    owners := EndKeeps(midway, c, owners);
    assert Finish(midway, Zero(midway.desk, v.key), c)
        == Finish(w, Zero(RemoveFolder(w.desk, v.folder, removed), v.key), c);
  }

  /** removeAdminViewCopies: leftover folders go. */
  lemma SweepKeeps(w: World, stale: set<nat>, o: Owners)
    requires Inv(w, o)
    ensures Inv(World(w.desk.(folders := w.desk.folders - stale), w.calls), o)
  {
    var after := World(w.desk.(folders := w.desk.folders - stale), w.calls);
    assert forall c :: c in w.calls ==> CallIsSound(w.desk, w.calls[c]);
    forall h ensures KeyOf(after, h) == KeyOf(w, h) && FolderOf(after, h) == FolderOf(w, h) {}
  }

  lemma StopEarlierKeeps(w: World, c: nat, dir: string, removed: bool, stale: set<nat>, o: Owners)
    returns (owners: Owners)
    requires Inv(w, o) && c in w.calls && w.calls[c].Granted?
    ensures Inv(Step(w, StopEarlier(c, Some(dir), removed, stale)), owners)
  {
    var g := w.calls[c];
    owners := StopKeeps(w, removed, o);
    var stopped := World(StopAccess(w.desk, removed), w.calls);
    SweepKeeps(stopped, stale, owners);
    var swept := World(stopped.desk.(folders := stopped.desk.folders - stale), w.calls);
    assert CallIsSound(swept.desk, g);
    AdvanceKeeps(swept, c, Cleared(g.epoch, g.caller, g.target, dir, g.key), owners);
  }

  lemma SessionStepKeeps(w: World, e: Event, o: Owners) returns (owners: Owners)
    requires Inv(w, o) && (e.BeginSignIn? || e.CheckPassword? || e.FinishSignIn? || e.SignOut? || e.StopUserData?)
    ensures Inv(Step(w, e), owners)
  {
    owners := o;
    var d := w.desk;
    match e
    case BeginSignIn(c) => if c !in w.calls { AdvanceKeeps(w, c, SigningIn(d.epoch), o); }
    case CheckPassword(c, account) =>
      if c in w.calls && w.calls[c].SigningIn? {
        assert CallIsSound(d, w.calls[c]);
        if account.None? { owners := EndKeeps(w, c, o); }
        else { owners := MintKeeps(w, c, SignedIn(w.calls[c].epoch, account.value, d.keysMade), o); }
      }
    case FinishSignIn(c, refused, removed) =>
      if c in w.calls && w.calls[c].SignedIn? {
        if d.epoch != w.calls[c].epoch || refused { owners := EndKeeps(w, c, o); }
        else { owners := SignInKeeps(w, c, removed, o); }
      }
    case SignOut(removed) => owners := ClearKeeps(w, removed, o);
    case StopUserData(removed) => owners := StopKeeps(w, removed, o);
  }

  lemma OpenStepKeeps(w: World, e: Event, o: Owners) returns (owners: Owners)
    requires Inv(w, o) && (e.BeginOpen? || e.TakeSessionKey? || e.AskStore? || e.StopEarlier? || e.FinishOpen?)
    ensures Inv(Step(w, e), owners)
  {
    owners := o;
    var d := w.desk;
    if e.call in w.calls { assert CallIsSound(d, w.calls[e.call]); }
    match e
    case BeginOpen(c, target) =>
      if c !in w.calls && d.user.Some? && d.user.value.admin {
        AdvanceKeeps(w, c, Opening(d.epoch, d.user.value.name, target), o);
      }
    case TakeSessionKey(c) =>
      if c in w.calls && w.calls[c].Opening? {
        if w.calls[c].epoch != d.epoch || d.sessionKey.None? { owners := EndKeeps(w, c, o); }
        else {
          var a := w.calls[c];
          owners := MintKeeps(w, c, Asking(a.epoch, a.caller, a.target, d.keysMade), o);
        }
      }
    case AskStore(c, allowed) =>
      if c in w.calls && w.calls[c].Asking? {
        if allowed { owners := AskKeeps(w, c, o); } else { owners := EndKeeps(w, c, o); }
      }
    case StopEarlier(c, dataDir, removed, stale) =>
      if c in w.calls && w.calls[c].Granted? {
        if dataDir.None? { owners := EndKeeps(w, c, o); }
        else { owners := StopEarlierKeeps(w, c, dataDir.value, removed, stale, o); }
      }
    case FinishOpen(c, removed) =>
      if c in w.calls && w.calls[c].Cleared? {
        if d.epoch != w.calls[c].epoch { owners := EndKeeps(w, c, o); } else { owners := OpenKeeps(w, c, removed, o); }
      }
  }

  /** A listing drops the copy of the key it takes. */
  lemma ListKeeps(w: World, c: nat, o: Owners)
    requires Inv(w, o) && c in w.calls && w.calls[c].Checked?
    ensures Inv(Finish(w, Drop(Mint(w.desk), w.desk.keysMade), c), o)
  {
    var after := Finish(w, Drop(Mint(w.desk), w.desk.keysMade), c);
    assert CallKey(w.calls[c]) == CallFolder(w.calls[c]) == None;
    forall h ensures KeyOf(after, h) == KeyOf(w, h) && FolderOf(after, h) == FolderOf(w, h) {}
    assert forall c :: c in w.calls ==> CallIsSound(w.desk, w.calls[c]);
  }

  lemma TakeAccessKeeps(w: World, c: nat, confined: bool, o: Owners) returns (owners: Owners)
    requires Inv(w, o) && c in w.calls && w.calls[c].Checked? && w.calls[c].purpose.ToView? && AccessOpen(w.desk)
    ensures Inv(Step(w, TakeAccess(c, confined)), owners)
  {
    var d := w.desk;
    assert CallIsSound(d, w.calls[c]);
    var next := Admitted(w.calls[c].epoch, d.access.value.dataDir, d.keysMade);
    owners := MintKeeps(w, c, next, o);
    if !confined {
      var minted := Advance(w, Mint(d), c, next);
      owners := EndKeeps(minted, c, owners);
      assert Finish(minted, Zero(Mint(d), d.keysMade), c).calls == w.calls - {c};
    }
  }

  lemma ViewStepKeeps(w: World, e: Event, o: Owners) returns (owners: Owners)
    requires Inv(w, o)
    requires e.BeginUse? || e.ReadCaller? || e.RequireSuper? || e.StopUnfit? || e.TakeAccess? || e.MakeFolder?
    ensures Inv(Step(w, e), owners)
  {
    owners := o;
    var d := w.desk;
    if e.call in w.calls { assert CallIsSound(d, w.calls[e.call]); }
    match e
    case BeginUse(c, purpose) => if c !in w.calls { AdvanceKeeps(w, c, Using(d.epoch, purpose), o); }
    case ReadCaller(c) =>
      if c in w.calls && w.calls[c].Using? {
        if d.user.None? || !d.user.value.admin { owners := EndKeeps(w, c, o); }
        else { AdvanceKeeps(w, c, Known(w.calls[c].epoch, w.calls[c].purpose), o); }
      }
    case RequireSuper(c, super) =>
      if c in w.calls && w.calls[c].Known? {
        if super { AdvanceKeeps(w, c, Checked(w.calls[c].epoch, w.calls[c].purpose), o); }
        else { AdvanceKeeps(w, c, Unfit(w.calls[c].epoch), o); }
      }
    case StopUnfit(c, removed) =>
      if c in w.calls && w.calls[c].Unfit? {
        owners := StopKeeps(w, removed, o);
        owners := EndKeeps(World(StopAccess(d, removed), w.calls), c, owners);
      }
    case TakeAccess(c, confined) =>
      if c in w.calls && w.calls[c].Checked? {
        if w.calls[c].purpose.ToRead? || !AccessOpen(d) { owners := EndKeeps(w, c, o); }
        else if w.calls[c].purpose.ToList? { ListKeeps(w, c, o); }
        else { owners := TakeAccessKeeps(w, c, confined, o); }
      }
    case MakeFolder(c, made) =>
      if c in w.calls && w.calls[c].Admitted? {
        if made { owners := MakeFolderKeeps(w, c, o); } else { owners := EndKeeps(w, c, o); }
      }
  }

  lemma CopyStepKeeps(w: World, e: Event, o: Owners) returns (owners: Owners)
    requires Inv(w, o) && (e.CopyProject? || e.FinishView?)
    ensures Inv(Step(w, e), owners)
  {
    owners := o;
    var d := w.desk;
    if e.call in w.calls { assert CallIsSound(d, w.calls[e.call]); }
    match e
    case CopyProject(c, copied, removed) =>
      if c in w.calls && w.calls[c].Copying? {
        if copied {
          AdvanceKeeps(w, c, Copied(w.calls[c].epoch, w.calls[c].dataDir, w.calls[c].key, w.calls[c].folder), o);
        }
        else { owners := AbandonKeeps(w, c, removed, o); }
      }
    case FinishView(c, removed) =>
      if c in w.calls && w.calls[c].Copied? {
        if ViewStillWanted(d, w.calls[c].dataDir, w.calls[c].epoch) { owners := ViewKeeps(w, c, removed, o); }
        else { owners := AbandonKeeps(w, c, removed, o); }
      }
  }

  lemma StepKeeps(w: World, e: Event, o: Owners) returns (owners: Owners)
    requires Inv(w, o)
    ensures Inv(Step(w, e), owners)
  {
    if e.BeginSignIn? || e.CheckPassword? || e.FinishSignIn? || e.SignOut? || e.StopUserData? {
      owners := SessionStepKeeps(w, e, o);
    } else if e.BeginOpen? || e.TakeSessionKey? || e.AskStore? || e.StopEarlier? || e.FinishOpen? {
      owners := OpenStepKeeps(w, e, o);
    } else if e.CopyProject? || e.FinishView? {
      owners := CopyStepKeeps(w, e, o);
    } else {
      owners := ViewStepKeeps(w, e, o);
    }
  }

  /** The invariant holds after every interleaving. */
  lemma {:induction false} RunKeeps(events: seq<Event>) returns (owners: Owners)
    ensures Inv(Run(START, events), owners)
    decreases |events|
  {
    if events == [] {
      owners := Owners(map[], map[]);
    } else {
      owners := RunKeeps(events[..|events| - 1]);
      owners := StepKeeps(Run(START, events[..|events| - 1]), events[|events| - 1], owners);
    }
  }
}
