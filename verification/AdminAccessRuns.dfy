/** Administrator access over every interleaving of calls with sign-in, sign-out and shutdown. */
module AdminAccessRuns {
  import opened Wrappers
  import opened AdminAccess
  import opened AdminAccessSteps

  // ---------- What holds after every interleaving ----------

  /**
   Open access is the present session's, that session's administrator was granted it, its copy is of its own
   folder.
   */
  lemma AccessIsAlwaysCurrent(events: seq<Event>)
    ensures AccessIsCurrent(Run(START, events).desk)
  {
    var _ := RunKeeps(events);
  }

  ghost predicate KeyHeld(w: World, k: nat) {
    exists h :: KeyOf(w, h) == Some(k)
  }

  /** The step in which a listing takes the copy k of the open access's key. */
  predicate ListedIn(w: World, e: Event, k: nat) {
    && e.TakeAccess? && e.call in w.calls && w.calls[e.call].Checked? && w.calls[e.call].purpose.ToList?
    && AccessOpen(w.desk) && k == w.desk.keysMade
  }

  predicate ListedAt(events: seq<Event>, i: nat, k: nat)
    requires i < |events|
  {
    ListedIn(Run(START, events[..i]), events[i], k)
  }

  /** Some step of the run was a listing that took the key copy k. */
  ghost predicate EverListed(events: seq<Event>, k: nat) {
    exists i: nat :: i < |events| && ListedAt(events, i, k)
  }

  lemma ListedEarlierOrLast(events: seq<Event>, k: nat)
    requires events != []
    ensures var n := |events| - 1;
            EverListed(events, k) <==> EverListed(events[..n], k) || ListedIn(Run(START, events[..n]), events[n], k)
  {
    var n := |events| - 1;
    forall i: nat | i < n ensures ListedAt(events, i, k) <==> ListedAt(events[..n], i, k) {
      assert events[..i] == events[..n][..i];
    }
    assert ListedAt(events, n, k) <==> ListedIn(Run(START, events[..n]), events[n], k);
  }

  lemma {:induction false} DroppedIffListed(events: seq<Event>, k: nat)
    ensures k in Run(START, events).desk.dropped <==> EverListed(events, k)
    decreases |events|
  {
    if events != [] {
      var n := |events| - 1;
      DroppedIffListed(events[..n], k);
      DroppedInStep(Run(START, events[..n]), events[n], k);
      ListedEarlierOrLast(events, k);
    }
  }

  lemma DroppedInStep(w: World, e: Event, k: nat)
    ensures k in Step(w, e).desk.dropped <==> k in w.desk.dropped || ListedIn(w, e, k)
  {
  }

  /**
   Over every run: a key copy is zeroed, or has one holder, or was taken by a listing, and only one of the
   three. A key that is not zeroed has no holder exactly when a listing took it.
   */
  lemma KeyIsZeroedHeldOrListed(events: seq<Event>, k: nat)
    ensures var w := Run(START, events);
            k < w.desk.keysMade ==>
              && (k in w.desk.zeroed <==> !KeyHeld(w, k) && !EverListed(events, k))
              && (k !in w.desk.zeroed ==> (!KeyHeld(w, k) <==> EverListed(events, k)))
              && (forall h1, h2 :: KeyOf(w, h1) == Some(k) && KeyOf(w, h2) == Some(k) ==> h1 == h2)
  {
    var w := Run(START, events);
    var owners := RunKeeps(events);
    DroppedIffListed(events, k);
    if k in owners.keys { assert KeyOf(w, owners.keys[k]) == Some(k); }
  }

  ghost predicate Held(w: World, f: nat) {
    exists h :: FolderOf(w, h) == Some(f)
  }

  /** A copy folder on disk has a holder exactly unless an attempt to remove it failed, and never two. */
  lemma FolderIsHeldUnlessItsRemovalFailed(events: seq<Event>, f: nat)
    ensures var w := Run(START, events);
            && (f in w.desk.folders ==> (f in w.desk.stuck <==> !Held(w, f)))
            && (forall h1, h2 :: FolderOf(w, h1) == Some(f) && FolderOf(w, h2) == Some(f) ==> h1 == h2)
  {
    var w := Run(START, events);
    var owners := RunKeeps(events);
    if f in w.desk.folders && f !in w.desk.stuck {
      assert FolderOf(w, owners.folders[f]) == Some(f);
    }
  }

  lemma NoHoldersNothingHeld(w: World, o: Owners)
    requires Inv(w, o) && forall h :: KeyOf(w, h) == None && FolderOf(w, h) == None
    ensures forall k: nat :: k < w.desk.keysMade ==> (k in w.desk.zeroed <==> k !in w.desk.dropped)
    ensures w.desk.folders <= w.desk.stuck
  {
  }

  /** Signing out with nothing in flight leaves no key but the listings', and no copy but those whose removal failed. */
  lemma SignOutLeavesNothing(events: seq<Event>, removed: bool)
    ensures var w := Run(START, events + [SignOut(removed)]);
            w.calls == map[] ==>
              && w.desk.access == None && w.desk.user == None
              && (forall k: nat :: k < w.desk.keysMade ==> (k in w.desk.zeroed <==> !EverListed(events, k)))
              && w.desk.folders <= w.desk.stuck
  {
    var all := events + [SignOut(removed)];
    assert all[..|all| - 1] == events;
    var w := Run(START, all);
    var owners := RunKeeps(all);
    if w.calls == map[] {
      forall h ensures KeyOf(w, h) == None && FolderOf(w, h) == None {}
      NoHoldersNothingHeld(w, owners);
      forall k: nat ensures k in w.desk.dropped <==> EverListed(events, k) {
        DroppedIffListed(all, k);
        ListedEarlierOrLast(all, k);
      }
    }
  }

  /** The flag an event carries for its one attempt to remove a folder. */
  predicate RemovalFails(e: Event) {
    || (e.FinishSignIn? && !e.removed) || (e.SignOut? && !e.removed) || (e.StopEarlier? && !e.removed)
    || (e.FinishOpen? && !e.removed) || (e.StopUnfit? && !e.removed) || (e.CopyProject? && !e.removed)
    || (e.FinishView? && !e.removed) || (e.StopUserData? && !e.removed)
  }

  lemma NothingIsStuckWithoutAFailure(w: World, e: Event)
    requires w.desk.stuck == {} && !RemovalFails(e)
    ensures Step(w, e).desk.stuck == {}
  {
  }

  /** When no removal fails, every copy folder on disk is held by the access or by a call. */
  lemma {:induction false} CleanRunsLeaveNoCopies(events: seq<Event>)
    requires forall e :: e in events ==> !RemovalFails(e)
    ensures var w := Run(START, events);
            w.desk.stuck == {} && forall f :: f in w.desk.folders ==> Held(w, f)
    decreases |events|
  {
    if events != [] {
      CleanRunsLeaveNoCopies(events[..|events| - 1]);
      NothingIsStuckWithoutAFailure(Run(START, events[..|events| - 1]), events[|events| - 1]);
    }
    forall f | f in Run(START, events).desk.folders ensures Held(Run(START, events), f) {
      FolderIsHeldUnlessItsRemovalFailed(events, f);
    }
  }

  /** The step in which f's holder let it go, and the attempt to remove it failed. */
  ghost predicate LostIn(w: World, e: Event, f: nat) {
    Held(w, f) && !Held(Step(w, e), f) && RemovalFails(e)
  }

  /** A call lets go of its folder by trying to remove it, or by handing it to the access. */
  lemma CallLetsGo(w: World, e: Event, c: nat)
    requires FolderOf(w, InCall(c)).Some? && FolderOf(Step(w, e), InCall(c)) != FolderOf(w, InCall(c))
    ensures var f := FolderOf(w, InCall(c)).value;
            || FolderOf(Step(w, e), TheAccess) == Some(f)
            || (if RemovalFails(e) then f in Step(w, e).desk.stuck else f !in Step(w, e).desk.folders)
  {
  }

  /** A holder lets go of its folder only by trying to remove it. */
  lemma LettingGoTriesRemoval(w: World, e: Event, h: Holder)
    requires FolderOf(w, h).Some? && FolderOf(Step(w, e), h) != FolderOf(w, h)
    ensures var f := FolderOf(w, h).value;
            || Held(Step(w, e), f)
            || (if RemovalFails(e) then f in Step(w, e).desk.stuck else f !in Step(w, e).desk.folders)
  {
    if h.InCall? { CallLetsGo(w, e, h.call); }
  }

  lemma OnlyFailuresAreStuck(w: World, e: Event, f: nat)
    requires f in Step(w, e).desk.stuck && f !in w.desk.stuck
    ensures RemovalFails(e) && Held(w, f)
  {
    assert FolderOf(w, TheAccess) == Some(f)
        || (e.CopyProject? && FolderOf(w, InCall(e.call)) == Some(f))
        || (e.FinishView? && FolderOf(w, InCall(e.call)) == Some(f));
  }

  lemma StuckInStep(w: World, e: Event, f: nat, before: Owners, after: Owners)
    requires Inv(w, before) && Inv(Step(w, e), after)
    ensures f in Step(w, e).desk.stuck <==> f in w.desk.stuck || LostIn(w, e, f)
  {
    if LostIn(w, e, f) {
      var h :| FolderOf(w, h) == Some(f);
      LettingGoTriesRemoval(w, e, h);
    }
    if f in Step(w, e).desk.stuck && f !in w.desk.stuck { OnlyFailuresAreStuck(w, e, f); }
  }

  ghost predicate LostAt(events: seq<Event>, k: nat, f: nat)
    requires k < |events|
  {
    LostIn(Run(START, events[..k]), events[k], f)
  }

  /** Some step of the run let f go and failed to remove it. */
  ghost predicate EverLost(events: seq<Event>, f: nat) {
    exists k: nat :: k < |events| && LostAt(events, k, f)
  }

  lemma LostEarlierOrLast(events: seq<Event>, f: nat)
    requires events != []
    ensures var n := |events| - 1;
            EverLost(events, f) <==> EverLost(events[..n], f) || LostIn(Run(START, events[..n]), events[n], f)
  {
    var n := |events| - 1;
    forall k: nat | k < n ensures LostAt(events, k, f) <==> LostAt(events[..n], k, f) {
      assert events[..k] == events[..n][..k];
    }
    assert LostAt(events, n, f) <==> LostIn(Run(START, events[..n]), events[n], f);
  }

  lemma {:induction false} StuckIffLost(events: seq<Event>, f: nat)
    ensures f in Run(START, events).desk.stuck <==> EverLost(events, f)
    decreases |events|
  {
    if events != [] {
      var n := |events| - 1;
      StuckIffLost(events[..n], f);
      var before := RunKeeps(events[..n]);
      var after := RunKeeps(events);
      StuckInStep(Run(START, events[..n]), events[n], f, before, after);
      LostEarlierOrLast(events, f);
    }
  }

  /**
   Over every run: a copy folder still on disk has no holder exactly when some step let it go and failed to
   remove it.
   */
  lemma CopyIsLeftIffItsRemovalFailed(events: seq<Event>, f: nat)
    ensures f in Run(START, events).desk.folders ==> (!Held(Run(START, events), f) <==> EverLost(events, f))
  {
    FolderIsHeldUnlessItsRemovalFailed(events, f);
    StuckIffLost(events, f);
  }

  // ---------- A copy that outlives its session ----------

  lemma Then(events: seq<Event>, e: Event)
    ensures Run(START, events + [e]) == Step(Run(START, events), e)
  {
    assert (events + [e])[..|events|] == events;
  }

  const SIGN_IN: seq<Event> :=
    [BeginSignIn(0), CheckPassword(0, Some(Account("ada", true))), FinishSignIn(0, false, true)]

  const OPEN: seq<Event> :=
    [BeginOpen(1, "bob"), TakeSessionKey(1), AskStore(1, true), StopEarlier(1, Some("/bob"), true, {}),
     FinishOpen(1, true)]

  const VIEW: seq<Event> :=
    [BeginUse(2, ToView), ReadCaller(2), RequireSuper(2, true), TakeAccess(2, true), MakeFolder(2, true),
     CopyProject(2, true, true), FinishView(2, true)]

  const LIST: seq<Event> :=
    [BeginUse(2, ToList), ReadCaller(2), RequireSuper(2, true), TakeAccess(2, true)]

  lemma SignedInRun()
    ensures Run(START, SIGN_IN) ==
      World(Desk(1, Some(Account("ada", true)), Some(0), None, 1, {}, {}, 0, {}, {}, {}), map[])
  {
    Then([], SIGN_IN[0]);
    Then([SIGN_IN[0]], SIGN_IN[1]);
    Then([SIGN_IN[0], SIGN_IN[1]], SIGN_IN[2]);
    assert [] + [SIGN_IN[0]] == [SIGN_IN[0]];
    assert [SIGN_IN[0]] + [SIGN_IN[1]] == [SIGN_IN[0], SIGN_IN[1]];
    assert [SIGN_IN[0], SIGN_IN[1]] + [SIGN_IN[2]] == SIGN_IN;
  }

  /** A signed-in administrator with nothing open, and no call numbered 1. */
  predicate MayOpen(w: World, name: string) {
    w.desk.user == Some(Account(name, true)) && w.desk.sessionKey.Some? && w.desk.access == None && 1 !in w.calls
  }

  lemma AsksForKey(w: World, name: string)
    requires MayOpen(w, name)
    ensures var d := w.desk;
            Step(Step(w, OPEN[0]), OPEN[1])
            == World(Mint(d), w.calls[1 := Asking(d.epoch, name, "bob", d.keysMade)])
  {
    var d := w.desk;
    assert Step(w, OPEN[0]) == Advance(w, d, 1, Opening(d.epoch, name, "bob"));
    assert w.calls[1 := Opening(d.epoch, name, "bob")][1 := Asking(d.epoch, name, "bob", d.keysMade)]
        == w.calls[1 := Asking(d.epoch, name, "bob", d.keysMade)];
  }

  /** The store records the grant and hands out bob's key. */
  lemma Grants(w: World, d: Desk, name: string)
    requires d.user == Some(Account(name, true))
    ensures Step(World(Mint(d), w.calls[1 := Asking(d.epoch, name, "bob", d.keysMade)]), OPEN[2]) == World(
              d.(keysMade := d.keysMade + 2, zeroed := d.zeroed + {d.keysMade},
                 grants := d.grants + {Grant(name, "bob")}),
              w.calls[1 := Granted(d.epoch, name, "bob", d.keysMade + 1)])
  {
    assert w.calls[1 := Asking(d.epoch, name, "bob", d.keysMade)][1 := Granted(d.epoch, name, "bob", d.keysMade + 1)]
        == w.calls[1 := Granted(d.epoch, name, "bob", d.keysMade + 1)];
  }

  lemma Publishes(w: World, d: Desk, name: string, key: nat)
    requires d.access == None && 1 !in w.calls
    ensures Step(Step(World(d, w.calls[1 := Granted(d.epoch, name, "bob", key)]), OPEN[3]), OPEN[4])
         == World(d.(access := Some(Access("bob", "/bob", key, None, d.epoch))), w.calls)
  {
    var granted := World(d, w.calls[1 := Granted(d.epoch, name, "bob", key)]);
    var cleared := Cleared(d.epoch, name, "bob", "/bob", key);
    assert Step(granted, OPEN[3]) == Advance(granted, d, 1, cleared);
    assert granted.calls[1 := cleared] - {1} == w.calls;
  }

  /** Any signed-in administrator without access can open bob's data by these steps. */
  lemma Opens(events: seq<Event>, name: string)
    requires MayOpen(Run(START, events), name)
    ensures var w := Run(START, events);
            Run(START, events + OPEN) == World(
              w.desk.(access := Some(Access("bob", "/bob", w.desk.keysMade + 1, None, w.desk.epoch)),
                      keysMade := w.desk.keysMade + 2, zeroed := w.desk.zeroed + {w.desk.keysMade},
                      grants := w.desk.grants + {Grant(name, "bob")}), w.calls)
  {
    var w := Run(START, events);
    AsksForKey(w, name);
    Grants(w, w.desk, name);
    var d := w.desk.(keysMade := w.desk.keysMade + 2, zeroed := w.desk.zeroed + {w.desk.keysMade},
                     grants := w.desk.grants + {Grant(name, "bob")});
    Publishes(w, d, name, w.desk.keysMade + 1);
    FiveSteps(events, OPEN);
  }

  lemma FiveSteps(events: seq<Event>, es: seq<Event>)
    requires |es| == 5
    ensures var w := Run(START, events);
            Run(START, events + es) == Step(Step(Step(Step(Step(w, es[0]), es[1]), es[2]), es[3]), es[4])
  {
    Then(events, es[0]);
    Then(events + [es[0]], es[1]);
    Then(events + [es[0]] + [es[1]], es[2]);
    Then(events + [es[0]] + [es[1]] + [es[2]], es[3]);
    Then(events + [es[0]] + [es[1]] + [es[2]] + [es[3]], es[4]);
    assert events + [es[0]] + [es[1]] + [es[2]] + [es[3]] + [es[4]] == events + es;
  }

  lemma OpenedRun()
    ensures Run(START, SIGN_IN + OPEN) ==
      World(Desk(1, Some(Account("ada", true)), Some(0), Some(Access("bob", "/bob", 2, None, 1)), 3, {1}, {}, 0, {}, {},
                 {Grant("ada", "bob")}), map[])
  {
    SignedInRun();
    Opens(SIGN_IN, "ada");
  }

  lemma AdmittedRun()
    ensures Run(START, SIGN_IN + OPEN + VIEW[..4]) ==
      World(Desk(1, Some(Account("ada", true)), Some(0), Some(Access("bob", "/bob", 2, None, 1)), 4, {1}, {}, 0, {}, {},
                 {Grant("ada", "bob")}), map[2 := Admitted(1, "/bob", 3)])
  {
    OpenedRun();
    var open := SIGN_IN + OPEN;
    Then(open, VIEW[0]);
    Then(open + [VIEW[0]], VIEW[1]);
    Then(open + [VIEW[0]] + [VIEW[1]], VIEW[2]);
    Then(open + [VIEW[0]] + [VIEW[1]] + [VIEW[2]], VIEW[3]);
    assert open + [VIEW[0]] + [VIEW[1]] + [VIEW[2]] + [VIEW[3]] == open + VIEW[..4];
  }

  lemma ViewedRun()
    ensures Run(START, SIGN_IN + OPEN + VIEW) ==
      World(Desk(1, Some(Account("ada", true)), Some(0), Some(Access("bob", "/bob", 2, Some(View("/bob", 0)), 1)),
                 4, {1, 3}, {}, 1, {0}, {}, {Grant("ada", "bob")}), map[])
  {
    AdmittedRun();
    var admitted := SIGN_IN + OPEN + VIEW[..4];
    Then(admitted, VIEW[4]);
    Then(admitted + [VIEW[4]], VIEW[5]);
    Then(admitted + [VIEW[4]] + [VIEW[5]], VIEW[6]);
    assert admitted + [VIEW[4]] + [VIEW[5]] + [VIEW[6]] == SIGN_IN + OPEN + VIEW;
  }

  /** Sign in, open another account, view a project, sign out: the removal fails and bob's copy stays on disk. */
  lemma ViewedCopyCanOutliveSignOut()
    ensures var w := Run(START, SIGN_IN + OPEN + VIEW + [SignOut(false)]);
            w.desk.folders == {0} && !Held(w, 0) && w.desk.user == None && w.desk.access == None && w.calls == map[]
  {
    ViewedRun();
    Then(SIGN_IN + OPEN + VIEW, SignOut(false));
  }

  // ---------- A key that outlives its session ----------

  lemma ListedRun()
    ensures Run(START, SIGN_IN + OPEN + LIST) ==
      World(Desk(1, Some(Account("ada", true)), Some(0), Some(Access("bob", "/bob", 2, None, 1)),
                 4, {1}, {3}, 0, {}, {}, {Grant("ada", "bob")}), map[])
  {
    OpenedRun();
    var open := SIGN_IN + OPEN;
    Then(open, LIST[0]);
    Then(open + [LIST[0]], LIST[1]);
    Then(open + [LIST[0]] + [LIST[1]], LIST[2]);
    Then(open + [LIST[0]] + [LIST[1]] + [LIST[2]], LIST[3]);
    assert open + [LIST[0]] + [LIST[1]] + [LIST[2]] + [LIST[3]] == open + LIST;
  }

  /** Sign in, open another account, list its projects, sign out: a copy of bob's key is neither zeroed nor held. */
  lemma ListedKeyOutlivesSignOut()
    ensures var events := SIGN_IN + OPEN + LIST + [SignOut(true)];
            var w := Run(START, events);
            && w.calls == map[] && w.desk.user == None && w.desk.access == None && w.desk.keysMade == 4
            && 3 !in w.desk.zeroed && !KeyHeld(w, 3) && EverListed(events, 3)
  {
    ListedRun();
    Then(SIGN_IN + OPEN + LIST, SignOut(true));
    KeyIsZeroedHeldOrListed(SIGN_IN + OPEN + LIST + [SignOut(true)], 3);
  }

  // ---------- A check that outlives its session ----------

  const ASK: seq<Event> := [BeginUse(2, ToView), ReadCaller(2), RequireSuper(2, false), SignOut(true)]

  const SIGN_IN_AGAIN: seq<Event> :=
    [BeginSignIn(0), CheckPassword(0, Some(Account("eve", true))), FinishSignIn(0, false, true)]

  /** A call began a use of access in session 1 and was refused by the store; then its session ended. */
  lemma AskedRun()
    ensures Run(START, SIGN_IN + ASK) == World(Desk(2, None, None, None, 1, {0}, {}, 0, {}, {}, {}), map[2 := Unfit(1)])
  {
    SignedInRun();
    Then(SIGN_IN, ASK[0]);
    Then(SIGN_IN + [ASK[0]], ASK[1]);
    Then(SIGN_IN + [ASK[0]] + [ASK[1]], ASK[2]);
    Then(SIGN_IN + [ASK[0]] + [ASK[1]] + [ASK[2]], ASK[3]);
    assert SIGN_IN + [ASK[0]] + [ASK[1]] + [ASK[2]] + [ASK[3]] == SIGN_IN + ASK;
  }

  lemma SignedInAgainRun()
    ensures Run(START, SIGN_IN + ASK + SIGN_IN_AGAIN) ==
      World(Desk(3, Some(Account("eve", true)), Some(1), None, 2, {0}, {}, 0, {}, {}, {}), map[2 := Unfit(1)])
  {
    AskedRun();
    var asked, again := SIGN_IN + ASK, SIGN_IN_AGAIN;
    Then(asked, again[0]);
    Then(asked + [again[0]], again[1]);
    Then(asked + [again[0]] + [again[1]], again[2]);
    assert asked + [again[0]] + [again[1]] + [again[2]] == asked + again;
  }

  /** The stop of a check refused in ada's session ends the access eve opened in hers. */
  lemma LateCheckStopsLaterAccess()
    ensures var events := SIGN_IN + ASK + SIGN_IN_AGAIN + OPEN;
            var before, after := Run(START, events).desk, Run(START, events + [StopUnfit(2, true)]).desk;
            && before.access.Some? && before.user == Some(Account("eve", true))
            && after.access == None && after.user == before.user && after.epoch == before.epoch
  {
    SignedInAgainRun();
    Opens(SIGN_IN + ASK + SIGN_IN_AGAIN, "eve");
    Then(SIGN_IN + ASK + SIGN_IN_AGAIN + OPEN, StopUnfit(2, true));
  }

  /** A call that began before the session last changed publishes nothing; its key is zeroed. */
  lemma LateCallsPublishNothing(w: World, c: nat, refused: bool, removed: bool)
    requires c in w.calls && w.calls[c].epoch != w.desk.epoch
    ensures forall e ::
              e in {FinishSignIn(c, refused, removed), FinishOpen(c, removed),
                    FinishView(c, removed), TakeSessionKey(c)} ==>
              var after := Step(w, e).desk;
              && after.access == w.desk.access && after.user == w.desk.user && after.sessionKey == w.desk.sessionKey
              && after.epoch == w.desk.epoch && after.keysMade == w.desk.keysMade
              && (c !in Step(w, e).calls && CallKey(w.calls[c]).Some? ==> CallKey(w.calls[c]).value in after.zeroed)
  {
  }
}
