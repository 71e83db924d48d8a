/**
 Administrator access: where the session, the open access and the viewed copy come from. Each goes back to the
 events in which the password was right, the store allowed the access and the copy was made; every refusal
 ends its call and changes nothing else.
 */
module AdminAccessOrigins {
  import opened Wrappers
  import opened AdminAccess
  import opened AdminAccessSteps
  import opened AdminAccessRuns

  datatype Fact =
    | PasswordGood(account: Account)
    | SessionBegan(epoch: nat, account: Account)
    | StoreAllowed(epoch: nat, caller: string, target: string)
    | FolderFound(epoch: nat, caller: string, target: string, dataDir: string)
    | StillSuper(epoch: nat, purpose: Purpose)
    | CopyAllowed(epoch: nat, dataDir: string)
    | CopyMade(dataDir: string, folder: nat)

  /** The event establishes the fact. */
  predicate Shows(w: World, e: Event, f: Fact) {
    match f
    case PasswordGood(a) => e.CheckPassword? && e.account == Some(a) && e.call in w.calls && w.calls[e.call].SigningIn?
    case SessionBegan(epoch, a) =>
      && e.FinishSignIn? && !e.refused && e.call in w.calls && w.calls[e.call].SignedIn?
      && w.calls[e.call].account == a && w.calls[e.call].epoch == w.desk.epoch && epoch == w.desk.epoch + 1
    case StoreAllowed(epoch, caller, target) =>
      && e.AskStore? && e.allowed && e.call in w.calls && w.calls[e.call].Asking?
      && w.calls[e.call].epoch == epoch && w.calls[e.call].caller == caller && w.calls[e.call].target == target
    case FolderFound(epoch, caller, target, dataDir) =>
      && e.StopEarlier? && e.dataDir == Some(dataDir) && e.call in w.calls && w.calls[e.call].Granted?
      && w.calls[e.call].epoch == epoch && w.calls[e.call].caller == caller && w.calls[e.call].target == target
    case StillSuper(epoch, purpose) =>
      e.RequireSuper? && e.super && e.call in w.calls && w.calls[e.call] == Known(epoch, purpose)
    case CopyAllowed(epoch, dataDir) =>
      && e.TakeAccess? && e.confined && e.call in w.calls && w.calls[e.call] == Checked(epoch, ToView)
      && AccessOpen(w.desk) && w.desk.access.value.dataDir == dataDir
    case CopyMade(dataDir, folder) =>
      && e.CopyProject? && e.copied && e.call in w.calls && w.calls[e.call].Copying?
      && w.calls[e.call].dataDir == dataDir && w.calls[e.call].folder == folder
  }

  predicate ShownAt(events: seq<Event>, i: nat, f: Fact)
    requires i < |events|
  {
    Shows(Run(START, events[..i]), events[i], f)
  }

  /** Some event of the run established the fact. */
  ghost predicate Ever(events: seq<Event>, f: Fact) {
    exists i: nat :: i < |events| && ShownAt(events, i, f)
  }

  lemma EverEarlierOrLast(events: seq<Event>, f: Fact)
    requires events != []
    ensures var n := |events| - 1;
            Ever(events, f) <==> Ever(events[..n], f) || Shows(Run(START, events[..n]), events[n], f)
  {
    var n := |events| - 1;
    forall i: nat | i < n ensures ShownAt(events, i, f) <==> ShownAt(events[..n], i, f) {
      assert events[..i] == events[..n][..i];
    }
    assert ShownAt(events, n, f) <==> Shows(Run(START, events[..n]), events[n], f);
  }

  // ---------- What is known of calls, session and access ----------

  /** known are the facts established so far. */
  ghost predicate CallHasOrigin(known: Fact -> bool, c: Call) {
    && (c.SignedIn? ==> known(PasswordGood(c.account)))
    && (c.Granted? || c.Cleared? ==> known(StoreAllowed(c.epoch, c.caller, c.target)))
    && (c.Cleared? ==> known(FolderFound(c.epoch, c.caller, c.target, c.dataDir)))
    && (c.Checked? ==> known(StillSuper(c.epoch, c.purpose)))
    && (c.Admitted? || c.Copying? || c.Copied? ==> known(CopyAllowed(c.epoch, c.dataDir)))
    && (c.Copied? ==> known(CopyMade(c.dataDir, c.folder)))
  }

  ghost predicate SessionHasOrigin(known: Fact -> bool, d: Desk) {
    d.user.Some? ==> known(PasswordGood(d.user.value)) && known(SessionBegan(d.epoch, d.user.value))
  }

  ghost predicate AccessHasOrigin(known: Fact -> bool, d: Desk) {
    d.access.Some? ==>
      var a := d.access.value;
      && a.epoch == d.epoch && d.user.Some? && d.user.value.admin
      && known(StoreAllowed(d.epoch, d.user.value.name, a.target))
      && known(FolderFound(d.epoch, d.user.value.name, a.target, a.dataDir))
      && (a.view.Some? ==>
            && a.view.value.source == a.dataDir
            && known(CopyAllowed(d.epoch, a.dataDir)) && known(CopyMade(a.dataDir, a.view.value.folder)))
  }

  ghost predicate Grounded(known: Fact -> bool, w: World) {
    && (forall c :: c in w.calls ==> CallHasOrigin(known, w.calls[c]))
    && SessionHasOrigin(known, w.desk) && AccessHasOrigin(known, w.desk)
  }

  ghost predicate Grows(known: Fact -> bool, after: Fact -> bool, w: World, e: Event) {
    forall f :: after(f) <==> known(f) || Shows(w, e, f)
  }

  lemma CallsStayGrounded(known: Fact -> bool, after: Fact -> bool, w: World, e: Event, c: nat)
    requires Grounded(known, w) && Grows(known, after, w, e) && c in Step(w, e).calls
    ensures CallHasOrigin(after, Step(w, e).calls[c])
  {
    if c in w.calls { assert CallHasOrigin(known, w.calls[c]); }
  }

  lemma SessionStaysGrounded(known: Fact -> bool, after: Fact -> bool, w: World, e: Event)
    requires Grounded(known, w) && Grows(known, after, w, e)
    ensures SessionHasOrigin(after, Step(w, e).desk)
  {
    if e.FinishSignIn? && e.call in w.calls { assert CallHasOrigin(known, w.calls[e.call]); }
  }

  lemma AccessStaysGrounded(known: Fact -> bool, after: Fact -> bool, w: World, e: Event)
    requires Grounded(known, w) && Grows(known, after, w, e) && CallsAreSound(w)
    ensures AccessHasOrigin(after, Step(w, e).desk)
  {
    if (e.FinishOpen? || e.FinishView?) && e.call in w.calls {
      assert CallHasOrigin(known, w.calls[e.call]) && CallIsSound(w.desk, w.calls[e.call]);
    }
  }

  lemma {:induction false} RunIsGrounded(events: seq<Event>)
    ensures Grounded(f => Ever(events, f), Run(START, events))
    decreases |events|
  {
    if events != [] {
      var n := |events| - 1;
      var w, e := Run(START, events[..n]), events[n];
      RunIsGrounded(events[..n]);
      var known: Fact -> bool := f => Ever(events[..n], f);
      var after: Fact -> bool := f => Ever(events, f);
      forall f ensures after(f) <==> known(f) || Shows(w, e, f) { EverEarlierOrLast(events, f); }
      var owners := RunKeeps(events[..n]);
      forall c | c in Step(w, e).calls ensures CallHasOrigin(after, Step(w, e).calls[c]) {
        CallsStayGrounded(known, after, w, e, c);
      }
      SessionStaysGrounded(known, after, w, e);
      AccessStaysGrounded(known, after, w, e);
    }
  }

  // ---------- Over every run ----------

  /** Whoever is signed in gave the right password, and began this very session with it. */
  lemma SessionComesFromItsSignIn(events: seq<Event>)
    ensures var d := Run(START, events).desk;
            d.user.Some? ==>
              Ever(events, PasswordGood(d.user.value)) && Ever(events, SessionBegan(d.epoch, d.user.value))
  {
    RunIsGrounded(events);
  }

  /**
   Open access was allowed by the store to the present user in the present session, for that target, and its
   folder was found for that target. A viewed copy was allowed in that session, and made from that folder.
   */
  lemma AccessComesFromTheStore(events: seq<Event>)
    ensures var d := Run(START, events).desk;
            d.access.Some? ==>
              var a := d.access.value;
              && d.user.Some? && d.user.value.admin
              && Ever(events, StoreAllowed(d.epoch, d.user.value.name, a.target))
              && Ever(events, FolderFound(d.epoch, d.user.value.name, a.target, a.dataDir))
              && (a.view.Some? ==>
                    && Ever(events, CopyAllowed(d.epoch, a.dataDir))
                    && Ever(events, CopyMade(a.dataDir, a.view.value.folder)))
  {
    RunIsGrounded(events);
  }

  lemma GrantInStep(w: World, e: Event, caller: string, target: string)
    ensures Grant(caller, target) in Step(w, e).desk.grants
            <==>
              || Grant(caller, target) in w.desk.grants
              || exists epoch :: Shows(w, e, StoreAllowed(epoch, caller, target))
  {
    if e.AskStore? && e.allowed && e.call in w.calls && w.calls[e.call].Asking? {
      var a := w.calls[e.call];
      assert Shows(w, e, StoreAllowed(a.epoch, a.caller, a.target));
    }
  }

  /** Access is recorded for a caller and a target exactly when the store allowed it to them. */
  lemma {:induction false} RecordedIffAllowed(events: seq<Event>, caller: string, target: string)
    ensures Grant(caller, target) in Run(START, events).desk.grants
            <==> exists epoch :: Ever(events, StoreAllowed(epoch, caller, target))
    decreases |events|
  {
    if events != [] {
      var n := |events| - 1;
      RecordedIffAllowed(events[..n], caller, target);
      GrantInStep(Run(START, events[..n]), events[n], caller, target);
      forall epoch ensures Ever(events, StoreAllowed(epoch, caller, target)) <==>
        Ever(events[..n], StoreAllowed(epoch, caller, target))
        || Shows(Run(START, events[..n]), events[n], StoreAllowed(epoch, caller, target)) {
        EverEarlierOrLast(events, StoreAllowed(epoch, caller, target));
      }
    }
  }

  // ---------- Refusals ----------

  /** The event is a refusal or a failure of the call's present step. */
  predicate Refuses(w: World, e: Event) {
    || (e.CheckPassword? && e.account == None && e.call in w.calls && w.calls[e.call].SigningIn?)
    || (e.FinishSignIn? && e.refused && e.call in w.calls && w.calls[e.call].SignedIn?)
    || (e.AskStore? && !e.allowed && e.call in w.calls && w.calls[e.call].Asking?)
    || (e.StopEarlier? && e.dataDir == None && e.call in w.calls && w.calls[e.call].Granted?)
    || (e.MakeFolder? && !e.made && e.call in w.calls && w.calls[e.call].Admitted?)
    || (e.CopyProject? && !e.copied && e.call in w.calls && w.calls[e.call].Copying?)
    || (e.TakeAccess? && !e.confined && e.call in w.calls && w.calls[e.call].Checked?
        && w.calls[e.call].purpose.ToView?)
  }

  /**
   A refusal ends its call, zeroes the call's key or the copy it just took, and leaves session, access and the
   recorded grants alone.
   */
  lemma RefusalsEndTheCall(w: World, e: Event)
    requires Refuses(w, e)
    ensures var after := Step(w, e);
            && after.calls == w.calls - {e.call}
            && after.desk.user == w.desk.user && after.desk.epoch == w.desk.epoch
            && after.desk.sessionKey == w.desk.sessionKey && after.desk.access == w.desk.access
            && after.desk.grants == w.desk.grants && after.desk.dropped == w.desk.dropped
            && (CallKey(w.calls[e.call]).Some? ==>
                  after.desk.zeroed == w.desk.zeroed + {CallKey(w.calls[e.call]).value}
                  && after.desk.keysMade == w.desk.keysMade)
            && (forall k :: w.desk.keysMade <= k < after.desk.keysMade ==> k in after.desk.zeroed)
  {
  }

  /** A call refused as unfit ends all access, and the session goes on. */
  lemma UnfitCallerLosesAccess(w: World, c: nat, removed: bool)
    requires c in w.calls && w.calls[c].Unfit?
    ensures var after := Step(w, StopUnfit(c, removed));
            && after.calls == w.calls - {c} && after.desk.access == None
            && after.desk.user == w.desk.user && after.desk.epoch == w.desk.epoch
            && (w.desk.access.Some? ==> w.desk.access.value.key in after.desk.zeroed)
  {
  }

  /** Nobody but a signed-in administrator begins to open or to use access. */
  lemma OnlyAdministratorsBegin(w: World, c: nat, target: string)
    requires c !in w.calls
    ensures var after := Step(w, BeginOpen(c, target));
            if w.desk.user.Some? && w.desk.user.value.admin
            then after == World(w.desk, w.calls[c := Opening(w.desk.epoch, w.desk.user.value.name, target)])
            else after == w
    ensures forall p ::
              var using := Step(w, BeginUse(c, p));
              if w.desk.user.Some? && w.desk.user.value.admin
              then Step(using, ReadCaller(c)) == World(w.desk, w.calls[c := Known(w.desk.epoch, p)])
              else Step(using, ReadCaller(c)) == w
  {
    forall p ensures
      var using := Step(w, BeginUse(c, p));
      if w.desk.user.Some? && w.desk.user.value.admin
      then Step(using, ReadCaller(c)) == World(w.desk, w.calls[c := Known(w.desk.epoch, p)])
      else Step(using, ReadCaller(c)) == w {
      var using := w.calls[c := Using(w.desk.epoch, p)];
      assert using[c := Known(w.desk.epoch, p)] == w.calls[c := Known(w.desk.epoch, p)];
      assert using - {c} == w.calls;
    }
  }
}
