/**
 Delta-sync soundness for contents: what an update leaves out, the target has already got.

 A session forgets a peer as soon as that peer changes its instance or leaves, so a version
 that is still remembered speaks of the current instance, unless it was recorded by an
 acknowledgement that was already on its way.
 */
module RouteContent {
  import opened Common
  import opened Topology
  import opened RouteGroup
  import opened RouteRuns
  import opened RouteInvariants

  /** p is remembered for the target all the time after event k. */
  ghost predicate Kept(gs: seq<Group>, target: PeerId, p: PeerId, k: nat, n: nat) {
    forall m :: k < m <= n ==> RememberedAt(gs, target, p, m)
  }

  predicate RememberedAt(gs: seq<Group>, target: PeerId, p: PeerId, m: nat) {
    m < |gs| && target in gs[m].sessions && p in gs[m].sessions[target].saved
  }

  ghost predicate KeptSource(gs: seq<Group>, events: seq<Event>, me: PeerId, n: nat, target: PeerId, p: PeerId, v: nat)
    requires IsRun(gs, events, me) && n <= |events|
  {
    exists k :: 0 <= k < n && Carried(gs, events, me, k, target, p, v) && SameSession(gs, events, target, k, n) && Kept(gs, target, p, k, n)
  }

  lemma KeptExtends(gs: seq<Group>, target: PeerId, p: PeerId, k: nat, n: nat)
    requires Kept(gs, target, p, k, n) && RememberedAt(gs, target, p, n + 1)
    ensures Kept(gs, target, p, k, n + 1)
  {
  }

  lemma KeptSourceExtends(gs: seq<Group>, events: seq<Event>, me: PeerId, n: nat, target: PeerId, p: PeerId, v: nat)
    requires IsRun(gs, events, me) && n < |events| && KeptSource(gs, events, me, n, target, p, v)
    requires target in gs[n].sessions && target in gs[n + 1].sessions && p in gs[n + 1].sessions[target].saved
    requires gs[n + 1].sessions[target].dstSessionId == gs[n].sessions[target].dstSessionId
    ensures KeptSource(gs, events, me, n + 1, target, p, v)
  {
    var k :| 0 <= k < n && Carried(gs, events, me, k, target, p, v) && SameSession(gs, events, target, k, n) && Kept(gs, target, p, k, n);
    SameSessionExtends(gs, events, target, k, n);
    KeptExtends(gs, target, p, k, n);
  }

  /** A remembered version comes from an acknowledgement since which it has been remembered without a break. */
  lemma {:induction false} SavedSinceAcknowledged(gs: seq<Group>, events: seq<Event>, me: PeerId, n: nat, target: PeerId, p: PeerId)
    requires IsRun(gs, events, me) && n <= |events|
    requires target in gs[n].sessions && p in gs[n].sessions[target].saved
    ensures KeptSource(gs, events, me, n, target, p, gs[n].sessions[target].saved[p].version)
    decreases n, 1
  {
    if n > 0 {
      var i := n - 1;
      if events[i].Ack? && events[i].target == target {
        AckRemembersSince(gs, events, me, i, p);
      } else {
        SessionStep(gs, events, me, i, target);
        SavedSinceAcknowledged(gs, events, me, i, target, p);
        KeptSourceExtends(gs, events, me, i, target, p, gs[i].sessions[target].saved[p].version);
      }
    }
  }

  lemma AckRemembersSince(gs: seq<Group>, events: seq<Event>, me: PeerId, i: nat, p: PeerId)
    requires IsRun(gs, events, me) && i < |events| && events[i].Ack?
    requires events[i].target in gs[i + 1].sessions && p in gs[i + 1].sessions[events[i].target].saved
    ensures KeptSource(gs, events, me, i + 1, events[i].target, p, gs[i + 1].sessions[events[i].target].saved[p].version)
    decreases i + 1, 0
  {
    AckStep(gs, events, me, i);
    var e, target := events[i], events[i].target;
    var s := Recognised(SessionOf(gs[i], target), e.sid, e.weAreInitiator, e.now);
    var versions := UpdateOf(gs, events, me, e.built).versions;
    RememberedFrom(s.saved, versions, e.now, p);
    var r := gs[i + 1].sessions[target].saved[p];
    if p in s.saved && r.version == s.saved[p].version {
      SavedSinceAcknowledged(gs, events, me, i, target, p);
      KeptSourceExtends(gs, events, me, i, target, p, r.version);
    } else {
      assert Carried(gs, events, me, i, target, p, r.version);
      assert RememberedAt(gs, target, p, i + 1) && Kept(gs, target, p, i, i + 1);
    }
  }

  // ----- While p is remembered, its info stays in its instance -----

  lemma {:induction false} ReadKeepsOrForgets(pass: Pass, infos: seq<PeerInfo>, sender: PeerId, now: nat, target: PeerId)
    requires sender in pass.g.infos
    ensures var g' := ReadInfos(pass, infos, sender, now).g;
      && sender in g'.infos
      && (target in g'.sessions && sender in g'.sessions[target].saved ==> NotBehind(pass.g.infos[sender], g'.infos[sender]))
  {
    if infos != [] {
      var front := infos[..|infos| - 1];
      ReadKeepsOrForgets(pass, front, sender, now, target);
      ReadInfoShrinks(ReadInfos(pass, front, sender, now), infos[|infos| - 1], sender, now);
    }
  }

  /** An event after which p is still remembered for anybody has left p's info as it was, or raised its version. */
  lemma RememberedMovesForward(gs: seq<Group>, events: seq<Event>, me: PeerId, i: nat, target: PeerId, p: PeerId)
    requires IsRun(gs, events, me) && i < |events| && p in gs[i].infos
    requires target in gs[i + 1].sessions && p in gs[i + 1].sessions[target].saved
    ensures p in gs[i + 1].infos && NotBehind(gs[i].infos[p], gs[i + 1].infos[p])
  {
    assert StepAt(gs, events, me, i);
    var g, e := gs[i], events[i];
    if e.HandleSync? && e.sender == p {
      var start := Pass(SyncRecognised(g, p, e.sid, e.isInitiator, e.now), false, false, false);
      ReadKeepsOrForgets(start, e.infos, p, e.now, target);
    } else if !(e.RemovePeer? && e.p == p) {
      assert !WritesOrRemoves(e, p);
      IdentityStep(gs, events, me, i);
      assert p in g.infos.Keys + gs[i + 1].infos.Keys;
    }
  }

  /** Event m leaves p's info as it is, or raises its version. */
  predicate Steady(gs: seq<Group>, m: nat, p: PeerId) {
    m + 1 < |gs| && p in gs[m].infos && p in gs[m + 1].infos && (gs[m + 1].infos[p] == gs[m].infos[p] || gs[m + 1].infos[p].version > gs[m].infos[p].version)
  }

  lemma SteadyWhileKept(gs: seq<Group>, events: seq<Event>, me: PeerId, i: nat, k: nat, n: nat, target: PeerId, p: PeerId)
    requires IsRun(gs, events, me) && k <= i < n <= |events| && p in gs[i].infos
    requires events[k].Ack? && Kept(gs, target, p, k, n)
    ensures Steady(gs, i, p)
  {
    assert StepAt(gs, events, me, i);
    if !events[i].Ack? {
      assert RememberedAt(gs, target, p, i + 1);
      RememberedMovesForward(gs, events, me, i, target, p);
    }
  }

  /** Over steady events the version never goes back, and where it is the same, so is the info. */
  lemma {:induction false} SteadyRun(gs: seq<Group>, p: PeerId, b: nat, n: nat)
    requires b <= n < |gs| && p in gs[b].infos
    requires forall m :: b <= m < n ==> Steady(gs, m, p)
    ensures p in gs[n].infos && gs[b].infos[p].version <= gs[n].infos[p].version
    ensures gs[n].infos[p].version == gs[b].infos[p].version ==> gs[n].infos[p] == gs[b].infos[p]
    decreases n
  {
    if b < n {
      SteadyRun(gs, p, b, n - 1);
      assert Steady(gs, n - 1, p);
    }
  }

  lemma {:induction false} SteadyAfter(gs: seq<Group>, events: seq<Event>, me: PeerId, b: nat, k: nat, n: nat, target: PeerId, p: PeerId)
    requires IsRun(gs, events, me) && b <= k < n <= |events| && p in gs[b].infos
    requires events[k].Ack? && Kept(gs, target, p, k, n)
    requires forall m :: b <= m < k ==> Steady(gs, m, p)
    ensures forall m :: b <= m < n ==> Steady(gs, m, p)
    decreases n
  {
    if k + 1 < n {
      SteadyAfter(gs, events, me, b, k, n - 1, target, p);
    }
    SteadyRun(gs, p, b, n - 1);
    SteadyWhileKept(gs, events, me, n - 1, k, n, target, p);
  }

  // ----- What an update carries -----

  lemma CarriedInfo(g: Group, me: PeerId, target: PeerId, serverSessionId: nat, forceFull: bool, now: nat, x: IdVersion)
    requires x in BuiltUpdate(g, me, target, serverSessionId, forceFull, now).versions
    ensures InfoOf(g, me, x.peerId).Some? && InfoOf(g, me, x.peerId).value in BuiltUpdate(g, me, target, serverSessionId, forceFull, now).infos
    ensures x.version == Max(InfoOf(g, me, x.peerId).value.version, 1)
  {
    var u := BuiltUpdate(g, me, target, serverSessionId, forceFull, now);
    var g1 := RouteGroup.Opened(g, target, serverSessionId, now);
    var chosen := Selection(g1, me, target, forceFull, now);
    var i :| 0 <= i < |u.versions| && u.versions[i] == x;
    assert chosen[i] in chosen && u.infos[i] == InfoOf(g1, me, chosen[i]).value;
  }

  /**
   While an update with p's info is on its way to the target, p stays present, and every change
   of its info raises its version, which is not 0.
   */
  ghost predicate SteadyInFlight(gs: seq<Group>, events: seq<Event>, me: PeerId, target: PeerId, p: PeerId, n: nat)
    requires IsRun(gs, events, me) && n <= |events|
  {
    forall k {:trigger events[k]} :: 0 <= k < n && events[k].Ack? && events[k].target == target ==>
      SteadyBetween(gs, events[k].built, k, p)
  }

  ghost predicate SteadyBetween(gs: seq<Group>, b: nat, k: nat, p: PeerId)
  {
    b < k < |gs| && p in gs[b].infos ==>
      gs[b].infos[p].version > 0 && forall m :: b <= m < k ==> Steady(gs, m, p)
  }

  /** Event k acknowledges, for the target, an update that carried exactly this info. */
  ghost predicate AcknowledgesInfo(gs: seq<Group>, events: seq<Event>, me: PeerId, k: nat, target: PeerId, info: PeerInfo)
    requires IsRun(gs, events, me)
  {
    && k < |events| && events[k].Ack? && events[k].target == target && Enabled(gs, events, me, k)
    && info in UpdateOf(gs, events, me, events[k].built).infos
  }

  /**
   Delta-sync soundness, contents: if no peer info goes back while it is on its way, then
   whenever an update leaves out a peer, the target has acknowledged, in its current session,
   an update that carried exactly that peer's current info, instance and content included.
   */
  lemma OmittedContentIsCurrent(gs: seq<Group>, events: seq<Event>, me: PeerId, n: nat, p: PeerId)
    requires IsRun(gs, events, me) && n < |events| && events[n].Build?
    requires p != events[n].target && p != me && p in gs[n].peers && p in gs[n].infos
    requires !Mentions(UpdateOf(gs, events, me, n), p)
    requires SteadyInFlight(gs, events, me, events[n].target, p, n)
    ensures exists k {:trigger events[k]} :: 0 <= k < n && AcknowledgesInfo(gs, events, me, k, events[n].target, gs[n].infos[p])
                                            && SameSession(gs, events, events[n].target, k, n)
  {
    var e, target := events[n], events[n].target;
    OmittedIsSaved(gs[n], me, target, e.serverSessionId, e.forceFull, e.now, p);
    SavedSinceAcknowledged(gs, events, me, n, target, p);
    var v := gs[n].sessions[target].saved[p].version;
    var k :| 0 <= k < n && Carried(gs, events, me, k, target, p, v) && SameSession(gs, events, target, k, n) && Kept(gs, target, p, k, n);
    CarriedIsCurrent(gs, events, me, k, n, target, p, v);
    assert AcknowledgesInfo(gs, events, me, k, target, gs[n].infos[p]);
  }

  lemma CarriedIsCurrent(gs: seq<Group>, events: seq<Event>, me: PeerId, k: nat, n: nat, target: PeerId, p: PeerId, v: nat)
    requires IsRun(gs, events, me) && k < n <= |events| && p != me && p in gs[n].infos && gs[n].infos[p].version <= v
    requires Carried(gs, events, me, k, target, p, v) && Kept(gs, target, p, k, n)
    requires SteadyInFlight(gs, events, me, target, p, n)
    ensures AcknowledgesInfo(gs, events, me, k, target, gs[n].infos[p])
  {
    var b := events[k].built;
    var x :| x in UpdateOf(gs, events, me, b).versions && x.peerId == p && x.version == v;
    CarriedInfo(gs[b], me, target, events[b].serverSessionId, events[b].forceFull, events[b].now, x);
    assert SteadyBetween(gs, b, k, p);
    SteadyAfter(gs, events, me, b, k, n, target, p);
    SteadyRun(gs, p, b, n);
  }

  // ----- The server's own info -----

  /** No change of the server's own info before event n wraps its version. */
  ghost predicate OwnVersionGrows(gs: seq<Group>, events: seq<Event>, n: nat)
    requires |gs| == |events| + 1 && n <= |events|
  {
    gs[0].myInfo.version > 0 && forall i {:trigger events[i]} :: 0 <= i < n && events[i].SetMyInfo? ==> gs[i].myInfo.version + 1 < U32
  }

  lemma OwnInfoStep(gs: seq<Group>, events: seq<Event>, me: PeerId, i: nat)
    requires IsRun(gs, events, me) && i < |events|
    ensures if events[i].SetMyInfo? then gs[i + 1].myInfo.version == Next32(gs[i].myInfo.version) else gs[i + 1].myInfo == gs[i].myInfo
  {
    assert StepAt(gs, events, me, i);
    if events[i].HandleSync? {
      SyncRoom(gs[i], me, events[i].sender, events[i].sid, events[i].isInitiator, events[i].infos, events[i].now);
    }
  }

  lemma {:induction false} OwnInfoMovesForward(gs: seq<Group>, events: seq<Event>, me: PeerId, b: nat, n: nat)
    requires IsRun(gs, events, me) && b <= n <= |events| && OwnVersionGrows(gs, events, n)
    ensures 0 < gs[b].myInfo.version <= gs[n].myInfo.version
    ensures gs[n].myInfo.version == gs[b].myInfo.version ==> gs[n].myInfo == gs[b].myInfo
    decreases n
  {
    if b < n {
      OwnInfoMovesForward(gs, events, me, b, n - 1);
      OwnInfoStep(gs, events, me, n - 1);
    } else if n > 0 {
      OwnInfoMovesForward(gs, events, me, n - 1, n - 1);
      OwnInfoStep(gs, events, me, n - 1);
    }
  }

  /**
   Delta-sync soundness for the server's own info: whatever is on its way, whenever an update
   leaves it out, the target has acknowledged, in its current session, an update that carried
   exactly what it is now, as long as its version has not wrapped.
   */
  lemma OmittedOwnInfoIsCurrent(gs: seq<Group>, events: seq<Event>, me: PeerId, n: nat)
    requires IsRun(gs, events, me) && n < |events| && events[n].Build? && me != events[n].target
    requires !Mentions(UpdateOf(gs, events, me, n), me)
    requires OwnVersionGrows(gs, events, n)
    ensures exists k {:trigger events[k]} :: 0 <= k < n && AcknowledgesInfo(gs, events, me, k, events[n].target, gs[n].myInfo)
                                            && SameSession(gs, events, events[n].target, k, n)
  {
    var e, target := events[n], events[n].target;
    OmittedIsSaved(gs[n], me, target, e.serverSessionId, e.forceFull, e.now, me);
    SavedIsAcknowledged(gs, events, me, n, target, me);
    var v := gs[n].sessions[target].saved[me].version;
    var k :| 0 <= k < n && Carried(gs, events, me, k, target, me, v) && SameSession(gs, events, target, k, n);
    CarriedOwnIsCurrent(gs, events, me, k, n, target, v);
    assert AcknowledgesInfo(gs, events, me, k, target, gs[n].myInfo);
  }

  lemma CarriedOwnIsCurrent(gs: seq<Group>, events: seq<Event>, me: PeerId, k: nat, n: nat, target: PeerId, v: nat)
    requires IsRun(gs, events, me) && k < n <= |events| && gs[n].myInfo.version <= v && OwnVersionGrows(gs, events, n)
    requires Carried(gs, events, me, k, target, me, v)
    ensures AcknowledgesInfo(gs, events, me, k, target, gs[n].myInfo)
  {
    var b := events[k].built;
    var x :| x in UpdateOf(gs, events, me, b).versions && x.peerId == me && x.version == v;
    CarriedInfo(gs[b], me, target, events[b].serverSessionId, events[b].forceFull, events[b].now, x);
    OwnInfoMovesForward(gs, events, me, b, n);
  }

  // ----- Why the provisos are needed -----

  function WithInfo(g: Group, me: PeerId, p: PeerId, info: PeerInfo): Group {
    if p == me then g.(myInfo := info) else g.(infos := g.infos[p := info])
  }

  /**
   An acknowledgement that arrives after a change of an info, a peer's or the server's own, hides
   the changed info exactly when its version is no higher than the one acknowledged or one
   remembered before, whatever its instance.
   */
  lemma LateAcknowledgementHidesIff(g: Group, me: PeerId, s: Session, target: PeerId, p: PeerId, changed: PeerInfo, now: nat, later: nat)
    requires p != target && InfoOf(g, me, p).Some? && now <= later < now + SAVED_ROUTE_VERSION_TTL_MS
    ensures var sent := ChosenVersions(g, me, [p]);
            var known := if p in s.saved then Max(s.saved[p].version, sent[0].version) else sent[0].version;
            Max(changed.version, 1) <= known <==>
            !Included(WithInfo(g, me, p, changed), me, Confirmed(s, sent, None, now), target, false, p, later)
  {
    var sent := ChosenVersions(g, me, [p]);
    assert sent[..0] == [];
    assert AllRemembered(s.saved, sent, now) == Remembered(AllRemembered(s.saved, [], now), sent[0], now);
  }

  /** The proviso on version 0: it is sent as version 1, so a first change to version 1 can be hidden although the version grows. */
  lemma VersionZeroHidesOne(g: Group, me: PeerId, s: Session, target: PeerId, p: PeerId, changed: PeerInfo, now: nat)
    requires p != target && InfoOf(g, me, p).Some? && InfoOf(g, me, p).value.version == 0 && s.saved == map[] && changed.version == 1
    ensures var sent := ChosenVersions(g, me, [p]);
      && Included(g, me, s, target, false, p, now)
      && !Included(WithInfo(g, me, p, changed), me, Confirmed(s, sent, None, now), target, false, p, now)
  {
    LateAcknowledgementHidesIff(g, me, s, target, p, changed, now, now);
  }

  /** The proviso on wrapping: after the last version comes 0, which hides behind every version acknowledged before. */
  lemma OwnVersionWrapHides(g: Group, me: PeerId, s: Session, target: PeerId, key: Key32, now: nat)
    requires me != target && g.myInfo.version == U32 - 1
    ensures var sent, changed := ChosenVersions(g, me, [me]), g.myInfo.(noiseKey := key, version := Next32(g.myInfo.version));
      !Included(g.(myInfo := changed), me, Confirmed(s, sent, None, now), target, false, me, now)
  {
    LateAcknowledgementHidesIff(g, me, s, target, me, g.myInfo.(noiseKey := key, version := Next32(g.myInfo.version)), now, now);
  }
}
