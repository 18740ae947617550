/**
 What a peer's session holds, told from the events: the ids of both ends, who opened it, and
 which connection info the peer has.
 */
module RouteSessions {
  import opened Common
  import opened Topology
  import opened RouteGroup
  import opened RouteRuns
  import opened RouteInvariants
  import opened RouteUpdates

  // ----- The ends of a session -----

  /** The two ids of a session, and whether the server opened it. */
  datatype Ends = Ends(mine: Option<nat>, theirs: Option<nat>, weAreInitiator: bool)

  function EndsOf(s: Session): Ends {
    Ends(s.mySessionId, s.dstSessionId, s.weAreInitiator)
  }

  /** The session with `target` after the first n events, told from the events alone. */
  function EndsAfter(events: seq<Event>, n: nat, target: PeerId): Ends {
    if n == 0 || n > |events| then Ends(None, None, false)
    else
      var before := EndsAfter(events, n - 1, target);
      match events[n - 1]
      case RemovePeer(p) => if p == target then Ends(None, None, false) else before
      case HandleSync(sender, sid, isInitiator, _, _) => if sender == target then Ends(before.mine, Some(sid), !isInitiator) else before
      case Ack(t, sid, weAreInitiator, _, _) => if t == target then Ends(before.mine, Some(sid), weAreInitiator) else before
      case Build(t, serverSessionId, _, _) => if t == target then before.(mine := Some(serverSessionId)) else before
      case _ => before
  }

  /** A pass over received infos changes nothing of a session but which versions are remembered. */
  predicate OnlySavedDiffers(s: Session, s': Session) {
    s' == s.(saved := s'.saved)
  }

  lemma {:induction false} ReadInfosKeepSession(pass: Pass, infos: seq<PeerInfo>, sender: PeerId, now: nat, target: PeerId)
    ensures var g' := ReadInfos(pass, infos, sender, now).g;
            (target in g'.sessions <==> target in pass.g.sessions) && OnlySavedDiffers(SessionOf(pass.g, target), SessionOf(g', target))
  {
    if infos != [] {
      ReadInfosKeepSession(pass, infos[..|infos| - 1], sender, now, target);
    }
  }

  lemma SyncKeepsSession(g: Group, me: PeerId, e: Event, target: PeerId)
    requires e.HandleSync?
    ensures var g' := SyncHandled(g, me, e.sender, e.sid, e.isInitiator, e.infos, e.now);
            OnlySavedDiffers(if e.sender == target then Recognised(SessionOf(g, target), e.sid, !e.isInitiator, e.now) else SessionOf(g, target),
                             SessionOf(g', target))
  {
    var g1 := SyncRecognised(g, e.sender, e.sid, e.isInitiator, e.now);
    ReadInfosKeepSession(Pass(g1, false, false, false), e.infos, e.sender, e.now, target);
  }

  lemma AddKeepsSessions(g: Group, me: PeerId, p: PeerId, key: Key32)
    ensures PeerAdded(g, me, p, key).sessions == g.sessions
  {
  }

  lemma RemovalKeepsEnds(g: Group, me: PeerId, p: PeerId, target: PeerId)
    ensures EndsOf(SessionOf(PeerRemoved(g, me, p), target)) == if p == target then Ends(None, None, false) else EndsOf(SessionOf(g, target))
  {
    RemovedIsForgotten(g, me, p);
  }

  lemma BuildKeepsSession(g: Group, me: PeerId, e: Event, target: PeerId)
    requires e.Build?
    ensures SessionOf(Built(g, me, e.target, e.serverSessionId, e.now), target) ==
            if e.target == target then SessionOf(g, target).(mySessionId := Some(e.serverSessionId), lastTouchMs := e.now) else SessionOf(g, target)
  {
  }

  lemma AckKeepsEnds(gs: seq<Group>, events: seq<Event>, me: PeerId, i: nat, target: PeerId)
    requires IsRun(gs, events, me) && i < |events| && events[i].Ack?
    ensures var e, before := events[i], EndsOf(SessionOf(gs[i], target));
            EndsOf(SessionOf(gs[i + 1], target)) == if e.target == target then Ends(before.mine, Some(e.sid), e.weAreInitiator) else before
  {
    assert StepAt(gs, events, me, i);
  }

  lemma EventKeepsEnds(gs: seq<Group>, events: seq<Event>, me: PeerId, i: nat, target: PeerId)
    requires IsRun(gs, events, me) && i < |events| && EndsOf(SessionOf(gs[i], target)) == EndsAfter(events, i, target)
    ensures EndsOf(SessionOf(gs[i + 1], target)) == EndsAfter(events, i + 1, target)
  {
    assert StepAt(gs, events, me, i);
    var g, e := gs[i], events[i];
    match e
    case AddPeer(p, key) => AddKeepsSessions(g, me, p, key);
    case RemovePeer(p) => RemovalKeepsEnds(g, me, p, target);
    case HandleSync(_, _, _, _, _) => SyncKeepsSession(g, me, e, target);
    case Build(_, _, _, _) => BuildKeepsSession(g, me, e, target);
    case Ack(_, _, _, _, _) => AckKeepsEnds(gs, events, me, i, target);
    case SetMyInfo(_) =>
  }

  /** In every run a session's ids are those last named by either end, and the last to speak says who opened it. */
  lemma {:induction false} EndsAreWhatWasSaid(gs: seq<Group>, events: seq<Event>, me: PeerId, n: nat, target: PeerId)
    requires IsRun(gs, events, me) && n <= |events|
    ensures EndsOf(SessionOf(gs[n], target)) == EndsAfter(events, n, target)
  {
    if n > 0 {
      EndsAreWhatWasSaid(gs, events, me, n - 1, target);
      EventKeepsEnds(gs, events, me, n - 1, target);
    }
  }

  // ----- Acknowledged connection info is left out -----

  /** No event from k on and before n removes a peer that is not there. */
  ghost predicate NoIdleRemoval(gs: seq<Group>, events: seq<Event>, k: nat, n: nat)
    requires n <= |events| < |gs|
  {
    forall m: nat :: k <= m < n ==> !RemovesNobody(gs, events, m)
  }

  predicate RemovesNobody(gs: seq<Group>, events: seq<Event>, m: nat)
    requires m < |events| < |gs|
  {
    var g, e := gs[m], events[m];
    e.RemovePeer? && !Known(g, e.p)
  }

  /** Since the acknowledgement the target's session has held topology version v, at least as of then. */
  ghost predicate ConnSavedSince(gs: seq<Group>, target: PeerId, v: nat, at: nat, n: nat)
    requires n < |gs|
  {
    SessionOf(gs[n], target).lastTopologyVersion == v && SessionOf(gs[n], target).lastTopologyTouchMs >= at
  }

  lemma VersionsDoNotGoBack(gs: seq<Group>, events: seq<Event>, me: PeerId, i: nat, j: nat)
    requires IsRun(gs, events, me) && NoTopologyWrap(gs) && i <= j <= |events|
    ensures gs[i].topologyVersion <= gs[j].topologyVersion
  {
    VersionIdentifiesTopology(gs, events, me, i, j);
  }

  /** No session holds a topology version that is yet to come. */
  lemma SavedConnIsPast(gs: seq<Group>, events: seq<Event>, me: PeerId, n: nat, target: PeerId)
    requires IsRun(gs, events, me) && NoTopologyWrap(gs) && n <= |events|
    ensures SessionOf(gs[n], target).lastTopologyVersion <= gs[n].topologyVersion
  {
    if target in gs[n].sessions && gs[n].sessions[target].lastTopologyVersion != 0 {
      ConnIsAcknowledged(gs, events, me, n, target);
      var v := gs[n].sessions[target].lastTopologyVersion;
      assert ConnSource(gs, events, me, n, target, v);
      var k :| 0 <= k < n && CarriedConn(gs, events, me, k, target, v) && SameSession(gs, events, target, k, n);
      CarriedConnIsPast(gs, events, me, k, n, target, v);
    }
  }

  lemma CarriedConnIsPast(gs: seq<Group>, events: seq<Event>, me: PeerId, k: nat, n: nat, target: PeerId, v: nat)
    requires IsRun(gs, events, me) && NoTopologyWrap(gs) && k < n <= |events| && CarriedConn(gs, events, me, k, target, v)
    ensures v <= gs[n].topologyVersion
  {
    UpdateVersion(gs, events, me, events[k].built);
    VersionsDoNotGoBack(gs, events, me, events[k].built, n);
  }

  lemma UpdateVersion(gs: seq<Group>, events: seq<Event>, me: PeerId, b: nat)
    requires IsRun(gs, events, me) && b < |events| && events[b].Build?
    ensures UpdateOf(gs, events, me, b).topologyVersion in {None, Some(gs[b].topologyVersion)}
  {
  }

  lemma AckSavesConn(gs: seq<Group>, events: seq<Event>, me: PeerId, k: nat, v: nat)
    requires IsRun(gs, events, me) && NoTopologyWrap(gs) && k < |events| && events[k].Ack?
    requires CarriedConn(gs, events, me, k, events[k].target, v) && v == gs[k].topologyVersion
    ensures ConnSavedSince(gs, events[k].target, v, events[k].now, k + 1)
  {
    AckStep(gs, events, me, k);
    SavedConnIsPast(gs, events, me, k, events[k].target);
  }

  /** An event that neither acknowledges nor removes keeps the topology version of a session that goes on. */
  lemma OtherEventsKeepConn(gs: seq<Group>, events: seq<Event>, me: PeerId, m: nat, target: PeerId)
    requires IsRun(gs, events, me) && m < |events|
    requires !events[m].RemovePeer? && !(events[m].Ack? && events[m].target == target)
    requires SessionOf(gs[m + 1], target).dstSessionId == SessionOf(gs[m], target).dstSessionId
    ensures SessionOf(gs[m + 1], target).lastTopologyVersion == SessionOf(gs[m], target).lastTopologyVersion
    ensures SessionOf(gs[m + 1], target).lastTopologyTouchMs == SessionOf(gs[m], target).lastTopologyTouchMs
  {
    assert StepAt(gs, events, me, m);
    var g, e := gs[m], events[m];
    match e
    case AddPeer(p, key) => AddKeepsSessions(g, me, p, key);
    case HandleSync(_, _, _, _, _) => SyncKeepsSession(g, me, e, target);
    case Build(_, _, _, _) => BuildKeepsSession(g, me, e, target);
    case _ =>
  }

  lemma AckKeepsConn(gs: seq<Group>, events: seq<Event>, me: PeerId, m: nat, at: nat)
    requires IsRun(gs, events, me) && NoTopologyWrap(gs) && m < |events| && events[m].Ack? && at <= events[m].now
    requires SessionOf(gs[m + 1], events[m].target).dstSessionId == SessionOf(gs[m], events[m].target).dstSessionId
    requires ConnSavedSince(gs, events[m].target, gs[m].topologyVersion, at, m)
    ensures ConnSavedSince(gs, events[m].target, gs[m].topologyVersion, at, m + 1)
  {
    AckStep(gs, events, me, m);
    var b := events[m].built;
    UpdateVersion(gs, events, me, b);
    VersionsDoNotGoBack(gs, events, me, b, m);
  }

  lemma ConnStaysSaved(gs: seq<Group>, events: seq<Event>, me: PeerId, m: nat, target: PeerId, at: nat)
    requires IsRun(gs, events, me) && NoTopologyWrap(gs) && m < |events| && (events[m].Ack? ==> at <= events[m].now)
    requires gs[m + 1].topologyVersion == gs[m].topologyVersion && !RemovesNobody(gs, events, m)
    requires SessionOf(gs[m + 1], target).dstSessionId == SessionOf(gs[m], target).dstSessionId
    requires ConnSavedSince(gs, target, gs[m].topologyVersion, at, m)
    ensures ConnSavedSince(gs, target, gs[m].topologyVersion, at, m + 1)
  {
    if events[m].Ack? && events[m].target == target {
      AckKeepsConn(gs, events, me, m, at);
    } else {
      RemovalMovesTopology(gs, events, me, m);
      OtherEventsKeepConn(gs, events, me, m, target);
    }
  }

  lemma RemovalMovesTopology(gs: seq<Group>, events: seq<Event>, me: PeerId, m: nat)
    requires IsRun(gs, events, me) && NoTopologyWrap(gs) && m < |events| && gs[m + 1].topologyVersion == gs[m].topologyVersion
    ensures events[m].RemovePeer? ==> RemovesNobody(gs, events, m)
  {
    TopologyMovesIff(gs, events, me, m);
    assert gs[m].topologyVersion + 1 < U64;
  }

  lemma {:induction false} ConnSavedUntil(gs: seq<Group>, events: seq<Event>, me: PeerId, k: nat, n: nat, target: PeerId, v: nat)
    requires IsRun(gs, events, me) && NoTopologyWrap(gs) && k < n <= |events| && CarriedConn(gs, events, me, k, target, v)
    requires AcksInOrder(events, k, n) && SameSession(gs, events, target, k, n) && NoIdleRemoval(gs, events, k, n) && gs[n].topologyVersion == v
    ensures ConnSavedSince(gs, target, v, events[k].now, n)
    decreases n
  {
    UpdateVersion(gs, events, me, events[k].built);
    VersionsDoNotGoBack(gs, events, me, events[k].built, n - 1);
    VersionsDoNotGoBack(gs, events, me, n - 1, n);
    if n == k + 1 {
      AckSavesConn(gs, events, me, k, v);
    } else {
      ConnSavedUntil(gs, events, me, k, n - 1, target, v);
      assert !RemovesNobody(gs, events, n - 1);
      assert gs[n - 1].sessions[target].dstSessionId == gs[k + 1].sessions[target].dstSessionId == gs[n].sessions[target].dstSessionId;
      assert events[n - 1].Ack? ==> events[k].now <= events[n - 1].now;
      ConnStaysSaved(gs, events, me, n - 1, target, events[k].now);
    }
  }

  /**
   The converse of delta-sync soundness for connection info: once the target has acknowledged the
   current topology, an update less than a minute later, in the same session, leaves it out,
   unless a removal of a peer that was not there made every session forget it in between.
   */
  lemma AcknowledgedConnIsOmitted(gs: seq<Group>, events: seq<Event>, me: PeerId, k: nat, n: nat)
    requires IsRun(gs, events, me) && NoTopologyWrap(gs) && k < n < |events| && events[n].Build?
    requires CarriedConn(gs, events, me, k, events[n].target, gs[n].topologyVersion) && AcksInOrder(events, k, n)
    requires SameSession(gs, events, events[n].target, k, n) && NoIdleRemoval(gs, events, k, n)
    requires events[n].now < events[k].now + SAVED_ROUTE_VERSION_TTL_MS
    ensures UpdateOf(gs, events, me, n).conn.None?
  {
    var e, v := events[n], gs[n].topologyVersion;
    ConnSavedUntil(gs, events, me, k, n, e.target, v);
    ConnCarriedIff(gs[n], me, e.target, e.serverSessionId, e.forceFull, e.now);
  }

  /** The proviso is needed: removing a peer that is not there moves no version, and yet every session forgets the topology. */
  lemma IdleRemovalForgets(g: Group, me: PeerId, p: PeerId, target: PeerId, now: nat)
    requires !Known(g, p) && g.topologyVersion != 0 && target in g.sessions && target != p
    ensures PeerRemoved(g, me, p).topologyVersion == g.topologyVersion && !TopologyRecentlySaved(PeerRemoved(g, me, p), target, now)
  {
  }
}
