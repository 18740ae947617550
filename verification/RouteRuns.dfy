/** Whole runs of one network's routing state. */
module RouteRuns {
  import opened Common
  import opened Topology
  import opened RouteGroup

  /**
   An acknowledgement answers the update that event number `built` produced.  The server sets its
   own public key, or another field of its info, which then keeps the key.
   */
  datatype Event =
    | AddPeer(p: PeerId, key: Key32)
    | RemovePeer(p: PeerId)
    | HandleSync(sender: PeerId, sid: nat, isInitiator: bool, infos: seq<PeerInfo>, now: nat)
    | Build(target: PeerId, serverSessionId: nat, forceFull: bool, now: nat)
    | Ack(target: PeerId, sid: nat, weAreInitiator: bool, built: nat, now: nat)
    | SetMyInfo(key: Key32)

  ghost function UpdateOf(gs: seq<Group>, events: seq<Event>, me: PeerId, b: nat): Update
    requires b < |gs| && b < |events| && events[b].Build?
  {
    var e := events[b];
    BuiltUpdate(gs[b], me, e.target, e.serverSessionId, e.forceFull, e.now)
  }

  ghost predicate Enabled(gs: seq<Group>, events: seq<Event>, me: PeerId, i: nat)
    requires i < |events| && |gs| == |events| + 1
  {
    match events[i]
    case AddPeer(p, _) => p != me
    case RemovePeer(p) => p != me
    case HandleSync(sender, _, _, _, _) => sender != me
    case Ack(target, _, _, b, _) =>
      && b < i && events[b].Build? && events[b].target == target
      && !BuildFails(gs[b], me, target, events[b].serverSessionId, events[b].now)
    case Build(target, _, _, _) => target in gs[i].peers
    case SetMyInfo(key) => |key| == 32 || key == gs[i].myInfo.noiseKey
  }

  ghost function Apply(gs: seq<Group>, events: seq<Event>, me: PeerId, i: nat): Group
    requires i < |events| && |gs| == |events| + 1 && Enabled(gs, events, me, i)
  {
    var g := gs[i];
    match events[i]
    case AddPeer(p, key) => PeerAdded(g, me, p, key)
    case RemovePeer(p) => PeerRemoved(g, me, p)
    case HandleSync(sender, sid, isInitiator, infos, now) => SyncHandled(g, me, sender, sid, isInitiator, infos, now)
    case Build(target, serverSessionId, forceFull, now) => Built(g, me, target, serverSessionId, now)
    case Ack(target, sid, weAreInitiator, b, now) =>
      var u := UpdateOf(gs, events, me, b);
      Acknowledged(g, target, sid, weAreInitiator, u.versions, u.topologyVersion, now)
    case SetMyInfo(key) => g.(myInfo := g.myInfo.(noiseKey := key, version := Next32(g.myInfo.version)))
  }

  ghost predicate IsRun(gs: seq<Group>, events: seq<Event>, me: PeerId) {
    && |gs| == |events| + 1 && gs[0].sessions == map[]
    && forall i :: 0 <= i < |events| ==> StepAt(gs, events, me, i)
  }

  ghost predicate StepAt(gs: seq<Group>, events: seq<Event>, me: PeerId, i: nat)
    requires i < |events| && |gs| == |events| + 1
  {
    Enabled(gs, events, me, i) && gs[i + 1] == Apply(gs, events, me, i)
  }

  // ----- What a session remembers was acknowledged in it -----

  /** Event k acknowledges, for `target`, an update that carries p at version v. */
  ghost predicate Carried(gs: seq<Group>, events: seq<Event>, me: PeerId, k: nat, target: PeerId, p: PeerId, v: nat)
    requires IsRun(gs, events, me)
  {
    && k < |events| && events[k].Ack? && events[k].target == target
    && Enabled(gs, events, me, k)
    && exists x :: x in UpdateOf(gs, events, me, events[k].built).versions && x.peerId == p && x.version == v
  }

  ghost predicate CarriedConn(gs: seq<Group>, events: seq<Event>, me: PeerId, k: nat, target: PeerId, v: nat)
    requires IsRun(gs, events, me)
  {
    && k < |events| && events[k].Ack? && events[k].target == target
    && Enabled(gs, events, me, k)
    && UpdateOf(gs, events, me, events[k].built).topologyVersion == Some(v)
  }

  /** The peer's session id has not changed after event k. */
  ghost predicate SameSession(gs: seq<Group>, events: seq<Event>, target: PeerId, k: nat, n: nat)
    requires |gs| == |events| + 1 && k < n <= |events|
  {
    && target in gs[k + 1].sessions
    && forall m {:trigger gs[m]} :: k < m <= n ==> target in gs[m].sessions && gs[m].sessions[target].dstSessionId == gs[k + 1].sessions[target].dstSessionId
  }

  lemma SameSessionExtends(gs: seq<Group>, events: seq<Event>, target: PeerId, k: nat, n: nat)
    requires |gs| == |events| + 1 && k < n < |events| && SameSession(gs, events, target, k, n)
    requires target in gs[n + 1].sessions && gs[n + 1].sessions[target].dstSessionId == gs[n].sessions[target].dstSessionId
    ensures SameSession(gs, events, target, k, n + 1)
  {
  }

  lemma {:induction false} RememberedFrom(saved: map<PeerId, SavedVersion>, versions: seq<IdVersion>, now: nat, p: PeerId)
    requires p in AllRemembered(saved, versions, now)
    ensures var r := AllRemembered(saved, versions, now)[p];
      || (p in saved && r == saved[p])
      || (&& r.touchedAtMs == now
          && (exists x :: x in versions && x.peerId == p)
          && ((p in saved && r.version == saved[p].version) || exists x :: x in versions && x.peerId == p && x.version == r.version))
  {
    if versions != [] {
      var front, last := versions[..|versions| - 1], versions[|versions| - 1];
      assert last in versions && forall x :: x in front ==> x in versions;
      if p in AllRemembered(saved, front, now) {
        RememberedFrom(saved, front, now, p);
      }
    }
  }

  /** A session that keeps its id and learns nothing: it may only forget. */
  predicate Shrunk(s: Session, s': Session) {
    && s'.dstSessionId == s.dstSessionId
    && (forall p :: p in s'.saved ==> p in s.saved && s'.saved[p] == s.saved[p])
    && (s'.lastTopologyVersion == 0
        || (s'.lastTopologyVersion == s.lastTopologyVersion && s'.lastTopologyTouchMs == s.lastTopologyTouchMs))
  }

  predicate Blank(s: Session) {
    s.saved == map[] && s.lastTopologyVersion == 0
  }

  ghost predicate AllShrunk(a: Group, b: Group) {
    b.sessions.Keys == a.sessions.Keys && forall t :: t in a.sessions ==> Shrunk(a.sessions[t], b.sessions[t])
  }

  lemma {:induction false} ReadInfosShrinks(pass: Pass, infos: seq<PeerInfo>, sender: PeerId, now: nat)
    ensures AllShrunk(pass.g, ReadInfos(pass, infos, sender, now).g)
  {
    if infos != [] {
      ReadInfosShrinks(pass, infos[..|infos| - 1], sender, now);
      ReadInfoShrinks(ReadInfos(pass, infos[..|infos| - 1], sender, now), infos[|infos| - 1], sender, now);
    }
  }

  lemma ReadInfoShrinks(pass: Pass, info: PeerInfo, sender: PeerId, now: nat)
    ensures AllShrunk(pass.g, ReadInfo(pass, info, sender, now).g)
  {
  }

  ghost predicate PoorerOrBlank(g: Group, g': Group, target: PeerId) {
    target in g'.sessions ==>
      Blank(g'.sessions[target]) || (target in g.sessions && Shrunk(g.sessions[target], g'.sessions[target]))
  }

  lemma SyncPoorerOrBlank(g: Group, me: PeerId, e: Event, target: PeerId)
    requires e.HandleSync?
    ensures PoorerOrBlank(g, SyncHandled(g, me, e.sender, e.sid, e.isInitiator, e.infos, e.now), target)
  {
    var g1 := SyncRecognised(g, e.sender, e.sid, e.isInitiator, e.now);
    assert PoorerOrBlank(g, g1, target);
    ReadInfosShrinks(Pass(g1, false, false, false), e.infos, e.sender, e.now);
  }

  lemma MembershipPoorerOrBlank(g: Group, me: PeerId, p: PeerId, key: Key32, target: PeerId)
    ensures PoorerOrBlank(g, PeerAdded(g, me, p, key), target)
    ensures PoorerOrBlank(g, PeerRemoved(g, me, p), target)
  {
  }

  lemma BuildPoorerOrBlank(g: Group, me: PeerId, e: Event, target: PeerId)
    requires e.Build?
    ensures PoorerOrBlank(g, Built(g, me, e.target, e.serverSessionId, e.now), target)
  {
  }

  /** Events other than an acknowledgement by the target leave its session poorer or blank. */
  lemma SessionStep(gs: seq<Group>, events: seq<Event>, me: PeerId, i: nat, target: PeerId)
    requires IsRun(gs, events, me) && i < |events|
    requires !(events[i].Ack? && events[i].target == target)
    ensures PoorerOrBlank(gs[i], gs[i + 1], target)
  {
    var g, e := gs[i], events[i];
    assert StepAt(gs, events, me, i);
    match e
    case AddPeer(p, key) => MembershipPoorerOrBlank(g, me, p, key, target);
    case RemovePeer(p) => MembershipPoorerOrBlank(g, me, p, [], target);
    case HandleSync(_, _, _, _, _) => SyncPoorerOrBlank(g, me, e, target);
    case Build(_, _, _, _) => BuildPoorerOrBlank(g, me, e, target);
    case Ack(_, _, _, _, _) =>
    case SetMyInfo(_) =>
  }

  ghost predicate Source(gs: seq<Group>, events: seq<Event>, me: PeerId, n: nat, target: PeerId, p: PeerId, v: nat)
    requires IsRun(gs, events, me) && n <= |events|
  {
    exists k :: 0 <= k < n && Carried(gs, events, me, k, target, p, v) && SameSession(gs, events, target, k, n)
  }

  ghost predicate Recent(gs: seq<Group>, events: seq<Event>, me: PeerId, n: nat, target: PeerId, p: PeerId, at: nat)
    requires IsRun(gs, events, me) && n <= |events|
  {
    exists k, v :: 0 <= k < n && Carried(gs, events, me, k, target, p, v) && SameSession(gs, events, target, k, n) && events[k].now == at
  }

  lemma SourcesExtend(gs: seq<Group>, events: seq<Event>, me: PeerId, n: nat, target: PeerId, p: PeerId, v: nat, at: nat)
    requires IsRun(gs, events, me) && n < |events|
    requires target in gs[n].sessions && target in gs[n + 1].sessions
    requires gs[n + 1].sessions[target].dstSessionId == gs[n].sessions[target].dstSessionId
    ensures Source(gs, events, me, n, target, p, v) ==> Source(gs, events, me, n + 1, target, p, v)
    ensures Recent(gs, events, me, n, target, p, at) ==> Recent(gs, events, me, n + 1, target, p, at)
  {
    if Source(gs, events, me, n, target, p, v) {
      var k :| 0 <= k < n && Carried(gs, events, me, k, target, p, v) && SameSession(gs, events, target, k, n);
      SameSessionExtends(gs, events, target, k, n);
    }
    if Recent(gs, events, me, n, target, p, at) {
      var k, u :| 0 <= k < n && Carried(gs, events, me, k, target, p, u) && SameSession(gs, events, target, k, n) && events[k].now == at;
      SameSessionExtends(gs, events, target, k, n);
    }
  }

  /** Every recorded version was acknowledged in the current session, and its time stamp is that of such an acknowledgement. */
  lemma {:induction false} SavedIsAcknowledged(gs: seq<Group>, events: seq<Event>, me: PeerId, n: nat, target: PeerId, p: PeerId)
    requires IsRun(gs, events, me) && n <= |events|
    requires target in gs[n].sessions && p in gs[n].sessions[target].saved
    ensures var r := gs[n].sessions[target].saved[p];
            Source(gs, events, me, n, target, p, r.version) && Recent(gs, events, me, n, target, p, r.touchedAtMs)
    decreases n, 1
  {
    if n > 0 {
      var i := n - 1;
      if events[i].Ack? && events[i].target == target {
        AckRecords(gs, events, me, i, p);
      } else {
        SessionStep(gs, events, me, i, target);
        SavedIsAcknowledged(gs, events, me, i, target, p);
        var r := gs[i].sessions[target].saved[p];
        SourcesExtend(gs, events, me, i, target, p, r.version, r.touchedAtMs);
      }
    }
  }

  /** What an acknowledgement makes of the target's session. */
  lemma AckStep(gs: seq<Group>, events: seq<Event>, me: PeerId, i: nat)
    requires IsRun(gs, events, me) && i < |events| && events[i].Ack?
    ensures Enabled(gs, events, me, i)
    ensures var e, u := events[i], UpdateOf(gs, events, me, events[i].built);
            && e.target in gs[i + 1].sessions
            && gs[i + 1].sessions[e.target] ==
                 Confirmed(Recognised(SessionOf(gs[i], e.target), e.sid, e.weAreInitiator, e.now), u.versions, u.topologyVersion, e.now)
    ensures SameSession(gs, events, events[i].target, i, i + 1)
  {
    assert StepAt(gs, events, me, i);
  }

  lemma AckRecords(gs: seq<Group>, events: seq<Event>, me: PeerId, i: nat, p: PeerId)
    requires IsRun(gs, events, me) && i < |events| && events[i].Ack?
    requires events[i].target in gs[i + 1].sessions && p in gs[i + 1].sessions[events[i].target].saved
    ensures var t := events[i].target;
            var r := gs[i + 1].sessions[t].saved[p];
            Source(gs, events, me, i + 1, t, p, r.version) && Recent(gs, events, me, i + 1, t, p, r.touchedAtMs)
    decreases i + 1, 0
  {
    AckStep(gs, events, me, i);
    var e, target := events[i], events[i].target;
    var s := Recognised(SessionOf(gs[i], target), e.sid, e.weAreInitiator, e.now);
    var versions := UpdateOf(gs, events, me, e.built).versions;
    RememberedFrom(s.saved, versions, e.now, p);
    var r := gs[i + 1].sessions[target].saved[p];
    if p in s.saved {
      SavedIsAcknowledged(gs, events, me, i, target, p);
      SourcesExtend(gs, events, me, i, target, p, s.saved[p].version, s.saved[p].touchedAtMs);
    }
    if x :| x in versions && x.peerId == p && x.version == r.version {
      assert Carried(gs, events, me, i, target, p, r.version);
    }
    if r.touchedAtMs == e.now && exists x :: x in versions && x.peerId == p {
      var x :| x in versions && x.peerId == p;
      assert Carried(gs, events, me, i, target, p, x.version);
    }
  }

  // ----- The same for connection info -----

  ghost predicate ConnSource(gs: seq<Group>, events: seq<Event>, me: PeerId, n: nat, target: PeerId, v: nat)
    requires IsRun(gs, events, me) && n <= |events|
  {
    exists k :: 0 <= k < n && CarriedConn(gs, events, me, k, target, v) && SameSession(gs, events, target, k, n)
  }

  ghost predicate ConnRecent(gs: seq<Group>, events: seq<Event>, me: PeerId, n: nat, target: PeerId, at: nat)
    requires IsRun(gs, events, me) && n <= |events|
  {
    exists k, v :: 0 <= k < n && CarriedConn(gs, events, me, k, target, v) && SameSession(gs, events, target, k, n) && events[k].now == at
  }

  lemma ConnSourcesExtend(gs: seq<Group>, events: seq<Event>, me: PeerId, n: nat, target: PeerId, v: nat, at: nat)
    requires IsRun(gs, events, me) && n < |events|
    requires target in gs[n].sessions && target in gs[n + 1].sessions
    requires gs[n + 1].sessions[target].dstSessionId == gs[n].sessions[target].dstSessionId
    ensures ConnSource(gs, events, me, n, target, v) ==> ConnSource(gs, events, me, n + 1, target, v)
    ensures ConnRecent(gs, events, me, n, target, at) ==> ConnRecent(gs, events, me, n + 1, target, at)
  {
    if ConnSource(gs, events, me, n, target, v) {
      var k :| 0 <= k < n && CarriedConn(gs, events, me, k, target, v) && SameSession(gs, events, target, k, n);
      SameSessionExtends(gs, events, target, k, n);
    }
    if ConnRecent(gs, events, me, n, target, at) {
      var k, u :| 0 <= k < n && CarriedConn(gs, events, me, k, target, u) && SameSession(gs, events, target, k, n) && events[k].now == at;
      SameSessionExtends(gs, events, target, k, n);
    }
  }

  lemma {:induction false} ConnIsAcknowledged(gs: seq<Group>, events: seq<Event>, me: PeerId, n: nat, target: PeerId)
    requires IsRun(gs, events, me) && n <= |events|
    requires target in gs[n].sessions && gs[n].sessions[target].lastTopologyVersion != 0
    ensures var s := gs[n].sessions[target];
            ConnSource(gs, events, me, n, target, s.lastTopologyVersion) && ConnRecent(gs, events, me, n, target, s.lastTopologyTouchMs)
    decreases n, 1
  {
    if n > 0 {
      var i := n - 1;
      if events[i].Ack? && events[i].target == target {
        AckRecordsConn(gs, events, me, i);
      } else {
        SessionStep(gs, events, me, i, target);
        ConnIsAcknowledged(gs, events, me, i, target);
        var s := gs[i].sessions[target];
        ConnSourcesExtend(gs, events, me, i, target, s.lastTopologyVersion, s.lastTopologyTouchMs);
      }
    }
  }

  lemma AckRecordsConn(gs: seq<Group>, events: seq<Event>, me: PeerId, i: nat)
    requires IsRun(gs, events, me) && i < |events| && events[i].Ack?
    requires events[i].target in gs[i + 1].sessions && gs[i + 1].sessions[events[i].target].lastTopologyVersion != 0
    ensures var t := events[i].target;
            var s := gs[i + 1].sessions[t];
            ConnSource(gs, events, me, i + 1, t, s.lastTopologyVersion) && ConnRecent(gs, events, me, i + 1, t, s.lastTopologyTouchMs)
    decreases i + 1, 0
  {
    AckStep(gs, events, me, i);
    var e, target := events[i], events[i].target;
    var s := Recognised(SessionOf(gs[i], target), e.sid, e.weAreInitiator, e.now);
    var topology := UpdateOf(gs, events, me, e.built).topologyVersion;
    if s.lastTopologyVersion != 0 {
      ConnIsAcknowledged(gs, events, me, i, target);
      ConnSourcesExtend(gs, events, me, i, target, s.lastTopologyVersion, s.lastTopologyTouchMs);
    }
    if topology.Some? {
      assert CarriedConn(gs, events, me, i, target, topology.value);
    }
  }

  // ----- Delta-sync soundness -----

  predicate Mentions(u: Update, p: PeerId) {
    exists x :: x in u.versions && x.peerId == p
  }

  lemma OmittedIsSaved(g: Group, me: PeerId, target: PeerId, serverSessionId: nat, forceFull: bool, now: nat, p: PeerId)
    requires p != target && (p == me || (p in g.peers && p in g.infos))
    requires !Mentions(BuiltUpdate(g, me, target, serverSessionId, forceFull, now), p)
    ensures target in g.sessions && p in g.sessions[target].saved && g.sessions[target].dstSessionId.Some?
    ensures var r := g.sessions[target].saved[p];
            && InfoOf(g, me, p).value.version <= r.version
            && SaturatingSub(now, r.touchedAtMs) < SAVED_ROUTE_VERSION_TTL_MS
  {
    var g1 := RouteGroup.Opened(g, target, serverSessionId, now);
    var s, full, ids := SessionOf(g1, target), Full(g1, target, forceFull), Relevant(g1, me, target);
    var chosen := Chosen(g1, me, s, target, full, ids, now);
    SortedFacts(g1.peers + {me, target});
    ChosenMembers(g1, me, s, target, full, ids, now, p);
    forall i | 0 <= i < |chosen|
      ensures chosen[i] != p
    {
      assert ChosenVersions(g1, me, chosen)[i].peerId == chosen[i];
      assert ChosenVersions(g1, me, chosen)[i] in BuiltUpdate(g, me, target, serverSessionId, forceFull, now).versions;
    }
  }

  /** In its current session the target acknowledged p at `version` or later, and acknowledged p at all within the time to live. */
  ghost predicate InfoAcknowledged(gs: seq<Group>, events: seq<Event>, me: PeerId, n: nat, target: PeerId, p: PeerId, version: nat, now: nat)
    requires IsRun(gs, events, me) && n <= |events|
  {
    && (exists v :: version <= v && Source(gs, events, me, n, target, p, v))
    && (exists at :: SaturatingSub(now, at) < SAVED_ROUTE_VERSION_TTL_MS && Recent(gs, events, me, n, target, p, at))
  }

  lemma SavedGivesAcknowledged(gs: seq<Group>, events: seq<Event>, me: PeerId, n: nat, target: PeerId, p: PeerId, version: nat, now: nat)
    requires IsRun(gs, events, me) && n <= |events|
    requires target in gs[n].sessions && p in gs[n].sessions[target].saved
    requires version <= gs[n].sessions[target].saved[p].version
    requires SaturatingSub(now, gs[n].sessions[target].saved[p].touchedAtMs) < SAVED_ROUTE_VERSION_TTL_MS
    ensures InfoAcknowledged(gs, events, me, n, target, p, version, now)
  {
    SavedIsAcknowledged(gs, events, me, n, target, p);
  }

  /**
   Delta-sync soundness, peer infos: whenever an update for `target` leaves out a peer whose
   info is known (or the server's own), the target has acknowledged, in its current session,
   an update carrying that peer at the current version or a later one, and some update
   carrying it less than 60 seconds ago.
   */
  lemma OmittedInfoWasAcknowledged(gs: seq<Group>, events: seq<Event>, me: PeerId, n: nat, p: PeerId)
    requires IsRun(gs, events, me) && n < |events| && events[n].Build?
    requires p != events[n].target && (p == me || (p in gs[n].peers && p in gs[n].infos))
    requires !Mentions(UpdateOf(gs, events, me, n), p)
    ensures InfoAcknowledged(gs, events, me, n, events[n].target, p, InfoOf(gs[n], me, p).value.version, events[n].now)
  {
    var e := events[n];
    OmittedIsSaved(gs[n], me, e.target, e.serverSessionId, e.forceFull, e.now, p);
    SavedGivesAcknowledged(gs, events, me, n, e.target, p, InfoOf(gs[n], me, p).value.version, e.now);
  }

  /** Delta-sync soundness, connection info: an update leaves it out only if the target acknowledged one of the same topology version. */
  lemma OmittedConnWasAcknowledged(gs: seq<Group>, events: seq<Event>, me: PeerId, n: nat)
    requires IsRun(gs, events, me) && n < |events| && events[n].Build?
    requires gs[n].topologyVersion != 0 && UpdateOf(gs, events, me, n).conn.None?
    ensures ConnSource(gs, events, me, n, events[n].target, gs[n].topologyVersion)
    ensures exists at :: SaturatingSub(events[n].now, at) < SAVED_ROUTE_VERSION_TTL_MS && ConnRecent(gs, events, me, n, events[n].target, at)
  {
    var target := events[n].target;
    assert target in gs[n].sessions;
    ConnIsAcknowledged(gs, events, me, n, target);
    assert ConnRecent(gs, events, me, n, target, gs[n].sessions[target].lastTopologyTouchMs);
  }
}
