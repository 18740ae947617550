/**
 What an update carries, exactly, and what each event changes: a forced update leaves nothing
 out, any other leaves out exactly what the target acknowledged a short while ago, and the
 routing state follows from the events.
 */
module RouteUpdates {
  import opened Common
  import opened Topology
  import opened RouteGroup
  import opened RouteRuns
  import opened RouteInvariants
  import opened RouteContent

  // ----- Which infos an update carries -----

  /** p's info is known, and p is not the one being told. */
  predicate Tellable(g: Group, me: PeerId, target: PeerId, p: PeerId) {
    p != target && (p == me || (p in g.peers && p in g.infos))
  }

  function KnownInfo(g: Group, me: PeerId, p: PeerId): PeerInfo
    requires p == me || p in g.infos
  {
    if p == me then g.myInfo else g.infos[p]
  }

  /** The update holds p's info as it is, and acknowledging it will record p's version. */
  predicate Carries(u: Update, p: PeerId, info: PeerInfo) {
    exists i :: 0 <= i < |u.infos| && i < |u.versions| && u.infos[i] == info && u.versions[i] == IdVersion(p, Max(info.version, 1))
  }

  /** The target acknowledged this version of p, or a later one, less than a minute ago, and has not been forgotten since. */
  predicate RecentlySaved(g: Group, target: PeerId, p: PeerId, version: nat, now: nat) {
    && target in g.sessions && p in g.sessions[target].saved
    && g.sessions[target].saved[p].version >= Max(version, 1)
    && now < g.sessions[target].saved[p].touchedAtMs + SAVED_ROUTE_VERSION_TTL_MS
  }

  predicate Established(g: Group, target: PeerId) {
    target in g.sessions && g.sessions[target].dstSessionId.Some?
  }

  /**
   A forced update, or the first one of a session, carries every info there is; any other carries
   exactly those whose current version the target has not acknowledged within the last minute.
   */
  lemma CarriesIff(g: Group, me: PeerId, target: PeerId, serverSessionId: nat, forceFull: bool, now: nat, p: PeerId)
    requires Tellable(g, me, target, p)
    ensures Carries(BuiltUpdate(g, me, target, serverSessionId, forceFull, now), p, KnownInfo(g, me, p)) <==>
      forceFull || !Established(g, target) || !RecentlySaved(g, target, p, KnownInfo(g, me, p).version, now)
    ensures Mentions(BuiltUpdate(g, me, target, serverSessionId, forceFull, now), p) <==>
      Carries(BuiltUpdate(g, me, target, serverSessionId, forceFull, now), p, KnownInfo(g, me, p))
  {
    var u := BuiltUpdate(g, me, target, serverSessionId, forceFull, now);
    var g1 := RouteGroup.Opened(g, target, serverSessionId, now);
    var chosen := Selection(g1, me, target, forceFull, now);
    ChosenIff(g, me, target, serverSessionId, forceFull, now, p);
    if p in chosen {
      var i :| 0 <= i < |chosen| && chosen[i] == p;
      assert u.infos[i] == KnownInfo(g, me, p) && u.versions[i] == IdVersion(p, Max(KnownInfo(g, me, p).version, 1));
      assert u.versions[i] in u.versions;
    }
    if Mentions(u, p) {
      var x :| x in u.versions && x.peerId == p;
      var i :| 0 <= i < |u.versions| && u.versions[i] == x;
      assert chosen[i] == p;
    }
    if Carries(u, p, KnownInfo(g, me, p)) {
      var i :| 0 <= i < |u.infos| && i < |u.versions| && u.versions[i] == IdVersion(p, Max(KnownInfo(g, me, p).version, 1));
      assert u.versions[i] in u.versions;
    }
  }

  lemma ChosenIff(g: Group, me: PeerId, target: PeerId, serverSessionId: nat, forceFull: bool, now: nat, p: PeerId)
    requires Tellable(g, me, target, p)
    ensures p in Selection(RouteGroup.Opened(g, target, serverSessionId, now), me, target, forceFull, now) <==>
      forceFull || !Established(g, target) || !RecentlySaved(g, target, p, KnownInfo(g, me, p).version, now)
  {
    var g1 := RouteGroup.Opened(g, target, serverSessionId, now);
    var ids := Relevant(g1, me, target);
    SortedFacts(g1.peers + {me, target});
    ChosenMembers(g1, me, SessionOf(g1, target), target, Full(g1, target, forceFull), ids, now, p);
  }

  /** Nothing else is in an update: each of its entries is the info of one peer of the room other than the target, each at most once. */
  lemma CarriesOnlyThose(g: Group, me: PeerId, target: PeerId, serverSessionId: nat, forceFull: bool, now: nat)
    ensures var u := BuiltUpdate(g, me, target, serverSessionId, forceFull, now);
      && |u.infos| == |u.versions|
      && (forall i :: 0 <= i < |u.versions| ==>
            var p := u.versions[i].peerId;
            && p != target && (p == me || (p in g.peers && p in g.infos))
            && u.infos[i] == KnownInfo(g, me, p) && u.versions[i].version == Max(KnownInfo(g, me, p).version, 1))
      && (forall i, j :: 0 <= i < j < |u.versions| ==> u.versions[i].peerId < u.versions[j].peerId)
  {
    var g1 := RouteGroup.Opened(g, target, serverSessionId, now);
    var ids, s, full := Relevant(g1, me, target), SessionOf(g1, target), Full(g1, target, forceFull);
    SortedFacts(g1.peers + {me, target});
    ChosenIncreasing(g1, me, s, target, full, ids, now);
    var chosen := Selection(g1, me, target, forceFull, now);
    forall i | 0 <= i < |chosen|
      ensures chosen[i] != target && (chosen[i] == me || (chosen[i] in g.peers && chosen[i] in g.infos))
    {
      ChosenMembers(g1, me, s, target, full, ids, now, chosen[i]);
      assert chosen[i] in chosen;
    }
  }

  lemma {:induction false} ChosenIncreasing(g: Group, me: PeerId, s: Session, target: PeerId, full: bool, ids: seq<PeerId>, now: nat)
    requires Increasing(ids)
    ensures Increasing(Chosen(g, me, s, target, full, ids, now))
    ensures forall p :: p in Chosen(g, me, s, target, full, ids, now) ==> p in ids
  {
    if ids != [] {
      var front, p := ids[..|ids| - 1], ids[|ids| - 1];
      ChosenIncreasing(g, me, s, target, full, front, now);
      var earlier := Chosen(g, me, s, target, full, front, now);
      forall i | 0 <= i < |earlier| ensures earlier[i] < p {
        assert earlier[i] in earlier && earlier[i] in front;
      }
    }
  }

  // ----- Which connection info an update carries -----

  /** The target acknowledged the current topology version less than a minute ago. */
  predicate TopologyRecentlySaved(g: Group, target: PeerId, now: nat) {
    var s := SessionOf(g, target);
    s.lastTopologyVersion == g.topologyVersion && now < s.lastTopologyTouchMs + SAVED_ROUTE_VERSION_TTL_MS
  }

  /** Connection info is left out exactly when the target acknowledged it a short while ago, and is encoded as the target can read it. */
  lemma ConnCarriedIff(g: Group, me: PeerId, target: PeerId, serverSessionId: nat, forceFull: bool, now: nat)
    ensures var u := BuiltUpdate(g, me, target, serverSessionId, forceFull, now);
      && (u.conn.None? <==> TopologyRecentlySaved(g, target, now))
      && (u.conn.Some? ==>
            && u.topologyVersion == Some(g.topologyVersion)
            && (u.conn.value.sparse <==> target in g.infos && g.infos[target].supportsConnList))
  {
  }

  /** A cached bitmap is of no more peers than a bitmap may have. */
  ghost predicate BitmapFits(g: Group) {
    g.cachedBitmap.Some? ==> |g.cachedBitmap.value.ids| <= MAX_LEGACY_BITMAP_PEERS
  }

  lemma BuildKeepsBitmap(g: Group, me: PeerId, target: PeerId, serverSessionId: nat, now: nat)
    requires BitmapFits(g)
    ensures BitmapFits(Built(g, me, target, serverSessionId, now))
  {
  }

  lemma {:induction false} BitmapAlwaysFits(gs: seq<Group>, events: seq<Event>, me: PeerId, n: nat)
    requires IsRun(gs, events, me) && n <= |events| && BitmapFits(gs[0])
    ensures BitmapFits(gs[n])
  {
    if n > 0 {
      BitmapAlwaysFits(gs, events, me, n - 1);
      assert StepAt(gs, events, me, n - 1);
      var g, e := gs[n - 1], events[n - 1];
      match e
      case HandleSync(sender, sid, isInitiator, infos, now) => SyncRoom(g, me, sender, sid, isInitiator, infos, now);
      case Build(target, serverSessionId, _, now) => BuildKeepsBitmap(g, me, target, serverSessionId, now);
      case _ =>
    }
  }

  /**
   In every run an update cannot be built exactly when the target needs connection info, reads
   bitmaps only, and the room with the server has more than 8192 peers.
   */
  lemma BuildFailsIff(gs: seq<Group>, events: seq<Event>, me: PeerId, n: nat)
    requires IsRun(gs, events, me) && NoTopologyWrap(gs) && CacheSound(gs[0], me) && BitmapFits(gs[0]) && n < |events| && events[n].Build?
    ensures BuildFails(gs[n], me, events[n].target, events[n].serverSessionId, events[n].now) <==>
      && !TopologyRecentlySaved(gs[n], events[n].target, events[n].now)
      && !(events[n].target in gs[n].infos && gs[n].infos[events[n].target].supportsConnList)
      && |gs[n].peers + {me}| > 8_192
  {
    assert StepAt(gs, events, me, n);
    CacheAlwaysSound(gs, events, me, n);
    BitmapAlwaysFits(gs, events, me, n);
    assert gs[n].peers + {me, events[n].target} == gs[n].peers + {me};
  }

  /** The adjacency of a room lists its members and the server in order, each with its connection version. */
  lemma RoomIdsAre(g: Group, me: PeerId)
    ensures var ids := RoomIds(g, me);
      && (forall i, j :: 0 <= i < j < |ids| ==> ids[i].peerId < ids[j].peerId)
      && (forall p :: p in g.peers + {me} <==> exists i :: 0 <= i < |ids| && ids[i].peerId == p)
      && (forall i :: 0 <= i < |ids| ==> ids[i].version == if ids[i].peerId in g.connVersions then g.connVersions[ids[i].peerId] else 1)
  {
    var ids, room := RoomIds(g, me), Sorted(g.peers + {me});
    SortedFacts(g.peers + {me});
    forall p ensures p in g.peers + {me} <==> exists i :: 0 <= i < |ids| && ids[i].peerId == p {
      if p in g.peers + {me} {
        var i :| 0 <= i < |room| && room[i] == p;
        assert ids[i].peerId == p;
      }
    }
  }

  // ----- Acknowledgements are remembered -----

  lemma {:induction false} VersionsAreRemembered(saved: map<PeerId, SavedVersion>, versions: seq<IdVersion>, now: nat, p: PeerId)
    ensures var after := AllRemembered(saved, versions, now);
      && (p in saved ==> p in after && after[p].version >= saved[p].version && (after[p] == saved[p] || after[p].touchedAtMs == now))
      && (forall x :: x in versions && x.peerId == p ==> p in after && after[p].version >= x.version && after[p].touchedAtMs == now)
      && ((forall x :: x in versions ==> x.peerId != p) ==> (p in after <==> p in saved) && (p in saved ==> after[p] == saved[p]))
  {
    if versions != [] {
      var front, last := versions[..|versions| - 1], versions[|versions| - 1];
      VersionsAreRemembered(saved, front, now, p);
      assert versions == front + [last];
    }
  }

  /** Since event k the target's session has remembered p at least as of then. */
  ghost predicate SavedSince(gs: seq<Group>, target: PeerId, p: PeerId, v: nat, at: nat, n: nat)
    requires n < |gs|
  {
    && target in gs[n].sessions && p in gs[n].sessions[target].saved
    && gs[n].sessions[target].saved[p].version >= v && gs[n].sessions[target].saved[p].touchedAtMs >= at
  }

  /** No acknowledgement after event k is earlier than it. */
  ghost predicate AcksInOrder(events: seq<Event>, k: nat, n: nat)
    requires k < n <= |events| && events[k].Ack?
  {
    forall m {:trigger events[m]} :: k <= m < n && events[m].Ack? ==> events[k].now <= events[m].now
  }

  lemma AckSaves(gs: seq<Group>, events: seq<Event>, me: PeerId, k: nat, target: PeerId, p: PeerId, v: nat)
    requires IsRun(gs, events, me) && Carried(gs, events, me, k, target, p, v)
    ensures SavedSince(gs, target, p, v, events[k].now, k + 1)
  {
    AckStep(gs, events, me, k);
    var e := events[k];
    var s := Recognised(SessionOf(gs[k], e.target), e.sid, e.weAreInitiator, e.now);
    VersionsAreRemembered(s.saved, UpdateOf(gs, events, me, e.built).versions, e.now, p);
  }

  lemma KeptStaysSaved(gs: seq<Group>, events: seq<Event>, me: PeerId, k: nat, n: nat, target: PeerId, p: PeerId, v: nat)
    requires IsRun(gs, events, me) && k < n < |events| && events[k].Ack? && AcksInOrder(events, k, n + 1)
    requires SameSession(gs, events, target, k, n + 1) && Kept(gs, target, p, k, n + 1)
    requires SavedSince(gs, target, p, v, events[k].now, n)
    ensures SavedSince(gs, target, p, v, events[k].now, n + 1)
  {
    assert RememberedAt(gs, target, p, n + 1);
    assert gs[n].sessions[target].dstSessionId == gs[n + 1].sessions[target].dstSessionId;
    var e := events[n];
    if e.Ack? && e.target == target {
      AckStep(gs, events, me, n);
      var s := Recognised(SessionOf(gs[n], target), e.sid, e.weAreInitiator, e.now);
      VersionsAreRemembered(s.saved, UpdateOf(gs, events, me, e.built).versions, e.now, p);
      assert events[k].now <= events[n].now;
    } else {
      SessionStep(gs, events, me, n, target);
    }
  }

  lemma {:induction false} KeptIsSaved(gs: seq<Group>, events: seq<Event>, me: PeerId, k: nat, n: nat, target: PeerId, p: PeerId, v: nat)
    requires IsRun(gs, events, me) && k < n <= |events| && Carried(gs, events, me, k, target, p, v) && AcksInOrder(events, k, n)
    requires SameSession(gs, events, target, k, n) && Kept(gs, target, p, k, n)
    ensures SavedSince(gs, target, p, v, events[k].now, n)
    decreases n
  {
    if n == k + 1 {
      AckSaves(gs, events, me, k, target, p, v);
    } else {
      KeptIsSaved(gs, events, me, k, n - 1, target, p, v);
      KeptStaysSaved(gs, events, me, k, n - 1, target, p, v);
    }
  }

  /**
   The converse of delta-sync soundness: what the target has acknowledged at the current version,
   less than a minute ago, in the same session and not forgotten since, a later update leaves
   out, unless it is forced.
   */
  lemma AcknowledgedIsOmitted(gs: seq<Group>, events: seq<Event>, me: PeerId, k: nat, n: nat, p: PeerId, v: nat)
    requires IsRun(gs, events, me) && k < n < |events| && events[n].Build? && !events[n].forceFull
    requires Tellable(gs[n], me, events[n].target, p) && Max(KnownInfo(gs[n], me, p).version, 1) <= v
    requires Carried(gs, events, me, k, events[n].target, p, v) && AcksInOrder(events, k, n)
    requires SameSession(gs, events, events[n].target, k, n) && Kept(gs, events[n].target, p, k, n)
    requires events[n].now < events[k].now + SAVED_ROUTE_VERSION_TTL_MS
    ensures !Mentions(UpdateOf(gs, events, me, n), p)
  {
    var e, target := events[n], events[n].target;
    KeptIsSaved(gs, events, me, k, n, target, p, v);
    AckStep(gs, events, me, k);
    assert Established(gs[n], target);
    CarriesIff(gs[n], me, target, e.serverSessionId, e.forceFull, e.now, p);
  }

  // ----- Who is in the room -----

  /** The bindings after the first n events, told from the events alone. */
  function BindingsAfter(events: seq<Event>, n: nat): map<PeerId, Key32> {
    if n == 0 || n > |events| then map[]
    else
      var before := BindingsAfter(events, n - 1);
      match events[n - 1]
      case AddPeer(p, key) => if |key| == 32 && (p in before ==> before[p] == key) then before[p := key] else before
      case RemovePeer(p) => before - {p}
      case _ => before
  }

  lemma EventBinds(gs: seq<Group>, events: seq<Event>, me: PeerId, i: nat)
    requires IsRun(gs, events, me) && i < |events| && gs[i].keys == BindingsAfter(events, i) && gs[i].peers == BindingsAfter(events, i).Keys
    ensures gs[i + 1].keys == BindingsAfter(events, i + 1) && gs[i + 1].peers == BindingsAfter(events, i + 1).Keys
  {
    assert StepAt(gs, events, me, i);
    var g, e := gs[i], events[i];
    match e
    case HandleSync(sender, sid, isInitiator, infos, now) => SyncRoom(g, me, sender, sid, isInitiator, infos, now);
    case RemovePeer(p) => assert (g.keys - {p}).Keys == g.keys.Keys - {p};
    case AddPeer(p, key) => assert g.keys[p := key].Keys == g.keys.Keys + {p};
    case _ =>
  }

  /** In every run the room is exactly the peers added and not removed since, each under the key it was added with. */
  lemma {:induction false} RoomIsWhoWasAdded(gs: seq<Group>, events: seq<Event>, me: PeerId, n: nat)
    requires IsRun(gs, events, me) && gs[0].keys == map[] && gs[0].peers == {} && n <= |events|
    ensures gs[n].keys == BindingsAfter(events, n) && gs[n].peers == BindingsAfter(events, n).Keys
  {
    if n > 0 {
      RoomIsWhoWasAdded(gs, events, me, n - 1);
      EventBinds(gs, events, me, n - 1);
    }
  }

  /** Nothing remembers a removed peer. */
  lemma RemovedIsForgotten(g: Group, me: PeerId, p: PeerId)
    ensures var g' := PeerRemoved(g, me, p);
      && p !in g'.peers && p !in g'.infos && p !in g'.keys && p !in g'.sessions
      && g'.sessions.Keys == g.sessions.Keys - {p}
      && (forall q :: q in g'.sessions ==> g'.sessions[q] == g.sessions[q].(saved := g.sessions[q].saved - {p}, lastTopologyVersion := 0))
      && g'.peers == g.peers - {p} && g'.infos == g.infos - {p} && g'.keys == g.keys - {p}
  {
  }

  // ----- When versions move -----

  predicate Known(g: Group, p: PeerId) {
    p in g.peers || p in g.infos
  }

  /** A bump raises the connection version of every known peer, and of the server, by one, and the topology version with them. */
  lemma BumpRaises(g: Group, me: PeerId, p: PeerId)
    requires !Known(g, me)
    ensures var g' := Bumped(g, me);
      && (Known(g, p) || p == me ==> ConnVersion(g', p) == WrappingAdd(ConnVersion(g, p), 1, U32))
      && (!Known(g, p) && p != me ==> ConnVersion(g', p) == ConnVersion(g, p))
      && (g.topologyVersion + 1 < U64 ==> g'.topologyVersion == g.topologyVersion + 1)
      && g'.cachedBitmap.None? && g'.cachedList.None?
  {
  }

  /** An event moves the topology on exactly when it admits a new peer, removes a known one, or accepts the first info of one. */
  predicate MovesTopology(g: Group, e: Event) {
    match e
    case AddPeer(p, key) => |key| == 32 && (p in g.keys ==> g.keys[p] == key) && p !in g.peers
    case RemovePeer(p) => Known(g, p)
    case HandleSync(sender, _, _, infos, _) =>
      && sender !in g.infos && |ReadPart(infos, sender, KeyOf(g, sender))| == |infos|
      && exists x :: x in infos && x.peerId == sender
    case _ => false
  }

  lemma TopologyMovesIff(gs: seq<Group>, events: seq<Event>, me: PeerId, i: nat)
    requires IsRun(gs, events, me) && i < |events|
    ensures if MovesTopology(gs[i], events[i]) then gs[i + 1].topologyVersion == NextTopology(gs[i].topologyVersion)
            else gs[i + 1].topologyVersion == gs[i].topologyVersion
  {
    assert StepAt(gs, events, me, i);
    var g, e := gs[i], events[i];
    if e.HandleSync? {
      var start := Pass(SyncRecognised(g, e.sender, e.sid, e.isInitiator, e.now), false, false, false);
      ReadInfosSameRoom(start, e.infos, e.sender, e.now);
      RejectionKeepsReadPart(start, e.infos, e.sender, e.now);
      ReadChanges(start, e.infos, e.sender, e.now);
    }
  }

  // ----- What a message stores, and what it reports -----

  predicate HasOwn(infos: seq<PeerInfo>, sender: PeerId) {
    exists x :: x in infos && x.peerId == sender
  }

  /** The info is one of the message's own, stamped with the time it came. */
  predicate FromMessage(info: PeerInfo, infos: seq<PeerInfo>, sender: PeerId, now: nat) {
    exists x :: x in infos && x.peerId == sender && info == x.(lastUpdateSec := now / 1000)
  }

  predicate SameInfo(g: Group, g': Group, p: PeerId) {
    (p in g'.infos <==> p in g.infos) && (p in g.infos ==> g'.infos[p] == g.infos[p])
  }

  /** What a pass over a message does to the sender's info, and what it reports about it. */
  lemma {:induction false} ReadChanges(pass: Pass, infos: seq<PeerInfo>, sender: PeerId, now: nat)
    requires !pass.rejected && !pass.changed && !pass.grown
    ensures var part, after := ReadPart(infos, sender, KeyOf(pass.g, sender)), ReadInfos(pass, infos, sender, now);
      && (sender in after.g.infos <==> sender in pass.g.infos || HasOwn(part, sender))
      && (!after.changed ==> SameInfo(pass.g, after.g, sender))
      && (after.changed ==> sender in after.g.infos && FromMessage(after.g.infos[sender], part, sender, now))
      && (after.grown <==> sender !in pass.g.infos && HasOwn(part, sender))
      && (after.changed && !after.grown ==> sender in pass.g.infos)
      && (after.grown ==> after.changed)
  {
    if infos != [] {
      var front, x := infos[..|infos| - 1], infos[|infos| - 1];
      ReadChanges(pass, front, sender, now);
      RejectionKeepsReadPart(pass, front, sender, now);
      ReadInfosSameRoom(pass, front, sender, now);
      var before, mid := ReadPart(front, sender, KeyOf(pass.g, sender)), ReadInfos(pass, front, sender, now);
      PartGrows(infos, sender, KeyOf(pass.g, sender));
      OneMoreInfo(pass.g, mid, x, sender, now);
    }
  }

  lemma {:induction false} ReadPartIsPrefix(infos: seq<PeerInfo>, sender: PeerId, key: Option<Key32>)
    ensures var part := ReadPart(infos, sender, key); |part| <= |infos| && part == infos[..|part|]
  {
    if infos != [] {
      ReadPartIsPrefix(infos[..|infos| - 1], sender, key);
      var front := ReadPart(infos[..|infos| - 1], sender, key);
      assert infos[..|infos| - 1][..|front|] == infos[..|front|];
    }
  }

  lemma PartGrows(infos: seq<PeerInfo>, sender: PeerId, key: Option<Key32>)
    requires infos != []
    ensures var front, x := ReadPart(infos[..|infos| - 1], sender, key), infos[|infos| - 1];
      var part := ReadPart(infos, sender, key);
      && (part == front || (part == front + [x] && front == infos[..|infos| - 1] && (x.peerId == sender ==> key == Some(x.noiseKey))))
      && (part == front ==> |front| < |infos| - 1 || (x.peerId == sender && key != Some(x.noiseKey)))
  {
    var all := infos[..|infos| - 1];
    var front := ReadPart(all, sender, key);
    ReadPartIsPrefix(all, sender, key);
    LastApart(infos);
    if |front| == |all| {
      assert all[..|all|] == all;
      assert front == all;
    }
  }

  lemma LastApart<T>(s: seq<T>)
    requires s != []
    ensures s == s[..|s| - 1] + [s[|s| - 1]]
  {
  }

  lemma OneMoreInfo(g: Group, pass: Pass, x: PeerInfo, sender: PeerId, now: nat)
    requires sender in g.keys ==> sender in pass.g.keys && pass.g.keys[sender] == g.keys[sender]
    ensures var after := ReadInfo(pass, x, sender, now);
      && (pass.rejected || x.peerId != sender ==> after == pass)
      && (sender in pass.g.infos ==> sender in after.g.infos)
      && (after.g.infos == pass.g.infos || (x.peerId == sender && after.g.infos == pass.g.infos[sender := x.(lastUpdateSec := now / 1000)]))
  {
  }

  /** Within one instance a reported change has raised the version. */
  lemma {:induction false} ChangeRaises(pass: Pass, infos: seq<PeerInfo>, sender: PeerId, now: nat)
    requires !pass.rejected && !pass.changed && sender in pass.g.infos
    requires forall i :: 0 <= i < |infos| && infos[i].peerId == sender ==> infos[i].instId == pass.g.infos[sender].instId
    ensures var after := ReadInfos(pass, infos, sender, now);
      && sender in after.g.infos && after.g.infos[sender].instId == pass.g.infos[sender].instId
      && (if after.changed then after.g.infos[sender].version > pass.g.infos[sender].version else after.g.infos[sender] == pass.g.infos[sender])
  {
    if infos != [] {
      ChangeRaises(pass, infos[..|infos| - 1], sender, now);
    }
  }

  /** What handling a message reports: a change exactly when the sender's published info has changed, unless the message switches the instance. */
  lemma ReportedIffChanged(g: Group, me: PeerId, sender: PeerId, sid: nat, isInitiator: bool, infos: seq<PeerInfo>, now: nat)
    requires sender in g.infos ==> !Switches(infos, sender, g.infos[sender].instId)
    ensures var pass := ReadInfos(Pass(SyncRecognised(g, sender, sid, isInitiator, now), false, false, false), infos, sender, now);
            pass.changed <==> !SameInfo(g, SyncHandled(g, me, sender, sid, isInitiator, infos, now), sender)
  {
    var start := Pass(SyncRecognised(g, sender, sid, isInitiator, now), false, false, false);
    ReadChanges(start, infos, sender, now);
    if sender in g.infos {
      forall i | 0 <= i < |infos| && infos[i].peerId == sender ensures infos[i].instId == g.infos[sender].instId {
        assert infos[i] in infos;
      }
      ChangeRaises(start, infos, sender, now);
    }
  }

  /** The proviso is needed: a message that switches the instance and back again reports a change and may leave the info as it was. */
  lemma SwitchingBackReportsChange(g: Group, sender: PeerId, key: Key32)
    requires g.keys == map[sender := key]
    requires g.infos == map[sender := PeerInfo(sender, Some(1), 9, key, true, 0)]
    ensures var pass := ReadInfos(Pass(g, false, false, false),
                                  [PeerInfo(sender, Some(2), 1, key, true, 0), PeerInfo(sender, Some(1), 9, key, true, 0)], sender, 0);
            pass.changed && pass.g.infos == g.infos
  {
    var pass := Pass(g, false, false, false);
    var a, b := PeerInfo(sender, Some(2), 1, key, true, 0), PeerInfo(sender, Some(1), 9, key, true, 0);
    assert [a, b][..1] == [a] && [a][..0] == [];
    assert ReadInfos(pass, [a], sender, 0) == ReadInfo(pass, a, sender, 0);
  }
}
