/** Invariants of the routing state: cached topology, topology versions, and who may publish what. */
module RouteInvariants {
  import opened Common
  import opened Topology
  import opened RouteGroup
  import opened RouteRuns

  // ----- The topology cache -----

  /** The encoding every room member should get. */
  ghost function RoomIds(g: Group, me: PeerId): seq<IdVersion> {
    WithVersions(g, Sorted(g.peers + {me}))
  }

  ghost predicate CacheSound(g: Group, me: PeerId) {
    && (CacheHit(g.cachedList, g.topologyVersion).Some? ==> g.cachedList.value.ids == RoomIds(g, me))
    && (CacheHit(g.cachedBitmap, g.topologyVersion).Some? ==> g.cachedBitmap.value.ids == RoomIds(g, me))
  }

  lemma RoomTarget(g: Group, me: PeerId, target: PeerId)
    requires target in g.peers || target == me
    ensures FreshIds(g, me, target) == RoomIds(g, me)
  {
    assert g.peers + {me, target} == g.peers + {me};
  }

  /** A cache hit is what a fresh build would give, for every target in the room. */
  lemma CacheHitIsFresh(g: Group, me: PeerId, target: PeerId, sparse: bool)
    requires CacheSound(g, me) && (target in g.peers || target == me)
    ensures ConnIds(g, me, target, sparse) == FreshIds(g, me, target) == RoomIds(g, me)
  {
    RoomTarget(g, me, target);
  }

  lemma SameVersionsSameIds(g: Group, g': Group, me: PeerId)
    requires g'.peers == g.peers && forall p :: p in g.peers + {me} ==> ConnVersion(g', p) == ConnVersion(g, p)
    ensures RoomIds(g', me) == RoomIds(g, me)
  {
    var ids := Sorted(g.peers + {me});
    SortedFacts(g.peers + {me});
    forall i | 0 <= i < |ids|
      ensures ConnVersion(g', ids[i]) == ConnVersion(g, ids[i])
    {
      assert ids[i] in ids;
    }
  }

  /** An encoding filled in for a target outside the room lists one peer too many. */
  lemma OutsiderIds(g: Group, me: PeerId, target: PeerId)
    requires target !in g.peers && target != me
    ensures FreshIds(g, me, target) != RoomIds(g, me)
  {
    assert g.peers + {me, target} == g.peers + {me} + {target};
    assert |FreshIds(g, me, target)| == |RoomIds(g, me)| + 1;
  }

  /** Filling the cache for a target is right if and only if the target is in the room. */
  lemma FillKeepsCacheIff(g: Group, me: PeerId, target: PeerId)
    requires CacheSound(g, me) && CacheHit(CacheFor(g, Supports(g, target)), g.topologyVersion).None?
    ensures CacheSound(CacheFilled(g, me, target), me) <==> target in g.peers || target == me
  {
    assert RoomIds(CacheFilled(g, me, target), me) == RoomIds(g, me);
    if target in g.peers || target == me {
      RoomTarget(g, me, target);
    } else {
      OutsiderIds(g, me, target);
    }
  }

  lemma BuildKeepsCache(g: Group, me: PeerId, target: PeerId, serverSessionId: nat, now: nat)
    requires CacheSound(g, me) && target in g.peers
    ensures CacheSound(Built(g, me, target, serverSessionId, now), me)
  {
    var g1 := RouteGroup.Opened(g, target, serverSessionId, now);
    assert RoomIds(g1, me) == RoomIds(g, me);
    CacheHitIsFresh(g1, me, target, Supports(g1, target));
    assert RoomIds(Built(g, me, target, serverSessionId, now), me) == RoomIds(g1, me);
  }

  // ----- The pass over received infos touches neither the room nor the caches -----

  predicate SameRoom(g: Group, g': Group) {
    && g'.peers == g.peers && g'.keys == g.keys && g'.connVersions == g.connVersions
    && g'.topologyVersion == g.topologyVersion && g'.cachedList == g.cachedList && g'.cachedBitmap == g.cachedBitmap
    && g'.myInfo == g.myInfo
  }

  lemma {:induction false} ReadInfosSameRoom(pass: Pass, infos: seq<PeerInfo>, sender: PeerId, now: nat)
    ensures SameRoom(pass.g, ReadInfos(pass, infos, sender, now).g)
  {
    if infos != [] {
      ReadInfosSameRoom(pass, infos[..|infos| - 1], sender, now);
    }
  }

  /** What a handled sync does to room and caches: nothing, or a bump. */
  lemma SyncRoom(g: Group, me: PeerId, sender: PeerId, sid: nat, isInitiator: bool, infos: seq<PeerInfo>, now: nat)
    ensures var g' := SyncHandled(g, me, sender, sid, isInitiator, infos, now);
            SameRoom(g, g') || exists h :: SameRoom(g, h) && g' == Bumped(h, me)
  {
    var start := Pass(SyncRecognised(g, sender, sid, isInitiator, now), false, false, false);
    ReadInfosSameRoom(start, infos, sender, now);
    var pass := ReadInfos(start, infos, sender, now);
    assert SameRoom(g, pass.g);
  }

  // ----- A topology version identifies a topology -----

  /** The version moves forward, or room and connection versions are as they were. */
  ghost predicate TopologyMoves(g: Group, g': Group, me: PeerId) {
    || g.topologyVersion < g'.topologyVersion
    || (&& g'.topologyVersion == g.topologyVersion && g'.peers == g.peers
        && forall p :: p in g.peers + {me} ==> ConnVersion(g', p) == ConnVersion(g, p))
  }

  lemma BumpMoves(g: Group, me: PeerId)
    requires g.topologyVersion + 1 < U64
    ensures g.topologyVersion < Bumped(g, me).topologyVersion
    ensures CacheSound(Bumped(g, me), me)
  {
  }

  ghost predicate Advances(g: Group, g': Group, me: PeerId) {
    TopologyMoves(g, g', me) && (CacheSound(g, me) ==> CacheSound(g', me))
  }

  lemma SameRoomAdvances(g: Group, g': Group, me: PeerId)
    requires SameRoom(g, g')
    ensures Advances(g, g', me)
  {
  }

  lemma AddAdvances(g: Group, me: PeerId, p: PeerId, key: Key32)
    requires g.topologyVersion + 1 < U64
    ensures Advances(g, PeerAdded(g, me, p, key), me)
  {
    if !KeyConflict(g, p, key) {
      if p in g.peers {
        RebindAdvances(g, me, p, key);
      } else {
        BumpMoves(g.(keys := g.keys[p := key], peers := g.peers + {p}), me);
      }
    }
  }

  lemma RebindAdvances(g: Group, me: PeerId, p: PeerId, key: Key32)
    requires p in g.peers
    ensures Advances(g, g.(keys := g.keys[p := key], peers := g.peers + {p}), me)
  {
  }

  lemma DropKeepsRoom(g: Group, me: PeerId, p: PeerId)
    requires p != me && p !in g.peers
    ensures Advances(g, PeerDropped(g, p), me)
  {
    assert g.peers - {p} == g.peers;
    SameVersionsSameIds(g, PeerDropped(g, p), me);
  }

  lemma RemoveAdvances(g: Group, me: PeerId, p: PeerId)
    requires p != me && g.topologyVersion + 1 < U64
    ensures Advances(g, PeerRemoved(g, me, p), me)
  {
    if p in g.peers || p in g.infos {
      BumpMoves(PeerDropped(g, p), me);
    } else {
      DropKeepsRoom(g, me, p);
    }
  }

  lemma SyncAdvances(g: Group, me: PeerId, e: Event)
    requires e.HandleSync? && g.topologyVersion + 1 < U64
    ensures Advances(g, SyncHandled(g, me, e.sender, e.sid, e.isInitiator, e.infos, e.now), me)
  {
    var g' := SyncHandled(g, me, e.sender, e.sid, e.isInitiator, e.infos, e.now);
    SyncRoom(g, me, e.sender, e.sid, e.isInitiator, e.infos, e.now);
    if SameRoom(g, g') {
      SameRoomAdvances(g, g', me);
    } else {
      var h :| SameRoom(g, h) && g' == Bumped(h, me);
      BumpMoves(h, me);
    }
  }

  lemma BuildAdvances(g: Group, me: PeerId, e: Event)
    requires e.Build? && e.target in g.peers
    ensures Advances(g, Built(g, me, e.target, e.serverSessionId, e.now), me)
  {
    if CacheSound(g, me) {
      BuildKeepsCache(g, me, e.target, e.serverSessionId, e.now);
    }
  }

  /** Every event moves the topology version on or leaves the topology alone, and keeps the caches right. */
  lemma StepAdvances(gs: seq<Group>, events: seq<Event>, me: PeerId, i: nat)
    requires IsRun(gs, events, me) && i < |events| && gs[i].topologyVersion + 1 < U64
    ensures Advances(gs[i], gs[i + 1], me)
  {
    var g, g', e := gs[i], gs[i + 1], events[i];
    assert StepAt(gs, events, me, i);
    match e
    case AddPeer(p, key) => AddAdvances(g, me, p, key);
    case RemovePeer(p) => RemoveAdvances(g, me, p);
    case HandleSync(_, _, _, _, _) => SyncAdvances(g, me, e);
    case Build(_, _, _, _) => BuildAdvances(g, me, e);
    case Ack(_, _, _, _, _) => SameRoomAdvances(g, g', me);
    case SetMyInfo(_) => SameVersionsSameIds(g, g', me);
  }

  ghost predicate NoTopologyWrap(gs: seq<Group>) {
    forall i {:trigger gs[i]} :: 0 <= i < |gs| ==> 0 < gs[i].topologyVersion && gs[i].topologyVersion + 1 < U64
  }

  lemma {:induction false} CacheAlwaysSound(gs: seq<Group>, events: seq<Event>, me: PeerId, n: nat)
    requires IsRun(gs, events, me) && NoTopologyWrap(gs) && n <= |events| && CacheSound(gs[0], me)
    ensures CacheSound(gs[n], me)
  {
    if n > 0 {
      CacheAlwaysSound(gs, events, me, n - 1);
      StepAdvances(gs, events, me, n - 1);
    }
  }

  lemma {:induction false} VersionIdentifiesTopology(gs: seq<Group>, events: seq<Event>, me: PeerId, i: nat, j: nat)
    requires IsRun(gs, events, me) && NoTopologyWrap(gs) && i <= j <= |events|
    ensures TopologyMoves(gs[i], gs[j], me)
    decreases j
  {
    if i < j {
      VersionIdentifiesTopology(gs, events, me, i, j - 1);
      StepAdvances(gs, events, me, j - 1);
    }
  }

  /**
   Topology cache agreement and delta-sync soundness together: if an update carries connection
   info, it is the current adjacency of the room; if it carries none, the target acknowledged,
   in its current session, an update that carried exactly the current adjacency.
   */
  lemma TargetKnowsAdjacency(gs: seq<Group>, events: seq<Event>, me: PeerId, n: nat)
    requires IsRun(gs, events, me) && NoTopologyWrap(gs) && n < |events| && events[n].Build? && CacheSound(gs[0], me)
    ensures var u, target := UpdateOf(gs, events, me, n), events[n].target;
            if u.conn.Some? then u.conn.value.ids == RoomIds(gs[n], me)
            else exists k {:trigger events[k]} :: 0 <= k < n && AcknowledgesAdjacency(gs, events, me, k, target, RoomIds(gs[n], me))
                                                 && SameSession(gs, events, target, k, n)
  {
    BuiltConnIsRoom(gs, events, me, n);
    if UpdateOf(gs, events, me, n).conn.None? {
      OmittedConnWasAcknowledged(gs, events, me, n);
      var target := events[n].target;
      var k :| 0 <= k < n && CarriedConn(gs, events, me, k, target, gs[n].topologyVersion) && SameSession(gs, events, target, k, n);
      CarriedConnIsRoom(gs, events, me, k, n);
    }
  }

  lemma CarriedConnIsRoom(gs: seq<Group>, events: seq<Event>, me: PeerId, k: nat, n: nat)
    requires IsRun(gs, events, me) && NoTopologyWrap(gs) && CacheSound(gs[0], me) && k < n < |events|
    requires events[k].Ack? && CarriedConn(gs, events, me, k, events[k].target, gs[n].topologyVersion)
    ensures AcknowledgesAdjacency(gs, events, me, k, events[k].target, RoomIds(gs[n], me))
  {
    var b := events[k].built;
    BuiltConnIsRoom(gs, events, me, b);
    VersionIdentifiesTopology(gs, events, me, b, n);
    SameVersionsSameIds(gs[b], gs[n], me);
  }

  /** Event k acknowledges, for the target, an update whose connection info was `ids`. */
  ghost predicate AcknowledgesAdjacency(gs: seq<Group>, events: seq<Event>, me: PeerId, k: nat, target: PeerId, ids: seq<IdVersion>)
    requires IsRun(gs, events, me)
  {
    && k < |events| && events[k].Ack? && events[k].target == target && Enabled(gs, events, me, k)
    && UpdateOf(gs, events, me, events[k].built).conn.Some?
    && UpdateOf(gs, events, me, events[k].built).conn.value.ids == ids
  }

  lemma BuiltConnIsRoom(gs: seq<Group>, events: seq<Event>, me: PeerId, b: nat)
    requires IsRun(gs, events, me) && NoTopologyWrap(gs) && b < |events| && events[b].Build? && CacheSound(gs[0], me)
    ensures var u := UpdateOf(gs, events, me, b);
            && (u.conn.Some? <==> u.topologyVersion.Some?)
            && (u.conn.Some? ==> u.conn.value.ids == RoomIds(gs[b], me) && u.topologyVersion == Some(gs[b].topologyVersion))
  {
    var e := events[b];
    assert StepAt(gs, events, me, b);
    CacheAlwaysSound(gs, events, me, b);
    var g1 := RouteGroup.Opened(gs[b], e.target, e.serverSessionId, e.now);
    assert RoomIds(g1, me) == RoomIds(gs[b], me);
    CacheHitIsFresh(g1, me, e.target, Supports(g1, e.target));
  }

  // ----- Who may publish what -----

  /** Every published info belongs to a bound peer and carries that peer's authenticated key. */
  ghost predicate Identified(g: Group) {
    forall p :: p in g.infos ==> p in g.keys && g.infos[p].noiseKey == g.keys[p] && g.infos[p].peerId == p
  }

  /** Only the sender's own entry differs. */
  predicate OthersUntouched(g: Group, g': Group, sender: PeerId) {
    g'.infos - {sender} == g.infos - {sender}
  }

  lemma {:induction false} ReadInfosIdentified(pass: Pass, infos: seq<PeerInfo>, sender: PeerId, now: nat)
    ensures var g' := ReadInfos(pass, infos, sender, now).g;
            (Identified(pass.g) ==> Identified(g')) && OthersUntouched(pass.g, g', sender)
  {
    if infos != [] {
      var front := ReadInfos(pass, infos[..|infos| - 1], sender, now);
      ReadInfosIdentified(pass, infos[..|infos| - 1], sender, now);
      ReadInfoIdentified(front, infos[|infos| - 1], sender, now);
    }
  }

  lemma ReadInfoIdentified(pass: Pass, info: PeerInfo, sender: PeerId, now: nat)
    ensures var g' := ReadInfo(pass, info, sender, now).g;
            (Identified(pass.g) ==> Identified(g')) && OthersUntouched(pass.g, g', sender)
  {
  }

  lemma AddIdentified(g: Group, me: PeerId, p: PeerId, key: Key32)
    ensures (Identified(g) ==> Identified(PeerAdded(g, me, p, key))) && PeerAdded(g, me, p, key).infos == g.infos
  {
  }

  /**
   In every run each published info carries the key its peer was authenticated with, and an
   event changes no info but the sender's own (or drops that of a removed peer).
   */
  lemma IdentityStep(gs: seq<Group>, events: seq<Event>, me: PeerId, i: nat)
    requires IsRun(gs, events, me) && i < |events|
    ensures Identified(gs[i]) ==> Identified(gs[i + 1])
    ensures forall p :: p in gs[i].infos.Keys + gs[i + 1].infos.Keys && !WritesOrRemoves(events[i], p) ==>
      p in gs[i].infos && p in gs[i + 1].infos && gs[i + 1].infos[p] == gs[i].infos[p]
  {
    assert StepAt(gs, events, me, i);
    var g, e := gs[i], events[i];
    if e.HandleSync? {
      SyncIdentified(g, me, e);
    } else if e.AddPeer? {
      AddIdentified(g, me, e.p, e.key);
    }
  }

  lemma SyncIdentified(g: Group, me: PeerId, e: Event)
    requires e.HandleSync?
    ensures var g' := SyncHandled(g, me, e.sender, e.sid, e.isInitiator, e.infos, e.now);
            (Identified(g) ==> Identified(g')) && OthersUntouched(g, g', e.sender)
    ensures forall p :: p != e.sender ==>
      var g' := SyncHandled(g, me, e.sender, e.sid, e.isInitiator, e.infos, e.now);
      (p in g'.infos <==> p in g.infos) && (p in g.infos ==> g'.infos[p] == g.infos[p])
  {
    var start := Pass(SyncRecognised(g, e.sender, e.sid, e.isInitiator, e.now), false, false, false);
    ReadInfosIdentified(start, e.infos, e.sender, e.now);
    OthersSame(g, SyncHandled(g, me, e.sender, e.sid, e.isInitiator, e.infos, e.now), e.sender);
  }

  lemma OthersSame(g: Group, g': Group, sender: PeerId)
    requires OthersUntouched(g, g', sender)
    ensures forall p :: p != sender ==> (p in g'.infos <==> p in g.infos) && (p in g.infos ==> g'.infos[p] == g.infos[p])
  {
    forall p | p != sender
      ensures (p in g'.infos <==> p in g.infos) && (p in g.infos ==> g'.infos[p] == g.infos[p])
    {
      assert p in g'.infos - {sender} <==> p in g.infos - {sender};
    }
  }

  predicate WritesOrRemoves(e: Event, p: PeerId) {
    (e.HandleSync? && e.sender == p) || (e.RemovePeer? && e.p == p)
  }

  lemma {:induction false} AlwaysIdentified(gs: seq<Group>, events: seq<Event>, me: PeerId, n: nat)
    requires IsRun(gs, events, me) && n <= |events| && Identified(gs[0])
    ensures Identified(gs[n])
  {
    if n > 0 {
      AlwaysIdentified(gs, events, me, n - 1);
      IdentityStep(gs, events, me, n - 1);
    }
  }

  // ----- Versions of one peer's info -----

  /** While the instance id stays, the version of a published info only grows. */
  predicate NotBehind(before: PeerInfo, after: PeerInfo) {
    after.instId == before.instId && (after == before || after.version > before.version)
  }

  /** A message whose own infos all come from the stored instance never lowers the published version. */
  lemma {:induction false} SameInstanceMovesForward(pass: Pass, infos: seq<PeerInfo>, sender: PeerId, now: nat)
    requires sender in pass.g.infos
    requires forall i :: 0 <= i < |infos| && infos[i].peerId == sender ==> infos[i].instId == pass.g.infos[sender].instId
    ensures var g' := ReadInfos(pass, infos, sender, now).g;
            sender in g'.infos && NotBehind(pass.g.infos[sender], g'.infos[sender])
  {
    if infos != [] {
      SameInstanceMovesForward(pass, infos[..|infos| - 1], sender, now);
    }
  }

  /** The part of a message that is read: what comes before the sender's first info with a key that is not its own. */
  function ReadPart(infos: seq<PeerInfo>, sender: PeerId, key: Option<Key32>): seq<PeerInfo> {
    if infos == [] then []
    else
      var front, x := ReadPart(infos[..|infos| - 1], sender, key), infos[|infos| - 1];
      if |front| < |infos| - 1 || (x.peerId == sender && key != Some(x.noiseKey)) then front else infos
  }

  function KeyOf(g: Group, p: PeerId): Option<Key32> {
    if p in g.keys then Some(g.keys[p]) else None
  }

  /** A rejected message does what its read part does. */
  lemma {:induction false} RejectionKeepsReadPart(pass: Pass, infos: seq<PeerInfo>, sender: PeerId, now: nat)
    requires !pass.rejected
    ensures var part, all := ReadPart(infos, sender, KeyOf(pass.g, sender)), ReadInfos(pass, infos, sender, now);
            && |part| <= |infos| && part == infos[..|part|]
            && all.g == ReadInfos(pass, part, sender, now).g
            && (all.rejected <==> |part| < |infos|)
            && !ReadInfos(pass, part, sender, now).rejected
  {
    if infos != [] {
      var front := infos[..|infos| - 1];
      RejectionKeepsReadPart(pass, front, sender, now);
      ReadInfosSameRoom(pass, front, sender, now);
      var part := ReadPart(front, sender, KeyOf(pass.g, sender));
      assert front[..|part|] == infos[..|part|];
    }
  }

  /** The message holds an info of the sender from another instance. */
  predicate Switches(infos: seq<PeerInfo>, sender: PeerId, inst: Option<nat>) {
    exists x :: x in infos && x.peerId == sender && x.instId != inst
  }

  /** The highest version the sender gives after its last info from another instance. */
  function LastVersion(infos: seq<PeerInfo>, sender: PeerId, inst: Option<nat>): Option<nat> {
    if infos == [] then None
    else
      var front, x := LastVersion(infos[..|infos| - 1], sender, inst), infos[|infos| - 1];
      if x.peerId != sender then front
      else if x.instId != inst then None
      else Some(if front.Some? then Max(front.value, x.version) else x.version)
  }

  /** What a message that is read to its end makes of the sender's info, told from the message alone. */
  lemma {:induction false} VersionAfterMessage(pass: Pass, infos: seq<PeerInfo>, sender: PeerId, now: nat)
    requires sender in pass.g.infos && !ReadInfos(pass, infos, sender, now).rejected
    ensures var before, g' := pass.g.infos[sender], ReadInfos(pass, infos, sender, now).g;
            var last := LastVersion(infos, sender, before.instId);
            && sender in g'.infos
            && (g'.infos[sender].instId == before.instId <==> !Switches(infos, sender, before.instId) || last.Some?)
            && (!Switches(infos, sender, before.instId) ==>
                 g'.infos[sender].version == if last.Some? then Max(before.version, last.value) else before.version)
            && (Switches(infos, sender, before.instId) && last.Some? ==> g'.infos[sender].version == last.value)
  {
    if infos != [] {
      var front, x := infos[..|infos| - 1], infos[|infos| - 1];
      VersionAfterMessage(pass, front, sender, now);
      assert infos == front + [x];
      var inst := pass.g.infos[sender].instId;
      assert Switches(infos, sender, inst) <==> Switches(front, sender, inst) || (x.peerId == sender && x.instId != inst);
    }
  }

  /**
   Handling a peer's message, accepted or rejected, takes its published version back exactly
   when the part of the message that is read switches to another instance and back again, and
   what it then gives for the first instance stays below the stored version.
   */
  lemma VersionGoesBackIff(g: Group, me: PeerId, sender: PeerId, sid: nat, isInitiator: bool, infos: seq<PeerInfo>, now: nat)
    requires sender in g.infos
    ensures var before, g' := g.infos[sender], SyncHandled(g, me, sender, sid, isInitiator, infos, now);
            var part := ReadPart(infos, sender, KeyOf(g, sender));
            var last := LastVersion(part, sender, before.instId);
            && sender in g'.infos
            && (g'.infos[sender].instId == before.instId && g'.infos[sender].version < before.version
                <==> Switches(part, sender, before.instId) && last.Some? && last.value < before.version)
  {
    var start := Pass(SyncRecognised(g, sender, sid, isInitiator, now), false, false, false);
    RejectionKeepsReadPart(start, infos, sender, now);
    VersionAfterMessage(start, ReadPart(infos, sender, KeyOf(g, sender)), sender, now);
  }

  /** A rejected message can do it too: what follows the wrong key is not read any more. */
  lemma RejectedMessageCanGoBack(g: Group, me: PeerId, sender: PeerId, key: Key32, wrong: Key32)
    requires g.keys == map[sender := key] && wrong != key
    requires g.infos == map[sender := PeerInfo(sender, Some(1), 9, key, true, 0)]
    ensures var infos := [PeerInfo(sender, Some(2), 1, key, true, 0), PeerInfo(sender, Some(1), 3, key, true, 0),
                          PeerInfo(sender, Some(1), 20, wrong, true, 0)];
            var g' := SyncHandled(g, me, sender, 7, true, infos, 0);
            && ReadInfos(Pass(SyncRecognised(g, sender, 7, true, 0), false, false, false), infos, sender, 0).rejected
            && sender in g'.infos && g'.infos[sender].instId == Some(1) && g'.infos[sender].version == 3
  {
    var a, b, c := PeerInfo(sender, Some(2), 1, key, true, 0), PeerInfo(sender, Some(1), 3, key, true, 0), PeerInfo(sender, Some(1), 20, wrong, true, 0);
    var pass := Pass(SyncRecognised(g, sender, 7, true, 0), false, false, false);
    assert [a, b, c][..2] == [a, b] && [a, b][..1] == [a] && [a][..0] == [];
    assert ReadInfos(pass, [a], sender, 0) == ReadInfo(pass, a, sender, 0);
    assert ReadInfos(pass, [a, b], sender, 0) == ReadInfo(ReadInfo(pass, a, sender, 0), b, sender, 0);
  }

  /** The proviso is needed: two instance changes in one message can bring back the instance at a lower version. */
  lemma OneMessageCanGoBack(g: Group, sender: PeerId, key: Key32)
    requires g.keys == map[sender := key]
    requires g.infos == map[sender := PeerInfo(sender, Some(1), 9, key, true, 0)]
    ensures var pass := Pass(g, false, false, false);
            var g' := ReadInfos(pass, [PeerInfo(sender, Some(2), 1, key, true, 0), PeerInfo(sender, Some(1), 3, key, true, 0)], sender, 0).g;
            sender in g'.infos && g'.infos[sender].instId == g.infos[sender].instId && g'.infos[sender].version == 3 < g.infos[sender].version
  {
    var pass := Pass(g, false, false, false);
    var a, b := PeerInfo(sender, Some(2), 1, key, true, 0), PeerInfo(sender, Some(1), 3, key, true, 0);
    assert [a, b][..1] == [a] && [a][..0] == [];
    assert ReadInfos(pass, [a], sender, 0) == ReadInfo(pass, a, sender, 0);
  }

  // ----- One peer's info over a run -----

  /** The event neither removes p nor brings an info of p from another instance. */
  predicate KeepsInstance(e: Event, p: PeerId, inst: Option<nat>) {
    match e
    case RemovePeer(q) => q != p
    case HandleSync(sender, _, _, infos, _) => sender == p ==> !Switches(infos, p, inst)
    case _ => true
  }

  lemma EventMovesForward(gs: seq<Group>, events: seq<Event>, me: PeerId, i: nat, p: PeerId)
    requires IsRun(gs, events, me) && i < |events| && p in gs[i].infos
    requires KeepsInstance(events[i], p, gs[i].infos[p].instId)
    ensures p in gs[i + 1].infos && NotBehind(gs[i].infos[p], gs[i + 1].infos[p])
  {
    assert StepAt(gs, events, me, i);
    var g, e := gs[i], events[i];
    if e.HandleSync? && e.sender == p {
      var start := Pass(SyncRecognised(g, p, e.sid, e.isInitiator, e.now), false, false, false);
      forall k | 0 <= k < |e.infos| && e.infos[k].peerId == p ensures e.infos[k].instId == g.infos[p].instId {
        assert e.infos[k] in e.infos;
      }
      SameInstanceMovesForward(start, e.infos, p, e.now);
    } else {
      assert !WritesOrRemoves(e, p);
      IdentityStep(gs, events, me, i);
      assert p in g.infos.Keys + gs[i + 1].infos.Keys;
    }
  }

  /**
   Over a run: while a peer stays present and publishes for one instance only, its info is as it
   was or has a higher version, whatever everybody else does.
   */
  lemma {:induction false} VersionMovesForward(gs: seq<Group>, events: seq<Event>, me: PeerId, i: nat, j: nat, p: PeerId)
    requires IsRun(gs, events, me) && i <= j <= |events| && p in gs[i].infos
    requires forall k {:trigger events[k]} :: i <= k < j ==> KeepsInstance(events[k], p, gs[i].infos[p].instId)
    ensures p in gs[j].infos && NotBehind(gs[i].infos[p], gs[j].infos[p])
    decreases j
  {
    if i < j {
      VersionMovesForward(gs, events, me, i, j - 1, p);
      EventMovesForward(gs, events, me, j - 1, p);
    }
  }
}
