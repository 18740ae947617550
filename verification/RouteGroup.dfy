/**
 One network's routing state, as a value: known peers, what each has published, and what
 each has acknowledged.  `RouteState` performs these steps in place.
 */
module RouteGroup {
  import opened Common
  import opened Topology

  const SAVED_ROUTE_VERSION_TTL_MS: nat := 60_000

  datatype PeerInfo = PeerInfo(
    peerId: PeerId,
    instId: Option<nat>,
    version: u32,
    noiseKey: Key32,
    supportsConnList: bool,
    lastUpdateSec: nat)

  datatype SavedVersion = SavedVersion(version: u32, touchedAtMs: nat)

  datatype Session = Session(
    mySessionId: Option<nat>,
    dstSessionId: Option<nat>,
    weAreInitiator: bool,
    saved: map<PeerId, SavedVersion>,
    lastTouchMs: nat,
    lastTopologyVersion: nat,
    lastTopologyTouchMs: nat)

  const NEW_SESSION := Session(None, None, false, map[], 0, 0, 0)

  /** A cached encoding: the topology version it was built at, and its peers with their versions. */
  datatype Cached = Cached(version: nat, ids: seq<IdVersion>)

  datatype Group = Group(
    peers: set<PeerId>,
    infos: map<PeerId, PeerInfo>,
    keys: map<PeerId, Key32>,
    sessions: map<PeerId, Session>,
    connVersions: map<PeerId, u32>,
    topologyVersion: nat,
    cachedBitmap: Option<Cached>,
    cachedList: Option<Cached>,
    myInfo: PeerInfo)

  function Next32(v: u32): u32 {
    WrappingAdd(v, 1, U32)
  }

  // ----- Topology versions -----

  function ConnVersion(g: Group, p: PeerId): u32 {
    if p in g.connVersions then g.connVersions[p] else 1
  }

  function BumpedVersion(g: Group, me: PeerId, p: PeerId): u32 {
    var known := p in g.peers || p in g.infos;
    var v := if known then Next32(ConnVersion(g, p)) else ConnVersion(g, p);
    if p == me then Next32(v) else v
  }

  function NextTopology(v: nat): nat {
    Max(WrappingAdd(v, 1, U64), 1)
  }

  /** Every peer's connection version moves, and so does the version of the whole topology. */
  function Bumped(g: Group, me: PeerId): Group {
    g.(connVersions := map p | p in g.connVersions.Keys + g.peers + g.infos.Keys + {me} :: BumpedVersion(g, me, p),
       topologyVersion := NextTopology(g.topologyVersion),
       cachedBitmap := None,
       cachedList := None)
  }

  // ----- Joining and leaving -----

  /** A key of the wrong length, or a peer bound to another key. */
  predicate KeyConflict(g: Group, p: PeerId, key: Key32) {
    |key| != 32 || (p in g.keys && g.keys[p] != key)
  }

  function PeerAdded(g: Group, me: PeerId, p: PeerId, key: Key32): Group {
    if KeyConflict(g, p, key) then g
    else
      var g1 := g.(keys := g.keys[p := key], peers := g.peers + {p});
      if p in g.peers then g1 else Bumped(g1, me)
  }

  function Forgotten(s: Session, p: PeerId): Session {
    s.(saved := s.saved - {p}, lastTopologyVersion := 0)
  }

  function PeerDropped(g: Group, p: PeerId): Group {
    g.(peers := g.peers - {p},
       infos := g.infos - {p},
       keys := g.keys - {p},
       sessions := map q | q in g.sessions && q != p :: Forgotten(g.sessions[q], p),
       connVersions := g.connVersions - {p})
  }

  function PeerRemoved(g: Group, me: PeerId, p: PeerId): Group {
    if p in g.peers || p in g.infos then Bumped(PeerDropped(g, p), me) else PeerDropped(g, p)
  }

  // ----- Acknowledgements -----

  function SessionOf(g: Group, p: PeerId): Session {
    if p in g.sessions then g.sessions[p] else NEW_SESSION
  }

  /** The peer speaks under session id `sid`; a new id forgets everything acknowledged before. */
  function Recognised(s: Session, sid: nat, weAreInitiator: bool, now: nat): Session {
    var s1 := if s.dstSessionId != Some(sid) then s.(saved := map[], lastTopologyVersion := 0) else s;
    s1.(dstSessionId := Some(sid), weAreInitiator := weAreInitiator, lastTouchMs := now)
  }

  function Remembered(saved: map<PeerId, SavedVersion>, v: IdVersion, now: nat): map<PeerId, SavedVersion> {
    var version := if v.peerId in saved then Max(saved[v.peerId].version, v.version) else v.version;
    saved[v.peerId := SavedVersion(version, now)]
  }

  function AllRemembered(saved: map<PeerId, SavedVersion>, versions: seq<IdVersion>, now: nat): map<PeerId, SavedVersion> {
    if versions == [] then saved
    else Remembered(AllRemembered(saved, versions[..|versions| - 1], now), versions[|versions| - 1], now)
  }

  function Confirmed(s: Session, versions: seq<IdVersion>, topology: Option<nat>, now: nat): Session {
    var s1 := s.(saved := AllRemembered(s.saved, versions, now), lastTouchMs := now);
    if topology.Some? then s1.(lastTopologyVersion := Max(s.lastTopologyVersion, topology.value), lastTopologyTouchMs := now)
    else s1
  }

  /** A positive reply to an update: the session id is noted, then the update's versions. */
  function Acknowledged(g: Group, p: PeerId, sid: nat, weAreInitiator: bool, versions: seq<IdVersion>, topology: Option<nat>, now: nat): Group {
    g.(sessions := g.sessions[p := Confirmed(Recognised(SessionOf(g, p), sid, weAreInitiator, now), versions, topology, now)])
  }

  // ----- A peer's own update -----

  /** The state of the pass over the received infos; a rejected info stops it half way. */
  datatype Pass = Pass(g: Group, changed: bool, grown: bool, rejected: bool)

  predicate InstanceChanged(g: Group, info: PeerInfo) {
    info.peerId in g.infos && g.infos[info.peerId].instId != info.instId
  }

  predicate Newer(g: Group, info: PeerInfo) {
    InstanceChanged(g, info) || info.peerId !in g.infos || info.version > g.infos[info.peerId].version
  }

  function Published(g: Group, info: PeerInfo, now: nat): Group {
    var sessions := if InstanceChanged(g, info)
                    then map q | q in g.sessions :: g.sessions[q].(saved := g.sessions[q].saved - {info.peerId})
                    else g.sessions;
    g.(sessions := sessions, infos := g.infos[info.peerId := info.(lastUpdateSec := now / 1000)])
  }

  function ReadInfo(pass: Pass, info: PeerInfo, sender: PeerId, now: nat): Pass {
    if pass.rejected || info.peerId != sender then pass
    else if sender !in pass.g.keys || info.noiseKey != pass.g.keys[sender] then pass.(rejected := true)
    else if !Newer(pass.g, info) then pass
    else Pass(Published(pass.g, info, now), true, pass.grown || info.peerId !in pass.g.infos, false)
  }

  function ReadInfos(pass: Pass, infos: seq<PeerInfo>, sender: PeerId, now: nat): Pass {
    if infos == [] then pass
    else ReadInfo(ReadInfos(pass, infos[..|infos| - 1], sender, now), infos[|infos| - 1], sender, now)
  }

  function SyncRecognised(g: Group, sender: PeerId, sid: nat, isInitiator: bool, now: nat): Group {
    g.(sessions := g.sessions[sender := Recognised(SessionOf(g, sender), sid, !isInitiator, now)])
  }

  function SyncHandled(g: Group, me: PeerId, sender: PeerId, sid: nat, isInitiator: bool, infos: seq<PeerInfo>, now: nat): Group {
    var pass := ReadInfos(Pass(SyncRecognised(g, sender, sid, isInitiator, now), false, false, false), infos, sender, now);
    if pass.grown && !pass.rejected then Bumped(pass.g, me) else pass.g
  }

  // ----- Building an update for one peer -----

  datatype Conn = Conn(sparse: bool, ids: seq<IdVersion>)

  datatype Update = Update(infos: seq<PeerInfo>, versions: seq<IdVersion>, conn: Option<Conn>, topologyVersion: Option<nat>)

  function InfoOf(g: Group, me: PeerId, p: PeerId): Option<PeerInfo> {
    if p == me then Some(g.myInfo) else if p in g.infos then Some(g.infos[p]) else None
  }

  /** The version recorded for p, unless it is missing or older than the time to live. */
  function SavedOf(s: Session, p: PeerId, now: nat): nat {
    if p in s.saved && SaturatingSub(now, s.saved[p].touchedAtMs) < SAVED_ROUTE_VERSION_TTL_MS then s.saved[p].version else 0
  }

  predicate Included(g: Group, me: PeerId, s: Session, target: PeerId, full: bool, p: PeerId, now: nat) {
    && p != target && InfoOf(g, me, p).Some?
    && (full || Max(InfoOf(g, me, p).value.version, 1) > SavedOf(s, p, now))
  }

  function Chosen(g: Group, me: PeerId, s: Session, target: PeerId, full: bool, ids: seq<PeerId>, now: nat): seq<PeerId> {
    if ids == [] then []
    else
      var p := ids[|ids| - 1];
      Chosen(g, me, s, target, full, ids[..|ids| - 1], now) + (if Included(g, me, s, target, full, p, now) then [p] else [])
  }

  function ChosenInfos(g: Group, me: PeerId, chosen: seq<PeerId>): seq<PeerInfo>
    requires forall p :: p in chosen ==> InfoOf(g, me, p).Some?
  {
    seq(|chosen|, i requires 0 <= i < |chosen| => InfoOf(g, me, chosen[i]).value)
  }

  function ChosenVersions(g: Group, me: PeerId, chosen: seq<PeerId>): seq<IdVersion>
    requires forall p :: p in chosen ==> InfoOf(g, me, p).Some?
  {
    seq(|chosen|, i requires 0 <= i < |chosen| => IdVersion(chosen[i], Max(InfoOf(g, me, chosen[i]).value.version, 1)))
  }

  lemma {:induction false} ChosenMembers(g: Group, me: PeerId, s: Session, target: PeerId, full: bool, ids: seq<PeerId>, now: nat, p: PeerId)
    ensures p in Chosen(g, me, s, target, full, ids, now) <==> p in ids && Included(g, me, s, target, full, p, now)
  {
    if ids != [] {
      ChosenMembers(g, me, s, target, full, ids[..|ids| - 1], now, p);
      assert ids == ids[..|ids| - 1] + [ids[|ids| - 1]];
    }
  }

  ghost function Relevant(g: Group, me: PeerId, target: PeerId): seq<PeerId> {
    Sorted(g.peers + {me, target})
  }

  function WithVersions(g: Group, ids: seq<PeerId>): seq<IdVersion> {
    seq(|ids|, i requires 0 <= i < |ids| => IdVersion(ids[i], ConnVersion(g, ids[i])))
  }

  predicate TopologyKnown(g: Group, s: Session, now: nat) {
    && s.lastTopologyVersion == g.topologyVersion
    && SaturatingSub(now, s.lastTopologyTouchMs) < SAVED_ROUTE_VERSION_TTL_MS
  }

  predicate Supports(g: Group, target: PeerId) {
    target in g.infos && g.infos[target].supportsConnList
  }

  function CacheHit(cache: Option<Cached>, version: nat): Option<seq<IdVersion>> {
    if cache.Some? && cache.value.version == version then Some(cache.value.ids) else None
  }

  function CacheFor(g: Group, sparse: bool): Option<Cached> {
    if sparse then g.cachedList else g.cachedBitmap
  }

  /** A fresh encoding, as if there were no cache. */
  ghost function FreshIds(g: Group, me: PeerId, target: PeerId): seq<IdVersion> {
    WithVersions(g, Relevant(g, me, target))
  }

  ghost function ConnIds(g: Group, me: PeerId, target: PeerId, sparse: bool): seq<IdVersion> {
    var hit := CacheHit(CacheFor(g, sparse), g.topologyVersion);
    if hit.Some? then hit.value else FreshIds(g, me, target)
  }

  ghost predicate TooManyForBitmap(g: Group, me: PeerId, target: PeerId, sparse: bool) {
    && !sparse && CacheHit(g.cachedBitmap, g.topologyVersion).None?
    && |Relevant(g, me, target)| > MAX_LEGACY_BITMAP_PEERS
  }

  function Opened(g: Group, target: PeerId, serverSessionId: nat, now: nat): Group {
    g.(sessions := g.sessions[target := SessionOf(g, target).(mySessionId := Some(serverSessionId), lastTouchMs := now)])
  }

  ghost function ConnFor(g: Group, me: PeerId, target: PeerId, now: nat): Option<Conn> {
    if TopologyKnown(g, SessionOf(g, target), now) then None
    else Some(Conn(Supports(g, target), ConnIds(g, me, target, Supports(g, target))))
  }

  ghost function CacheFilled(g: Group, me: PeerId, target: PeerId): Group {
    var sparse := Supports(g, target);
    var cached := Some(Cached(g.topologyVersion, ConnIds(g, me, target, sparse)));
    if sparse then g.(cachedList := cached) else g.(cachedBitmap := cached)
  }

  predicate Full(g: Group, target: PeerId, forceFull: bool) {
    forceFull || SessionOf(g, target).dstSessionId.None?
  }

  ghost function Selection(g: Group, me: PeerId, target: PeerId, forceFull: bool, now: nat): (r: seq<PeerId>)
    ensures forall p :: p in r ==> InfoOf(g, me, p).Some?
  {
    var s, full, ids := SessionOf(g, target), Full(g, target, forceFull), Relevant(g, me, target);
    var r := Chosen(g, me, s, target, full, ids, now);
    assert forall p :: p in r ==> InfoOf(g, me, p).Some? by {
      forall p | p in r
        ensures InfoOf(g, me, p).Some?
      {
        ChosenMembers(g, me, s, target, full, ids, now, p);
      }
    }
    r
  }

  ghost predicate BuildFails(g: Group, me: PeerId, target: PeerId, serverSessionId: nat, now: nat) {
    var g1 := Opened(g, target, serverSessionId, now);
    !TopologyKnown(g1, SessionOf(g1, target), now) && TooManyForBitmap(g1, me, target, Supports(g1, target))
  }

  ghost function BuiltUpdate(g: Group, me: PeerId, target: PeerId, serverSessionId: nat, forceFull: bool, now: nat): Update {
    var g1 := Opened(g, target, serverSessionId, now);
    var chosen, conn := Selection(g1, me, target, forceFull, now), ConnFor(g1, me, target, now);
    Update(ChosenInfos(g1, me, chosen), ChosenVersions(g1, me, chosen), conn,
           if conn.Some? then Some(g1.topologyVersion) else None)
  }

  ghost function Built(g: Group, me: PeerId, target: PeerId, serverSessionId: nat, now: nat): Group {
    var g1 := Opened(g, target, serverSessionId, now);
    if TopologyKnown(g1, SessionOf(g1, target), now) || BuildFails(g, me, target, serverSessionId, now) then g1
    else CacheFilled(g1, me, target)
  }
}
