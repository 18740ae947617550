/** The routing state of one network, updated in place, with the encodings it sends and caches. */
module RouteStateInPlace {
  import opened Common
  import opened Topology
  import opened RouteGroup

  // ----- Encoded connection info -----

  datatype ConnBitmap = ConnBitmap(ids: seq<IdVersion>, bitmap: seq<byte>)

  datatype EncodedConn = ListConn(list: seq<PeerConn>) | BitmapConn(graph: ConnBitmap)

  datatype EncodedUpdate = EncodedUpdate(
    infos: seq<PeerInfo>,
    versions: seq<IdVersion>,
    conn: Option<EncodedConn>,
    topologyVersion: Option<nat>)

  function ListIds(list: seq<PeerConn>): seq<IdVersion> {
    seq(|list|, i requires 0 <= i < |list| => list[i].id)
  }

  ghost predicate EncodesList(list: seq<PeerConn>, me: PeerId) {
    list == PeerList(ListIds(list), me)
  }

  ghost predicate EncodesBitmap(graph: ConnBitmap, me: PeerId) {
    exists server :: 0 <= server < |graph.ids| && graph.ids[server].peerId == me && DescribesStar(graph.bitmap, |graph.ids|, server)
  }

  ghost predicate Encodes(conn: EncodedConn, me: PeerId) {
    match conn
    case ListConn(list) => EncodesList(list, me)
    case BitmapConn(graph) => EncodesBitmap(graph, me)
  }

  function Meaning(conn: EncodedConn): Conn {
    match conn
    case ListConn(list) => Conn(true, ListIds(list))
    case BitmapConn(graph) => Conn(false, graph.ids)
  }

  lemma PeerListIds(ids: seq<IdVersion>, me: PeerId)
    ensures ListIds(PeerList(ids, me)) == ids && EncodesList(PeerList(ids, me), me)
  {
  }

  // ----- Sorting peer ids -----

  method LeastId(s: set<PeerId>) returns (m: PeerId)
    requires s != {}
    ensures IsLeast(m, s)
  {
    m :| m in s;
    var seen, rest := {m}, s - {m};
    while rest != {}
      invariant seen + rest == s && m in seen
      invariant forall x :: x in seen ==> m <= x
      decreases rest
    {
      var x :| x in rest;
      if x < m {
        m := x;
      }
      seen, rest := seen + {x}, rest - {x};
    }
    assert seen == s;
  }

  method SortIds(s: set<PeerId>) returns (ids: seq<PeerId>)
    ensures ids == Sorted(s)
  {
    ids := [];
    var rest := s;
    while rest != {}
      invariant ids + Sorted(rest) == Sorted(s)
    {
      var m := LeastId(rest);
      assert m == Least(rest);
      ids := ids + [m];
      rest := rest - {m};
    }
  }

  method IndexOf(ids: seq<PeerId>, p: PeerId) returns (i: nat)
    requires p in ids
    ensures i < |ids| && ids[i] == p
  {
    i := 0;
    while ids[i] != p
      invariant i < |ids| && p !in ids[..i]
      decreases |ids| - i
    {
      i := i + 1;
    }
  }

  class RouteState {
    const me: PeerId
    var peers: set<PeerId>
    var infos: map<PeerId, PeerInfo>
    var keys: map<PeerId, Key32>
    var sessions: map<PeerId, Session>
    var connVersions: map<PeerId, u32>
    var topologyVersion: nat
    var cachedBitmap: Option<(nat, ConnBitmap)>
    var cachedList: Option<(nat, seq<PeerConn>)>
    var myInfo: PeerInfo

    /** The cached encodings are well formed. */
    ghost predicate Valid()
      reads this
    {
      && (cachedList.Some? ==> EncodesList(cachedList.value.1, me))
      && (cachedBitmap.Some? ==> EncodesBitmap(cachedBitmap.value.1, me))
    }

    ghost function View(): Group
      reads this
    {
      Group(peers, infos, keys, sessions, connVersions, topologyVersion,
            if cachedBitmap.Some? then Some(Cached(cachedBitmap.value.0, cachedBitmap.value.1.ids)) else None,
            if cachedList.Some? then Some(Cached(cachedList.value.0, ListIds(cachedList.value.1))) else None,
            myInfo)
    }

    constructor (me: PeerId, myInfo: PeerInfo)
      ensures Valid() && this.me == me
      ensures View() == Group({}, map[], map[], map[], map[], 1, None, None, myInfo)
    {
      this.me, this.myInfo := me, myInfo;
      peers, infos, keys, sessions, connVersions := {}, map[], map[], map[], map[];
      topologyVersion, cachedBitmap, cachedList := 1, None, None;
    }

    /** Each known peer's version moves by one, then the server's own, then the topology's. */
    method BumpAllConnVersions()
      requires Valid()
      modifies this`connVersions, this`topologyVersion, this`cachedBitmap, this`cachedList
      ensures Valid() && View() == Bumped(old(View()), me)
    {
      ghost var g := View();
      BumpEach(peers + infos.Keys);
      BumpedVersions(g, me, connVersions);
      if me in connVersions {
        connVersions := connVersions[me := Next32(connVersions[me])];
      } else {
        connVersions := connVersions[me := 2];
      }
      topologyVersion := Max(WrappingAdd(topologyVersion, 1, U64), 1);
      cachedBitmap := None;
      cachedList := None;
    }

    method BumpEach(all: set<PeerId>)
      modifies this`connVersions
      ensures connVersions.Keys == old(connVersions).Keys + all
      ensures forall p :: p in connVersions ==>
        connVersions[p] == if p in all then Next32(ConnVersion(old(View()), p)) else old(connVersions)[p]
    {
      var done, rest := {}, all;
      while rest != {}
        invariant done + rest == all && done !! rest
        invariant connVersions.Keys == old(connVersions).Keys + done
        invariant forall p :: p in connVersions ==>
          connVersions[p] == if p in done then Next32(ConnVersion(old(View()), p)) else old(connVersions)[p]
        decreases rest
      {
        var p :| p in rest;
        var v := if p in connVersions then connVersions[p] else 1;
        connVersions := connVersions[p := Next32(v)];
        done, rest := done + {p}, rest - {p};
      }
      assert done == all;
    }

    method AddPeer(p: PeerId, key: Key32) returns (ok: bool)
      requires Valid()
      modifies this
      ensures Valid() && View() == PeerAdded(old(View()), me, p, key)
      ensures ok <==> !KeyConflict(old(View()), p, key)
    {
      if |key| != 32 || (p in keys && keys[p] != key) {
        return false;
      }
      keys := keys[p := key];
      var isNew := p !in peers;
      peers := peers + {p};
      if isNew {
        BumpAllConnVersions();
      }
      return true;
    }

    method RemovePeer(p: PeerId)
      requires Valid()
      modifies this
      ensures Valid() && View() == PeerRemoved(old(View()), me, p)
    {
      ghost var g := View();
      var wasPresent := p in peers;
      var hadInfo := p in infos;
      peers := peers - {p};
      infos := infos - {p};
      keys := keys - {p};
      connVersions := connVersions - {p};
      ForgetEverywhere(p);
      assert View() == PeerDropped(g, p);
      if wasPresent || hadInfo {
        BumpAllConnVersions();
      }
    }

    method ForgetEverywhere(p: PeerId)
      modifies this`sessions
      ensures sessions == map q | q in old(sessions) && q != p :: Forgotten(old(sessions)[q], p)
    {
      sessions := sessions - {p};
      var rest := sessions.Keys;
      while rest != {}
        invariant rest <= sessions.Keys == old(sessions).Keys - {p}
        invariant forall q :: q in sessions ==>
                    sessions[q] == if q in rest then old(sessions)[q] else Forgotten(old(sessions)[q], p)
      {
        var q :| q in rest;
        var session := sessions[q];
        session := session.(saved := session.saved - {p});
        session := session.(lastTopologyVersion := 0);
        sessions := sessions[q := session];
        rest := rest - {q};
      }
    }

    /** A positive reply: the session id is noted, then the update's versions are committed one by one. */
    method Acknowledge(p: PeerId, sid: nat, weAreInitiator: bool, versions: seq<IdVersion>, topology: Option<nat>, now: nat)
      requires Valid()
      modifies this`sessions
      ensures Valid() && View() == Acknowledged(old(View()), p, sid, weAreInitiator, versions, topology, now)
    {
      ghost var g := View();
      OnRouteSessionAck(p, sid, weAreInitiator, now);
      CommitRouteUpdate(p, versions, topology, now);
      AcknowledgedSessions(g, p, sid, weAreInitiator, versions, topology, now, sessions);
    }

    method OnRouteSessionAck(p: PeerId, sid: nat, weAreInitiator: bool, now: nat)
      modifies this`sessions
      ensures sessions == old(sessions)[p := Recognised(SessionOf(old(View()), p), sid, weAreInitiator, now)]
    {
      var session := if p in sessions then sessions[p] else NEW_SESSION;
      if session.dstSessionId != Some(sid) {
        session := session.(saved := map[], lastTopologyVersion := 0);
      }
      session := session.(dstSessionId := Some(sid), weAreInitiator := weAreInitiator, lastTouchMs := now);
      sessions := sessions[p := session];
    }

    method CommitRouteUpdate(p: PeerId, versions: seq<IdVersion>, topology: Option<nat>, now: nat)
      modifies this`sessions
      ensures sessions == old(sessions)[p := Confirmed(SessionOf(old(View()), p), versions, topology, now)]
    {
      var session := if p in sessions then sessions[p] else NEW_SESSION;
      ghost var saved := session.saved;
      for i := 0 to |versions|
        invariant session == SessionOf(old(View()), p).(saved := AllRemembered(saved, versions[..i], now))
      {
        var v := versions[i];
        var version := if v.peerId in session.saved then Max(session.saved[v.peerId].version, v.version) else v.version;
        session := session.(saved := session.saved[v.peerId := SavedVersion(version, now)]);
        assert versions[..i + 1][..i] == versions[..i];
      }
      assert versions[..|versions|] == versions;
      if topology.Some? {
        session := session.(lastTopologyVersion := Max(session.lastTopologyVersion, topology.value), lastTopologyTouchMs := now);
      }
      session := session.(lastTouchMs := now);
      sessions := sessions[p := session];
    }

    /** A peer's own update, under its own id; a rejected info ends the pass, keeping what came before it. */
    method HandleSyncRouteInfo(sender: PeerId, claimed: PeerId, sid: nat, isInitiator: bool, received: seq<PeerInfo>, now: nat)
      returns (accepted: bool, routeChanged: bool, sessionChanged: bool, answerSid: nat)
      requires Valid()
      modifies this
      ensures Valid() && View() == if claimed == sender then SyncHandled(old(View()), me, sender, sid, isInitiator, received, now) else old(View())
      ensures var pass := ReadInfos(Pass(SyncRecognised(old(View()), sender, sid, isInitiator, now), false, false, false), received, sender, now);
              && accepted == (claimed == sender && !pass.rejected)
              && (accepted ==> routeChanged == pass.changed && sessionChanged == (SessionOf(old(View()), sender).dstSessionId != Some(sid)))
      ensures accepted ==> answerSid == if SessionOf(View(), sender).mySessionId.Some? then SessionOf(View(), sender).mySessionId.value else 1
    {
      answerSid := 0;
      if claimed != sender {
        return false, false, false, answerSid;
      }
      sessionChanged := sender !in sessions || sessions[sender].dstSessionId != Some(sid);
      OnRouteSessionAck(sender, sid, !isInitiator, now);
      ghost var start := Pass(SyncRecognised(old(View()), sender, sid, isInitiator, now), false, false, false);
      routeChanged := false;
      var grown := false;
      var i := 0;
      assert received[..0] == [];
      while i < |received|
        invariant 0 <= i <= |received| && Valid()
        invariant Pass(View(), routeChanged, grown, false) == ReadInfos(start, received[..i], sender, now)
      {
        var info := received[i];
        ghost var before := Pass(View(), routeChanged, grown, false);
        assert received[..i + 1][..i] == received[..i];
        if info.peerId == sender {
          if sender !in keys || info.noiseKey != keys[sender] {
            RejectedStays(start, received, i, sender, now);
            return false, routeChanged, sessionChanged, answerSid;
          }
          var fresh_, changed := Publish(info, now);
          routeChanged := routeChanged || changed;
          grown := grown || fresh_;
        }
        assert Pass(View(), routeChanged, grown, false) == ReadInfo(before, info, sender, now);
        i := i + 1;
      }
      assert received[..i] == received;
      if grown {
        BumpAllConnVersions();
      }
      answerSid := if sender in sessions && sessions[sender].mySessionId.Some? then sessions[sender].mySessionId.value else 1;
      return true, routeChanged, sessionChanged, answerSid;
    }

    /** One info that passed the key check: stored if it is newer or from another instance. */
    method Publish(info: PeerInfo, now: nat) returns (isNew: bool, changed: bool)
      requires Valid()
      modifies this`infos, this`sessions
      ensures Valid()
      ensures changed == Newer(old(View()), info)
      ensures isNew == (changed && info.peerId !in old(infos))
      ensures View() == if changed then Published(old(View()), info, now) else old(View())
    {
      var instanceChanged := info.peerId in infos && infos[info.peerId].instId != info.instId;
      changed := instanceChanged || info.peerId !in infos || info.version > infos[info.peerId].version;
      if !changed {
        return false, false;
      }
      isNew := info.peerId !in infos;
      if instanceChanged {
        sessions := map q | q in sessions :: sessions[q].(saved := sessions[q].saved - {info.peerId});
      }
      infos := infos[info.peerId := info.(lastUpdateSec := now / 1000)];
    }

    // ----- Building an update -----

    method BuildConnInfo(ids: seq<PeerId>, ghost target: PeerId, sparse: bool) returns (conn: Option<EncodedConn>)
      requires Valid() && ids == Relevant(View(), me, target) && sparse == Supports(View(), target)
      modifies this`cachedBitmap, this`cachedList
      ensures Valid()
      ensures conn.None? <==> TooManyForBitmap(old(View()), me, target, sparse)
      ensures conn.None? ==> View() == old(View())
      ensures conn.Some? ==> Encodes(conn.value, me)
                             && Meaning(conn.value) == Conn(sparse, ConnIds(old(View()), me, target, sparse))
                             && View() == CacheFilled(old(View()), me, target)
    {
      if sparse {
        if cachedList.Some? && cachedList.value.0 == topologyVersion {
          return Some(ListConn(cachedList.value.1));
        }
      } else if cachedBitmap.Some? && cachedBitmap.value.0 == topologyVersion {
        return Some(BitmapConn(cachedBitmap.value.1));
      }
      var versions := IdVersions(ids);
      if sparse {
        var list := BuildPeerList(versions, me);
        PeerListIds(versions, me);
        cachedList := Some((topologyVersion, list));
        return Some(ListConn(list));
      }
      if |ids| > MAX_LEGACY_BITMAP_PEERS {
        return None;
      }
      SortedFacts(peers + {me, target});
      var server := IndexOf(ids, me);
      var bitmap := FillBitmap(|ids|, server);
      var graph := ConnBitmap(versions, bitmap[..]);
      assert graph.ids[server].peerId == me && DescribesStar(graph.bitmap, |graph.ids|, server);
      cachedBitmap := Some((topologyVersion, graph));
      return Some(BitmapConn(graph));
    }

    method IdVersions(ids: seq<PeerId>) returns (versions: seq<IdVersion>)
      ensures versions == WithVersions(View(), ids)
    {
      versions := [];
      for i := 0 to |ids|
        invariant |versions| == i && forall k :: 0 <= k < i ==> versions[k] == WithVersions(View(), ids)[k]
      {
        versions := versions + [IdVersion(ids[i], if ids[i] in connVersions then connVersions[ids[i]] else 1)];
      }
    }

    /** The infos the target still needs, with the versions they carry. */
    method ChooseInfos(ids: seq<PeerId>, target: PeerId, full: bool, now: nat)
      returns (chosenInfos: seq<PeerInfo>, versions: seq<IdVersion>, ghost chosen: seq<PeerId>)
      requires target in sessions
      ensures chosen == Chosen(View(), me, sessions[target], target, full, ids, now)
      ensures forall p :: p in chosen ==> InfoOf(View(), me, p).Some?
      ensures chosenInfos == ChosenInfos(View(), me, chosen) && versions == ChosenVersions(View(), me, chosen)
    {
      chosenInfos, versions, chosen := [], [], [];
      var session := sessions[target];
      assert ids[..0] == [];
      for i := 0 to |ids|
        invariant chosen == Chosen(View(), me, session, target, full, ids[..i], now)
        invariant forall p :: p in chosen ==> InfoOf(View(), me, p).Some?
        invariant chosenInfos == ChosenInfos(View(), me, chosen) && versions == ChosenVersions(View(), me, chosen)
      {
        var p := ids[i];
        assert ids[..i + 1][..i] == ids[..i];
        if p == target || (p != me && p !in infos) {
          continue;
        }
        var info := if p == me then myInfo else infos[p];
        var version := Max(info.version, 1);
        var prev: nat := 0;
        if p in session.saved && SaturatingSub(now, session.saved[p].touchedAtMs) < SAVED_ROUTE_VERSION_TTL_MS {
          prev := session.saved[p].version;
        }
        if full || version > prev {
          chosenInfos := chosenInfos + [info];
          versions := versions + [IdVersion(p, version)];
          chosen := chosen + [p];
        }
      }
      assert ids[..|ids|] == ids;
    }

    method BuildSyncRouteInfo(target: PeerId, serverSessionId: nat, forceFull: bool, now: nat) returns (r: Option<EncodedUpdate>)
      requires Valid()
      modifies this`sessions, this`cachedBitmap, this`cachedList
      ensures Valid() && View() == Built(old(View()), me, target, serverSessionId, now)
      ensures r.None? <==> BuildFails(old(View()), me, target, serverSessionId, now)
      ensures r.Some? ==> Carries(r.value, BuiltUpdate(old(View()), me, target, serverSessionId, forceFull, now), me)
    {
      var session := if target in sessions then sessions[target] else NEW_SESSION;
      sessions := sessions[target := session.(mySessionId := Some(serverSessionId), lastTouchMs := now)];
      ghost var g1 := View();
      assert g1 == RouteGroup.Opened(old(View()), target, serverSessionId, now);
      var ids := SortIds(peers + {me, target});
      var sent, versions, chosen := ChooseInfos(ids, target, forceFull || session.dstSessionId.None?, now);
      assert chosen == Selection(g1, me, target, forceFull, now);
      var known, conn := AddConnInfo(ids, target, now);
      if known {
        return Some(EncodedUpdate(sent, versions, None, None));
      }
      if conn.None? {
        return None;
      }
      return Some(EncodedUpdate(sent, versions, conn, Some(topologyVersion)));
    }

    method AddConnInfo(ids: seq<PeerId>, target: PeerId, now: nat) returns (known: bool, conn: Option<EncodedConn>)
      requires Valid() && target in sessions && ids == Relevant(View(), me, target)
      modifies this`cachedBitmap, this`cachedList
      ensures Valid()
      ensures known == TopologyKnown(old(View()), SessionOf(old(View()), target), now)
      ensures var sparse := Supports(old(View()), target);
        if known then View() == old(View())
        else if TooManyForBitmap(old(View()), me, target, sparse) then conn.None? && View() == old(View())
        else && conn.Some? && Encodes(conn.value, me)
             && Meaning(conn.value) == Conn(sparse, ConnIds(old(View()), me, target, sparse))
             && View() == CacheFilled(old(View()), me, target)
    {
      if sessions[target].lastTopologyVersion == topologyVersion
         && SaturatingSub(now, sessions[target].lastTopologyTouchMs) < SAVED_ROUTE_VERSION_TTL_MS {
        return true, None;
      }
      conn := BuildConnInfo(ids, target, target in infos && infos[target].supportsConnList);
      known := false;
    }
  }

  /** Noting the session and then committing is one change of the peer's session. */
  lemma AcknowledgedSessions(g: Group, p: PeerId, sid: nat, weAreInitiator: bool, versions: seq<IdVersion>, topology: Option<nat>, now: nat,
                             sessions: map<PeerId, Session>)
    requires var noted := g.sessions[p := Recognised(SessionOf(g, p), sid, weAreInitiator, now)];
             sessions == noted[p := Confirmed(noted[p], versions, topology, now)]
    ensures g.(sessions := sessions) == Acknowledged(g, p, sid, weAreInitiator, versions, topology, now)
  {
  }

  lemma BumpedVersions(g: Group, me: PeerId, each: map<PeerId, u32>)
    requires each.Keys == g.connVersions.Keys + (g.peers + g.infos.Keys)
    requires forall p :: p in each ==>
      each[p] == if p in g.peers + g.infos.Keys then Next32(ConnVersion(g, p)) else g.connVersions[p]
    ensures each[me := if me in each then Next32(each[me]) else 2] == Bumped(g, me).connVersions
  {
  }

  /** An encoded update says what the specification's update says. */
  ghost predicate Carries(r: EncodedUpdate, u: Update, me: PeerId) {
    && r.infos == u.infos && r.versions == u.versions && r.topologyVersion == u.topologyVersion
    && (r.conn.Some? <==> u.conn.Some?)
    && (r.conn.Some? ==> Encodes(r.conn.value, me) && Meaning(r.conn.value) == u.conn.value)
  }

  lemma {:induction false} RejectedStays(start: Pass, infos: seq<PeerInfo>, i: nat, sender: PeerId, now: nat)
    requires i < |infos| && !ReadInfos(start, infos[..i], sender, now).rejected
    requires infos[i].peerId == sender
    requires var g := ReadInfos(start, infos[..i], sender, now).g; sender !in g.keys || infos[i].noiseKey != g.keys[sender]
    ensures ReadInfos(start, infos, sender, now).g == ReadInfos(start, infos[..i], sender, now).g
    ensures ReadInfos(start, infos, sender, now).rejected
    decreases |infos|
  {
    var last := |infos| - 1;
    if i < last {
      var front := infos[..last];
      assert front[..i] == infos[..i];
      RejectedStays(start, front, i, sender, now);
    }
  }
}
