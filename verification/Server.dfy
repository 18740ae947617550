/**
 The life of connections: handshake phases, authenticated replacement, and the cascade in
 which closing one connection announces the change, and a failed announcement closes another.
 */
module Server {
  import opened Common
  import opened RouteSync
  import opened Rooms
  import Packet

  const MAX_CONNECTIONS: nat := 2_048
  const SERVER_PEER_ID: u32 := 10_000_001

  // ----- The tables of the server -----

  type Connections = map<Socket, Connection>
  type Owners = map<PeerKey, Socket>

  /** The owner of a key is an open, ready connection under that key. */
  predicate OwnerAt(k: PeerKey, connections: Connections, owner: Owners) {
    k in owner ==> owner[k] in connections && connections[owner[k]].phase == Ready && connections[owner[k]].Key() == k
  }

  /** A ready connection owns its key. */
  predicate OpenAt(s: Socket, connections: Connections, owner: Owners) {
    s in connections && connections[s].phase == Ready ==> connections[s].Key() in owner && owner[connections[s].Key()] == s
  }

  /** The registry holds the owner of k, if any; the one key that is being registered is excepted. */
  predicate MatchesAt(k: PeerKey, rooms: RoomMap, owner: Owners, except: Option<PeerKey>) {
    Some(k) != except ==> Lookup(rooms, k) == if k in owner then Some(owner[k]) else None
  }

  predicate PendingOk(pending: Option<Socket>, connections: Connections, rooms: RoomMap) {
    pending.Some? ==>
      && pending.value in connections && connections[pending.value].phase == Msg3
      && Lookup(rooms, connections[pending.value].Key()) == pending
  }

  function PendingKey(pending: Option<Socket>, connections: Connections): Option<PeerKey> {
    if pending.Some? && pending.value in connections then Some(connections[pending.value].Key()) else None
  }

  /** Registry, ready connections and the routing core's bindings name the same peers. */
  ghost predicate Tables(connections: Connections, owner: Owners, bound: set<PeerKey>, rooms: RoomMap, pending: Option<Socket>) {
    && owner.Keys == bound
    && (forall k :: OwnerAt(k, connections, owner))
    && (forall s :: OpenAt(s, connections, owner))
    && PendingOk(pending, connections, rooms)
    && (forall k :: MatchesAt(k, rooms, owner, PendingKey(pending, connections)))
  }

  /** s is as it was, or has gone: as one of `also`, or as a ready connection of `network` for which a call has failed. */
  predicate ShrunkAt(s: Socket, was: Connections, connections: Connections, network: string, also: set<Socket>, failed: set<PeerKey>) {
    && (s in connections ==> s in was && connections[s] == was[s])
    && (s in was && s !in connections ==>
          s in also || (was[s].phase == Ready && was[s].network == network && was[s].Key() in failed))
  }

  ghost predicate Shrunk(was: Connections, connections: Connections, network: string, also: set<Socket>, failed: set<PeerKey>) {
    forall s :: ShrunkAt(s, was, connections, network, also, failed)
  }

  /** An owner was so before, and nothing asked for it is forgotten. */
  predicate RemainingAt(k: PeerKey, was: Owners, owner: Owners, before: map<PeerKey, Demand>, demands: map<PeerKey, Demand>) {
    k in owner ==> k in was && owner[k] == was[k] && AskedOf(demands, k) >= AskedOf(before, k)
  }

  ghost predicate Remaining(was: Owners, owner: Owners, before: map<PeerKey, Demand>, demands: map<PeerKey, Demand>) {
    forall k :: RemainingAt(k, was, owner, before, demands)
  }

  /** An owner of whom nothing new was asked has its marks as they were. */
  predicate UntouchedAt(k: PeerKey, owner: Owners, before: map<PeerKey, Demand>, demands: map<PeerKey, Demand>,
                        was: map<PeerKey, SyncState>, states: map<PeerKey, SyncState>)
  {
    k in owner && AskedOf(demands, k) == AskedOf(before, k) ==> SameMarks(k, was, states)
  }

  predicate SameMarks(k: PeerKey, was: map<PeerKey, SyncState>, states: map<PeerKey, SyncState>) {
    (k in states <==> k in was) && (k in was ==> states[k] == was[k])
  }

  ghost predicate Untouched(owner: Owners, before: map<PeerKey, Demand>, demands: map<PeerKey, Demand>,
                            was: map<PeerKey, SyncState>, states: map<PeerKey, SyncState>)
  {
    forall k :: UntouchedAt(k, owner, before, demands, was, states)
  }

  /** A peer of the network, but the excluded one and the ones still to do, has been asked to take a new update. */
  predicate ToldAt(k: PeerKey, owner: Owners, network: string, exclude: Option<u32>, todo: set<u32>,
                   before: map<PeerKey, Demand>, demands: map<PeerKey, Demand>)
  {
    k in owner && k.network == network && Some(k.peerId) != exclude && k.peerId !in todo ==> AskedOf(demands, k) > AskedOf(before, k)
  }

  ghost predicate Told(owner: Owners, network: string, exclude: Option<u32>, todo: set<u32>,
                       before: map<PeerKey, Demand>, demands: map<PeerKey, Demand>)
  {
    forall k :: ToldAt(k, owner, network, exclude, todo, before, demands)
  }

  /** The pending key has no owner, but for s. */
  predicate Unowned(pending: Option<Socket>, connections: Connections, owner: Owners, network: string, but: set<Socket>) {
    var pk := PendingKey(pending, connections);
    pk.Some? ==> pk.value.network == network && (pk.value in owner ==> owner[pk.value] in but)
  }

  lemma RemovalKeepsTables(s: Socket, connections: Connections, owner: Owners, bound: set<PeerKey>, was: RoomMap, rooms: RoomMap,
                           pending: Option<Socket>)
    requires Tables(connections, owner, bound, was, pending) && s in connections
    requires forall k :: Vacated(rooms, was, s, connections[s].Key(), k)
    requires Unowned(pending, connections, owner, connections[s].network, {s})
    ensures var key := connections[s].Key(); var pending' := if Some(s) == pending then None else pending;
      if connections[s].phase == Ready then
        && Tables(connections - {s}, owner - {key}, bound - {key}, rooms, pending')
        && Unowned(pending', connections - {s}, owner - {key}, key.network, {})
      else
        Tables(connections - {s}, owner, bound, rooms, pending')
  {
    var key := connections[s].Key();
    var pending' := if Some(s) == pending then None else pending;
    var rest := connections - {s};
    assert OpenAt(s, connections, owner) && OwnerAt(key, connections, owner);
    var owner' := if connections[s].phase == Ready then owner - {key} else owner;
    forall k ensures OwnerAt(k, rest, owner') {
      assert OwnerAt(k, connections, owner);
    }
    forall d ensures OpenAt(d, rest, owner') {
      assert OpenAt(d, connections, owner);
    }
    forall k ensures MatchesAt(k, rooms, owner', PendingKey(pending', rest)) {
      assert Vacated(rooms, was, s, key, k) && OwnerAt(k, connections, owner) && MatchesAt(k, was, owner, PendingKey(pending, connections));
    }
    if pending'.Some? {
      assert Vacated(rooms, was, s, key, connections[pending'.value].Key());
      assert OwnerAt(connections[pending'.value].Key(), connections, owner);
    }
  }

  /** A registered connection is open, and is an owner once it is ready. */
  lemma FoundIsOwner(k: PeerKey, connections: Connections, owner: Owners, bound: set<PeerKey>, rooms: RoomMap, pending: Option<Socket>)
    requires Tables(connections, owner, bound, rooms, pending)
    ensures Lookup(rooms, k).Some? ==>
      var s := Lookup(rooms, k).value;
      && s in connections && connections[s].Key() == k
      && (if connections[s].phase == Ready then k in owner && k in bound && owner[k] == s else Some(s) == pending)
    ensures k in owner && Some(k) != PendingKey(pending, connections) ==> Lookup(rooms, k) == Some(owner[k])
  {
    assert OwnerAt(k, connections, owner) && MatchesAt(k, rooms, owner, PendingKey(pending, connections));
  }

  /** Once the owner of a key is closed, the key has no owner and is not bound. */
  lemma ClosedOwnsNothing(s: Socket, k: PeerKey, was: Owners, connections: Connections, owner: Owners, bound: set<PeerKey>, rooms: RoomMap,
                          pending: Option<Socket>, before: map<PeerKey, Demand>, demands: map<PeerKey, Demand>)
    requires Tables(connections, owner, bound, rooms, pending) && Remaining(was, owner, before, demands)
    requires k in was ==> was[k] == s
    requires s !in connections
    ensures k !in owner && k !in bound
  {
    assert RemainingAt(k, was, owner, before, demands) && OwnerAt(k, connections, owner);
  }

  /** Between events a peer is bound exactly when it is registered, and exactly when one connection is ready under its key. */
  lemma TablesNameTheSamePeers(k: PeerKey, connections: Connections, owner: Owners, bound: set<PeerKey>, rooms: RoomMap)
    requires Tables(connections, owner, bound, rooms, None)
    ensures k in bound <==> Lookup(rooms, k).Some?
    ensures k in bound <==> exists s :: ReadyAs(s, k, connections)
    ensures forall s, t :: ReadyAs(s, k, connections) && ReadyAs(t, k, connections) ==> s == t
    ensures forall s: Socket :: ReadyAs(s, k, connections) ==> Lookup(rooms, k) == Some(s)
  {
    FoundIsOwner(k, connections, owner, bound, rooms, None);
    if k in owner {
      assert ReadyAs(owner[k], k, connections);
    }
    forall s: Socket | ReadyAs(s, k, connections) ensures k in owner && owner[k] == s && Lookup(rooms, k) == Some(s) {
      assert OpenAt(s, connections, owner);
    }
  }

  predicate ReadyAs(s: Socket, k: PeerKey, connections: Connections) {
    s in connections && connections[s].phase == Ready && connections[s].Key() == k
  }

  lemma ShrunkFurther(first: Connections, second: Connections, third: Connections, network: string, also: set<Socket>,
                      f1: set<PeerKey>, f2: set<PeerKey>)
    requires Shrunk(first, second, network, also, f1) && Shrunk(second, third, network, {}, f2) && f1 <= f2
    ensures Shrunk(first, third, network, also, f2)
  {
    forall s ensures ShrunkAt(s, first, third, network, also, f2) {
      assert ShrunkAt(s, first, second, network, also, f1) && ShrunkAt(s, second, third, network, {}, f2);
    }
  }

  lemma ShrunkIsFewer(was: Connections, connections: Connections, network: string, also: set<Socket>, failed: set<PeerKey>)
    requires Shrunk(was, connections, network, also, failed)
    ensures |connections| <= |was|
  {
    forall s | s in connections ensures s in was {
      assert ShrunkAt(s, was, connections, network, also, failed);
    }
    SubsetSize(connections.Keys, was.Keys);
  }

  lemma RemainingFurther(first: Owners, second: Owners, third: Owners, d0: map<PeerKey, Demand>, d1: map<PeerKey, Demand>, d2: map<PeerKey, Demand>)
    requires Remaining(first, second, d0, d1) && Remaining(second, third, d1, d2)
    ensures Remaining(first, third, d0, d2)
  {
    forall k ensures RemainingAt(k, first, third, d0, d2) {
      assert RemainingAt(k, first, second, d0, d1) && RemainingAt(k, second, third, d1, d2);
    }
  }

  lemma UntouchedFurther(first: Owners, second: Owners, third: Owners,
                         d0: map<PeerKey, Demand>, d1: map<PeerKey, Demand>, d2: map<PeerKey, Demand>,
                         s0: map<PeerKey, SyncState>, s1: map<PeerKey, SyncState>, s2: map<PeerKey, SyncState>)
    requires Remaining(first, second, d0, d1) && Remaining(second, third, d1, d2)
    requires Untouched(second, d0, d1, s0, s1) && Untouched(third, d1, d2, s1, s2)
    ensures Untouched(third, d0, d2, s0, s2)
  {
    forall k ensures UntouchedAt(k, third, d0, d2, s0, s2) {
      assert RemainingAt(k, first, second, d0, d1) && RemainingAt(k, second, third, d1, d2);
      assert UntouchedAt(k, second, d0, d1, s0, s1) && UntouchedAt(k, third, d1, d2, s1, s2);
    }
  }

  lemma SameUntouched(owner: Owners, demands: map<PeerKey, Demand>, states: map<PeerKey, SyncState>)
    ensures Untouched(owner, demands, demands, states, states)
  {
  }

  predicate AskedMore(k: PeerKey, owner: Owners, before: map<PeerKey, Demand>, demands: map<PeerKey, Demand>) {
    k in owner ==> AskedOf(demands, k) > AskedOf(before, k)
  }

  /** At the start of a broadcast every peer of the network is still to be told. */
  lemma NobodyTold(ids: set<u32>, connections: Connections, owner: Owners, bound: set<PeerKey>, rooms: RoomMap, pending: Option<Socket>,
                   network: string, exclude: Option<u32>, demands: map<PeerKey, Demand>, failed: set<PeerKey>)
    requires Tables(connections, owner, bound, rooms, pending) && Unowned(pending, connections, owner, network, {})
    requires forall id: u32 :: Lookup(rooms, PeerKey(network, id)).Some? ==> id in ids
    ensures Told(owner, network, exclude, ids, demands, demands) && Remaining(owner, owner, demands, demands)
    ensures Shrunk(connections, connections, network, {}, failed)
  {
    forall k ensures ToldAt(k, owner, network, exclude, ids, demands, demands) {
      if k in owner && k.network == network {
        FoundIsOwner(k, connections, owner, bound, rooms, pending);
        assert k == PeerKey(network, k.peerId);
      }
    }
  }

  /** One more peer told, or excluded. */
  lemma ToldFurther(id: u32, first: Owners, second: Owners, third: Owners, network: string, exclude: Option<u32>, todo: set<u32>,
                    d0: map<PeerKey, Demand>, d1: map<PeerKey, Demand>, d2: map<PeerKey, Demand>)
    requires Told(second, network, exclude, todo, d0, d1)
    requires Remaining(first, second, d0, d1) && Remaining(second, third, d1, d2)
    requires Some(id) == exclude || AskedMore(PeerKey(network, id), third, d1, d2)
    ensures Told(third, network, exclude, todo - {id}, d0, d2)
  {
    forall k ensures ToldAt(k, third, network, exclude, todo - {id}, d0, d2) {
      assert ToldAt(k, second, network, exclude, todo, d0, d1);
      assert RemainingAt(k, first, second, d0, d1) && RemainingAt(k, second, third, d1, d2);
    }
  }

  lemma SameRemains(owner: Owners, demands: map<PeerKey, Demand>)
    ensures Remaining(owner, owner, demands, demands)
  {
  }

  lemma Gone(s: Socket, connections: Connections, owner: Owners, demands: map<PeerKey, Demand>, failed: set<PeerKey>)
    requires s in connections
    ensures Shrunk(connections, connections - {s}, connections[s].network, {s}, failed) && Remaining(owner, owner, demands, demands)
    ensures |connections - {s}| < |connections|
  {
  }

  lemma GoneOwner(key: PeerKey, owner: Owners, bound: map<PeerKey, Key32>, demands: map<PeerKey, Demand>, states: map<PeerKey, SyncState>)
    ensures Remaining(owner, owner - {key}, demands, demands - {key})
    ensures Untouched(owner - {key}, demands, demands - {key}, states, states - {key})
    ensures (bound - {key}).Keys == bound.Keys - {key}
  {
  }

  /** What is told after an earlier step is told since before it. */
  lemma ToldSince(first: Owners, second: Owners, third: Owners, network: string, exclude: Option<u32>, d0: map<PeerKey, Demand>,
                  d1: map<PeerKey, Demand>, d2: map<PeerKey, Demand>)
    requires Remaining(first, second, d0, d1) && Remaining(second, third, d1, d2) && Told(third, network, exclude, {}, d1, d2)
    ensures Told(third, network, exclude, {}, d0, d2)
  {
    forall k ensures ToldAt(k, third, network, exclude, {}, d0, d2) {
      assert ToldAt(k, third, network, exclude, {}, d1, d2);
      assert RemainingAt(k, first, second, d0, d1) && RemainingAt(k, second, third, d1, d2);
    }
  }

  // ----- Nothing elsewhere, and nothing twice -----

  /** A peer of another network is as it was. */
  predicate ElsewhereAt(k: PeerKey, network: string, before: map<PeerKey, Demand>, demands: map<PeerKey, Demand>,
                        was: map<PeerKey, SyncState>, states: map<PeerKey, SyncState>)
  {
    k.network != network ==> SameMarks(k, was, states) && (k in demands <==> k in before) && (k in before ==> demands[k] == before[k])
  }

  ghost predicate Elsewhere(network: string, before: map<PeerKey, Demand>, demands: map<PeerKey, Demand>,
                            was: map<PeerKey, SyncState>, states: map<PeerKey, SyncState>)
  {
    forall k :: ElsewhereAt(k, network, before, demands, was, states)
  }

  lemma SameElsewhere(network: string, demands: map<PeerKey, Demand>, states: map<PeerKey, SyncState>)
    ensures Elsewhere(network, demands, demands, states, states)
  {
  }

  /** What is done to one peer of the network is nothing elsewhere. */
  lemma OneElsewhere(key: PeerKey, before: map<PeerKey, Demand>, demands: map<PeerKey, Demand>,
                     was: map<PeerKey, SyncState>, states: map<PeerKey, SyncState>)
    requires (demands == before && states == was) || (demands == before - {key} && states == was - {key})
          || (key in demands && key in states && demands == before[key := demands[key]] && states == was[key := states[key]])
    ensures Elsewhere(key.network, before, demands, was, states)
  {
  }

  lemma ElsewhereFurther(network: string, d0: map<PeerKey, Demand>, d1: map<PeerKey, Demand>, d2: map<PeerKey, Demand>,
                         s0: map<PeerKey, SyncState>, s1: map<PeerKey, SyncState>, s2: map<PeerKey, SyncState>)
    requires Elsewhere(network, d0, d1, s0, s1) && Elsewhere(network, d1, d2, s1, s2)
    ensures Elsewhere(network, d0, d2, s0, s2)
  {
    forall k ensures ElsewhereAt(k, network, d0, d2, s0, s2) {
      assert ElsewhereAt(k, network, d0, d1, s0, s1) && ElsewhereAt(k, network, d1, d2, s1, s2);
    }
  }

  /** A peer of the network, but the excluded one and the ones still to do, has been asked once, and nobody else. */
  predicate ToldOnceAt(k: PeerKey, owner: Owners, network: string, exclude: Option<u32>, todo: set<u32>,
                       before: map<PeerKey, Demand>, demands: map<PeerKey, Demand>)
  {
    AskedOf(demands, k) == AskedOf(before, k)
      + if k in owner && k.network == network && Some(k.peerId) != exclude && k.peerId !in todo then 1 else 0
  }

  ghost predicate ToldOnce(owner: Owners, network: string, exclude: Option<u32>, todo: set<u32>,
                           before: map<PeerKey, Demand>, demands: map<PeerKey, Demand>)
  {
    forall k :: ToldOnceAt(k, owner, network, exclude, todo, before, demands)
  }

  /** The key, if it has an owner, has been asked once, and nobody else. */
  ghost predicate AskedOnce(key: PeerKey, owner: Owners, before: map<PeerKey, Demand>, demands: map<PeerKey, Demand>) {
    forall k :: AskedOnceAt(k, key, owner, before, demands)
  }

  predicate AskedOnceAt(k: PeerKey, key: PeerKey, owner: Owners, before: map<PeerKey, Demand>, demands: map<PeerKey, Demand>) {
    AskedOf(demands, k) == AskedOf(before, k) + if k == key && k in owner then 1 else 0
  }

  lemma OneAsked(key: PeerKey, owner: Owners, before: map<PeerKey, Demand>, demands: map<PeerKey, Demand>)
    requires if key in owner then key in demands && demands == before[key := demands[key]] && demands[key].asked == AskedOf(before, key) + 1
             else demands == before
    ensures AskedOnce(key, owner, before, demands)
  {
  }

  lemma NobodyToldOnce(ids: set<u32>, owner: Owners, connections: Connections, bound: set<PeerKey>, rooms: RoomMap, pending: Option<Socket>,
                       network: string, exclude: Option<u32>, demands: map<PeerKey, Demand>)
    requires Tables(connections, owner, bound, rooms, pending) && Unowned(pending, connections, owner, network, {})
    requires forall id: u32 :: Lookup(rooms, PeerKey(network, id)).Some? ==> id in ids
    ensures ToldOnce(owner, network, exclude, ids, demands, demands)
  {
    forall k ensures ToldOnceAt(k, owner, network, exclude, ids, demands, demands) {
      if k in owner && k.network == network {
        FoundIsOwner(k, connections, owner, bound, rooms, pending);
        assert k == PeerKey(network, k.peerId);
      }
    }
  }

  lemma ToldOnceFurther(id: u32, owner: Owners, network: string, exclude: Option<u32>, todo: set<u32>,
                        d0: map<PeerKey, Demand>, d1: map<PeerKey, Demand>, d2: map<PeerKey, Demand>)
    requires ToldOnce(owner, network, exclude, todo, d0, d1) && id in todo
    requires if Some(id) == exclude then d2 == d1 else AskedOnce(PeerKey(network, id), owner, d1, d2)
    ensures ToldOnce(owner, network, exclude, todo - {id}, d0, d2)
  {
    forall k ensures ToldOnceAt(k, owner, network, exclude, todo - {id}, d0, d2) {
      assert ToldOnceAt(k, owner, network, exclude, todo, d0, d1);
      assert Some(id) != exclude ==> AskedOnceAt(k, PeerKey(network, id), owner, d1, d2);
    }
  }

  /** What shrinks and is as it was in the end was so in between. */
  lemma ShrunkBetween(first: Connections, second: Connections, third: Connections, network: string, also: set<Socket>, f1: set<PeerKey>, f2: set<PeerKey>)
    requires Shrunk(first, second, network, also, f1) && Shrunk(second, third, network, also, f2) && third == first
    ensures second == first
  {
    forall s ensures s in second <==> s in first {
      assert ShrunkAt(s, first, second, network, also, f1) && ShrunkAt(s, second, third, network, also, f2);
    }
    forall s | s in second ensures second[s] == first[s] {
      assert ShrunkAt(s, first, second, network, also, f1);
    }
  }

  /** Who was told stays told, as long as nothing asked is forgotten. */
  lemma ToldStill(second: Owners, third: Owners, network: string, exclude: Option<u32>, d0: map<PeerKey, Demand>,
                  d1: map<PeerKey, Demand>, d2: map<PeerKey, Demand>)
    requires Told(second, network, exclude, {}, d0, d1) && Remaining(second, third, d1, d2)
    ensures Told(third, network, exclude, {}, d0, d2)
  {
    forall k ensures ToldAt(k, third, network, exclude, {}, d0, d2) {
      assert ToldAt(k, second, network, exclude, {}, d0, d1) && RemainingAt(k, second, third, d1, d2);
    }
  }

  /** A cascade of ready connections spares the pending one. */
  lemma ReadyHasGone(s: Socket, pending: Option<Socket>, was: Connections, connections: Connections, before: Owners, owner: Owners,
                     network: string, failed: set<PeerKey>, d0: map<PeerKey, Demand>, d1: map<PeerKey, Demand>)
    requires Shrunk(was, connections, network, {s}, failed) && Remaining(before, owner, d0, d1)
    requires s in was && was[s].phase == Ready && was[s].network == network && was[s].Key() in failed
    requires Unowned(pending, was, before, network, {}) && (pending.Some? ==> pending.value in was && was[pending.value].phase == Msg3)
    ensures Shrunk(was, connections, network, {}, failed) && Unowned(pending, connections, owner, network, {})
  {
    PeerHasGone(s, was, connections, network, failed);
    assert failed + {was[s].Key()} == failed;
    if pending.Some? {
      assert ShrunkAt(pending.value, was, connections, network, {s}, failed);
      assert RemainingAt(was[pending.value].Key(), before, owner, d0, d1);
    }
  }

  // ----- Frames, as the packet and secure layers see them -----

  datatype PacketType = HandshakeMsg1 | HandshakeMsg3 | Ping | Pong | RpcReq | RpcResp | OtherType

  /** What the secure layer and the RPC core make of a frame; Refused is an error of either. */
  datatype Body =
    | Refused
    | Hello(network: string, peerId: u32)
    | Authenticated(network: string, peerId: u32, key: Key32)
    | Replayed
    | Request(result: RequestResult)
    | Response(transactionId: int, reply: Reply)
    | Plain

  datatype Frame =
    | Malformed
    | Frame(packetType: PacketType, fromPeer: u32, toPeer: u32, hops: nat, encrypted: bool, body: Body)

  /** A connection that is not ready, before and after, is in no table. */
  lemma UnreadyChange(s: Socket, c: Connection, connections: Connections, owner: Owners, bound: set<PeerKey>, rooms: RoomMap)
    requires Tables(connections, owner, bound, rooms, None) && c.phase != Ready && (s in connections ==> connections[s].phase != Ready)
    ensures Tables(connections[s := c], owner, bound, rooms, None)
  {
    var changed := connections[s := c];
    forall k ensures OwnerAt(k, changed, owner) {
      assert OwnerAt(k, connections, owner);
    }
    forall t ensures OpenAt(t, changed, owner) {
      assert OpenAt(t, connections, owner);
    }
    forall k ensures MatchesAt(k, rooms, owner, None) {
      assert MatchesAt(k, rooms, owner, PendingKey(None, connections));
    }
  }

  /** The identity the third message authenticates is the one the first message claimed. */
  ghost predicate Confirms(frame: Frame, c: Connection) {
    && frame != Malformed && frame.packetType == HandshakeMsg3 && frame.body.Authenticated?
    && |frame.body.key| == 32 && frame.body.peerId == c.peerId && frame.body.network == c.network
  }

  lemma RegisteringKeepsTables(s: Socket, connections: Connections, owner: Owners, bound: set<PeerKey>, was: RoomMap, rooms: RoomMap)
    requires Tables(connections, owner, bound, was, None) && s in connections && connections[s].phase == Msg3
    requires forall k :: Lookup(rooms, k) == if k == connections[s].Key() then Some(s) else Lookup(was, k)
    ensures Tables(connections, owner, bound, rooms, Some(s))
    ensures var key := connections[s].Key(); (if key in owner then Lookup(was, key) == Some(owner[key]) else Lookup(was, key) == None)
  {
    forall k ensures MatchesAt(k, rooms, owner, PendingKey(Some(s), connections)) {
      assert MatchesAt(k, was, owner, PendingKey(None, connections));
    }
    assert MatchesAt(connections[s].Key(), was, owner, PendingKey(None, connections));
  }

  lemma ReadyKeepsTables(s: Socket, connections: Connections, owner: Owners, bound: set<PeerKey>, rooms: RoomMap)
    requires s in connections && connections[s].phase == Msg3
    requires var key := connections[s].Key();
      key in bound && key !in owner && Tables(connections, owner, bound - {key}, rooms, Some(s))
    ensures var c := connections[s]; Tables(connections[s := c.(phase := Ready)], owner[c.Key() := s], bound, rooms, None)
  {
    var c := connections[s];
    var ready, owners := connections[s := c.(phase := Ready)], owner[c.Key() := s];
    assert owners.Keys == bound;
    forall k ensures OwnerAt(k, ready, owners) {
      assert OwnerAt(k, connections, owner);
    }
    forall t ensures OpenAt(t, ready, owners) {
      assert OpenAt(t, connections, owner);
    }
    forall k ensures MatchesAt(k, rooms, owners, PendingKey(None, ready)) {
      assert MatchesAt(k, rooms, owner, PendingKey(Some(s), connections));
    }
  }

  /** Closing a failed connection of the network is part of what a cascade may do. */
  lemma PeerHasGone(s: Socket, was: Connections, connections: Connections, network: string, failed: set<PeerKey>)
    requires Shrunk(was, connections, network, {s}, failed) && s in was && was[s].phase == Ready && was[s].network == network
    ensures Shrunk(was, connections, network, {}, failed + {was[s].Key()})
  {
    forall t ensures ShrunkAt(t, was, connections, network, {}, failed + {was[s].Key()}) {
      assert ShrunkAt(t, was, connections, network, {s}, failed);
    }
  }

  /** Besides s, only ready connections of the network for which a call has failed have gone. */
  ghost predicate Apart(s: Socket, was: Connections, connections: Connections, network: string, failed: set<PeerKey>) {
    Shrunk(was - {s}, connections - {s}, network, {}, failed)
  }

  /** From registration to the last announcement, as one step. */
  lemma Established(s: Socket, c: Connection, was: Connections, registered: Connections, last: Connections, f1: set<PeerKey>, f2: set<PeerKey>,
                    first: Owners, second: Owners, third: Owners, d0: map<PeerKey, Demand>, d1: map<PeerKey, Demand>, d2: map<PeerKey, Demand>)
    requires s in was && was[s].phase == Msg3 && c == was[s].(remotePublicKey := c.remotePublicKey)
    requires Shrunk(was[s := c], registered, c.network, {}, f1 + {c.Key()}) && s in registered && f1 <= f2
    requires Shrunk(registered[s := c.(phase := Ready)], last, c.network, {}, f2)
    requires Remaining(first, second, d0, d1) && Remaining(second[c.Key() := s], third, d1, d2)
    requires Told(third, c.network, None, {}, d1, d2)
    ensures Apart(s, was, last, c.network, f2 + {c.Key()})
    ensures if s in last then last[s] == c.(phase := Ready) else c.Key() in f2
    ensures Told(third, c.network, Some(c.peerId), {}, d0, d2) && AskedMore(c.Key(), third, map[], d2)
  {
    forall t ensures ShrunkAt(t, was - {s}, last - {s}, c.network, {}, f2 + {c.Key()}) {
      assert ShrunkAt(t, was[s := c], registered, c.network, {}, f1 + {c.Key()});
      assert ShrunkAt(t, registered[s := c.(phase := Ready)], last, c.network, {}, f2);
    }
    assert ShrunkAt(s, registered[s := c.(phase := Ready)], last, c.network, {}, f2);
    forall k ensures ToldAt(k, third, c.network, Some(c.peerId), {}, d0, d2) {
      assert ToldAt(k, third, c.network, None, {}, d1, d2);
      assert RemainingAt(k, second[c.Key() := s], third, d1, d2) && RemainingAt(k, first, second, d0, d1);
    }
    assert ToldAt(c.Key(), third, c.network, None, {}, d1, d2);
  }

  lemma SameApart(s: Socket, connections: Connections, network: string, failed: set<PeerKey>)
    ensures Apart(s, connections, connections, network, failed)
  {
  }

  lemma ShrunkIsApart(s: Socket, was: Connections, connections: Connections, network: string, failed: set<PeerKey>)
    requires Shrunk(was, connections, network, {}, failed)
    ensures Apart(s, was, connections, network, failed)
    ensures s in connections ==> s in was && connections[s] == was[s]
  {
    assert ShrunkAt(s, was, connections, network, {}, failed);
    forall t ensures ShrunkAt(t, was - {s}, connections - {s}, network, {}, failed) {
      assert ShrunkAt(t, was, connections, network, {}, failed);
    }
  }

  lemma GoneIsApart(s: Socket, connections: Connections, network: string, failed: set<PeerKey>)
    ensures Apart(s, connections, connections - {s}, network, failed)
  {
    assert connections - {s} - {s} == connections - {s};
    SameShrunk(connections - {s}, network, failed);
  }

  lemma ApartAlso(s: Socket, was: Connections, connections: Connections, network: string, fewer: set<PeerKey>, failed: set<PeerKey>)
    requires Apart(s, was, connections, network, fewer) && fewer <= failed
    ensures Apart(s, was, connections, network, failed)
  {
    forall t ensures ShrunkAt(t, was - {s}, connections - {s}, network, {}, failed) {
      assert ShrunkAt(t, was - {s}, connections - {s}, network, {}, fewer);
    }
  }

  /** A ready connection is the one its key is bound to. */
  lemma OwnsItsKey(s: Socket, connections: Connections, owner: Owners, bound: set<PeerKey>, rooms: RoomMap)
    requires Tables(connections, owner, bound, rooms, None) && s in connections && connections[s].phase == Ready
    ensures var key := connections[s].Key(); key in bound && key in owner && owner[key] == s && Lookup(rooms, key) == Some(s)
  {
    assert OpenAt(s, connections, owner);
    FoundIsOwner(connections[s].Key(), connections, owner, bound, rooms, None);
  }

  lemma ClosedIsApart(s: Socket, was: Connections, connections: Connections, network: string, failed: set<PeerKey>)
    requires Shrunk(was, connections, network, {s}, failed) && s !in connections
    ensures Apart(s, was, connections, network, failed)
  {
    forall t ensures ShrunkAt(t, was - {s}, connections - {s}, network, {}, failed) {
      assert ShrunkAt(t, was, connections, network, {s}, failed);
    }
  }

  /** Besides failed peers, a frame may close the predecessor of the connection it completes, or the target it cannot reach. */
  ghost function MayClose(was: Connection, frame: Frame, failed: set<PeerKey>): set<PeerKey> {
    match was.phase
    case Msg1 => {}
    case Msg3 => failed + {was.Key()}
    case Ready => if frame != Malformed && frame.toPeer != SERVER_PEER_ID then failed + {PeerKey(was.network, frame.toPeer)} else failed
  }

  /** What an authenticated peer may not send to the server: a foreign source, a sealed Ping or Pong, an RPC that is clear or refused. */
  ghost predicate Objectionable(frame: Frame, c: Connection)
    requires frame != Malformed
  {
    && frame.toPeer == SERVER_PEER_ID
    && (|| frame.fromPeer != c.peerId
        || (frame.encrypted && (frame.packetType == Ping || frame.packetType == Pong))
        || (frame.packetType == RpcReq && !(frame.encrypted && (frame.body == Replayed || frame.body.Request?)))
        || (frame.packetType == RpcResp && !(frame.encrypted && (frame.body == Replayed || frame.body.Response?))))
  }

  /**
   How a connection that stays open moves on: it becomes ready only by confirming the identity
   it claimed, in a configured network; a frame that does not fit its phase closes it.
   */
  ghost predicate Advances(was: Connection, c: Connection, frame: Frame, configured: set<string>) {
    && frame != Malformed
    && match was.phase
       case Msg1 =>
         && frame.packetType == HandshakeMsg1 && frame.body.Hello? && frame.body.network in configured
         && c == Connection(Msg3, frame.body.network, frame.body.peerId, [])
       case Msg3 => Confirms(frame, was) && c == was.(phase := Ready, remotePublicKey := frame.body.key)
       case Ready => !Objectionable(frame, was) && c == was
  }

  /** The reply belongs to an update that is still on its way, and is not a refusal. */
  ghost predicate Awaited(c: Connection, frame: Frame, outstanding: map<TxKey, nat>, now: nat)
    requires frame != Malformed && frame.body.Response?
  {
    var t := TxKey(c.Key(), frame.body.transactionId);
    t in outstanding && now <= outstanding[t] && frame.body.reply != Rejected
  }

  /**
   What costs a ready connection its life by itself: a frame past its last hop, a frame to itself
   that cannot be sent, an objectionable one, an answer that cannot be sent, a reply nobody awaits.
   */
  ghost predicate Unacceptable(frame: Frame, c: Connection, owner: Owners, outstanding: map<TxKey, nat>, sends: bool, now: nat)
    requires frame != Malformed
  {
    if frame.toPeer != SERVER_PEER_ID then
      var t := PeerKey(c.network, frame.toPeer);
      t in owner && (frame.hops > Packet.MAX_FORWARD_HOPS || (t == c.Key() && !sends))
    else
      || Objectionable(frame, c)
      || (frame.packetType == Ping && !sends)
      || (frame.packetType == RpcReq && frame.body.Request? && frame.body.result != Pending && !sends)
      || (frame.packetType == RpcResp && frame.body.Response? && !Awaited(c, frame, outstanding, now))
  }

  /** What closes a connection by itself, in each phase. */
  ghost predicate Drops(frame: Frame, c: Connection, configured: set<string>, owner: Owners, outstanding: map<TxKey, nat>, sends: bool, now: nat) {
    || frame == Malformed
    || match c.phase
       case Msg1 => !(frame.packetType == HandshakeMsg1 && frame.body.Hello? && frame.body.network in configured && sends)
       case Msg3 => !Confirms(frame, c)
       case Ready => Unacceptable(frame, c, owner, outstanding, sends, now)
  }

  /** What goes out in answer to a frame of a ready connection, other than an RPC answer: the frame itself, one hop further, or a Pong. */
  ghost function HandedOn(frame: Frame, c: Connection, owner: Owners, outstanding: map<TxKey, nat>, sends: bool, now: nat): Option<Frame>
    requires frame != Malformed
  {
    if frame.toPeer != SERVER_PEER_ID then
      if PeerKey(c.network, frame.toPeer) in owner && frame.hops <= Packet.MAX_FORWARD_HOPS && sends then Some(frame.(hops := frame.hops + 1)) else None
    else if frame.packetType == Ping && !Unacceptable(frame, c, owner, outstanding, sends, now) then Some(frame.(packetType := Pong))
    else None
  }

  ghost predicate AskedSame(before: map<PeerKey, Demand>, demands: map<PeerKey, Demand>) {
    forall k :: AskedOf(demands, k) == AskedOf(before, k)
  }

  ghost predicate AskedNoLess(before: map<PeerKey, Demand>, demands: map<PeerKey, Demand>) {
    forall k :: AskedOf(demands, k) >= AskedOf(before, k)
  }

  ghost predicate Asks(frame: Frame, c: Connection, result: RequestResult)
    requires frame != Malformed
  {
    frame.toPeer == SERVER_PEER_ID && frame.packetType == RpcReq && !Objectionable(frame, c) && frame.body == Request(result)
  }

  /** Who is asked for an update while nobody is closed: everybody once after a route change, the peer itself after a new session, else nobody. */
  ghost predicate AskedBy(frame: Frame, c: Connection, owner: Owners, before: map<PeerKey, Demand>, demands: map<PeerKey, Demand>)
    requires frame != Malformed
  {
    if Asks(frame, c, Route) then ToldOnce(owner, c.network, None, {}, before, demands)
    else if Asks(frame, c, RouteSession) then AskedOnce(c.Key(), owner, before, demands)
    else AskedSame(before, demands)
  }

  /** The requester was asked, and then everybody else. */
  lemma AskedAndTold(key: PeerKey, owner: Owners, d0: map<PeerKey, Demand>, d1: map<PeerKey, Demand>, d2: map<PeerKey, Demand>)
    requires AskedOnce(key, owner, d0, d1) && ToldOnce(owner, key.network, Some(key.peerId), {}, d1, d2)
    ensures ToldOnce(owner, key.network, None, {}, d0, d2)
  {
    forall k ensures ToldOnceAt(k, owner, key.network, None, {}, d0, d2) {
      assert AskedOnceAt(k, key, owner, d0, d1) && ToldOnceAt(k, owner, key.network, Some(key.peerId), {}, d1, d2);
    }
  }

  /** Whom a frame that succeeds has asked: exactly those it should while nobody is closed, and everybody left after somebody was. */
  ghost predicate Answers(ok: bool, frame: Frame, c: Connection, was: Connections, connections: Connections, before: Owners, owner: Owners,
                          d0: map<PeerKey, Demand>, d1: map<PeerKey, Demand>)
    requires frame != Malformed
  {
    && (connections == was ==> owner == before && AskedNoLess(d0, d1))
    && (ok && connections == was ==> AskedBy(frame, c, owner, d0, d1))
    && (connections != was ==> Told(owner, c.network, None, {}, d0, d1))
    && (ok && Asks(frame, c, Route) ==> Told(owner, c.network, None, {}, d0, d1))
  }

  /** A refused frame, and then the closing of its connection. */
  lemma RefusedThenClosed(frame: Frame, c: Connection, was: Connections, connections: Connections, before: Owners, owner: Owners,
                          d0: map<PeerKey, Demand>, d1: map<PeerKey, Demand>, d2: map<PeerKey, Demand>)
    requires frame != Malformed && connections != was
    requires AskedNoLess(d0, d1) && Remaining(before, owner, d1, d2) && Told(owner, c.network, None, {}, d1, d2)
    ensures Answers(false, frame, c, was, connections, before, owner, d0, d2)
  {
    forall k ensures ToldAt(k, owner, c.network, None, {}, d0, d2) {
      assert AskedOf(d1, k) >= AskedOf(d0, k);
      assert RemainingAt(k, before, owner, d1, d2) && ToldAt(k, owner, c.network, None, {}, d1, d2);
    }
  }

  /** A route change: the requester has been asked, then everybody else is. */
  lemma RouteAnnounced(key: PeerKey, was: Connections, connections: Connections, before: Owners, owner: Owners,
                       d0: map<PeerKey, Demand>, d1: map<PeerKey, Demand>, d2: map<PeerKey, Demand>)
    requires AskedOnce(key, before, d0, d1) && key in before && Remaining(before, owner, d1, d2)
    requires Told(owner, key.network, Some(key.peerId), {}, d1, d2)
    requires if connections == was then owner == before && ToldOnce(owner, key.network, Some(key.peerId), {}, d1, d2)
             else Told(owner, key.network, None, {}, d1, d2)
    ensures Told(owner, key.network, None, {}, d0, d2)
    ensures connections == was ==> owner == before && ToldOnce(owner, key.network, None, {}, d0, d2) && AskedNoLess(d0, d2)
  {
    forall k ensures ToldAt(k, owner, key.network, None, {}, d0, d2) {
      assert AskedOnceAt(k, key, before, d0, d1) && RemainingAt(k, before, owner, d1, d2);
      assert ToldAt(k, owner, key.network, Some(key.peerId), {}, d1, d2);
    }
    if connections == was {
      AskedAndTold(key, owner, d0, d1, d2);
      forall k ensures AskedOf(d2, k) >= AskedOf(d0, k) {
        assert ToldOnceAt(k, owner, key.network, None, {}, d0, d2);
      }
    }
  }

  /** The frame is a timely, positive reply of the connection's own peer. */
  ghost predicate Acknowledges(c: Connection, frame: Frame, outstanding: map<TxKey, nat>, now: nat) {
    && c.phase == Ready && frame != Malformed && !Objectionable(frame, c)
    && frame.toPeer == SERVER_PEER_ID && frame.packetType == RpcResp && frame.body.Response? && frame.body.reply == Accepted
    && TxKey(c.Key(), frame.body.transactionId) in outstanding
    && now <= outstanding[TxKey(c.Key(), frame.body.transactionId)]
  }

  /** The acknowledged updates grow by exactly one when the frame acknowledges one. */
  ghost predicate Committed(c: Connection, frame: Frame, outstanding: map<TxKey, nat>, buildOf: map<TxKey, nat>, now: nat,
                            before: seq<Commit>, commits: seq<Commit>)
  {
    if Acknowledges(c, frame, outstanding, now) then
      var t := TxKey(c.Key(), frame.body.transactionId);
      t in buildOf && commits == before + [Commit(buildOf[t], now, outstanding[t])]
    else
      commits == before
  }

  /** s is as it was, or was ready and has gone after a call for it failed. */
  predicate ThinnedAt(s: Socket, was: Connections, connections: Connections, failed: set<PeerKey>) {
    && (s in connections ==> s in was && connections[s] == was[s])
    && (s in was && s !in connections ==> was[s].phase == Ready && was[s].Key() in failed)
  }

  ghost predicate Thinned(was: Connections, connections: Connections, failed: set<PeerKey>) {
    forall s :: ThinnedAt(s, was, connections, failed)
  }

  lemma ThinnedFurther(first: Connections, second: Connections, third: Connections, f1: set<PeerKey>, f2: set<PeerKey>)
    requires Thinned(first, second, f1) && Thinned(second, third, f2) && f1 <= f2
    ensures Thinned(first, third, f2)
  {
    forall s ensures ThinnedAt(s, first, third, f2) {
      assert ThinnedAt(s, first, second, f1) && ThinnedAt(s, second, third, f2);
    }
  }

  lemma ShrunkIsThinned(was: Connections, connections: Connections, network: string, failed: set<PeerKey>)
    requires Shrunk(was, connections, network, {}, failed)
    ensures Thinned(was, connections, failed)
  {
    forall s ensures ThinnedAt(s, was, connections, failed) {
      assert ShrunkAt(s, was, connections, network, {}, failed);
    }
  }

  lemma ApartIsThinned(s: Socket, was: Connections, connections: Connections, network: string, failed: set<PeerKey>)
    requires Apart(s, was, connections, network, failed)
    requires s in was && was[s].phase == Ready && was[s].Key() in failed && s !in connections
    ensures Thinned(was, connections, failed)
  {
    forall t ensures ThinnedAt(t, was, connections, failed) {
      assert ShrunkAt(t, was - {s}, connections - {s}, network, {}, failed);
    }
  }

  lemma RemainingIsFewer(was: Owners, owner: Owners, before: map<PeerKey, Demand>, demands: map<PeerKey, Demand>)
    requires Remaining(was, owner, before, demands)
    ensures owner.Keys <= was.Keys
  {
    forall k | k in owner ensures k in was {
      assert RemainingAt(k, was, owner, before, demands);
    }
  }

  // ----- What maintenance owes the peers that are due -----

  /** k was retried, or something else was asked of it, or it had not timed out and is as it was. */
  ghost predicate SweptOverAt(k: PeerKey, owner: Owners, failures: set<PeerKey>, before: map<PeerKey, Demand>, demands: map<PeerKey, Demand>,
                        was: map<PeerKey, SyncState>, states: map<PeerKey, SyncState>, now: nat)
  {
    k in owner && k !in failures ==>
      AskedOf(demands, k) > AskedOf(before, k) || (SameMarks(k, was, states) && (k in was ==> !TimedOut(was[k], now)))
  }

  ghost predicate SweptOver(owner: Owners, failures: set<PeerKey>, before: map<PeerKey, Demand>, demands: map<PeerKey, Demand>,
                            was: map<PeerKey, SyncState>, states: map<PeerKey, SyncState>, now: nat)
  {
    forall k :: SweptOverAt(k, owner, failures, before, demands, was, states, now)
  }

  lemma SweepRemains(owner: Owners, failures: set<PeerKey>, before: map<PeerKey, Demand>, demands: map<PeerKey, Demand>,
                     was: map<PeerKey, SyncState>, states: map<PeerKey, SyncState>, first: SyncTables, last: SyncTables, luck: nat -> Luck, now: nat)
    requires Swept(first, {}, failures, last, luck, now)
    requires was == first.states && before == first.demands && states == last.states && demands == last.demands
    requires was.Keys == before.Keys && states.Keys == was.Keys && demands.Keys == was.Keys
    ensures Remaining(owner, owner, before, demands) && SweptOver(owner, failures, before, demands, was, states, now)
  {
    forall k ensures RemainingAt(k, owner, owner, before, demands) && SweptOverAt(k, owner, failures, before, demands, was, states, now) {
      assert SweptAt(k, {}, failures, first.states, first.demands, last.states, last.demands, luck, last.trials, |first.trials|, now);
    }
  }

  lemma SweptOverFurther(second: Owners, third: Owners, failures: set<PeerKey>,
                         d0: map<PeerKey, Demand>, d1: map<PeerKey, Demand>, d2: map<PeerKey, Demand>,
                         s0: map<PeerKey, SyncState>, s1: map<PeerKey, SyncState>, s2: map<PeerKey, SyncState>, now: nat)
    requires SweptOver(second, failures, d0, d1, s0, s1, now) && failures !! third.Keys
    requires forall k :: RemainingAt(k, second, second, d0, d1)
    requires Remaining(second, third, d1, d2) && Untouched(third, d1, d2, s1, s2)
    ensures SweptOver(third, {}, d0, d2, s0, s2, now)
  {
    forall k ensures SweptOverAt(k, third, {}, d0, d2, s0, s2, now) {
      assert SweptOverAt(k, second, failures, d0, d1, s0, s1, now) && RemainingAt(k, second, second, d0, d1);
      assert RemainingAt(k, second, third, d1, d2) && UntouchedAt(k, third, d1, d2, s1, s2);
    }
  }

  /** The idle owners that are not in the sockets still to be visited have been asked. */
  ghost predicate IdleAskedAt(k: PeerKey, owner: Owners, rest: set<Socket>, before: map<PeerKey, Demand>, demands: map<PeerKey, Demand>,
                        was: map<PeerKey, SyncState>, now: nat)
  {
    k in owner && owner[k] !in rest && k in was && Idle(was[k], now) ==> AskedOf(demands, k) > AskedOf(before, k)
  }

  ghost predicate IdleAsked(owner: Owners, rest: set<Socket>, before: map<PeerKey, Demand>, demands: map<PeerKey, Demand>,
                            was: map<PeerKey, SyncState>, now: nat)
  {
    forall k :: IdleAskedAt(k, owner, rest, before, demands, was, now)
  }

  lemma NobodyVisited(connections: Connections, owner: Owners, bound: set<PeerKey>, rooms: RoomMap, demands: map<PeerKey, Demand>,
                      was: map<PeerKey, SyncState>, now: nat)
    requires Tables(connections, owner, bound, rooms, None)
    ensures IdleAsked(owner, connections.Keys, demands, demands, was, now)
  {
    forall k ensures IdleAskedAt(k, owner, connections.Keys, demands, demands, was, now) {
      assert OwnerAt(k, connections, owner);
    }
  }

  /** One more socket visited; `asked` says that its own peer, if idle before the visit, was asked. */
  lemma VisitedFurther(s: Socket, first: Owners, second: Owners, third: Owners, rest: set<Socket>,
                       d0: map<PeerKey, Demand>, d1: map<PeerKey, Demand>, d2: map<PeerKey, Demand>,
                       s0: map<PeerKey, SyncState>, s1: map<PeerKey, SyncState>, now: nat)
    requires Remaining(first, second, d0, d1) && Untouched(second, d0, d1, s0, s1) && Remaining(second, third, d1, d2)
    requires IdleAsked(second, rest, d0, d1, s0, now)
    requires forall k :: k in third && third[k] == s && k in s1 && Idle(s1[k], now) ==> AskedOf(d2, k) > AskedOf(d1, k)
    ensures IdleAsked(third, rest - {s}, d0, d2, s0, now)
  {
    forall k ensures IdleAskedAt(k, third, rest - {s}, d0, d2, s0, now) {
      assert RemainingAt(k, first, second, d0, d1) && UntouchedAt(k, second, d0, d1, s0, s1) && RemainingAt(k, second, third, d1, d2);
      assert IdleAskedAt(k, second, rest, d0, d1, s0, now);
    }
  }

  /** Of an owner that was due, timed out or idle, something has been asked. */
  ghost predicate DueAskedAt(k: PeerKey, owner: Owners, before: map<PeerKey, Demand>, demands: map<PeerKey, Demand>, was: map<PeerKey, SyncState>, now: nat) {
    k in owner && k in was && (TimedOut(was[k], now) || Idle(was[k], now)) ==> AskedOf(demands, k) > AskedOf(before, k)
  }

  ghost predicate AllDueAsked(owner: Owners, before: map<PeerKey, Demand>, demands: map<PeerKey, Demand>, was: map<PeerKey, SyncState>, now: nat) {
    forall k :: DueAskedAt(k, owner, before, demands, was, now)
  }

  lemma SweptAndVisited(first: Owners, second: Owners, third: Owners, d0: map<PeerKey, Demand>, d1: map<PeerKey, Demand>, d2: map<PeerKey, Demand>,
                        s0: map<PeerKey, SyncState>, s1: map<PeerKey, SyncState>, now: nat)
    requires Remaining(first, second, d0, d1) && Remaining(second, third, d1, d2)
    requires SweptOver(second, {}, d0, d1, s0, s1, now) && IdleAsked(third, {}, d1, d2, s1, now)
    ensures AllDueAsked(third, d0, d2, s0, now)
  {
    forall k ensures DueAskedAt(k, third, d0, d2, s0, now) {
      assert RemainingAt(k, first, second, d0, d1) && RemainingAt(k, second, third, d1, d2);
      assert SweptOverAt(k, second, {}, d0, d1, s0, s1, now) && IdleAskedAt(k, third, {}, d1, d2, s1, now);
    }
  }

  // ----- While maintenance closes nobody, it asks nobody twice, and nobody who is not due -----

  ghost predicate Due(k: PeerKey, was: map<PeerKey, SyncState>, now: nat) {
    k in was && (TimedOut(was[k], now) || Idle(was[k], now))
  }

  /** k has been asked once if it was due, and is as it was otherwise. */
  ghost predicate OnceIfDueAt(k: PeerKey, owner: Owners, before: map<PeerKey, Demand>, demands: map<PeerKey, Demand>,
                              was: map<PeerKey, SyncState>, states: map<PeerKey, SyncState>, now: nat)
  {
    k in owner ==>
      if Due(k, was, now) then AskedOf(demands, k) == AskedOf(before, k) + 1
      else AskedOf(demands, k) == AskedOf(before, k) && SameMarks(k, was, states)
  }

  ghost predicate OnceIfDue(owner: Owners, before: map<PeerKey, Demand>, demands: map<PeerKey, Demand>,
                            was: map<PeerKey, SyncState>, states: map<PeerKey, SyncState>, now: nat)
  {
    forall k :: OnceIfDueAt(k, owner, before, demands, was, states, now)
  }

  /** The same for the retries: who had timed out has been asked once, and has an update on its way. */
  ghost predicate OnceIfLateAt(k: PeerKey, owner: Owners, before: map<PeerKey, Demand>, demands: map<PeerKey, Demand>,
                               was: map<PeerKey, SyncState>, states: map<PeerKey, SyncState>, now: nat)
  {
    k in owner ==>
      if k in was && TimedOut(was[k], now) then AskedOf(demands, k) == AskedOf(before, k) + 1 && k in states && states[k].inFlight
      else AskedOf(demands, k) == AskedOf(before, k) && SameMarks(k, was, states)
  }

  ghost predicate OnceIfLate(owner: Owners, before: map<PeerKey, Demand>, demands: map<PeerKey, Demand>,
                             was: map<PeerKey, SyncState>, states: map<PeerKey, SyncState>, now: nat)
  {
    forall k :: OnceIfLateAt(k, owner, before, demands, was, states, now)
  }

  /** The same for the visits of the sockets in `done`. */
  ghost predicate OnceIfIdleAt(k: PeerKey, done: set<Socket>, owner: Owners, before: map<PeerKey, Demand>, demands: map<PeerKey, Demand>,
                               was: map<PeerKey, SyncState>, states: map<PeerKey, SyncState>, now: nat)
  {
    k in owner ==>
      if owner[k] in done && k in was && Idle(was[k], now) then AskedOf(demands, k) == AskedOf(before, k) + 1
      else AskedOf(demands, k) == AskedOf(before, k) && SameMarks(k, was, states)
  }

  ghost predicate OnceIfIdle(done: set<Socket>, owner: Owners, before: map<PeerKey, Demand>, demands: map<PeerKey, Demand>,
                             was: map<PeerKey, SyncState>, states: map<PeerKey, SyncState>, now: nat)
  {
    forall k :: OnceIfIdleAt(k, done, owner, before, demands, was, states, now)
  }

  lemma NobodyIdle(owner: Owners, demands: map<PeerKey, Demand>, states: map<PeerKey, SyncState>, now: nat)
    ensures OnceIfIdle({}, owner, demands, demands, states, states, now)
  {
  }

  lemma OneVisited(key: PeerKey, s: Socket, owner: Owners, before: map<PeerKey, Demand>, demands: map<PeerKey, Demand>,
                   was: map<PeerKey, SyncState>, states: map<PeerKey, SyncState>, now: nat)
    requires forall k :: k in owner && owner[k] == s ==> k == key
    requires if key in was && Idle(was[key], now) then
               && key in demands && demands == before[key := demands[key]] && demands[key].asked == AskedOf(before, key) + 1
               && key in states && states == was[key := states[key]] && key in owner && owner[key] == s
             else demands == before && states == was
    ensures OnceIfIdle({s}, owner, before, demands, was, states, now)
  {
  }

  lemma NobodyOwnedBy(s: Socket, connections: Connections, owner: Owners, demands: map<PeerKey, Demand>, states: map<PeerKey, SyncState>, now: nat)
    requires forall k :: OwnerAt(k, connections, owner)
    requires s in connections ==> connections[s].phase != Ready
    ensures OnceIfIdle({s}, owner, demands, demands, states, states, now)
  {
    forall k ensures OnceIfIdleAt(k, {s}, owner, demands, demands, states, states, now) {
      assert OwnerAt(k, connections, owner);
    }
  }

  lemma OnceIfIdleFurther(s: Socket, done: set<Socket>, owner: Owners, d0: map<PeerKey, Demand>, d1: map<PeerKey, Demand>, d2: map<PeerKey, Demand>,
                          s0: map<PeerKey, SyncState>, s1: map<PeerKey, SyncState>, s2: map<PeerKey, SyncState>, now: nat)
    requires s !in done && OnceIfIdle(done, owner, d0, d1, s0, s1, now) && OnceIfIdle({s}, owner, d1, d2, s1, s2, now)
    ensures OnceIfIdle(done + {s}, owner, d0, d2, s0, s2, now)
  {
    forall k ensures OnceIfIdleAt(k, done + {s}, owner, d0, d2, s0, s2, now) {
      assert OnceIfIdleAt(k, done, owner, d0, d1, s0, s1, now) && OnceIfIdleAt(k, {s}, owner, d1, d2, s1, s2, now);
    }
  }

  lemma LateAndIdle(connections: Connections, owner: Owners, d0: map<PeerKey, Demand>, d1: map<PeerKey, Demand>, d2: map<PeerKey, Demand>,
                    s0: map<PeerKey, SyncState>, s1: map<PeerKey, SyncState>, s2: map<PeerKey, SyncState>, now: nat)
    requires forall k :: OwnerAt(k, connections, owner)
    requires OnceIfLate(owner, d0, d1, s0, s1, now) && OnceIfIdle(connections.Keys, owner, d1, d2, s1, s2, now)
    ensures OnceIfDue(owner, d0, d2, s0, s2, now)
  {
    forall k ensures OnceIfDueAt(k, owner, d0, d2, s0, s2, now) {
      assert OwnerAt(k, connections, owner);
      assert OnceIfLateAt(k, owner, d0, d1, s0, s1, now) && OnceIfIdleAt(k, connections.Keys, owner, d1, d2, s1, s2, now);
    }
  }

  lemma SweepIsOnceIfLate(owner: Owners, before: map<PeerKey, Demand>, demands: map<PeerKey, Demand>, was: map<PeerKey, SyncState>,
                          states: map<PeerKey, SyncState>, first: SyncTables, last: SyncTables, luck: nat -> Luck, now: nat)
    requires Swept(first, {}, {}, last, luck, now)
    requires was == first.states && before == first.demands && states == last.states && demands == last.demands
    requires was.Keys == before.Keys && states.Keys == was.Keys && demands.Keys == was.Keys
    ensures OnceIfLate(owner, before, demands, was, states, now)
  {
    forall k ensures OnceIfLateAt(k, owner, before, demands, was, states, now) {
      assert SweptAt(k, {}, {}, first.states, first.demands, last.states, last.demands, luck, last.trials, |first.trials|, now);
    }
  }

  lemma ThinnedBetween(first: Connections, second: Connections, third: Connections, f1: set<PeerKey>, f2: set<PeerKey>)
    requires Thinned(first, second, f1) && Thinned(second, third, f2) && third == first
    ensures second == first
  {
    forall s ensures s in second <==> s in first {
      assert ThinnedAt(s, first, second, f1) && ThinnedAt(s, second, third, f2);
    }
    forall s | s in second ensures second[s] == first[s] {
      assert ThinnedAt(s, first, second, f1);
    }
  }

  /** The connections determine the owners. */
  lemma SameOwners(connections: Connections, owner: Owners, owner': Owners)
    requires forall k :: OwnerAt(k, connections, owner)
    requires forall s :: OpenAt(s, connections, owner)
    requires forall k :: OwnerAt(k, connections, owner')
    requires forall s :: OpenAt(s, connections, owner')
    ensures owner == owner'
  {
    forall k ensures (k in owner <==> k in owner') && (k in owner ==> owner[k] == owner'[k]) {
      assert OwnerAt(k, connections, owner) && OwnerAt(k, connections, owner');
      if k in owner {
        assert OpenAt(owner[k], connections, owner');
      }
      if k in owner' {
        assert OpenAt(owner'[k], connections, owner);
      }
    }
  }

  lemma OwnedBy(s: Socket, connections: Connections, owner: Owners)
    requires forall k :: OwnerAt(k, connections, owner)
    ensures forall k :: k in owner && owner[k] == s ==> s in connections && connections[s].phase == Ready && connections[s].Key() == k
  {
    forall k | k in owner && owner[k] == s
      ensures s in connections && connections[s].phase == Ready && connections[s].Key() == k
    {
      assert OwnerAt(k, connections, owner);
    }
  }

  lemma StillOwnedBy(s: Socket, key: PeerKey, was: Owners, owner: Owners, before: map<PeerKey, Demand>, demands: map<PeerKey, Demand>)
    requires Remaining(was, owner, before, demands) && key !in owner
    requires forall k :: k in was && was[k] == s ==> k == key
    ensures forall k :: k in owner ==> owner[k] != s
  {
    forall k | k in owner ensures owner[k] != s {
      assert RemainingAt(k, was, owner, before, demands);
    }
  }

  /** Asking one peer, or nobody, changes nothing about the others. */
  lemma AskingRemains(key: PeerKey, owner: Owners, before: map<PeerKey, Demand>, demands: map<PeerKey, Demand>,
                          was: map<PeerKey, SyncState>, states: map<PeerKey, SyncState>)
    requires (demands == before && states == was)
          || (key in demands && demands == before[key := demands[key]] && demands[key].asked > AskedOf(before, key)
              && key in states && states == was[key := states[key]])
    ensures Remaining(owner, owner, before, demands) && Untouched(owner, before, demands, was, states)
  {
  }

  /** While nobody has been closed, everybody told so far has been told once; a closed peer has been announced to all. */
  ghost predicate ToldSoFar(was: Connections, connections: Connections, before: Owners, owner: Owners, network: string, exclude: Option<u32>, todo: set<u32>,
                            d0: map<PeerKey, Demand>, d1: map<PeerKey, Demand>)
  {
    if connections == was then owner == before && ToldOnce(owner, network, exclude, todo, d0, d1)
    else Told(owner, network, None, {}, d0, d1)
  }

  lemma ToldSoFarFurther(id: u32, first: Connections, second: Connections, third: Connections, o1: Owners, o2: Owners, o3: Owners,
                         network: string, exclude: Option<u32>, todo: set<u32>,
                         d0: map<PeerKey, Demand>, d1: map<PeerKey, Demand>, d2: map<PeerKey, Demand>, f1: set<PeerKey>, f2: set<PeerKey>)
    requires ToldSoFar(first, second, o1, o2, network, exclude, todo, d0, d1) && id in todo
    requires Shrunk(first, second, network, {}, f1) && Shrunk(second, third, network, {}, f2)
    requires Remaining(o1, o2, d0, d1) && Remaining(o2, o3, d1, d2)
    requires if third == second then o3 == o2 && (if Some(id) == exclude then d2 == d1 else AskedOnce(PeerKey(network, id), o3, d1, d2))
             else Told(o3, network, None, {}, d1, d2)
    ensures ToldSoFar(first, third, o1, o3, network, exclude, todo - {id}, d0, d2)
  {
    if third == first {
      ShrunkBetween(first, second, third, network, {}, f1, f2);
      ToldOnceFurther(id, o3, network, exclude, todo, d0, d1, d2);
    } else if third == second {
      ToldStill(o2, o3, network, None, d0, d1, d2);
    } else {
      ToldSince(o1, o2, o3, network, None, d0, d1, d2);
    }
  }

  lemma Absent<K, V>(k: K, m: map<K, V>)
    ensures k !in m ==> m - {k} == m
  {
  }

  lemma SameShrunk(connections: Connections, network: string, failed: set<PeerKey>)
    ensures Shrunk(connections, connections, network, {}, failed)
  {
  }

  /** A key that is not registered, or only pending, has no owner. */
  lemma NoOwner(key: PeerKey, connections: Connections, owner: Owners, bound: set<PeerKey>, rooms: RoomMap, pending: Option<Socket>)
    requires Tables(connections, owner, bound, rooms, pending) && Unowned(pending, connections, owner, key.network, {})
    requires Lookup(rooms, key).None? || (Lookup(rooms, key).value in connections && connections[Lookup(rooms, key).value].phase != Ready)
    ensures key !in owner
  {
    FoundIsOwner(key, connections, owner, bound, rooms, pending);
    assert OwnerAt(key, connections, owner);
  }

  class EasyTierServer {
    var connections: Connections
    const rooms: RoomRegistry
    const rpc: EasyTierRpc
    ghost var owner: Owners  // the ready connection of each peer

    /** `pending` is registered but not ready; the update of every peer in `failing` has failed. */
    ghost predicate Inv(failing: set<PeerKey>, pending: Option<Socket>)
      reads this, rpc, rooms
    {
      && rooms.Valid() && rpc.Valid(failing)
      && Tables(connections, owner, rpc.bound.Keys, rooms.rooms, pending)
    }

    /** Between events. */
    ghost predicate Valid()
      reads this, rpc, rooms
    {
      Inv({}, None)
    }

    constructor (luck: nat -> Luck)
      ensures Valid() && connections == map[] && rpc.luck == luck
    {
      connections, owner := map[], map[];
      rooms := new RoomRegistry();
      rpc := new EasyTierRpc(luck);
    }

    method Close(s: Socket, now: nat, ghost failing: set<PeerKey>, ghost pending: Option<Socket>)
      requires s in connections && Inv(failing, pending) && rpc.clock <= now
      requires Unowned(pending, connections, owner, connections[s].network, {s})
      modifies this, rooms, rpc
      ensures Inv(failing, if Some(s) == pending then None else pending) && rpc.clock == now
      ensures s in old(connections) && s !in connections && old(rpc.failed) <= rpc.failed && rpc.commits == old(rpc.commits)
      ensures Shrunk(old(connections), connections, old(connections)[s].network, {s}, rpc.failed)
      ensures Remaining(old(owner), owner, old(rpc.demands), rpc.demands)
      ensures Untouched(owner, old(rpc.demands), rpc.demands, old(rpc.states), rpc.states)
      ensures old(connections)[s].phase == Ready ==> Told(owner, old(connections)[s].network, None, {}, old(rpc.demands), rpc.demands)
      ensures old(connections)[s].phase != Ready ==>
        connections == old(connections) - {s} && rpc.demands == old(rpc.demands) && rpc.states == old(rpc.states)
      ensures Elsewhere(old(connections)[s].network, old(rpc.demands), rpc.demands, old(rpc.states), rpc.states)
      decreases |connections|, 1
    {
      RemoveConnection(s, now, failing, pending);
    }

    method RemoveConnection(s: Socket, now: nat, ghost failing: set<PeerKey>, ghost pending: Option<Socket>)
      requires s in connections && Inv(failing, pending) && rpc.clock <= now
      requires Unowned(pending, connections, owner, connections[s].network, {s})
      modifies this, rooms, rpc
      ensures Inv(failing, if Some(s) == pending then None else pending) && rpc.clock == now
      ensures s in old(connections) && s !in connections && old(rpc.failed) <= rpc.failed && rpc.commits == old(rpc.commits)
      ensures Shrunk(old(connections), connections, old(connections)[s].network, {s}, rpc.failed)
      ensures Remaining(old(owner), owner, old(rpc.demands), rpc.demands)
      ensures Untouched(owner, old(rpc.demands), rpc.demands, old(rpc.states), rpc.states)
      ensures old(connections)[s].phase == Ready ==> Told(owner, old(connections)[s].network, None, {}, old(rpc.demands), rpc.demands)
      ensures old(connections)[s].phase != Ready ==>
        connections == old(connections) - {s} && rpc.demands == old(rpc.demands) && rpc.states == old(rpc.states)
      ensures Elsewhere(old(connections)[s].network, old(rpc.demands), rpc.demands, old(rpc.states), rpc.states)
      decreases |connections|, 0
    {
      var c := connections[s];
      ghost var pending' := if Some(s) == pending then None else pending;
      Detach(s, now, failing, pending);
      if c.phase == Ready {
        ghost var connections1, owner1, failed1 := connections, owner, rpc.failed;
        ghost var demands1, states1 := rpc.demands, rpc.states;
        BroadcastRouteUpdate(c.network, None, now, failing, pending');
        assert ShrunkAt(s, connections1, connections, c.network, {}, rpc.failed);
        ShrunkFurther(old(connections), connections1, connections, c.network, {s}, failed1, rpc.failed);
        RemainingFurther(old(owner), owner1, owner, old(rpc.demands), demands1, rpc.demands);
        UntouchedFurther(old(owner), owner1, owner, old(rpc.demands), demands1, rpc.demands, old(rpc.states), states1, rpc.states);
        ToldSince(old(owner), owner1, owner, c.network, None, old(rpc.demands), demands1, rpc.demands);
        ElsewhereFurther(c.network, old(rpc.demands), demands1, rpc.demands, old(rpc.states), states1, rpc.states);
      }
    }

    /** The part of a removal before the change is announced: s leaves every table. */
    method Detach(s: Socket, now: nat, ghost failing: set<PeerKey>, ghost pending: Option<Socket>)
      requires s in connections && Inv(failing, pending) && rpc.clock <= now
      requires Unowned(pending, connections, owner, connections[s].network, {s})
      modifies this, rooms, rpc
      ensures Inv(failing, if Some(s) == pending then None else pending) && rpc.clock == now
      ensures s in old(connections) && connections == old(connections) - {s} && |connections| < |old(connections)|
      ensures rpc.failed == old(rpc.failed) && rpc.commits == old(rpc.commits)
      ensures Shrunk(old(connections), connections, old(connections)[s].network, {s}, rpc.failed)
      ensures Remaining(old(owner), owner, old(rpc.demands), rpc.demands)
      ensures Untouched(owner, old(rpc.demands), rpc.demands, old(rpc.states), rpc.states)
      ensures old(connections)[s].phase == Ready ==>
        Unowned(if Some(s) == pending then None else pending, connections, owner, old(connections)[s].network, {})
      ensures old(connections)[s].phase != Ready ==> rpc.demands == old(rpc.demands) && rpc.states == old(rpc.states)
      ensures Elsewhere(old(connections)[s].network, old(rpc.demands), rpc.demands, old(rpc.states), rpc.states)
    {
      var c := connections[s];
      SameElsewhere(c.network, rpc.demands, rpc.states);
      rpc.clock := now;
      connections := connections - {s};
      var deleted := rooms.Delete(s, c.Key());
      RemovalKeepsTables(s, old(connections), owner, rpc.bound.Keys, old(rooms.rooms), rooms.rooms, pending);
      Gone(s, old(connections), owner, rpc.demands, rpc.failed);
      SameUntouched(owner, rpc.demands, rpc.states);
      if c.phase == Ready {
        rpc.RemovePeer(c.Key(), failing);
        owner := owner - {c.Key()};
        GoneOwner(c.Key(), old(owner), old(rpc.bound), old(rpc.demands), old(rpc.states));
        OneElsewhere(c.Key(), old(rpc.demands), rpc.demands, old(rpc.states), rpc.states);
      }
    }

    method BroadcastRouteUpdate(network: string, exclude: Option<u32>, now: nat, ghost failing: set<PeerKey>, ghost pending: Option<Socket>)
      requires Inv(failing, pending) && rpc.clock <= now
      requires Unowned(pending, connections, owner, network, {})
      modifies this, rooms, rpc
      ensures Inv(failing, pending) && rpc.clock == now && old(rpc.failed) <= rpc.failed && rpc.commits == old(rpc.commits)
      ensures Shrunk(old(connections), connections, network, {}, rpc.failed)
      ensures Remaining(old(owner), owner, old(rpc.demands), rpc.demands)
      ensures Untouched(owner, old(rpc.demands), rpc.demands, old(rpc.states), rpc.states)
      ensures Told(owner, network, exclude, {}, old(rpc.demands), rpc.demands)
      ensures Elsewhere(network, old(rpc.demands), rpc.demands, old(rpc.states), rpc.states)
      ensures if connections == old(connections) then
                owner == old(owner) && ToldOnce(owner, network, exclude, {}, old(rpc.demands), rpc.demands)
              else Told(owner, network, None, {}, old(rpc.demands), rpc.demands)
      decreases |connections|, 5
    {
      var ids := rooms.Peers(network);
      rpc.clock := now;
      SameElsewhere(network, rpc.demands, rpc.states);
      NobodyToldOnce(ids, owner, connections, rpc.bound.Keys, rooms.rooms, pending, network, exclude, rpc.demands);
      NobodyTold(ids, connections, owner, rpc.bound.Keys, rooms.rooms, pending, network, exclude, rpc.demands, rpc.failed);
      SameUntouched(owner, rpc.demands, rpc.states);
      while ids != {}
        invariant Inv(failing, pending) && rpc.clock == now && old(rpc.failed) <= rpc.failed && rpc.commits == old(rpc.commits)
        invariant Unowned(pending, connections, owner, network, {})
        invariant Shrunk(old(connections), connections, network, {}, rpc.failed)
        invariant Remaining(old(owner), owner, old(rpc.demands), rpc.demands)
        invariant Untouched(owner, old(rpc.demands), rpc.demands, old(rpc.states), rpc.states)
        invariant Told(owner, network, exclude, ids, old(rpc.demands), rpc.demands)
        invariant Elsewhere(network, old(rpc.demands), rpc.demands, old(rpc.states), rpc.states)
        invariant ToldSoFar(old(connections), connections, old(owner), owner, network, exclude, ids, old(rpc.demands), rpc.demands)
        decreases ids
      {
        var id :| id in ids;
        ghost var connections0, owner0, demands0, states0, failed0 := connections, owner, rpc.demands, rpc.states, rpc.failed;
        if Some(id) != exclude {
          ShrunkIsFewer(old(connections), connections, network, {}, failed0);
          Announce(network, id, now, failing, pending);
          ShrunkFurther(old(connections), connections0, connections, network, {}, failed0, rpc.failed);
        } else {
          SameRemains(owner, rpc.demands);
          SameUntouched(owner, rpc.demands, rpc.states);
          SameElsewhere(network, rpc.demands, rpc.states);
          SameShrunk(connections, network, rpc.failed);
        }
        ToldSoFarFurther(id, old(connections), connections0, connections, old(owner), owner0, owner, network, exclude, ids,
                         old(rpc.demands), demands0, rpc.demands, failed0, rpc.failed);
        ElsewhereFurther(network, old(rpc.demands), demands0, rpc.demands, old(rpc.states), states0, rpc.states);
        UntouchedFurther(old(owner), owner0, owner, old(rpc.demands), demands0, rpc.demands, old(rpc.states), states0, rpc.states);
        ToldFurther(id, old(owner), owner0, owner, network, exclude, ids, old(rpc.demands), demands0, rpc.demands);
        RemainingFurther(old(owner), owner0, owner, old(rpc.demands), demands0, rpc.demands);
        ids := ids - {id};
      }
    }

    /** One step of a broadcast: a peer that cannot be told is closed. */
    method Announce(network: string, id: u32, now: nat, ghost failing: set<PeerKey>, ghost pending: Option<Socket>)
      requires Inv(failing, pending) && rpc.clock <= now
      requires Unowned(pending, connections, owner, network, {})
      modifies this, rooms, rpc
      ensures Inv(failing, pending) && rpc.clock == now && old(rpc.failed) <= rpc.failed && rpc.commits == old(rpc.commits)
      ensures Unowned(pending, connections, owner, network, {})
      ensures Shrunk(old(connections), connections, network, {}, rpc.failed)
      ensures Remaining(old(owner), owner, old(rpc.demands), rpc.demands)
      ensures Untouched(owner, old(rpc.demands), rpc.demands, old(rpc.states), rpc.states)
      ensures AskedMore(PeerKey(network, id), owner, old(rpc.demands), rpc.demands)
      ensures Elsewhere(network, old(rpc.demands), rpc.demands, old(rpc.states), rpc.states)
      ensures if connections == old(connections) then
                owner == old(owner) && AskedOnce(PeerKey(network, id), owner, old(rpc.demands), rpc.demands)
              else Told(owner, network, None, {}, old(rpc.demands), rpc.demands)
      decreases |connections|, 4
    {
      rpc.clock := now;
      var peer := rooms.Get(network, id);
      var key := PeerKey(network, id);
      FoundIsOwner(key, connections, owner, rpc.bound.Keys, rooms.rooms, pending);
      if peer.None? || connections[peer.value].phase != Ready {
        SameRemains(owner, rpc.demands);
        SameUntouched(owner, rpc.demands, rpc.states);
        SameElsewhere(network, rpc.demands, rpc.states);
        NoOwner(key, connections, owner, rpc.bound.Keys, rooms.rooms, pending);
        OneAsked(key, owner, rpc.demands, rpc.demands);
        SameShrunk(connections, network, rpc.failed);
        return;
      }
      Tell(peer.value, key, now, failing, pending);
    }

    /** An owner is asked, and closed if that fails. */
    method Tell(s: Socket, key: PeerKey, now: nat, ghost failing: set<PeerKey>, ghost pending: Option<Socket>)
      requires Inv(failing, pending) && rpc.clock <= now
      requires s in connections && connections[s].phase == Ready && connections[s].Key() == key && key in owner && owner[key] == s && key in rpc.bound
      requires Unowned(pending, connections, owner, key.network, {})
      modifies this, rooms, rpc
      ensures Inv(failing, pending) && rpc.clock == now && old(rpc.failed) <= rpc.failed && rpc.commits == old(rpc.commits)
      ensures Unowned(pending, connections, owner, key.network, {})
      ensures Shrunk(old(connections), connections, key.network, {}, rpc.failed)
      ensures Remaining(old(owner), owner, old(rpc.demands), rpc.demands)
      ensures Untouched(owner, old(rpc.demands), rpc.demands, old(rpc.states), rpc.states)
      ensures AskedMore(key, owner, old(rpc.demands), rpc.demands)
      ensures Elsewhere(key.network, old(rpc.demands), rpc.demands, old(rpc.states), rpc.states)
      ensures if connections == old(connections) then owner == old(owner) && AskedOnce(key, owner, old(rpc.demands), rpc.demands)
              else Told(owner, key.network, None, {}, old(rpc.demands), rpc.demands)
      decreases |connections|, 3
    {
      SameShrunk(connections, key.network, rpc.failed);
      var sent := rpc.SendRouteUpdate(key, false, now, failing);
      AskingRemains(key, owner, old(rpc.demands), rpc.demands, old(rpc.states), rpc.states);
      OneElsewhere(key, old(rpc.demands), rpc.demands, old(rpc.states), rpc.states);
      OneAsked(key, owner, old(rpc.demands), rpc.demands);
      if !sent {
        ghost var demands0, states0 := rpc.demands, rpc.states;
        CloseRefused(s, key, now, failing, pending);
        ElsewhereFurther(key.network, old(rpc.demands), demands0, rpc.demands, old(rpc.states), states0, rpc.states);
        ToldSince(old(owner), old(owner), owner, key.network, None, old(rpc.demands), demands0, rpc.demands);
        RemainingFurther(old(owner), old(owner), owner, old(rpc.demands), demands0, rpc.demands);
        UntouchedFurther(old(owner), old(owner), owner, old(rpc.demands), demands0, rpc.demands, old(rpc.states), states0, rpc.states);
      }
    }

    /** A peer that an update could not be sent to is closed, and need not be set aside any longer. */
    method CloseRefused(s: Socket, key: PeerKey, now: nat, ghost failing: set<PeerKey>, ghost pending: Option<Socket>)
      requires Inv(failing + {key}, pending) && rpc.clock <= now && key in rpc.failed
      requires s in connections && connections[s].phase == Ready && connections[s].Key() == key && key in owner && owner[key] == s
      requires Unowned(pending, connections, owner, key.network, {})
      modifies this, rooms, rpc
      ensures Inv(failing, pending) && rpc.clock == now && old(rpc.failed) <= rpc.failed && rpc.commits == old(rpc.commits)
      ensures Unowned(pending, connections, owner, key.network, {}) && key !in owner && connections != old(connections)
      ensures Shrunk(old(connections), connections, key.network, {}, rpc.failed)
      ensures Remaining(old(owner), owner, old(rpc.demands), rpc.demands)
      ensures Untouched(owner, old(rpc.demands), rpc.demands, old(rpc.states), rpc.states)
      ensures Elsewhere(key.network, old(rpc.demands), rpc.demands, old(rpc.states), rpc.states)
      ensures Told(owner, key.network, None, {}, old(rpc.demands), rpc.demands)
      decreases |connections|, 2
    {
      Close(s, now, failing + {key}, pending);
      ReadyHasGone(s, pending, old(connections), connections, old(owner), owner, key.network, rpc.failed, old(rpc.demands), rpc.demands);
      ClosedOwnsNothing(s, key, old(owner), connections, owner, rpc.bound.Keys, rooms.rooms, pending, old(rpc.demands), rpc.demands);
      rpc.ForgetFailing(key, failing);
    }

    // ----- Events -----

    /** A new WebSocket is accepted while there is room. */
    method Accept(s: Socket) returns (accepted: bool)
      requires Valid() && s !in connections
      modifies this`connections
      ensures Valid() && accepted == (|old(connections)| < MAX_CONNECTIONS)
      ensures connections == if accepted then old(connections)[s := Connection(Msg1, "", 0, [])] else old(connections)
    {
      if |connections| >= MAX_CONNECTIONS {
        return false;
      }
      UnreadyChange(s, Connection(Msg1, "", 0, []), connections, owner, rpc.bound.Keys, rooms.rooms);
      connections := connections[s := Connection(Msg1, "", 0, [])];
      return true;
    }

    /** The socket was closed, or its handshake took too long. */
    method Closed(s: Socket, now: nat)
      requires Valid() && rpc.clock <= now
      modifies this, rooms, rpc
      ensures Valid() && s !in connections
      ensures s in old(connections) ==>
        && Shrunk(old(connections), connections, old(connections)[s].network, {s}, rpc.failed)
        && Elsewhere(old(connections)[s].network, old(rpc.demands), rpc.demands, old(rpc.states), rpc.states)
        && (if old(connections)[s].phase == Ready then Told(owner, old(connections)[s].network, None, {}, old(rpc.demands), rpc.demands)
            else connections == old(connections) - {s} && rpc.demands == old(rpc.demands) && rpc.states == old(rpc.states))
      ensures s !in old(connections) ==> connections == old(connections) && rpc.demands == old(rpc.demands) && rpc.states == old(rpc.states)
    {
      if s in connections {
        RemoveConnection(s, now, {}, None);
      }
    }

    /** The first handshake message names the network and the peer; `replies` says whether message 2 can be built and sent. */
    method HandleMessage1(s: Socket, frame: Frame, configured: set<string>, replies: bool, now: nat) returns (ok: bool)
      requires Valid() && s in connections && connections[s].phase == Msg1 && rpc.clock <= now && frame != Malformed
      modifies this, rooms, rpc
      ensures Valid() && rpc.clock == now && rpc.commits == old(rpc.commits) && rpc.demands == old(rpc.demands) && rpc.states == old(rpc.states)
      ensures ok <==> frame.packetType == HandshakeMsg1 && frame.body.Hello? && (frame.body.network !in configured || replies)
      ensures connections ==
        if frame.packetType != HandshakeMsg1 || !frame.body.Hello? then old(connections)
        else if frame.body.network !in configured then old(connections) - {s}
        else old(connections)[s := Connection(if replies then Msg3 else Msg1, frame.body.network, frame.body.peerId, [])]
    {
      rpc.clock := now;
      if frame.packetType != HandshakeMsg1 || !frame.body.Hello? {
        return false;
      }
      var network, peerId := frame.body.network, frame.body.peerId;
      if network !in configured {
        Close(s, now, {}, None);
        return true;
      }
      var c := Connection(Msg1, network, peerId, []);
      if replies {
        c := c.(phase := Msg3);
      }
      UnreadyChange(s, c, connections, owner, rpc.bound.Keys, rooms.rooms);
      connections := connections[s := c];
      return replies;
    }

    /** s takes its key in the registry, and a former connection of the same peer is closed. */
    method TakeOver(s: Socket, now: nat)
      requires Valid() && s in connections && connections[s].phase == Msg3 && rpc.clock <= now
      modifies this, rooms, rpc
      ensures Inv({}, Some(s)) && rpc.clock == now && connections[s] == old(connections)[s] && rpc.commits == old(rpc.commits)
      ensures s in old(connections) && connections[s].Key() !in owner && connections[s].Key() !in rpc.bound
      ensures Shrunk(old(connections), connections, old(connections)[s].network, {}, rpc.failed + {old(connections)[s].Key()})
      ensures Remaining(old(owner), owner, old(rpc.demands), rpc.demands)
      ensures Elsewhere(old(connections)[s].network, old(rpc.demands), rpc.demands, old(rpc.states), rpc.states)
    {
      var c := connections[s];
      var key := c.Key();
      SameRemains(owner, rpc.demands);
      SameElsewhere(c.network, rpc.demands, rpc.states);
      FoundIsOwner(key, connections, owner, rpc.bound.Keys, rooms.rooms, None);
      var previous := rooms.Set(s, key);
      RegisteringKeepsTables(s, connections, owner, rpc.bound.Keys, old(rooms.rooms), rooms.rooms);
      rpc.clock := now;
      if previous.Some? {
        var p := previous.value;
        Close(p, now, {}, Some(s));
        ClosedOwnsNothing(p, key, old(owner), connections, owner, rpc.bound.Keys, rooms.rooms, Some(s), old(rpc.demands), rpc.demands);
        PeerHasGone(p, old(connections), connections, c.network, rpc.failed);
      }
      assert ShrunkAt(s, old(connections), connections, c.network, {}, rpc.failed + {key});
    }

    /** After the take-over the key is bound anew; that cannot be refused. */
    method RegisterConnection(s: Socket, now: nat)
      requires Valid() && s in connections && connections[s].phase == Msg3 && |connections[s].remotePublicKey| == 32 && rpc.clock <= now
      modifies this, rooms, rpc
      ensures s in old(connections) && s in connections && connections[s] == old(connections)[s]
      ensures rooms.Valid() && rpc.Valid({}) && rpc.clock == now && rpc.commits == old(rpc.commits)
      ensures var key := old(connections)[s].Key();
        && key in rpc.bound && rpc.bound[key] == old(connections)[s].remotePublicKey && key !in owner
        && Tables(connections, owner, rpc.bound.Keys - {key}, rooms.rooms, Some(s))
      ensures Shrunk(old(connections), connections, old(connections)[s].network, {}, rpc.failed + {old(connections)[s].Key()})
      ensures Remaining(old(owner), owner, old(rpc.demands), rpc.demands)
      ensures Elsewhere(old(connections)[s].network, old(rpc.demands), rpc.demands, old(rpc.states), rpc.states)
    {
      TakeOver(s, now);
      var key := connections[s].Key();
      ghost var bound, failed := rpc.bound, rpc.failed;
      Absent(key, rpc.states);
      Absent(key, rpc.demands);
      var accepted := rpc.AddPeer(key, connections[s].remotePublicKey, {});
      assert accepted;
      assert rpc.bound.Keys - {key} == bound.Keys && rpc.failed + {key} == failed + {key};
    }

    method CompleteHandshake(s: Socket)
      requires s in connections && connections[s].phase == Msg3 && rooms.Valid() && rpc.Valid({})
      requires var key := connections[s].Key();
        key in rpc.bound && key !in owner && Tables(connections, owner, rpc.bound.Keys - {key}, rooms.rooms, Some(s))
      modifies this
      ensures Valid() && s in old(connections)
      ensures connections == old(connections)[s := old(connections)[s].(phase := Ready)]
      ensures owner == old(owner)[old(connections)[s].Key() := s]
    {
      ReadyKeepsTables(s, connections, owner, rpc.bound.Keys, rooms.rooms);
      owner := owner[connections[s].Key() := s];
      connections := connections[s := connections[s].(phase := Ready)];
    }

    /** The identity of the first message is confirmed: the connection becomes the one of its peer, and the network is told. */
    method HandleMessage3(s: Socket, frame: Frame, now: nat) returns (ok: bool)
      requires Valid() && s in connections && connections[s].phase == Msg3 && rpc.clock <= now && frame != Malformed
      modifies this, rooms, rpc
      ensures Valid() && rpc.clock == now && rpc.commits == old(rpc.commits) && s in old(connections)
      ensures ok <==> Confirms(frame, old(connections)[s])
      ensures Apart(s, old(connections), connections, old(connections)[s].network, rpc.failed + {old(connections)[s].Key()})
      ensures Elsewhere(old(connections)[s].network, old(rpc.demands), rpc.demands, old(rpc.states), rpc.states)
      ensures !ok ==> connections == old(connections) && rpc.demands == old(rpc.demands) && rpc.states == old(rpc.states)
      ensures ok ==>
        if s in connections then connections[s] == old(connections)[s].(phase := Ready, remotePublicKey := frame.body.key)
        else old(connections)[s].Key() in rpc.failed
      ensures ok ==> Told(owner, old(connections)[s].network, Some(old(connections)[s].peerId), {}, old(rpc.demands), rpc.demands)
      ensures ok ==> AskedMore(old(connections)[s].Key(), owner, map[], rpc.demands)
    {
      rpc.clock := now;
      var c := connections[s];
      SameElsewhere(c.network, rpc.demands, rpc.states);
      if frame.packetType != HandshakeMsg3 || !frame.body.Authenticated? || |frame.body.key| != 32
         || frame.body.peerId != c.peerId || frame.body.network != c.network
      {
        SameApart(s, connections, c.network, rpc.failed + {c.Key()});
        return false;
      }
      Establish(s, frame.body.key, now);
      return true;
    }

    /** The connection is registered, bound and ready, and its network is told. */
    method Establish(s: Socket, key: Key32, now: nat)
      requires Valid() && s in connections && connections[s].phase == Msg3 && |key| == 32 && rpc.clock <= now
      modifies this, rooms, rpc
      ensures Valid() && rpc.clock == now && rpc.commits == old(rpc.commits) && s in old(connections)
      ensures Apart(s, old(connections), connections, old(connections)[s].network, rpc.failed + {old(connections)[s].Key()})
      ensures Elsewhere(old(connections)[s].network, old(rpc.demands), rpc.demands, old(rpc.states), rpc.states)
      ensures if s in connections then connections[s] == old(connections)[s].(phase := Ready, remotePublicKey := key)
              else old(connections)[s].Key() in rpc.failed
      ensures Told(owner, old(connections)[s].network, Some(old(connections)[s].peerId), {}, old(rpc.demands), rpc.demands)
      ensures AskedMore(old(connections)[s].Key(), owner, map[], rpc.demands)
    {
      var c := connections[s].(remotePublicKey := key);
      UnreadyChange(s, c, connections, owner, rpc.bound.Keys, rooms.rooms);
      connections := connections[s := c];
      RegisterConnection(s, now);
      ghost var connections1, owner1, demands1, states1, failed1 := connections, owner, rpc.demands, rpc.states, rpc.failed;
      CompleteHandshake(s);
      BroadcastRouteUpdate(c.network, None, now, {}, None);
      ElsewhereFurther(c.network, old(rpc.demands), demands1, rpc.demands, old(rpc.states), states1, rpc.states);
      Established(s, c, old(connections), connections1, connections, failed1, rpc.failed, old(owner), owner1, owner, old(rpc.demands), demands1, rpc.demands);
    }

    /** A frame for another peer is passed on, one hop further; a target that cannot take it is closed. */
    method Forward(s: Socket, frame: Frame, sends: bool, now: nat) returns (ok: bool, handed: Option<Frame>)
      requires Valid() && s in connections && connections[s].phase == Ready && rpc.clock <= now
      requires frame != Malformed && frame.toPeer != SERVER_PEER_ID
      modifies this, rooms, rpc
      ensures Valid() && rpc.clock == now && s in old(connections) && rpc.commits == old(rpc.commits)
      ensures var target := PeerKey(old(connections)[s].network, frame.toPeer);
        && (ok <==> target !in old(owner) || frame.hops <= Packet.MAX_FORWARD_HOPS)
        && handed == HandedOn(frame, old(connections)[s], old(owner), old(rpc.outstanding), sends, now)
        && (target !in old(owner) || !ok || sends ==>
              connections == old(connections) && owner == old(owner) && rpc.demands == old(rpc.demands) && rpc.states == old(rpc.states))
        && (target in old(owner) && ok && !sends ==>
              && old(owner)[target] !in connections && connections != old(connections) && (target == old(connections)[s].Key() ==> s !in connections)
              && Told(owner, target.network, None, {}, old(rpc.demands), rpc.demands))
        && (s !in connections ==> (target == old(connections)[s].Key() && ok && !sends) || old(connections)[s].Key() in rpc.failed)
      ensures Apart(s, old(connections), connections, old(connections)[s].network,
                    rpc.failed + {PeerKey(old(connections)[s].network, frame.toPeer)})
      ensures Elsewhere(old(connections)[s].network, old(rpc.demands), rpc.demands, old(rpc.states), rpc.states)
      ensures s in connections ==> connections[s] == old(connections)[s]
    {
      rpc.clock := now;
      var c := connections[s];
      var network := c.network;
      SameApart(s, connections, network, rpc.failed + {PeerKey(network, frame.toPeer)});
      SameElsewhere(network, rpc.demands, rpc.states);
      var target := rooms.Get(network, frame.toPeer);
      FoundIsOwner(PeerKey(network, frame.toPeer), connections, owner, rpc.bound.Keys, rooms.rooms, None);
      OwnsItsKey(s, connections, owner, rpc.bound.Keys, rooms.rooms);
      if target.None? || connections[target.value].phase != Ready {
        return true, None;
      }
      if frame.hops > Packet.MAX_FORWARD_HOPS {
        return false, None;
      }
      if !sends {
        var t := target.value;
        Close(t, now, {}, None);
        PeerHasGone(t, old(connections), connections, network, rpc.failed);
        assert ShrunkAt(s, old(connections), connections, network, {t}, rpc.failed);
        ShrunkIsApart(s, old(connections), connections, network, rpc.failed + {PeerKey(network, frame.toPeer)});
        return true, None;
      }
      return true, Some(frame.(hops := frame.hops + 1));
    }

    /**
     Frames of an authenticated peer; `sends` says whether the one frame that goes out in answer can
     be sent, and `handed` is that frame, RPC answers excepted.  After a failure the peer may be
     out of step until it is closed.
     */
    method HandleReadyPacket(s: Socket, frame: Frame, sends: bool, now: nat) returns (ok: bool, handed: Option<Frame>)
      requires Valid() && s in connections && connections[s].phase == Ready && rpc.clock <= now && frame != Malformed
      modifies this, rooms, rpc
      ensures s in old(connections) && rpc.clock == now
      ensures if ok then Valid() else Inv({old(connections)[s].Key()}, None) && connections == old(connections)
      ensures if Unacceptable(frame, old(connections)[s], old(owner), old(rpc.outstanding), sends, now) then !ok || s !in connections
              else (ok && s in connections) || old(connections)[s].Key() in rpc.failed
      ensures handed == HandedOn(frame, old(connections)[s], old(owner), old(rpc.outstanding), sends, now)
      ensures Committed(old(connections)[s], frame, old(rpc.outstanding), old(rpc.buildOf), now, old(rpc.commits), rpc.commits)
      ensures Apart(s, old(connections), connections, old(connections)[s].network, MayClose(old(connections)[s], frame, rpc.failed))
      ensures s in connections ==> connections[s] == old(connections)[s]
      ensures Elsewhere(old(connections)[s].network, old(rpc.demands), rpc.demands, old(rpc.states), rpc.states)
      ensures Answers(ok, frame, old(connections)[s], old(connections), connections, old(owner), owner, old(rpc.demands), rpc.demands)
    {
      handed := None;
      var c := connections[s];
      var key := c.Key();
      SameApart(s, connections, c.network, rpc.failed);
      SameElsewhere(c.network, rpc.demands, rpc.states);
      if frame.toPeer != SERVER_PEER_ID {
        ok, handed := Forward(s, frame, sends, now);
        rpc.MayFail(key);
        return;
      }
      rpc.clock := now;
      rpc.MayFail(key);
      if frame.fromPeer != c.peerId || (frame.encrypted && (frame.packetType == Ping || frame.packetType == Pong)) {
        return false, None;
      }
      if frame.packetType == Ping {
        return sends, if sends then Some(frame.(packetType := Pong)) else None;
      }
      if frame.packetType != RpcReq && frame.packetType != RpcResp {
        return true, None;
      }
      if !frame.encrypted {
        return false, None;
      }
      ok := HandleRpc(s, frame, sends, now);
    }

    method HandleRpc(s: Socket, frame: Frame, sends: bool, now: nat) returns (ok: bool)
      requires Valid() && s in connections && connections[s].phase == Ready && rpc.clock <= now && frame != Malformed
      requires frame.packetType == RpcReq || frame.packetType == RpcResp
      requires frame.toPeer == SERVER_PEER_ID && frame.fromPeer == connections[s].peerId && frame.encrypted
      modifies this, rooms, rpc
      ensures s in old(connections) && rpc.clock == now
      ensures if ok then Valid() else Inv({old(connections)[s].Key()}, None) && connections == old(connections)
      ensures if Unacceptable(frame, old(connections)[s], old(owner), old(rpc.outstanding), sends, now) then !ok
              else (ok && s in connections) || old(connections)[s].Key() in rpc.failed
      ensures Committed(old(connections)[s], frame, old(rpc.outstanding), old(rpc.buildOf), now, old(rpc.commits), rpc.commits)
      ensures Apart(s, old(connections), connections, old(connections)[s].network, rpc.failed)
      ensures s in connections ==> connections[s] == old(connections)[s]
      ensures Elsewhere(old(connections)[s].network, old(rpc.demands), rpc.demands, old(rpc.states), rpc.states)
      ensures Answers(ok, frame, old(connections)[s], old(connections), connections, old(owner), owner, old(rpc.demands), rpc.demands)
    {
      var c := connections[s];
      var key := c.Key();
      SameApart(s, connections, c.network, rpc.failed);
      SameElsewhere(c.network, rpc.demands, rpc.states);
      rpc.clock := now;
      rpc.MayFail(key);
      if frame.body == Replayed {
        return true;
      }
      if frame.packetType == RpcReq {
        if !frame.body.Request? {
          return false;
        }
        ok := ServeRequest(s, frame, sends, now);
      } else {
        if !frame.body.Response? {
          return false;
        }
        ok := ServeResponse(s, frame, now);
      }
    }

    /** An answer to an update of ours touches its transaction and its peer's marks, no connection. */
    method ServeResponse(s: Socket, frame: Frame, now: nat) returns (ok: bool)
      requires Valid() && s in connections && connections[s].phase == Ready && rpc.clock <= now
      requires frame != Malformed && frame.packetType == RpcResp && frame.body.Response?
      requires frame.toPeer == SERVER_PEER_ID && !Objectionable(frame, connections[s])
      modifies rpc
      ensures rpc.clock == now
      ensures if ok then Valid() else Inv({connections[s].Key()}, None)
      ensures if Awaited(connections[s], frame, old(rpc.outstanding), now) then ok || connections[s].Key() in rpc.failed else !ok
      ensures Committed(connections[s], frame, old(rpc.outstanding), old(rpc.buildOf), now, old(rpc.commits), rpc.commits)
      ensures Elsewhere(connections[s].network, old(rpc.demands), rpc.demands, old(rpc.states), rpc.states)
      ensures AskedSame(old(rpc.demands), rpc.demands)
    {
      var key := connections[s].Key();
      OwnsItsKey(s, connections, owner, rpc.bound.Keys, rooms.rooms);
      assert {} + {key} == {key};
      ok := rpc.HandleResponse(key, frame.body.transactionId, frame.body.reply, now, {});
      OneElsewhere(key, old(rpc.demands), rpc.demands, old(rpc.states), rpc.states);
    }

    /** The answer goes out first; a request that changed routes is then announced to everybody else. */
    method ServeRequest(s: Socket, frame: Frame, sends: bool, now: nat) returns (ok: bool)
      requires Valid() && s in connections && connections[s].phase == Ready && rpc.clock <= now
      requires frame != Malformed && frame.packetType == RpcReq && frame.body.Request?
      requires frame.toPeer == SERVER_PEER_ID && !Objectionable(frame, connections[s])
      modifies this, rooms, rpc
      ensures s in old(connections) && rpc.clock == now && rpc.commits == old(rpc.commits)
      ensures if ok then Valid() else Inv({old(connections)[s].Key()}, None) && connections == old(connections)
      ensures if frame.body.result == Pending || sends then (ok && s in connections) || old(connections)[s].Key() in rpc.failed else !ok
      ensures Apart(s, old(connections), connections, old(connections)[s].network, rpc.failed)
      ensures s in connections ==> connections[s] == old(connections)[s]
      ensures Elsewhere(old(connections)[s].network, old(rpc.demands), rpc.demands, old(rpc.states), rpc.states)
      ensures Answers(ok, frame, old(connections)[s], old(connections), connections, old(owner), owner, old(rpc.demands), rpc.demands)
    {
      var c := connections[s];
      OwnsItsKey(s, connections, owner, rpc.bound.Keys, rooms.rooms);
      SameApart(s, connections, c.network, rpc.failed);
      ok := AnswerRequest(s, frame.body.result, sends, now);
      if ok && frame.body.result == Route {
        AnnounceRoute(s, old(rpc.demands), old(rpc.states), now);
      } else {
        SameApart(s, connections, c.network, rpc.failed);
      }
    }

    /** The answer is sent, and one update is asked back where the routes or the session have changed. */
    method AnswerRequest(s: Socket, result: RequestResult, sends: bool, now: nat) returns (ok: bool)
      requires Valid() && s in connections && connections[s].phase == Ready && rpc.clock <= now
      requires connections[s].Key() in rpc.bound && connections[s].Key() in owner
      modifies rpc
      ensures rpc.clock == now && rpc.commits == old(rpc.commits)
      ensures if ok then Valid() else Inv({connections[s].Key()}, None)
      ensures if result == Pending || sends then ok || connections[s].Key() in rpc.failed else !ok
      ensures Elsewhere(connections[s].network, old(rpc.demands), rpc.demands, old(rpc.states), rpc.states)
      ensures AskedNoLess(old(rpc.demands), rpc.demands)
      ensures ok ==> if result == Route || result == RouteSession then AskedOnce(connections[s].Key(), owner, old(rpc.demands), rpc.demands)
                     else AskedSame(old(rpc.demands), rpc.demands)
    {
      var key := connections[s].Key();
      assert {} + {key} == {key};
      ok := rpc.HandleRequest(key, result, sends, now, {});
      OneElsewhere(key, old(rpc.demands), rpc.demands, old(rpc.states), rpc.states);
      if ok && (result == Route || result == RouteSession) {
        OneAsked(key, owner, old(rpc.demands), rpc.demands);
      }
    }

    /** After the requester, everybody else of its network is told of changed routes. */
    method AnnounceRoute(s: Socket, ghost before: map<PeerKey, Demand>, ghost was: map<PeerKey, SyncState>, now: nat)
      requires Valid() && s in connections && connections[s].phase == Ready && rpc.clock <= now && connections[s].Key() in owner
      requires AskedOnce(connections[s].Key(), owner, before, rpc.demands)
      requires Elsewhere(connections[s].network, before, rpc.demands, was, rpc.states)
      modifies this, rooms, rpc
      ensures Valid() && rpc.clock == now && s in old(connections) && rpc.commits == old(rpc.commits)
      ensures Apart(s, old(connections), connections, old(connections)[s].network, rpc.failed)
      ensures s in connections ==> connections[s] == old(connections)[s]
      ensures s !in connections ==> old(connections)[s].Key() in rpc.failed
      ensures Elsewhere(old(connections)[s].network, before, rpc.demands, was, rpc.states)
      ensures Told(owner, old(connections)[s].network, None, {}, before, rpc.demands)
      ensures connections == old(connections) ==>
        && owner == old(owner) && AskedNoLess(before, rpc.demands)
        && ToldOnce(owner, old(connections)[s].network, None, {}, before, rpc.demands)
    {
      var c := connections[s];
      BroadcastRouteUpdate(c.network, Some(c.peerId), now, {}, None);
      ElsewhereFurther(c.network, before, old(rpc.demands), rpc.demands, was, old(rpc.states), rpc.states);
      RouteAnnounced(c.Key(), old(connections), connections, old(owner), owner, before, old(rpc.demands), rpc.demands);
      assert ShrunkAt(s, old(connections), connections, c.network, {}, rpc.failed);
      ShrunkIsApart(s, old(connections), connections, c.network, rpc.failed);
    }

    /** A failed connection is closed; with it goes whatever it left out of step. */
    method FailConnection(s: Socket, now: nat)
      requires s in connections && rpc.clock <= now
      requires if connections[s].phase == Ready then Inv({connections[s].Key()}, None) else Valid()
      modifies this, rooms, rpc
      ensures Valid() && rpc.clock == now && s in old(connections) && s !in connections && rpc.commits == old(rpc.commits)
      ensures Apart(s, old(connections), connections, old(connections)[s].network, rpc.failed) && old(rpc.failed) <= rpc.failed
      ensures old(connections)[s].phase != Ready ==>
        connections == old(connections) - {s} && rpc.demands == old(rpc.demands) && rpc.states == old(rpc.states)
      ensures Remaining(old(owner), owner, old(rpc.demands), rpc.demands)
      ensures Untouched(owner, old(rpc.demands), rpc.demands, old(rpc.states), rpc.states)
      ensures Elsewhere(old(connections)[s].network, old(rpc.demands), rpc.demands, old(rpc.states), rpc.states)
      ensures old(connections)[s].phase == Ready ==> Told(owner, old(connections)[s].network, None, {}, old(rpc.demands), rpc.demands)
    {
      var c := connections[s];
      if c.phase == Ready {
        OwnsItsKey(s, connections, owner, rpc.bound.Keys, rooms.rooms);
        Close(s, now, {c.Key()}, None);
        ClosedOwnsNothing(s, c.Key(), old(owner), connections, owner, rpc.bound.Keys, rooms.rooms, None, old(rpc.demands), rpc.demands);
        assert {} + {c.Key()} == {c.Key()};
        rpc.ForgetFailing(c.Key(), {});
      } else {
        Close(s, now, {}, None);
      }
      ClosedIsApart(s, old(connections), connections, c.network, rpc.failed);
    }

    /**
     A frame arrives; `sends` says whether the one frame that goes out in answer can be sent.  What
     does not fit closes the connection; anything else moves it on, as its phase allows, unless an
     update to its peer could not be sent.  Besides it only ready connections of its own network
     may be closed, and no other network is touched.
     */
    method OnMessage(s: Socket, frame: Frame, configured: set<string>, sends: bool, now: nat) returns (handed: Option<Frame>)
      requires Valid() && rpc.clock <= now
      modifies this, rooms, rpc
      ensures Valid()
      ensures s !in old(connections) ==>
        connections == old(connections) && rpc.demands == old(rpc.demands) && rpc.states == old(rpc.states) && rpc.commits == old(rpc.commits)
      ensures s in old(connections) && Drops(frame, old(connections)[s], configured, old(owner), old(rpc.outstanding), sends, now) ==>
        s !in connections
      ensures s in old(connections) && !Drops(frame, old(connections)[s], configured, old(owner), old(rpc.outstanding), sends, now) ==>
        if s in connections then
          && Advances(old(connections)[s], connections[s], frame, configured)
          && (connections[s].phase == Ready ==> connections[s].Key() in owner && owner[connections[s].Key()] == s)
        else old(connections)[s].phase != Msg1 && old(connections)[s].Key() in rpc.failed
      ensures s in connections && connections[s].phase == Ready && old(connections)[s].phase != Ready ==>
        frame != Malformed && frame.body == Authenticated(connections[s].network, connections[s].peerId, connections[s].remotePublicKey)
      ensures s in old(connections) ==>
        && Apart(s, old(connections), connections, old(connections)[s].network, MayClose(old(connections)[s], frame, rpc.failed))
        && Elsewhere(old(connections)[s].network, old(rpc.demands), rpc.demands, old(rpc.states), rpc.states)
        && Committed(old(connections)[s], frame, old(rpc.outstanding), old(rpc.buildOf), now, old(rpc.commits), rpc.commits)
      ensures s in old(connections) && old(connections)[s].phase == Msg1 ==>
        connections - {s} == old(connections) - {s} && rpc.demands == old(rpc.demands) && rpc.states == old(rpc.states)
      ensures s in old(connections) && old(connections)[s].phase == Msg3 && !Drops(frame, old(connections)[s], configured, old(owner), old(rpc.outstanding), sends, now) ==>
        Told(owner, old(connections)[s].network, Some(old(connections)[s].peerId), {}, old(rpc.demands), rpc.demands)
      ensures s in old(connections) && old(connections)[s].phase == Ready && frame != Malformed ==>
        && Answers(s in connections, frame, old(connections)[s], old(connections), connections, old(owner), owner, old(rpc.demands), rpc.demands)
        && handed == HandedOn(frame, old(connections)[s], old(owner), old(rpc.outstanding), sends, now)
    {
      handed := None;
      if s !in connections {
        return;
      }
      var c := connections[s];
      SameElsewhere(c.network, rpc.demands, rpc.states);
      if frame == Malformed {
        rpc.MayFail(c.Key());
        FailConnection(s, now);
        if c.phase == Ready {
          ApartAlso(s, old(connections), connections, c.network, rpc.failed, MayClose(c, frame, rpc.failed));
        } else {
          GoneIsApart(s, old(connections), c.network, MayClose(c, frame, rpc.failed));
        }
        return;
      }
      if c.phase == Msg1 {
        OnMessage1(s, frame, configured, sends, now);
      } else if c.phase == Msg3 {
        OnMessage3(s, frame, now);
      } else {
        handed := OnReadyPacket(s, frame, sends, now);
      }
      if s in connections && connections[s].phase == Ready {
        OwnsItsKey(s, connections, owner, rpc.bound.Keys, rooms.rooms);
      }
    }

    method OnMessage1(s: Socket, frame: Frame, configured: set<string>, replies: bool, now: nat)
      requires Valid() && s in connections && connections[s].phase == Msg1 && rpc.clock <= now && frame != Malformed
      modifies this, rooms, rpc
      ensures Valid() && rpc.commits == old(rpc.commits) && rpc.demands == old(rpc.demands) && rpc.states == old(rpc.states)
      ensures s in old(connections) && connections - {s} == old(connections) - {s}
      ensures if frame.packetType == HandshakeMsg1 && frame.body.Hello? && frame.body.network in configured && replies then
                s in connections && connections[s] == Connection(Msg3, frame.body.network, frame.body.peerId, [])
              else s !in connections
      ensures Apart(s, old(connections), connections, old(connections)[s].network, {})
    {
      SameApart(s, connections, connections[s].network, {});
      var ok := HandleMessage1(s, frame, configured, replies, now);
      if !ok {
        FailConnection(s, now);
      }
    }

    method OnMessage3(s: Socket, frame: Frame, now: nat)
      requires Valid() && s in connections && connections[s].phase == Msg3 && rpc.clock <= now && frame != Malformed
      modifies this, rooms, rpc
      ensures Valid() && rpc.commits == old(rpc.commits) && s in old(connections)
      ensures Apart(s, old(connections), connections, old(connections)[s].network, rpc.failed + {old(connections)[s].Key()})
      ensures Elsewhere(old(connections)[s].network, old(rpc.demands), rpc.demands, old(rpc.states), rpc.states)
      ensures if Confirms(frame, old(connections)[s]) then
          && Told(owner, old(connections)[s].network, Some(old(connections)[s].peerId), {}, old(rpc.demands), rpc.demands)
          && if s in connections then connections[s] == old(connections)[s].(phase := Ready, remotePublicKey := frame.body.key)
             else old(connections)[s].Key() in rpc.failed
        else connections == old(connections) - {s} && rpc.demands == old(rpc.demands) && rpc.states == old(rpc.states)
    {
      var c := connections[s];
      var ok := HandleMessage3(s, frame, now);
      if !ok {
        FailConnection(s, now);
        ApartAlso(s, old(connections), connections, c.network, rpc.failed, rpc.failed + {c.Key()});
      }
    }

    method OnReadyPacket(s: Socket, frame: Frame, sends: bool, now: nat) returns (handed: Option<Frame>)
      requires Valid() && s in connections && connections[s].phase == Ready && rpc.clock <= now && frame != Malformed
      modifies this, rooms, rpc
      ensures Valid() && s in old(connections)
      ensures if Unacceptable(frame, old(connections)[s], old(owner), old(rpc.outstanding), sends, now) then s !in connections
              else if s in connections then connections[s] == old(connections)[s]
              else old(connections)[s].Key() in rpc.failed
      ensures handed == HandedOn(frame, old(connections)[s], old(owner), old(rpc.outstanding), sends, now)
      ensures Committed(old(connections)[s], frame, old(rpc.outstanding), old(rpc.buildOf), now, old(rpc.commits), rpc.commits)
      ensures Apart(s, old(connections), connections, old(connections)[s].network, MayClose(old(connections)[s], frame, rpc.failed))
      ensures Elsewhere(old(connections)[s].network, old(rpc.demands), rpc.demands, old(rpc.states), rpc.states)
      ensures Answers(s in connections, frame, old(connections)[s], old(connections), connections, old(owner), owner, old(rpc.demands), rpc.demands)
    {
      var c := connections[s];
      var ok;
      ok, handed := HandleReadyPacket(s, frame, sends, now);
      if !ok {
        ghost var demands1, states1 := rpc.demands, rpc.states;
        FailConnection(s, now);
        ElsewhereFurther(c.network, old(rpc.demands), demands1, rpc.demands, old(rpc.states), states1, rpc.states);
        RefusedThenClosed(frame, c, old(connections), connections, old(owner), owner, old(rpc.demands), demands1, rpc.demands);
        ApartAlso(s, old(connections), connections, c.network, rpc.failed, MayClose(c, frame, rpc.failed));
      }
    }

    /**
     Retries what timed out and closes what failed, then asks every idle peer again: of every
     peer that was due and is still there, something new has been asked.  While nobody has to be
     closed, each peer that was due has been asked once, and nobody else has been touched.
     */
    method Maintain(now: nat)
      requires Valid() && rpc.clock <= now
      modifies this, rooms, rpc
      ensures Valid() && rpc.clock == now && old(rpc.failed) <= rpc.failed && Thinned(old(connections), connections, rpc.failed)
      ensures Remaining(old(owner), owner, old(rpc.demands), rpc.demands)
      ensures AllDueAsked(owner, old(rpc.demands), rpc.demands, old(rpc.states), now)
      ensures connections == old(connections) ==>
        owner == old(owner) && OnceIfDue(owner, old(rpc.demands), rpc.demands, old(rpc.states), rpc.states, now)
    {
      SweepFailures(now);
      ghost var connections1, owner1, demands1, states1, failed1 := connections, owner, rpc.demands, rpc.states, rpc.failed;
      MaintainPeers(now);
      ThinnedFurther(old(connections), connections1, connections, failed1, rpc.failed);
      RemainingFurther(old(owner), owner1, owner, old(rpc.demands), demands1, rpc.demands);
      SweptAndVisited(old(owner), owner1, owner, old(rpc.demands), demands1, rpc.demands, old(rpc.states), states1, now);
      if connections == old(connections) {
        ThinnedBetween(old(connections), connections1, connections, failed1, rpc.failed);
        LateAndIdle(connections, owner, old(rpc.demands), demands1, rpc.demands, old(rpc.states), states1, rpc.states, now);
      }
    }

    method SweepFailures(now: nat)
      requires Valid() && rpc.clock <= now
      modifies this, rooms, rpc
      ensures Valid() && rpc.clock == now && old(rpc.failed) <= rpc.failed && Thinned(old(connections), connections, rpc.failed)
      ensures Remaining(old(owner), owner, old(rpc.demands), rpc.demands)
      ensures SweptOver(owner, {}, old(rpc.demands), rpc.demands, old(rpc.states), rpc.states, now)
      ensures connections == old(connections) ==>
        owner == old(owner) && OnceIfLate(owner, old(rpc.demands), rpc.demands, old(rpc.states), rpc.states, now)
    {
      var failures := rpc.CleanExpired(now);
      SweepRemains(owner, failures, old(rpc.demands), rpc.demands, old(rpc.states), rpc.states,
                   SyncTables(old(rpc.states), old(rpc.demands), old(rpc.trials)), SyncTables(rpc.states, rpc.demands, rpc.trials), rpc.luck, now);
      ghost var demands1, states1 := rpc.demands, rpc.states;
      CloseFailures(failures, now);
      RemainingFurther(old(owner), old(owner), owner, old(rpc.demands), demands1, rpc.demands);
      SweptOverFurther(old(owner), owner, failures, old(rpc.demands), demands1, rpc.demands, old(rpc.states), states1, rpc.states, now);
      if connections == old(connections) {
        assert failures == {};
        SweepIsOnceIfLate(owner, old(rpc.demands), rpc.demands, old(rpc.states), rpc.states,
                          SyncTables(old(rpc.states), old(rpc.demands), old(rpc.trials)), SyncTables(rpc.states, rpc.demands, rpc.trials), rpc.luck, now);
      }
    }

    /** Every peer whose retry failed is closed; until its turn it may still be told of the others' going. */
    method CloseFailures(failures: set<PeerKey>, now: nat)
      requires Inv(failures, None) && rpc.clock == now && failures <= rpc.failed
      modifies this, rooms, rpc
      ensures Valid() && rpc.clock == now && old(rpc.failed) <= rpc.failed && Thinned(old(connections), connections, rpc.failed)
      ensures Remaining(old(owner), owner, old(rpc.demands), rpc.demands) && failures !! owner.Keys
      ensures Untouched(owner, old(rpc.demands), rpc.demands, old(rpc.states), rpc.states)
      ensures failures <= old(owner).Keys && connections == old(connections) ==> failures == {} && owner == old(owner)
      ensures failures == {} ==>
        rpc.demands == old(rpc.demands) && rpc.states == old(rpc.states) && rpc.trials == old(rpc.trials)
    {
      var rest := failures;
      SameRemains(owner, rpc.demands);
      SameUntouched(owner, rpc.demands, rpc.states);
      while rest != {}
        invariant Inv(failures, None) && rpc.clock == now && rest <= failures && old(rpc.failed) <= rpc.failed
        invariant Thinned(old(connections), connections, rpc.failed) && rpc.bound.Keys !! failures - rest
        invariant rest == failures ==>
          rpc.demands == old(rpc.demands) && rpc.states == old(rpc.states) && rpc.trials == old(rpc.trials)
        invariant Remaining(old(owner), owner, old(rpc.demands), rpc.demands)
        invariant Untouched(owner, old(rpc.demands), rpc.demands, old(rpc.states), rpc.states)
        decreases rest
      {
        var p :| p in rest;
        ghost var connections0, owner0, failed0 := connections, owner, rpc.failed;
        ghost var demands0, states0 := rpc.demands, rpc.states;
        CloseFailure(p, failures, now);
        ThinnedFurther(old(connections), connections0, connections, failed0, rpc.failed);
        RemainingIsFewer(owner0, owner, demands0, rpc.demands);
        RemainingFurther(old(owner), owner0, owner, old(rpc.demands), demands0, rpc.demands);
        UntouchedFurther(old(owner), owner0, owner, old(rpc.demands), demands0, rpc.demands, old(rpc.states), states0, rpc.states);
        rest := rest - {p};
      }
      GoneNeedNoExcuse(failures, rpc.states, rpc.outstanding, rpc.demands, rpc.failed, rpc.bound.Keys, failures);
      assert failures - failures == {};
      if connections == old(connections) {
        SameOwners(connections, owner, old(owner));
      }
    }

    method CloseFailure(p: PeerKey, ghost failures: set<PeerKey>, now: nat)
      requires Inv(failures, None) && rpc.clock == now && p in rpc.failed
      modifies this, rooms, rpc
      ensures Inv(failures, None) && rpc.clock == now && old(rpc.failed) <= rpc.failed && p !in rpc.bound
      ensures Thinned(old(connections), connections, rpc.failed)
      ensures Remaining(old(owner), owner, old(rpc.demands), rpc.demands)
      ensures Untouched(owner, old(rpc.demands), rpc.demands, old(rpc.states), rpc.states)
    {
      FoundIsOwner(p, connections, owner, rpc.bound.Keys, rooms.rooms, None);
      var found := rooms.Get(p.network, p.peerId);
      if found.None? {
        SameRemains(owner, rpc.demands);
        SameUntouched(owner, rpc.demands, rpc.states);
        return;
      }
      Close(found.value, now, failures, None);
      ClosedOwnsNothing(found.value, p, old(owner), connections, owner, rpc.bound.Keys, rooms.rooms, None, old(rpc.demands), rpc.demands);
      PeerHasGone(found.value, old(connections), connections, p.network, rpc.failed);
      assert rpc.failed + {p} == rpc.failed;
      ShrunkIsThinned(old(connections), connections, p.network, rpc.failed);
    }

    method MaintainPeers(now: nat)
      requires Valid() && rpc.clock == now
      modifies this, rooms, rpc
      ensures Valid() && rpc.clock == now && old(rpc.failed) <= rpc.failed && Thinned(old(connections), connections, rpc.failed)
      ensures Remaining(old(owner), owner, old(rpc.demands), rpc.demands)
      ensures IdleAsked(owner, {}, old(rpc.demands), rpc.demands, old(rpc.states), now)
      ensures connections == old(connections) ==>
        owner == old(owner) && OnceIfIdle(connections.Keys, owner, old(rpc.demands), rpc.demands, old(rpc.states), rpc.states, now)
    {
      NobodyIdle(owner, rpc.demands, rpc.states, now);
      ghost var done := {};
      var rest := connections.Keys;
      NobodyVisited(connections, owner, rpc.bound.Keys, rooms.rooms, rpc.demands, rpc.states, now);
      SameRemains(owner, rpc.demands);
      SameUntouched(owner, rpc.demands, rpc.states);
      while rest != {}
        invariant Valid() && rpc.clock == now && old(rpc.failed) <= rpc.failed && Thinned(old(connections), connections, rpc.failed)
        invariant Remaining(old(owner), owner, old(rpc.demands), rpc.demands)
        invariant Untouched(owner, old(rpc.demands), rpc.demands, old(rpc.states), rpc.states)
        invariant IdleAsked(owner, rest, old(rpc.demands), rpc.demands, old(rpc.states), now)
        invariant done + rest == old(connections).Keys && done !! rest
        invariant connections == old(connections) ==>
          owner == old(owner) && OnceIfIdle(done, owner, old(rpc.demands), rpc.demands, old(rpc.states), rpc.states, now)
        decreases rest
      {
        var s :| s in rest;
        ghost var connections0, owner0, failed0 := connections, owner, rpc.failed;
        ghost var demands0, states0 := rpc.demands, rpc.states;
        MaintainOne(s, now);
        ThinnedFurther(old(connections), connections0, connections, failed0, rpc.failed);
        if connections == old(connections) {
          ThinnedBetween(old(connections), connections0, connections, failed0, rpc.failed);
          OnceIfIdleFurther(s, done, owner, old(rpc.demands), demands0, rpc.demands, old(rpc.states), states0, rpc.states, now);
        }
        done := done + {s};
        VisitedFurther(s, old(owner), owner0, owner, rest, old(rpc.demands), demands0, rpc.demands, old(rpc.states), states0, now);
        RemainingFurther(old(owner), owner0, owner, old(rpc.demands), demands0, rpc.demands);
        UntouchedFurther(old(owner), owner0, owner, old(rpc.demands), demands0, rpc.demands, old(rpc.states), states0, rpc.states);
        rest := rest - {s};
      }
    }

    /** One visit: a ready connection is asked again if it is idle, and closed if that fails. */
    method MaintainOne(s: Socket, now: nat)
      requires Valid() && rpc.clock == now
      modifies this, rooms, rpc
      ensures Valid() && rpc.clock == now && old(rpc.failed) <= rpc.failed && Thinned(old(connections), connections, rpc.failed)
      ensures Remaining(old(owner), owner, old(rpc.demands), rpc.demands)
      ensures Untouched(owner, old(rpc.demands), rpc.demands, old(rpc.states), rpc.states)
      ensures forall k :: k in owner && owner[k] == s && k in old(rpc.states) && Idle(old(rpc.states)[k], now) ==>
        AskedOf(rpc.demands, k) > AskedOf(old(rpc.demands), k)
      ensures connections == old(connections) ==>
        owner == old(owner) && OnceIfIdle({s}, owner, old(rpc.demands), rpc.demands, old(rpc.states), rpc.states, now)
    {
      SameRemains(owner, rpc.demands);
      SameUntouched(owner, rpc.demands, rpc.states);
      OwnedBy(s, connections, owner);
      if s !in connections || connections[s].phase != Ready {
        NobodyOwnedBy(s, connections, owner, rpc.demands, rpc.states, now);
        return;
      }
      var key := connections[s].Key();
      OwnsItsKey(s, connections, owner, rpc.bound.Keys, rooms.rooms);
      var ok := rpc.MaintainPeer(key, now, {});
      OneVisited(key, s, owner, old(rpc.demands), rpc.demands, old(rpc.states), rpc.states, now);
      AskingRemains(key, owner, old(rpc.demands), rpc.demands, old(rpc.states), rpc.states);
      if !ok {
        assert {} + {key} == {key};
        ghost var demands1, states1 := rpc.demands, rpc.states;
        FailConnection(s, now);
        ApartIsThinned(s, old(connections), connections, old(connections)[s].network, rpc.failed);
        RemainingFurther(old(owner), old(owner), owner, old(rpc.demands), demands1, rpc.demands);
        UntouchedFurther(old(owner), old(owner), owner, old(rpc.demands), demands1, rpc.demands, old(rpc.states), states1, rpc.states);
        ClosedOwnsNothing(s, key, old(owner), connections, owner, rpc.bound.Keys, rooms.rooms, None, demands1, rpc.demands);
        StillOwnedBy(s, key, old(owner), owner, demands1, rpc.demands);
      }
    }
  }
}
