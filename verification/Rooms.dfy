/** Connections, and the registry that finds the authenticated one of each peer of each network. */
module Rooms {
  import opened Common
  import opened RouteSync

  datatype Phase = Msg1 | Msg3 | Ready

  /** A WebSocket, standing for the identity of its connection. */
  type Socket = nat

  /** An open connection; a closed one is in no table. */
  datatype Connection = Connection(phase: Phase, network: string, peerId: u32, remotePublicKey: Key32)
  {
    function Key(): PeerKey {
      PeerKey(network, peerId)
    }
  }

  type RoomMap = map<string, map<u32, Socket>>

  function Lookup(rooms: RoomMap, k: PeerKey): Option<Socket> {
    if k.network in rooms && k.peerId in rooms[k.network] then Some(rooms[k.network][k.peerId]) else None
  }

  class RoomRegistry {
    var rooms: RoomMap

    /** No room is empty. */
    ghost predicate Valid()
      reads this
    {
      forall n :: n in rooms ==> rooms[n] != map[]
    }

    constructor ()
      ensures Valid() && rooms == map[]
    {
      rooms := map[];
    }

    method Get(network: string, peerId: u32) returns (found: Option<Socket>)
      ensures found == Lookup(rooms, PeerKey(network, peerId))
    {
      found := if network in rooms && peerId in rooms[network] then Some(rooms[network][peerId]) else None;
    }

    /** Registers s under its own key; the previous holder is returned. */
    method Set(s: Socket, key: PeerKey) returns (previous: Option<Socket>)
      requires Valid()
      modifies this
      ensures Valid() && previous == Lookup(old(rooms), key)
      ensures forall k :: Lookup(rooms, k) == if k == key then Some(s) else Lookup(old(rooms), k)
    {
      var room: map<u32, Socket> := if key.network in rooms then rooms[key.network] else map[];
      previous := if key.peerId in room then Some(room[key.peerId]) else None;
      rooms := rooms[key.network := room[key.peerId := s]];
    }

    /** Removes s, but never another connection that has taken its place. */
    method Delete(s: Socket, key: PeerKey) returns (deleted: bool)
      requires Valid()
      modifies this
      ensures Valid() && deleted == (Lookup(old(rooms), key) == Some(s))
      ensures forall k :: Vacated(rooms, old(rooms), s, key, k)
    {
      if Lookup(rooms, key) != Some(s) {
        return false;
      }
      var room: map<u32, Socket> := rooms[key.network] - {key.peerId};
      assert forall id :: id in rooms[key.network] && id != key.peerId ==> id in room;
      if room == map[] {
        rooms := rooms - {key.network};
      } else {
        rooms := rooms[key.network := room];
      }
      return true;
    }

    /** The ids registered in a network. */
    method Peers(network: string) returns (ids: set<u32>)
      ensures forall id: u32 :: id in ids <==> Lookup(rooms, PeerKey(network, id)).Some?
    {
      ids := if network in rooms then rooms[network].Keys else {};
    }
  }

  /** Only s itself leaves its key; every other key is looked up as before. */
  predicate Vacated(rooms: RoomMap, was: RoomMap, s: Socket, key: PeerKey, k: PeerKey) {
    Lookup(rooms, k) == if k == key && Lookup(was, key) == Some(s) then None else Lookup(was, k)
  }
}
