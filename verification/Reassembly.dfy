/**
 Bounded reassembly of fragmented RPC packets.

 The specification works on the table of pending transactions alone; the two budget
 counters of `Reassembler` are proved to be the sums over that table.
 */
module Reassembly {
  import opened Common
  import opened Endian

  const MAX_RPC_PIECES: nat := 32_768
  const MAX_PENDING_TRANSACTIONS_PER_PEER: nat := 64
  const MAX_PENDING_BYTES: nat := 33_554_432
  const MAX_PENDING_PIECES: nat := 32_768
  const RPC_FRAGMENT_TTL_MS: nat := 10_000

  datatype RpcKey = RpcKey(network: string, peerId: u32, transactionId: int, isRequest: bool)

  datatype Descriptor = Descriptor(domainName: string, protoName: string, serviceName: string, methodIndex: u32)

  datatype RpcPacket = RpcPacket(
    fromPeer: u32,
    toPeer: u32,
    transactionId: int,
    descriptor: Option<Descriptor>,
    body: Bytes,
    isRequest: bool,
    totalPieces: u32,
    pieceIdx: u32,
    traceId: int)

  datatype PendingRpc = PendingRpc(
    totalPieces: nat,
    pieces: seq<Option<Bytes>>,
    first: Option<RpcPacket>,
    receivedPieces: nat,
    bodyBytes: nat,
    updatedAtMs: nat)

  type Table = map<RpcKey, PendingRpc>

  // ----- Sums over the table -----

  ghost function Total(m: Table, weight: PendingRpc -> nat): nat {
    if m == map[] then 0
    else
      var k :| k in m;
      weight(m[k]) + Total(m - {k}, weight)
  }

  lemma {:induction false} TotalRemove(m: Table, weight: PendingRpc -> nat, k: RpcKey)
    requires k in m
    ensures Total(m, weight) == weight(m[k]) + Total(m - {k}, weight)
    decreases |m|
  {
    var x :| x in m && Total(m, weight) == weight(m[x]) + Total(m - {x}, weight);
    if x != k {
      TotalRemove(m - {x}, weight, k);
      TotalRemove(m - {k}, weight, x);
      assert m - {x} - {k} == m - {k} - {x};
    }
  }

  lemma TotalUpdate(m: Table, weight: PendingRpc -> nat, k: RpcKey, p: PendingRpc)
    ensures Total(m[k := p], weight) == weight(p) + Total(m - {k}, weight)
    ensures k !in m ==> m - {k} == m
  {
    TotalRemove(m[k := p], weight, k);
    assert m[k := p] - {k} == m - {k};
  }

  function BytesOf(p: PendingRpc): nat { p.bodyBytes }

  function PiecesOf(p: PendingRpc): nat { p.totalPieces }

  /** What the two budget counters must equal. */
  ghost function TotalBytes(m: Table): nat { Total(m, BytesOf) }

  ghost function TotalPieces(m: Table): nat { Total(m, PiecesOf) }

  lemma TotalsRemove(m: Table, k: RpcKey)
    requires k in m
    ensures TotalBytes(m) == m[k].bodyBytes + TotalBytes(m - {k})
    ensures TotalPieces(m) == m[k].totalPieces + TotalPieces(m - {k})
  {
    TotalRemove(m, BytesOf, k);
    TotalRemove(m, PiecesOf, k);
  }

  lemma TotalsUpdate(m: Table, k: RpcKey, p: PendingRpc)
    ensures TotalBytes(m[k := p]) == p.bodyBytes + TotalBytes(m - {k})
    ensures TotalPieces(m[k := p]) == p.totalPieces + TotalPieces(m - {k})
    ensures k !in m ==> m - {k} == m
  {
    TotalUpdate(m, BytesOf, k, p);
    TotalUpdate(m, PiecesOf, k, p);
  }

  // ----- One pending transaction -----

  function Filled(pieces: seq<Option<Bytes>>): nat {
    if pieces == [] then 0 else (if pieces[0].Some? then 1 else 0) + Filled(pieces[1..])
  }

  function PieceBytes(piece: Option<Bytes>): nat {
    if piece.Some? then |piece.value| else 0
  }

  function BodyBytes(pieces: seq<Option<Bytes>>): nat {
    if pieces == [] then 0 else PieceBytes(pieces[0]) + BodyBytes(pieces[1..])
  }

  lemma {:induction false} FillPiece(pieces: seq<Option<Bytes>>, i: nat, body: Bytes)
    requires i < |pieces|
    ensures Filled(pieces[i := Some(body)]) == Filled(pieces) + (if pieces[i].Some? then 0 else 1)
    ensures BodyBytes(pieces[i := Some(body)]) == BodyBytes(pieces) - PieceBytes(pieces[i]) + |body|
    ensures PieceBytes(pieces[i]) <= BodyBytes(pieces)
  {
    if i > 0 {
      FillPiece(pieces[1..], i - 1, body);
      assert pieces[i := Some(body)][1..] == pieces[1..][i - 1 := Some(body)];
    }
  }

  lemma {:induction false} FilledIsAll(pieces: seq<Option<Bytes>>)
    ensures Filled(pieces) <= |pieces|
    ensures Filled(pieces) == |pieces| <==> forall i :: 0 <= i < |pieces| ==> pieces[i].Some?
  {
    if pieces != [] {
      FilledIsAll(pieces[1..]);
      assert forall i :: 1 <= i < |pieces| ==> pieces[i] == pieces[1..][i - 1];
    }
  }

  lemma {:induction false} NothingFilled(n: nat)
    ensures Filled(Unfilled(n)) == 0 && BodyBytes(Unfilled(n)) == 0
  {
    if n > 0 {
      NothingFilled(n - 1);
      assert Unfilled(n)[1..] == Unfilled(n - 1);
    }
  }

  function Unfilled(n: nat): seq<Option<Bytes>> {
    seq(n, _ => None)
  }

  predicate Counters(p: PendingRpc) {
    p.receivedPieces == Filled(p.pieces) && p.bodyBytes == BodyBytes(p.pieces)
  }

  /** A transaction in the table is incomplete, and its own counters are exact. */
  predicate EntryOk(p: PendingRpc) {
    && 2 <= p.totalPieces <= MAX_RPC_PIECES
    && |p.pieces| == p.totalPieces
    && Counters(p)
    && p.receivedPieces < p.totalPieces
    && (p.first.Some? <==> p.pieces[0].Some?)
  }

  ghost function OfPeer(m: Table, network: string, peerId: u32): set<RpcKey> {
    set k | k in m && k.network == network && k.peerId == peerId
  }

  ghost predicate TableOk(m: Table) {
    && (forall k :: k in m ==> EntryOk(m[k]))
    && TotalBytes(m) <= MAX_PENDING_BYTES
    && TotalPieces(m) <= MAX_PENDING_PIECES
    && PeersBounded(m)
  }

  ghost predicate PeersBounded(m: Table) {
    forall network, peerId :: |OfPeer(m, network, peerId)| <= MAX_PENDING_TRANSACTIONS_PER_PEER
  }

  // ----- Merging one packet -----

  /** Ok(None) means more pieces are needed. */
  datatype Merge = Merge(table: Table, result: Result<Option<RpcPacket>>)

  predicate Expired(p: PendingRpc, now: nat) {
    SaturatingSub(now, p.updatedAtMs) >= RPC_FRAGMENT_TTL_MS
  }

  function Live(m: Table, now: nat): Table {
    map k | k in m && !Expired(m[k], now) :: m[k]
  }

  function KeyOf(network: string, peerId: u32, packet: RpcPacket): RpcKey {
    RpcKey(network, peerId, packet.transactionId, packet.isRequest)
  }

  function Opened(totalPieces: nat, now: nat): PendingRpc {
    PendingRpc(totalPieces, Unfilled(totalPieces), None, 0, 0, now)
  }

  /** The entry after piece `packet` has been stored in it. */
  function Stored(p: PendingRpc, packet: RpcPacket, now: nat): PendingRpc
    requires packet.pieceIdx < |p.pieces|
  {
    var old_ := p.pieces[packet.pieceIdx];
    p.(pieces := p.pieces[packet.pieceIdx := Some(packet.body)],
       receivedPieces := p.receivedPieces + if old_.Some? then 0 else 1,
       bodyBytes := SaturatingSub(p.bodyBytes, PieceBytes(old_)) + |packet.body|,
       updatedAtMs := now,
       first := if packet.pieceIdx == 0 then Some(packet) else p.first)
  }

  function Concat(parts: seq<Bytes>): Bytes {
    if parts == [] then [] else Concat(parts[..|parts| - 1]) + parts[|parts| - 1]
  }

  function Bodies(pieces: seq<Option<Bytes>>): seq<Bytes>
    requires forall i :: 0 <= i < |pieces| ==> pieces[i].Some?
  {
    seq(|pieces|, i requires 0 <= i < |pieces| => pieces[i].value)
  }

  function Whole(first: RpcPacket, body: Bytes): RpcPacket {
    first.(body := body, totalPieces := 1, pieceIdx := 0)
  }

  predicate Unfragmented(packet: RpcPacket) {
    (packet.totalPieces == 0 && packet.pieceIdx == 0) || (packet.totalPieces == 1 && packet.pieceIdx == 0)
  }

  predicate ValidFragment(packet: RpcPacket) {
    2 <= packet.totalPieces <= MAX_RPC_PIECES && packet.pieceIdx < packet.totalPieces
  }

  ghost function MergePacket(m: Table, network: string, peerId: u32, packet: RpcPacket, now: nat): Merge {
    if Unfragmented(packet) then Merge(m, Ok(Some(packet)))
    else if !ValidFragment(packet) then Merge(m, Err("invalid fragmented RPC envelope"))
    else if packet.pieceIdx == 0 && packet.descriptor.None? then
      Merge(m, Err("fragmented RPC first piece is missing its descriptor"))
    else
      MergeFragment(Live(m, now), KeyOf(network, peerId, packet), packet, now)
  }

  /** The part after the envelope has been checked and expired transactions have been dropped. */
  ghost function MergeFragment(live: Table, key: RpcKey, packet: RpcPacket, now: nat): Merge {
    if key in live && live[key].totalPieces != packet.totalPieces then
      Merge(live - {key}, Err("fragmented RPC changed its declared piece count"))
    else if key !in live && |OfPeer(live, key.network, key.peerId)| >= MAX_PENDING_TRANSACTIONS_PER_PEER then
      Merge(live, Err("too many pending fragmented RPC transactions"))
    else if key !in live && TotalPieces(live) + packet.totalPieces > MAX_PENDING_PIECES then
      Merge(live, Err("pending fragmented RPC piece limit exceeded"))
    else
      StorePiece(if key in live then live else live[key := Opened(packet.totalPieces, now)], key, packet, now)
  }

  ghost function StorePiece(m: Table, key: RpcKey, packet: RpcPacket, now: nat): Merge
    requires key in m
  {
    if packet.pieceIdx >= |m[key].pieces| || SaturatingSub(TotalBytes(m), PieceBytes(m[key].pieces[packet.pieceIdx])) + |packet.body| > MAX_PENDING_BYTES then
      Merge(m - {key}, Err("pending fragmented RPC byte limit exceeded"))
    else
      var p := Stored(m[key], packet, now);
      if p.receivedPieces != packet.totalPieces then Merge(m[key := p], Ok(None))
      else if p.first.None? || exists i :: 0 <= i < |p.pieces| && p.pieces[i].None? then
        Merge(m - {key}, Err("fragmented RPC contains a missing piece"))
      else
        Merge(m - {key}, Ok(Some(Whole(p.first.value, Concat(Bodies(p.pieces))))))
  }

  // ----- Every merge keeps the table within its budgets -----

  ghost predicate Submap(a: Table, b: Table) {
    forall k :: k in a ==> k in b && a[k] == b[k]
  }

  lemma {:induction false} TotalSubmap(a: Table, b: Table, weight: PendingRpc -> nat)
    requires Submap(a, b)
    ensures Total(a, weight) <= Total(b, weight)
    decreases |b|
  {
    if k :| k in b && k !in a {
      TotalRemove(b, weight, k);
      TotalSubmap(a, b - {k}, weight);
    } else {
      assert a == b;
    }
  }

  lemma SubmapOk(a: Table, b: Table)
    requires Submap(a, b) && TableOk(b)
    ensures TableOk(a)
  {
    TotalSubmap(a, b, BytesOf);
    TotalSubmap(a, b, PiecesOf);
    forall network, peerId
      ensures |OfPeer(a, network, peerId)| <= MAX_PENDING_TRANSACTIONS_PER_PEER
    {
      SubsetSize(OfPeer(a, network, peerId), OfPeer(b, network, peerId));
    }
  }

  lemma OpenedOk(m: Table, key: RpcKey, totalPieces: nat, now: nat)
    requires TableOk(m) && key !in m && 2 <= totalPieces <= MAX_RPC_PIECES
    requires |OfPeer(m, key.network, key.peerId)| < MAX_PENDING_TRANSACTIONS_PER_PEER
    requires TotalPieces(m) + totalPieces <= MAX_PENDING_PIECES
    ensures TableOk(m[key := Opened(totalPieces, now)])
    ensures TotalBytes(m[key := Opened(totalPieces, now)]) == TotalBytes(m)
  {
    var m' := m[key := Opened(totalPieces, now)];
    NothingFilled(totalPieces);
    TotalsUpdate(m, key, Opened(totalPieces, now));
    PeersAfterUpdate(m, key, Opened(totalPieces, now));
  }

  lemma OfPeerUpdate(m: Table, key: RpcKey, p: PendingRpc, network: string, peerId: u32)
    ensures OfPeer(m[key := p], network, peerId) ==
      if key.network == network && key.peerId == peerId then OfPeer(m, network, peerId) + {key} else OfPeer(m, network, peerId)
  {
  }

  lemma PeersAfterUpdate(m: Table, key: RpcKey, p: PendingRpc)
    requires PeersBounded(m)
    requires key !in m ==> |OfPeer(m, key.network, key.peerId)| < MAX_PENDING_TRANSACTIONS_PER_PEER
    ensures PeersBounded(m[key := p])
  {
    var m' := m[key := p];
    forall network, peerId
      ensures |OfPeer(m', network, peerId)| <= MAX_PENDING_TRANSACTIONS_PER_PEER
    {
      OfPeerUpdate(m, key, p, network, peerId);
      if key in OfPeer(m, network, peerId) {
        assert OfPeer(m, network, peerId) + {key} == OfPeer(m, network, peerId);
      }
    }
  }

  /** Storing a piece keeps the entry's counters exact. */
  lemma StoredCounters(p: PendingRpc, packet: RpcPacket, now: nat)
    requires Counters(p) && |p.pieces| > 0 && packet.pieceIdx < |p.pieces| && (p.first.Some? <==> p.pieces[0].Some?)
    ensures var q := Stored(p, packet, now);
            && Counters(q) && |q.pieces| == |p.pieces| && (q.first.Some? <==> q.pieces[0].Some?)
            && q.bodyBytes == p.bodyBytes - PieceBytes(p.pieces[packet.pieceIdx]) + |packet.body|
            && q.receivedPieces <= |q.pieces|
            && (q.receivedPieces == |q.pieces| <==> forall i :: 0 <= i < |q.pieces| ==> q.pieces[i].Some?)
  {
    FillPiece(p.pieces, packet.pieceIdx, packet.body);
    FilledIsAll(Stored(p, packet, now).pieces);
  }

  /** No saturation, no missing piece: a piece that fits is stored, and completion finds every piece. */
  lemma StorePieceOk(m: Table, key: RpcKey, packet: RpcPacket, now: nat)
    requires TableOk(m) && key in m && ValidFragment(packet) && m[key].totalPieces == packet.totalPieces
    ensures TableOk(StorePiece(m, key, packet, now).table)
    ensures var was, p := PieceBytes(m[key].pieces[packet.pieceIdx]), Stored(m[key], packet, now);
            && was <= m[key].bodyBytes <= TotalBytes(m)
            && (TotalBytes(m) - was + |packet.body| <= MAX_PENDING_BYTES && p.receivedPieces == packet.totalPieces ==>
                 && p.first.Some?
                 && (forall i :: 0 <= i < |p.pieces| ==> p.pieces[i].Some?))
  {
    var p := Stored(m[key], packet, now);
    StoredCounters(m[key], packet, now);
    FillPiece(m[key].pieces, packet.pieceIdx, packet.body);
    TotalsRemove(m, key);
    SubmapOk(m - {key}, m);
    TotalsUpdate(m, key, p);
    PeersAfterUpdate(m, key, p);
  }

  lemma LiveOk(m: Table, key: RpcKey, now: nat)
    requires TableOk(m)
    ensures TableOk(Live(m, now)) && TableOk(Live(m, now) - {key})
  {
    SubmapOk(Live(m, now), m);
    SubmapOk(Live(m, now) - {key}, Live(m, now));
  }

  /** Every call, whatever the packet, keeps the table within its budgets and its entries exact. */
  lemma MergeKeepsTableOk(m: Table, network: string, peerId: u32, packet: RpcPacket, now: nat)
    requires TableOk(m)
    ensures TableOk(MergePacket(m, network, peerId, packet, now).table)
  {
    var live, key := Live(m, now), KeyOf(network, peerId, packet);
    LiveOk(m, key, now);
    if ValidFragment(packet) {
      if key in live {
        if live[key].totalPieces == packet.totalPieces {
          StorePieceOk(live, key, packet, now);
        }
      } else if |OfPeer(live, network, peerId)| < MAX_PENDING_TRANSACTIONS_PER_PEER && TotalPieces(live) + packet.totalPieces <= MAX_PENDING_PIECES {
        OpenedOk(live, key, packet.totalPieces, now);
        StorePieceOk(live[key := Opened(packet.totalPieces, now)], key, packet, now);
      }
    }
  }

  /** Storing a piece moves the byte total by exactly what the piece adds, and leaves the piece total alone. */
  lemma StoredTotals(m: Table, key: RpcKey, packet: RpcPacket, now: nat)
    requires key in m && EntryOk(m[key]) && packet.pieceIdx < |m[key].pieces|
    ensures var p := Stored(m[key], packet, now);
            && TotalBytes(m[key := p]) == TotalBytes(m) - PieceBytes(m[key].pieces[packet.pieceIdx]) + |packet.body|
            && TotalPieces(m[key := p]) == TotalPieces(m)
  {
    StoredCounters(m[key], packet, now);
    FillPiece(m[key].pieces, packet.pieceIdx, packet.body);
    TotalsRemove(m, key);
    TotalsUpdate(m, key, Stored(m[key], packet, now));
  }

  // ----- The pool in place -----

  class Reassembler {
    var pending: Table
    var pendingBytes: nat
    var pendingPieces: nat

    /** The budgets hold, and the counters are conserved. */
    ghost predicate Valid()
      reads this
    {
      TableOk(pending) && Balanced()
    }

    ghost predicate Balanced()
      reads this
    {
      pendingBytes == TotalBytes(pending) && pendingPieces == TotalPieces(pending)
    }

    constructor ()
      ensures Valid() && pending == map[]
    {
      pending, pendingBytes, pendingPieces := map[], 0, 0;
      new;
      EmptyOk();
    }

    method RemovePending(key: RpcKey)
      requires Balanced() && TableOk(pending - {key})
      modifies this
      ensures Valid() && pending == old(pending) - {key}
    {
      if key in pending {
        TotalsRemove(pending, key);
        var p := pending[key];
        pending := pending - {key};
        pendingBytes := SaturatingSub(pendingBytes, p.bodyBytes);
        pendingPieces := SaturatingSub(pendingPieces, p.totalPieces);
      } else {
        assert pending - {key} == pending;
      }
    }

    /** The keys to drop are collected first and then removed one by one. */
    method RemoveAll(keys: set<RpcKey>)
      requires Valid()
      modifies this
      ensures Valid() && pending == old(pending) - keys
    {
      var rest := keys;
      while rest != {}
        invariant rest <= keys && Valid()
        invariant pending == old(pending) - (keys - rest)
      {
        var key :| key in rest;
        SubmapOk(pending - {key}, pending);
        RemovePending(key);
        rest := rest - {key};
        assert pending == old(pending) - (keys - rest);
      }
      assert keys - rest == keys;
    }

    method CleanPending(now: nat)
      requires Valid()
      modifies this
      ensures Valid() && pending == Live(old(pending), now)
    {
      var expired := set k | k in pending && Expired(pending[k], now);
      RemoveAll(expired);
    }

    method RemovePeer(network: string, peerId: u32)
      requires Valid()
      modifies this
      ensures Valid() && pending == map k | k in old(pending) && (k.network != network || k.peerId != peerId) :: old(pending)[k]
    {
      var keys := set k | k in pending && k.network == network && k.peerId == peerId;
      RemoveAll(keys);
    }

    method MergePacketInPlace(network: string, peerId: u32, packet: RpcPacket, now: nat) returns (r: Result<Option<RpcPacket>>)
      requires Valid()
      modifies this
      ensures Valid()
      ensures pending == MergePacket(old(pending), network, peerId, packet, now).table
      ensures r == MergePacket(old(pending), network, peerId, packet, now).result
    {
      var totalPieces := packet.totalPieces;
      if totalPieces == 0 && packet.pieceIdx == 0 {
        return Ok(Some(packet));
      }
      if totalPieces == 0 || totalPieces > MAX_RPC_PIECES || packet.pieceIdx >= totalPieces {
        return Err("invalid fragmented RPC envelope");
      }
      if totalPieces == 1 {
        return Ok(Some(packet));
      }
      if packet.pieceIdx == 0 && packet.descriptor.None? {
        return Err("fragmented RPC first piece is missing its descriptor");
      }
      CleanPending(now);
      r := MergeFragmentInPlace(RpcKey(network, peerId, packet.transactionId, packet.isRequest), packet, now);
    }

    method MergeFragmentInPlace(key: RpcKey, packet: RpcPacket, now: nat) returns (r: Result<Option<RpcPacket>>)
      requires Valid() && ValidFragment(packet)
      modifies this
      ensures Valid()
      ensures pending == MergeFragment(old(pending), key, packet, now).table
      ensures r == MergeFragment(old(pending), key, packet, now).result
    {
      if key in pending && pending[key].totalPieces != packet.totalPieces {
        SubmapOk(pending - {key}, pending);
        RemovePending(key);
        return Err("fragmented RPC changed its declared piece count");
      }
      if key !in pending {
        var refused := OpenTransaction(key, packet.totalPieces, now);
        if refused.Some? {
          return Err(refused.value);
        }
      }
      r := StoreInPlace(key, packet, now);
    }

    /** Room is reserved for all declared pieces at once, or the transaction is refused. */
    method OpenTransaction(key: RpcKey, totalPieces: nat, now: nat) returns (refused: Option<string>)
      requires Valid() && key !in pending && 2 <= totalPieces <= MAX_RPC_PIECES
      modifies this
      ensures Valid()
      ensures refused ==
        if |OfPeer(old(pending), key.network, key.peerId)| >= MAX_PENDING_TRANSACTIONS_PER_PEER then
          Some("too many pending fragmented RPC transactions")
        else if TotalPieces(old(pending)) + totalPieces > MAX_PENDING_PIECES then
          Some("pending fragmented RPC piece limit exceeded")
        else None
      ensures pending == if refused.Some? then old(pending) else old(pending)[key := Opened(totalPieces, now)]
    {
      var ofPeer := set k | k in pending && k.network == key.network && k.peerId == key.peerId;
      assert ofPeer == OfPeer(pending, key.network, key.peerId);
      if |ofPeer| >= MAX_PENDING_TRANSACTIONS_PER_PEER {
        return Some("too many pending fragmented RPC transactions");
      }
      if SaturatingAdd(pendingPieces, totalPieces, USIZE) > MAX_PENDING_PIECES {
        return Some("pending fragmented RPC piece limit exceeded");
      }
      OpenedOk(pending, key, totalPieces, now);
      TotalsUpdate(pending, key, Opened(totalPieces, now));
      pending := pending[key := PendingRpc(totalPieces, Unfilled(totalPieces), None, 0, 0, now)];
      pendingPieces := pendingPieces + totalPieces;
      return None;
    }

    method StoreInPlace(key: RpcKey, packet: RpcPacket, now: nat) returns (r: Result<Option<RpcPacket>>)
      requires Valid() && key in pending && ValidFragment(packet) && pending[key].totalPieces == packet.totalPieces
      modifies this
      ensures Valid()
      ensures pending == StorePiece(old(pending), key, packet, now).table
      ensures r == StorePiece(old(pending), key, packet, now).result
    {
      StorePieceOk(pending, key, packet, now);
      SubmapOk(pending - {key}, pending);
      var previous := PieceBytes(pending[key].pieces[packet.pieceIdx]);
      var nextTotal := SaturatingAdd(SaturatingSub(pendingBytes, previous), |packet.body|, USIZE);
      if nextTotal > MAX_PENDING_BYTES {
        RemovePending(key);
        return Err("pending fragmented RPC byte limit exceeded");
      }
      ghost var was := pending;
      FillEntry(key, packet, now, nextTotal);
      var p := pending[key];
      if p.receivedPieces != packet.totalPieces {
        return Ok(None);
      }
      assert pending - {key} == was - {key};
      RemovePending(key);
      var body := Assemble(p.pieces);
      return Ok(Some(p.first.value.(body := body, totalPieces := 1, pieceIdx := 0)));
    }

    method FillEntry(key: RpcKey, packet: RpcPacket, now: nat, nextTotal: nat)
      requires Valid() && key in pending && packet.pieceIdx < |pending[key].pieces|
      requires nextTotal == pendingBytes - PieceBytes(pending[key].pieces[packet.pieceIdx]) + |packet.body|
      modifies this
      ensures Balanced() && pending == old(pending)[key := Stored(old(pending)[key], packet, now)]
    {
      StoredTotals(pending, key, packet, now);
      var p := FilledIn(pending[key], packet, now);
      pendingBytes := nextTotal;
      pending := pending[key := p];
    }

    /** The assignments to the entry itself. */
    static method FilledIn(entry: PendingRpc, packet: RpcPacket, now: nat) returns (p: PendingRpc)
      requires EntryOk(entry) && packet.pieceIdx < |entry.pieces|
      ensures p == Stored(entry, packet, now)
    {
      StoredCounters(entry, packet, now);
      FillPiece(entry.pieces, packet.pieceIdx, packet.body);
      p := entry;
      var previous := PieceBytes(p.pieces[packet.pieceIdx]);
      if p.pieces[packet.pieceIdx].None? {
        p := p.(receivedPieces := p.receivedPieces + 1);
      }
      p := p.(bodyBytes := SaturatingSub(p.bodyBytes, previous) + |packet.body|);
      p := p.(pieces := p.pieces[packet.pieceIdx := Some(packet.body)], updatedAtMs := now);
      if packet.pieceIdx == 0 {
        p := p.(first := Some(packet));
      }
    }

    static method Assemble(pieces: seq<Option<Bytes>>) returns (body: Bytes)
      requires forall i :: 0 <= i < |pieces| ==> pieces[i].Some?
      ensures body == Concat(Bodies(pieces))
    {
      body := [];
      for i := 0 to |pieces|
        invariant body == Concat(Bodies(pieces)[..i])
      {
        body := body + pieces[i].value;
        assert Bodies(pieces)[..i + 1][..i] == Bodies(pieces)[..i];
      }
      assert Bodies(pieces)[..|pieces|] == Bodies(pieces);
    }
  }

  lemma EmptyOk()
    ensures TableOk(map[]) && TotalBytes(map[]) == 0 && TotalPieces(map[]) == 0
  {
  }
}
