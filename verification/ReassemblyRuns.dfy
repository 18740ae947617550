/** Reassembly inverts splitting, over runs that interleave any number of transactions. */
module ReassemblyRuns {
  import opened Common
  import opened Endian
  import opened Reassembly

  datatype Arrival = Arrival(network: string, peerId: u32, packet: RpcPacket, now: nat) {
    function Key(): RpcKey {
      KeyOf(network, peerId, packet)
    }
  }

  /** A packet arrives, expired transactions are swept, or a peer leaves. */
  datatype Event = Arrive(arrival: Arrival) | Sweep(now: nat) | PeerGone(network: string, peerId: u32) {
    predicate Brings(key: RpcKey) {
      Arrive? && arrival.Key() == key
    }
  }

  type Outcome = Result<Option<RpcPacket>>

  ghost function Step(m: Table, e: Event): Merge {
    match e
    case Arrive(a) => MergePacket(m, a.network, a.peerId, a.packet, a.now)
    case Sweep(now) => Merge(Live(m, now), Ok(None))
    case PeerGone(network, peerId) => Merge(WithoutPeer(m, network, peerId), Ok(None))
  }

  function WithoutPeer(m: Table, network: string, peerId: u32): Table {
    map k | k in m && (k.network != network || k.peerId != peerId) :: m[k]
  }

  ghost predicate IsRun(ms: seq<Table>, results: seq<Outcome>, events: seq<Event>) {
    && |ms| == |events| + 1 && |results| == |events|
    && forall i :: 0 <= i < |events| ==> StepAt(ms, results, events, i)
  }

  ghost predicate StepAt(ms: seq<Table>, results: seq<Outcome>, events: seq<Event>, i: nat)
    requires i < |events| && |ms| == |events| + 1 && |results| == |events|
  {
    Merge(ms[i + 1], results[i]) == Step(ms[i], events[i])
  }

  /** The budgets hold in every reachable state. */
  lemma {:induction false} BudgetsHold(ms: seq<Table>, results: seq<Outcome>, events: seq<Event>, n: nat)
    requires IsRun(ms, results, events) && TableOk(ms[0]) && n <= |events|
    ensures TableOk(ms[n])
  {
    if n > 0 {
      BudgetsHold(ms, results, events, n - 1);
      assert StepAt(ms, results, events, n - 1);
      match events[n - 1]
      case Arrive(a) => MergeKeepsTableOk(ms[n - 1], a.network, a.peerId, a.packet, a.now);
      case Sweep(now) => SubmapOk(Live(ms[n - 1], now), ms[n - 1]);
      case PeerGone(network, peerId) => SubmapOk(WithoutPeer(ms[n - 1], network, peerId), ms[n - 1]);
    }
  }

  // ----- Splitting -----

  /** `head` is the packet of piece 0; a body of at least two pieces needs its descriptor. */
  predicate IsSplit(head: RpcPacket, parts: seq<Bytes>) {
    && 2 <= |parts| <= MAX_RPC_PIECES
    && head.totalPieces == |parts| && head.pieceIdx == 0 && head.descriptor.Some? && head.body == parts[0]
  }

  /** The packet is one of the pieces. */
  predicate IsPiece(packet: RpcPacket, head: RpcPacket, parts: seq<Bytes>) {
    && packet.totalPieces == |parts| && packet.pieceIdx < |parts|
    && packet.body == parts[packet.pieceIdx]
    && (packet.pieceIdx == 0 ==> packet == head)
  }

  ghost predicate Complete(got: set<nat>, parts: seq<Bytes>) {
    forall i :: 0 <= i < |parts| ==> i in got
  }

  /** The piece numbers that have arrived in the first n events. */
  ghost function Got(events: seq<Event>, key: RpcKey, n: nat): set<nat>
    requires n <= |events|
  {
    if n == 0 then {}
    else Got(events, key, n - 1) + if events[n - 1].Brings(key) then {events[n - 1].arrival.packet.pieceIdx} else {}
  }

  /** The table holds exactly the pieces in `got`, and piece 0's packet if it is among them. */
  ghost predicate Holding(m: Table, key: RpcKey, head: RpcPacket, parts: seq<Bytes>, got: set<nat>) {
    if got == {} then key !in m
    else
      && key in m && HoldsPieces(m[key], head, parts, got)
  }

  ghost predicate HoldsPieces(p: PendingRpc, head: RpcPacket, parts: seq<Bytes>, got: set<nat>) {
    && p.totalPieces == |parts| == |p.pieces|
    && (forall i {:trigger p.pieces[i]} :: 0 <= i < |parts| ==> p.pieces[i] == if i in got then Some(parts[i]) else None)
    && p.first == (if 0 in got then Some(head) else None)
  }

  // ----- Other transactions do not disturb this one -----

  /** Another network, peer, transaction number or direction: requests and responses do not mix. */
  lemma OthersDoNotInterfere(m: Table, a: Arrival, key: RpcKey)
    requires a.network != key.network || a.peerId != key.peerId || a.packet.transactionId != key.transactionId || a.packet.isRequest != key.isRequest
    requires key in m ==> !Expired(m[key], a.now)
    ensures SameEntry(m, MergePacket(m, a.network, a.peerId, a.packet, a.now).table, key)
  {
    FragmentElsewhere(Live(m, a.now), a.Key(), a.packet, a.now, key);
  }

  ghost predicate SameEntry(before: Table, after: Table, key: RpcKey) {
    (key in after <==> key in before) && (key in before ==> after[key] == before[key])
  }

  lemma SameEntryFurther(first: Table, second: Table, third: Table, key: RpcKey)
    requires SameEntry(first, second, key) && SameEntry(second, third, key)
    ensures SameEntry(first, third, key)
  {
  }

  lemma FragmentElsewhere(live: Table, other: RpcKey, packet: RpcPacket, now: nat, key: RpcKey)
    requires other != key
    ensures SameEntry(live, MergeFragment(live, other, packet, now).table, key)
  {
    var target := if other in live then live else live[other := Opened(packet.totalPieces, now)];
    var stored := StorePiece(target, other, packet, now).table;
    StoreElsewhere(target, other, packet, now, key);
    SameEntryFurther(live, target, stored, key);
    assert MergeFragment(live, other, packet, now).table in {live - {other}, live, stored};
  }

  lemma StoreElsewhere(m: Table, other: RpcKey, packet: RpcPacket, now: nat, key: RpcKey)
    requires other != key && other in m
    ensures SameEntry(m, StorePiece(m, other, packet, now).table, key)
  {
  }

  // ----- What is refused, and what stays pending -----

  /** The packet is a fragment that reaches the table. */
  predicate IsFragment(packet: RpcPacket) {
    2 <= packet.totalPieces <= MAX_RPC_PIECES && packet.pieceIdx < packet.totalPieces && (packet.pieceIdx == 0 ==> packet.descriptor.Some?)
  }

  predicate IsWhole(packet: RpcPacket) {
    packet.totalPieces <= 1 && packet.pieceIdx == 0
  }

  /** What the transaction's stored pieces at this index hold already. */
  function HeldBytes(m: Table, key: RpcKey, i: nat): nat {
    if key in m && i < |m[key].pieces| && m[key].pieces[i].Some? then |m[key].pieces[i].value| else 0
  }

  /** The budgets have room for the fragment: a slot of its peer and all its pieces, if it is the first one, and its bytes. */
  ghost predicate HasRoom(live: Table, key: RpcKey, packet: RpcPacket) {
    && (key !in live ==>
          && |OfPeer(live, key.network, key.peerId)| < MAX_PENDING_TRANSACTIONS_PER_PEER
          && TotalPieces(live) + packet.totalPieces <= MAX_PENDING_PIECES)
    && TotalBytes(live) - HeldBytes(live, key, packet.pieceIdx) + |packet.body| <= MAX_PENDING_BYTES
  }

  /**
   A packet is refused exactly when it is neither whole nor a proper fragment, or declares another
   number of pieces than its transaction, or the budgets have no room for it.
   */
  lemma RefusedIff(m: Table, a: Arrival)
    requires TableOk(m)
    ensures var live, key := Live(m, a.now), a.Key();
      MergePacket(m, a.network, a.peerId, a.packet, a.now).result.Err? <==>
        && !IsWhole(a.packet)
        && (!IsFragment(a.packet) || (key in live && live[key].totalPieces != a.packet.totalPieces) || !HasRoom(live, key, a.packet))
  {
    var live, key := Live(m, a.now), a.Key();
    if IsFragment(a.packet) {
      LiveOk(m, key, a.now);
      FragmentRefusedIff(live, key, a.packet, a.now);
    }
  }

  lemma FragmentRefusedIff(live: Table, key: RpcKey, packet: RpcPacket, now: nat)
    requires TableOk(live) && IsFragment(packet)
    ensures MergeFragment(live, key, packet, now).result.Err? <==>
      (key in live && live[key].totalPieces != packet.totalPieces) || !HasRoom(live, key, packet)
  {
    if key in live {
      if live[key].totalPieces == packet.totalPieces {
        StoreRefusedIff(live, key, packet, now);
      }
    } else if |OfPeer(live, key.network, key.peerId)| < MAX_PENDING_TRANSACTIONS_PER_PEER && TotalPieces(live) + packet.totalPieces <= MAX_PENDING_PIECES {
      OpenedOk(live, key, packet.totalPieces, now);
      StoreRefusedIff(live[key := Opened(packet.totalPieces, now)], key, packet, now);
    }
  }

  lemma StoreRefusedIff(m: Table, key: RpcKey, packet: RpcPacket, now: nat)
    requires TableOk(m) && key in m && IsFragment(packet) && m[key].totalPieces == packet.totalPieces
    ensures StorePiece(m, key, packet, now).result.Err? <==> TotalBytes(m) - HeldBytes(m, key, packet.pieceIdx) + |packet.body| > MAX_PENDING_BYTES
  {
    StorePieceOk(m, key, packet, now);
  }

  /** A fragment that asks for more is pending, and any other outcome leaves nothing of its transaction behind. */
  lemma PendingIff(m: Table, a: Arrival)
    requires IsFragment(a.packet)
    ensures var merged := MergePacket(m, a.network, a.peerId, a.packet, a.now);
            a.Key() in merged.table <==> merged.result == Ok(None)
  {
    FragmentPendingIff(Live(m, a.now), a.Key(), a.packet, a.now);
  }

  lemma FragmentPendingIff(live: Table, key: RpcKey, packet: RpcPacket, now: nat)
    ensures var merged := MergeFragment(live, key, packet, now);
      && (key in merged.table <==> merged.result == Ok(None))
      && (key in merged.table ==> merged.table[key].updatedAtMs == now)
  {
    StorePendingIff(if key in live then live else live[key := Opened(packet.totalPieces, now)], key, packet, now);
  }

  lemma StorePendingIff(m: Table, key: RpcKey, packet: RpcPacket, now: nat)
    requires key in m
    ensures var merged := StorePiece(m, key, packet, now);
      && (key in merged.table <==> merged.result == Ok(None))
      && (key in merged.table ==> merged.table[key].updatedAtMs == now)
  {
  }

  // ----- When a transaction was last heard of -----

  /** The time of the last fragment of the transaction among the first n events. */
  function LastFragment(events: seq<Event>, key: RpcKey, n: nat): Option<nat> {
    if n == 0 || n > |events| then None
    else if events[n - 1].Brings(key) && IsFragment(events[n - 1].arrival.packet) then Some(events[n - 1].arrival.now)
    else LastFragment(events, key, n - 1)
  }

  predicate FreshAt(m: Table, key: RpcKey, last: Option<nat>) {
    key in m ==> last == Some(m[key].updatedAtMs)
  }

  lemma FragmentRefreshes(m: Table, a: Arrival, key: RpcKey, last: Option<nat>)
    requires FreshAt(m, key, last)
    ensures FreshAt(MergePacket(m, a.network, a.peerId, a.packet, a.now).table, key,
                    if a.Key() == key && IsFragment(a.packet) then Some(a.now) else last)
  {
    if IsFragment(a.packet) {
      if a.Key() == key {
        FragmentPendingIff(Live(m, a.now), key, a.packet, a.now);
      } else {
        FragmentElsewhere(Live(m, a.now), a.Key(), a.packet, a.now, key);
      }
    }
  }

  /** In every run a pending transaction carries the time of its last fragment, whatever else arrives. */
  lemma {:induction false} UpdatedAtLastFragment(ms: seq<Table>, results: seq<Outcome>, events: seq<Event>, key: RpcKey, n: nat)
    requires IsRun(ms, results, events) && key !in ms[0] && n <= |events|
    ensures FreshAt(ms[n], key, LastFragment(events, key, n))
  {
    if n > 0 {
      UpdatedAtLastFragment(ms, results, events, key, n - 1);
      NextUpdatedAt(ms, results, events, key, n - 1);
    }
  }

  lemma NextUpdatedAt(ms: seq<Table>, results: seq<Outcome>, events: seq<Event>, key: RpcKey, i: nat)
    requires IsRun(ms, results, events) && i < |events| && FreshAt(ms[i], key, LastFragment(events, key, i))
    ensures FreshAt(ms[i + 1], key, LastFragment(events, key, i + 1))
  {
    assert StepAt(ms, results, events, i);
    var m, e := ms[i], events[i];
    EventRefreshes(m, e, key, LastFragment(events, key, i));
  }

  lemma EventRefreshes(m: Table, e: Event, key: RpcKey, last: Option<nat>)
    requires FreshAt(m, key, last)
    ensures FreshAt(Step(m, e).table, key, if e.Brings(key) && IsFragment(e.arrival.packet) then Some(e.arrival.now) else last)
  {
    if e.Arrive? {
      FragmentRefreshes(m, e.arrival, key, last);
    }
  }

  // ----- One piece -----

  lemma StoredHolds(p: PendingRpc, packet: RpcPacket, now: nat, head: RpcPacket, parts: seq<Bytes>, got: set<nat>)
    requires HoldsPieces(p, head, parts, got) && IsPiece(packet, head, parts)
    ensures HoldsPieces(Stored(p, packet, now), head, parts, got + {packet.pieceIdx})
  {
  }

  lemma OpenedHolds(head: RpcPacket, parts: seq<Bytes>, now: nat)
    ensures HoldsPieces(Opened(|parts|, now), head, parts, {})
  {
  }

  lemma BodiesAreParts(p: PendingRpc, head: RpcPacket, parts: seq<Bytes>, got: set<nat>)
    requires HoldsPieces(p, head, parts, got)
    ensures (forall i :: 0 <= i < |p.pieces| ==> p.pieces[i].Some?) <==> Complete(got, parts)
    ensures Complete(got, parts) ==> Bodies(p.pieces) == parts
  {
    if forall i :: 0 <= i < |p.pieces| ==> p.pieces[i].Some? {
      forall i | 0 <= i < |parts|
        ensures i in got
      {
        assert p.pieces[i].Some?;
      }
    }
  }

  predicate AcceptedPiece(m: Table, a: Arrival, key: RpcKey, head: RpcPacket, parts: seq<Bytes>) {
    IsSplit(head, parts) && a.Key() == key && IsPiece(a.packet, head, parts) && (key in m ==> !Expired(m[key], a.now))
  }

  /** The entry that StorePiece works on. */
  ghost function Target(m: Table, a: Arrival): Table {
    var live := Live(m, a.now);
    if a.Key() in live then live else live[a.Key() := Opened(a.packet.totalPieces, a.now)]
  }

  lemma TargetOk(m: Table, a: Arrival, key: RpcKey, head: RpcPacket, parts: seq<Bytes>, got: set<nat>)
    requires TableOk(m) && AcceptedPiece(m, a, key, head, parts) && Holding(m, key, head, parts, got)
    requires MergePacket(m, a.network, a.peerId, a.packet, a.now).result.Ok?
    ensures TableOk(Target(m, a)) && key in Target(m, a) && HoldsPieces(Target(m, a)[key], head, parts, got)
    ensures MergePacket(m, a.network, a.peerId, a.packet, a.now) == StorePiece(Target(m, a), key, a.packet, a.now)
  {
    var live := Live(m, a.now);
    LiveOk(m, key, a.now);
    OpenedHolds(head, parts, a.now);
    MergedIsFragment(m, a, key, head, parts);
    assert key in m ==> key in live && live[key] == m[key];
    if key !in m {
      OpenedOk(live, key, |parts|, a.now);
    }
  }

  /** A piece passes the envelope checks. */
  lemma MergedIsFragment(m: Table, a: Arrival, key: RpcKey, head: RpcPacket, parts: seq<Bytes>)
    requires IsSplit(head, parts) && IsPiece(a.packet, head, parts) && a.Key() == key
    ensures MergePacket(m, a.network, a.peerId, a.packet, a.now) == MergeFragment(Live(m, a.now), key, a.packet, a.now)
  {
  }

  lemma PieceArrives(m: Table, a: Arrival, key: RpcKey, head: RpcPacket, parts: seq<Bytes>, got: set<nat>)
    requires TableOk(m) && AcceptedPiece(m, a, key, head, parts) && Holding(m, key, head, parts, got) && !Complete(got, parts)
    requires MergePacket(m, a.network, a.peerId, a.packet, a.now).result.Ok?
    ensures var merged, got' := MergePacket(m, a.network, a.peerId, a.packet, a.now), got + {a.packet.pieceIdx};
            && merged.result == Ok(if Complete(got', parts) then Some(Whole(head, Concat(parts))) else None)
            && (!Complete(got', parts) ==> Holding(merged.table, key, head, parts, got'))
  {
    var target := Target(m, a);
    TargetOk(m, a, key, head, parts, got);
    StorePieceOk(target, key, a.packet, a.now);
    var p := Stored(target[key], a.packet, a.now);
    StoredCounters(target[key], a.packet, a.now);
    StoredHolds(target[key], a.packet, a.now, head, parts, got);
    BodiesAreParts(p, head, parts, got + {a.packet.pieceIdx});
  }

  // ----- The whole run -----

  /**
   Up to event n: every arrival for `key` is a piece of the split that the budgets have room for,
   every event comes less than ten seconds after the last arrival for the key, and the peer does
   not leave.
   */
  ghost predicate Undisturbed(ms: seq<Table>, events: seq<Event>, key: RpcKey, head: RpcPacket, parts: seq<Bytes>, n: nat)
    requires n <= |events| < |ms|
  {
    forall i :: 0 <= i < n ==> UndisturbedAt(ms, events, key, head, parts, i)
  }

  ghost predicate UndisturbedAt(ms: seq<Table>, events: seq<Event>, key: RpcKey, head: RpcPacket, parts: seq<Bytes>, i: nat)
    requires i < |events| < |ms|
  {
    Spares(LastFragment(events, key, i), events[i], key) && BringsPiece(ms[i], events[i], key, head, parts)
  }

  predicate Spares(last: Option<nat>, e: Event, key: RpcKey) {
    match e
    case Arrive(a) => last.Some? ==> a.now < last.value + RPC_FRAGMENT_TTL_MS
    case Sweep(now) => last.Some? ==> now < last.value + RPC_FRAGMENT_TTL_MS
    case PeerGone(network, peerId) => key.network != network || key.peerId != peerId
  }

  ghost predicate BringsPiece(m: Table, e: Event, key: RpcKey, head: RpcPacket, parts: seq<Bytes>) {
    e.Brings(key) ==> IsPiece(e.arrival.packet, head, parts) && HasRoom(Live(m, e.arrival.now), key, e.arrival.packet)
  }

  lemma EventElsewhere(m: Table, e: Event, key: RpcKey, last: Option<nat>)
    requires FreshAt(m, key, last) && Spares(last, e, key) && !e.Brings(key)
    ensures SameEntry(m, Step(m, e).table, key)
  {
    if e.Arrive? {
      OthersDoNotInterfere(m, e.arrival, key);
    }
  }

  /** A piece that the budgets have room for is not refused. */
  lemma PieceIsAccepted(m: Table, a: Arrival, key: RpcKey, head: RpcPacket, parts: seq<Bytes>, got: set<nat>, last: Option<nat>)
    requires TableOk(m) && Holding(m, key, head, parts, got) && FreshAt(m, key, last) && IsSplit(head, parts)
    requires a.Key() == key && Spares(last, Arrive(a), key) && BringsPiece(m, Arrive(a), key, head, parts)
    ensures AcceptedPiece(m, a, key, head, parts) && MergePacket(m, a.network, a.peerId, a.packet, a.now).result.Ok?
  {
    RefusedIff(m, a);
  }

  lemma {:induction false} HoldingUntilComplete(ms: seq<Table>, results: seq<Outcome>, events: seq<Event>, key: RpcKey, head: RpcPacket, parts: seq<Bytes>, n: nat)
    requires IsRun(ms, results, events) && TableOk(ms[0]) && key !in ms[0] && n <= |events|
    requires IsSplit(head, parts) && Undisturbed(ms, events, key, head, parts, n)
    requires !Complete(Got(events, key, n), parts)
    ensures Holding(ms[n], key, head, parts, Got(events, key, n))
  {
    if n > 0 {
      GotGrows(events, key, parts, n - 1);
      HoldingUntilComplete(ms, results, events, key, head, parts, n - 1);
      BudgetsHold(ms, results, events, n - 1);
      UpdatedAtLastFragment(ms, results, events, key, n - 1);
      NextHolds(ms, results, events, key, head, parts, n - 1);
    }
  }

  lemma GotGrows(events: seq<Event>, key: RpcKey, parts: seq<Bytes>, i: nat)
    requires i < |events| && !Complete(Got(events, key, i + 1), parts)
    ensures !Complete(Got(events, key, i), parts)
  {
    assert Got(events, key, i) <= Got(events, key, i + 1);
  }

  lemma NextHolds(ms: seq<Table>, results: seq<Outcome>, events: seq<Event>, key: RpcKey, head: RpcPacket, parts: seq<Bytes>, i: nat)
    requires IsRun(ms, results, events) && i < |events| && TableOk(ms[i]) && FreshAt(ms[i], key, LastFragment(events, key, i))
    requires IsSplit(head, parts) && Undisturbed(ms, events, key, head, parts, i + 1)
    requires !Complete(Got(events, key, i), parts) && !Complete(Got(events, key, i + 1), parts)
    requires Holding(ms[i], key, head, parts, Got(events, key, i))
    ensures Holding(ms[i + 1], key, head, parts, Got(events, key, i + 1))
  {
    assert StepAt(ms, results, events, i) && UndisturbedAt(ms, events, key, head, parts, i);
    var m, e := ms[i], events[i];
    EventHolds(m, e, key, head, parts, Got(events, key, i), Got(events, key, i + 1), LastFragment(events, key, i));
  }

  lemma EventHolds(m: Table, e: Event, key: RpcKey, head: RpcPacket, parts: seq<Bytes>, got: set<nat>, got': set<nat>, last: Option<nat>)
    requires TableOk(m) && Holding(m, key, head, parts, got) && FreshAt(m, key, last) && IsSplit(head, parts)
    requires Spares(last, e, key) && BringsPiece(m, e, key, head, parts)
    requires got' == got + (if e.Brings(key) then {e.arrival.packet.pieceIdx} else {}) && !Complete(got, parts) && !Complete(got', parts)
    ensures Holding(Step(m, e).table, key, head, parts, got')
  {
    if e.Brings(key) {
      PieceIsAccepted(m, e.arrival, key, head, parts, got, last);
      PieceArrives(m, e.arrival, key, head, parts, got);
    } else {
      EventElsewhere(m, e, key, last);
      assert got' == got;
    }
  }

  /** The parts are the body, cut into consecutive pieces. */
  predicate IsCutOf(body: Bytes, parts: seq<Bytes>) {
    if parts == [] then body == []
    else parts[0] <= body && IsCutOf(body[|parts[0]|..], parts[1..])
  }

  lemma {:induction false} ConcatFront(parts: seq<Bytes>)
    requires parts != []
    ensures Concat(parts) == parts[0] + Concat(parts[1..])
  {
    var front, last := parts[..|parts| - 1], parts[|parts| - 1];
    if front == [] {
      assert parts[1..] == [];
    } else {
      ConcatFront(front);
      ConcatLast(front[1..], last);
      assert front[1..] + [last] == parts[1..];
      Associates(parts[0], Concat(front[1..]), last);
    }
  }

  lemma ConcatLast(parts: seq<Bytes>, last: Bytes)
    ensures Concat(parts + [last]) == Concat(parts) + last
  {
    assert (parts + [last])[..|parts|] == parts;
  }

  lemma Associates(a: Bytes, b: Bytes, c: Bytes)
    ensures a + b + c == a + (b + c)
  {
  }

  /** Joining the pieces of a body gives the body back. */
  lemma {:induction false} ConcatOfCut(body: Bytes, parts: seq<Bytes>)
    requires IsCutOf(body, parts)
    ensures Concat(parts) == body
  {
    if parts != [] {
      ConcatFront(parts);
      ConcatOfCut(body[|parts[0]|..], parts[1..]);
    }
  }

  /**
   Reassembly inverts splitting: whatever the order, the repeats and the traffic in between,
   a piece's call returns the original body, with piece 0's envelope, exactly when it brings
   the last piece number still missing; every earlier call asks for more.
   */
  lemma ReassemblyInvertsSplitting(ms: seq<Table>, results: seq<Outcome>, events: seq<Event>, key: RpcKey, head: RpcPacket, body: Bytes, parts: seq<Bytes>, n: nat)
    requires IsRun(ms, results, events) && TableOk(ms[0]) && key !in ms[0] && n < |events|
    requires IsSplit(head, parts) && IsCutOf(body, parts) && Undisturbed(ms, events, key, head, parts, n + 1)
    requires events[n].Brings(key) && !Complete(Got(events, key, n), parts)
    ensures results[n] == Ok(if Complete(Got(events, key, n + 1), parts) then Some(head.(body := body, totalPieces := 1, pieceIdx := 0)) else None)
  {
    HoldingUntilComplete(ms, results, events, key, head, parts, n);
    BudgetsHold(ms, results, events, n);
    UpdatedAtLastFragment(ms, results, events, key, n);
    assert StepAt(ms, results, events, n) && UndisturbedAt(ms, events, key, head, parts, n);
    PieceIsAccepted(ms[n], events[n].arrival, key, head, parts, Got(events, key, n), LastFragment(events, key, n));
    PieceArrives(ms[n], events[n].arrival, key, head, parts, Got(events, key, n));
    ConcatOfCut(body, parts);
  }

  /**
   After a gap of ten seconds or more a pending transaction is lost: a sweep, or a fragment of
   another transaction, drops it, and a further piece of its own starts it anew.
   */
  lemma GapDrops(ms: seq<Table>, results: seq<Outcome>, events: seq<Event>, key: RpcKey, head: RpcPacket, parts: seq<Bytes>, n: nat)
    requires IsRun(ms, results, events) && TableOk(ms[0]) && key !in ms[0] && n < |events| && IsSplit(head, parts)
    requires LastFragment(events, key, n).Some?
    ensures var late := LastFragment(events, key, n).value + RPC_FRAGMENT_TTL_MS;
      match events[n]
      case Sweep(now) => now >= late ==> key !in ms[n + 1]
      case PeerGone(_, _) => true
      case Arrive(a) =>
        && (a.now >= late && a.Key() != key && IsFragment(a.packet) ==> key !in ms[n + 1])
        && (a.now >= late && a.Key() == key && IsPiece(a.packet, head, parts) && results[n].Ok? ==>
              results[n] == Ok(None) && Holding(ms[n + 1], key, head, parts, {a.packet.pieceIdx}))
  {
    BudgetsHold(ms, results, events, n);
    UpdatedAtLastFragment(ms, results, events, key, n);
    assert StepAt(ms, results, events, n);
    if events[n].Arrive? {
      GapArrival(ms[n], events[n].arrival, key, head, parts, LastFragment(events, key, n).value);
    }
  }

  lemma GapArrival(m: Table, a: Arrival, key: RpcKey, head: RpcPacket, parts: seq<Bytes>, last: nat)
    requires TableOk(m) && FreshAt(m, key, Some(last)) && IsSplit(head, parts)
    ensures var merged := MergePacket(m, a.network, a.peerId, a.packet, a.now);
      a.now >= last + RPC_FRAGMENT_TTL_MS ==>
      && (a.Key() != key && IsFragment(a.packet) ==> key !in merged.table)
      && (a.Key() == key && IsPiece(a.packet, head, parts) && merged.result.Ok? ==>
            merged.result == Ok(None) && Holding(merged.table, key, head, parts, {a.packet.pieceIdx}))
  {
    var live := Live(m, a.now);
    if a.now < last + RPC_FRAGMENT_TTL_MS {
    } else if a.Key() != key && IsFragment(a.packet) {
      FragmentElsewhere(live, a.Key(), a.packet, a.now, key);
    } else if a.Key() == key && IsPiece(a.packet, head, parts) && MergePacket(m, a.network, a.peerId, a.packet, a.now).result.Ok? {
      SweptPiece(m, a, key, head, parts);
    }
  }

  /** A piece sweeps the table first, so it finds what a sweep would leave. */
  lemma SweptFirst(m: Table, a: Arrival, key: RpcKey, head: RpcPacket, parts: seq<Bytes>)
    requires a.Key() == key && IsSplit(head, parts) && IsPiece(a.packet, head, parts)
    ensures MergePacket(m, a.network, a.peerId, a.packet, a.now) == MergePacket(Live(m, a.now), a.network, a.peerId, a.packet, a.now)
  {
    MergedIsFragment(m, a, key, head, parts);
    MergedIsFragment(Live(m, a.now), a, key, head, parts);
    assert Live(Live(m, a.now), a.now) == Live(m, a.now);
  }

  lemma SweptPiece(m: Table, a: Arrival, key: RpcKey, head: RpcPacket, parts: seq<Bytes>)
    requires TableOk(m) && key !in Live(m, a.now) && a.Key() == key && IsSplit(head, parts) && IsPiece(a.packet, head, parts)
    requires MergePacket(m, a.network, a.peerId, a.packet, a.now).result.Ok?
    ensures var merged := MergePacket(m, a.network, a.peerId, a.packet, a.now);
            merged.result == Ok(None) && Holding(merged.table, key, head, parts, {a.packet.pieceIdx})
  {
    var live := Live(m, a.now);
    LiveOk(m, key, a.now);
    SweptFirst(m, a, key, head, parts);
    FirstPiece(live, a, key, head, parts);
  }

  lemma FirstPiece(m: Table, a: Arrival, key: RpcKey, head: RpcPacket, parts: seq<Bytes>)
    requires TableOk(m) && key !in m && a.Key() == key && IsSplit(head, parts) && IsPiece(a.packet, head, parts)
    requires MergePacket(m, a.network, a.peerId, a.packet, a.now).result.Ok?
    ensures var merged := MergePacket(m, a.network, a.peerId, a.packet, a.now);
            merged.result == Ok(None) && Holding(merged.table, key, head, parts, {a.packet.pieceIdx})
  {
    var none: set<nat> := {};
    OnePieceIsNotAll(a.packet.pieceIdx, parts);
    assert none + {a.packet.pieceIdx} == {a.packet.pieceIdx};
    PieceArrives(m, a, key, head, parts, none);
  }

  lemma OnePieceIsNotAll(i: nat, parts: seq<Bytes>)
    requires |parts| >= 2
    ensures !Complete({}, parts) && !Complete({i}, parts)
  {
    var other, none, one: set<nat> := if i == 0 then 1 else 0, {}, {i};
    assert 0 <= other < |parts| && other !in one && other !in none;
  }
}
