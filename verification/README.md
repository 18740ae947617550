# A verified model of the EasyTier relay server

The server relays frames between the peers of an EasyTier network over WebSockets. It keeps
secure sessions that outlive a connection, drops replayed packets, reassembles fragmented RPCs
under fixed budgets, tells every peer about the others incrementally, and closes connections
that cannot keep up. This project models those parts in Dafny 4.11 and proves what they promise
over every input and every run. `dafny verify dfyconfig.toml` checks all of it.

The parts, from the inside out:

- **Sessions and anti-replay** (`ReplayWindow`, `Traffic`, `Delivery`, `Arrivals`, `Nonces`,
  `Rotation`, `SessionStore`, `StoreRuns`, `SessionLife`, `SecureEndpoint`). The 32-byte window is updated
  in place and proved to summarise the set of all accepted sequences. One session is a state with
  three steps (send, receive, Sync); the store is a world with one event per call of any
  connection. `SecureEndpoint` is the endpoint that loads, works and persists, proved to make
  exactly those steps on the shared table. The theorems about nonces and deliveries are about
  runs of worlds, so they cover every interleaving of connections that share a session. `Arrivals`, `Rotation` and `SessionLife` tell
  from the calls alone when an epoch is forgotten, when one ends, who has proved which key, and
  when a session ends.
- **Framing** (`Endian`, `Packet`, `Framing`). Headers, forwarding and sealed frames.
- **RPC reassembly** (`Reassembly`, `ReassemblyRuns`). The table of pending transactions as a
  specification, the pool with its two counters in place, and runs of arrivals, sweeps and
  departures.
- **Routes** (`Topology`, `RouteGroup`, `RouteRuns`, `RouteInvariants`, `RouteContent`,
  `RouteUpdates`, `RouteSessions`, `RouteStateInPlace`). The routing state of one network, its two
  encodings, runs of events in which an acknowledgement may answer any earlier update, and the in-place state proved to make exactly
  those steps. What an update carries is settled in both directions: nothing is left out that the
  target has not acknowledged, and what it has acknowledged is left out.
- **Route synchronisation** (`RouteSync`). The in-flight, dirty and force-full marks per peer kept
  in step with the table of outstanding transactions. Ghost counters say what was asked and what
  has been built since, so that "no change is lost" is an invariant.
- **Server** (`Rooms`, `Server`, `SendLimiter`). Handshake phases, authenticated replacement, and
  the re-entrant cascade close, remove, broadcast, close.
- **Peer centre** (`PeerCenter`, `PeerCenterRuns`). Reports, the digest, the nested reply, and runs
  of reports, departures and clean-ups.

Conventions:

- Time is a parameter and never goes back; an event reads the clock once. Random bytes, and
  whether something can be encoded or sent, are inputs: `sends` and `replies` for the frame that
  answers an event, and the sequence `luck` for the attempts to send an update. So contracts say
  exactly what succeeds, and nobody is failed for whom no attempt was refused.
- A class is the source's object, updated in place. Its methods are proved against functions and
  predicates on values, and the lemmas about those carry the theorems. A ghost parameter
  `failing` names the peers whose last update could not be sent and that are about to be closed,
  and `pending` the connection that is registered but not ready; between events both are empty.
  The ghost set `failed` records the peers for which an attempt has been refused, so that
  contracts can say exactly who may be closed.
- `usize` has 32 bits, as on the target the crate is built for. Where a cast can lose
  information, the exact condition under which it does not is proved, with a concrete input on
  which it does. The sum of a declared payload length and the tail is taken as unbounded;
  `Packet.LengthTestExactIff` says for which headers that is the same test.
- A run is quiet when it has no Sync and no eviction pass finds anything to clear; it is in range
  when the sequences of one epoch span less than 2^32.

Seven claims turn out to need a proviso, and each comes with its counterexample:

- The replay window is exact if and only if the `as usize` cast is harmless
  (`ReplayWindow.AcceptExactIffCastHarmless`, `ReplayWindow.CastCanForget`). The theorems about
  runs assume that the sequences of one epoch lie in a range shorter than 2^32; whatever a sender
  that rotates as the code does has sealed meets that (`Rotation.SealedInRange`,
  `Rotation.GenuineInRange`).
- A nonce never repeats while no epoch wraps; an epoch learned from a peer can make the next Sync
  wrap (`Nonces.SyncAdvancesIffNoWrap`, `Nonces.LearnedEpochCanWrap`).
- A packet is delivered at most once while the memory of its epoch is kept; which steps give it
  up is told exactly from the state before them (`Delivery.AtMostOnce`, `Delivery.DiscardsIff`),
  and a Sync can give up an epoch that was pushed out before (`Delivery.DroppedEpochRedelivers`).
- A peer's published version grows while its instance stays, unless the part of one message that
  is read, even of a message that is rejected in the end, switches the instance and switches it
  back (`RouteInvariants.VersionMovesForward`, `RouteInvariants.VersionGoesBackIff`,
  `RouteInvariants.OneMessageCanGoBack`, `RouteInvariants.RejectedMessageCanGoBack`).
- An update leaves out a peer only if the target has acknowledged its current info, as long as
  changes of an info that is on its way raise its version and the version is not 0; for the
  server's own info, as long as its version does not wrap (`RouteContent.OmittedContentIsCurrent`,
  `RouteContent.OmittedOwnInfoIsCurrent`, `RouteContent.LateAcknowledgementHidesIff`,
  `RouteContent.VersionZeroHidesOne`, `RouteContent.OwnVersionWrapHides`).
- After message 2 both ends share the stored root key, exactly unless the peer joins with a key of
  its own that is not the stored one; since every generation is 1, a peer can do so by mistake
  (`SessionStore.PeerSharesRootKeyIff`, `StoreRuns.GenerationsAreOne`,
  `StoreRuns.StaleGenerationJoins`).
- A message reports a change exactly when the sender's info has changed, unless it switches the
  instance; and acknowledged connection info is left out, unless a peer that was not there was
  removed since (`RouteUpdates.ReportedIffChanged`, `RouteUpdates.SwitchingBackReportsChange`,
  `RouteSessions.AcknowledgedConnIsOmitted`, `RouteSessions.IdleRemovalForgets`).

## Model

| member | source | states |
|---|---|---|
| `ReplayWindow.AcceptExactIffCastHarmless` | cloudflare/wasm/src/secure.rs:145-172 | Against the unbounded set of all accepted sequences, the window accepts exactly the unseen sequences above the maximum minus 256, and keeps summarising the set, if and only if dropping the high 32 bits of the distance is harmless; the condition is read off the window and the incoming sequence. |
| `ReplayWindow.CastCanForget` | cloudflare/wasm/src/secure.rs:145-172 | A concrete trace on which a sequence is accepted twice after a gap of more than 2^32, because of the `as usize` casts. |
| `ReplayWindow.AcceptRefusesAgain` | cloudflare/wasm/src/secure.rs:145-172 | What has just been accepted is refused. |
| `ReplayWindow.RefusalPersists` | cloudflare/wasm/src/secure.rs:145-172 | A refused sequence stays refused, whatever else of its 2^32 range the window is offered. |
| `ReplayWindow.ReorderedPacketsAllPass` | cloudflare/wasm/src/secure.rs:153-172 | Every trace of distinct sequences, each above everything before it minus 256, passes completely and in order, and the window then summarises exactly that trace. |
| `ReplayWindow.ShiftsCompose` | cloudflare/wasm/src/secure.rs:115-143 | Shifting whole bytes and then the remaining bits is one shift by the whole distance. |
| `ReplayWindow.ReplayWindow256.ShiftRight` | cloudflare/wasm/src/secure.rs:115-143 | The in-place byte-then-bit shift of the 32 bytes moves bit k to k + shift, for every shift, and clears what leaves the window. |
| `ReplayWindow.ReplayWindow256.MoveBytes` | cloudflare/wasm/src/secure.rs:126-133 | The descending in-place copy moves whole bytes without overwriting what is still to be copied. |
| `ReplayWindow.ReplayWindow256.CarryBits` | cloudflare/wasm/src/secure.rs:134-142 | The in-place pass that carries bits from byte to byte computes the shifted bytes. |
| `ReplayWindow.ReplayWindow256.CanAcceptSeq` | cloudflare/wasm/src/secure.rs:145-151 | The bitmap test decides like the abstract window. |
| `ReplayWindow.ReplayWindow256.AcceptSeq` | cloudflare/wasm/src/secure.rs:153-172 | The bitmap update performs the abstract acceptance, and its result is the abstract decision. |
| `ReplayWindow.ReplayWindow256.Clear` | cloudflare/wasm/src/secure.rs:97-101 | A cleared window is the empty one. |
| `Traffic.DirectionsMirror` | cloudflare/wasm/src/secure.rs:876-878 | The two ends of a link agree on which direction is which, the one from the lower to the higher id being the first, and never confuse them exactly when their ids differ. |
| `Traffic.PrecheckImpliesCommit` | cloudflare/wasm/src/secure.rs:717-788 | A packet that passes the first replay check is accepted by the second one. |
| `Delivery.PrecheckByMemory` | cloudflare/wasm/src/secure.rs:717-743 | Admission depends only on what is still remembered of the epoch: its window decides, a superseded epoch is refused, an unknown one is judged by how far ahead it is. |
| `Delivery.AtMostOnce` | cloudflare/wasm/src/secure.rs:641-680 | In every run from any state, with any rotations, evictions and Syncs, a packet delivered twice had the memory of its epoch discarded after the first delivery and no later than at the second. |
| `Delivery.RefusedUntilDiscarded` | cloudflare/wasm/src/secure.rs:641-680 | A refused packet stays refused until its epoch is discarded. |
| `Delivery.DiscardsIff` | cloudflare/wasm/src/secure.rs:641-680 | A step discards the memory of an epoch exactly when a condition on the state before the step holds: one for Sync, one for the eviction pass, one for a commit that pushes an epoch out. |
| `Delivery.SyncAdmitsIff` | cloudflare/wasm/src/secure.rs:924-941 | After a Sync a packet is admitted exactly when the first receive slot from before it that held the epoch would accept it, or no receive slot held it. |
| `Delivery.SyncDiscardsIff` | cloudflare/wasm/src/secure.rs:924-941 | A Sync discards an epoch exactly when it was known and the receive slots hold it not at all, or with another window than the one that answered before. |
| `Delivery.QuietFragmentDeliversOnce` | cloudflare/wasm/src/secure.rs:924-941 | In a fragment from a Create or a Sync, without eviction, grace expiry or further Sync, nothing is delivered twice and nothing the grace slots remember is delivered at all. |
| `Delivery.FragmentsStartOrdered` | cloudflare/wasm/src/secure.rs:924-941 | Create and Sync start with ordered slots, and right after a Sync the grace slots remember exactly the epochs the receive slots held. |
| `Delivery.EvictionForgetsIff` | cloudflare/wasm/src/secure.rs:695-715 | In every state, ordered or not, an eviction pass forgets a known epoch exactly when no live grace slot keeps it and slot 0 goes, or is older while slot 1 does not keep it either. |
| `Delivery.CommitForgetsIff` | cloudflare/wasm/src/secure.rs:745-788 | In every state, a commit forgets a known epoch exactly when it opens a new epoch that lies between slot 0 and the newer epoch in slot 1 that it pushes out, a layout that an eviction of slot 0 can leave behind. |
| `Delivery.DroppedEpochRedelivers` | cloudflare/wasm/src/secure.rs:924-941 | A concrete run in which an epoch pushed out of both slots before a Sync is delivered a second time after it. |
| `Delivery.WindowsAgreeWithDelivered` | cloudflare/wasm/src/secure.rs:641-680 | Over any quiet run, whatever it sends and receives in between, the window that answers for an epoch summarises exactly the set of sequences delivered so far, and an unknown epoch has delivered nothing. |
| `Delivery.DeliveredIffFresh` | cloudflare/wasm/src/secure.rs:641-680 | In any quiet run a genuine packet is delivered if and only if it is new and above everything delivered of its epoch minus 256; one of an unknown epoch, if that epoch is let in as well; one of a superseded epoch, never. |
| `Delivery.LiveEpochDeliversAll` | cloudflare/wasm/src/secure.rs:641-680 | In any quiet run, with sends, both directions, forged and repeated packets and other epochs interleaved, a genuine packet that is new and reordered by less than 256 is delivered if and only if its epoch is held or let in at that moment. |
| `Delivery.LiveUntilPassedOver` | cloudflare/wasm/src/secure.rs:745-788 | An epoch in a slot stays held for as long as packets of at most one newer epoch are delivered in its direction. |
| `Arrivals.FragmentsStartTidy` | cloudflare/wasm/src/secure.rs:924-941 | A Create, and a Sync of a session whose slots are distinct, start with no epoch in two slots, and a Sync keeps the times the slots carry. |
| `Arrivals.SlotsKeepTime` | cloudflare/wasm/src/secure.rs:695-788 | Over any quiet run every slot carries the time of the last delivery of its epoch, whatever else arrives. |
| `Arrivals.NextIsQuietIff` | cloudflare/wasm/src/secure.rs:695-715 | Told from the arrivals: the next packet forgets nothing exactly when the grace period still lasts and no epoch that is remembered was last delivered more than half a minute before. |
| `Arrivals.LetInIff` | cloudflare/wasm/src/secure.rs:717-743 | A packet of an unknown epoch is let in exactly when nothing has been received yet, or the epoch is at most three ahead of the send epoch or of an epoch in a slot. |
| `Arrivals.FailCountCounts` | cloudflare/wasm/src/secure.rs:641-680 | Over every run the failure counter is the number of failed openings since the last delivery or Sync. |
| `Arrivals.ErrorIffTenthInARow` | cloudflare/wasm/src/secure.rs:661-672 | A packet whose tag does not open reaches the limit exactly when it is at least the tenth such failure in a row. |
| `Arrivals.SyncStartsOver` | cloudflare/wasm/src/secure.rs:924-941 | A Sync moves to the epoch after the highest one used or held in a slot, wrapping around, and starts every counter over. |
| `Arrivals.GraceLasts` | cloudflare/wasm/src/secure.rs:924-941 | For five seconds after a Sync, and no longer, the former receive slots answer for their epochs, unless idle for half a minute. |
| `Nonces.SealAdvancesIffNoWrap` | cloudflare/wasm/src/secure.rs:618-639 | A seal never goes behind the send position, exactly when its rotation does not wrap the epoch, and moves the position past the nonce. |
| `Nonces.SyncAdvancesIffNoWrap` | cloudflare/wasm/src/secure.rs:924-941 | A Sync, although it restarts the sequence at 0, moves the send position forward exactly when the new epoch does not wrap. |
| `Nonces.LearnedEpochCanWrap` | cloudflare/wasm/src/secure.rs:924-941 | A concrete run in which an epoch learned from the peer makes the next Sync wrap and a nonce repeat. |
| `Nonces.StepAdvances` | cloudflare/wasm/src/secure.rs:618-693 | No step takes the send position back while no epoch wraps. |
| `SessionStore.EventKeepsSound` | cloudflare/wasm/src/secure.rs:887-986 | Every event of every connection keeps the accounting: a counter equals the number of attached connections, root keys are distinct, at most 2048 sessions. |
| `SessionStore.PurgeKeepsAttached` | cloudflare/wasm/src/secure.rs:892-900 | Purging never removes a session that a live connection is attached to. |
| `SessionStore.SelectionTellsTable` | cloudflare/wasm/src/secure.rs:887-986 | What the selection tells the peer is what the table then holds, root key, generation and, after Create or Sync, send epoch; a peer gets no root key exactly when it joins by naming the generation of a session that survives, which keeps key and traffic; a session is created, under the fresh key, exactly when none survives. |
| `SessionStore.RefusedIff` | cloudflare/wasm/src/secure.rs:887-986 | Choosing a session is refused exactly when the peer changes the algorithm of one that survives, or when none survives and 2048 do. |
| `SessionStore.PeerSharesRootKeyIff` | cloudflare/wasm/src/secure.rs:887-986 | A peer that takes the root key of message 2, or keeps its own on a Join, shares the stored root key exactly unless it joins with another key of its own. |
| `StoreRuns.FirstSealIsAsTold` | cloudflare/wasm/src/secure.rs:887-986 | After a Create or a Sync the first seal is number 0 of the epoch that the peer was told, exactly if it comes within ten minutes. |
| `StoreRuns.GenerationsAreOne` | cloudflare/wasm/src/secure.rs:967-986 | In every run from the empty store every session has generation 1. |
| `StoreRuns.StaleGenerationJoins` | cloudflare/wasm/src/secure.rs:887-986 | A concrete sequence of calls in which a peer that still holds the key of a purged session joins the one created after it, and shares no key with it. |
| `StoreRuns.AccountingHolds` | cloudflare/wasm/src/secure.rs:528-591 | In every run from the empty store the accounting holds, no call finds its session missing after attaching, and no counter over- or underflows. |
| `StoreRuns.EventOnSession` | cloudflare/wasm/src/secure.rs:887-986 | An event moves one session by at most one traffic step, purges it, or replaces it by one with a root key never used before. |
| `StoreRuns.ChoosesSyncIff` | cloudflare/wasm/src/secure.rs:887-986 | A call makes the session start over exactly when it survives, the algorithm is the same, and the peer does not name its generation. |
| `StoreRuns.NoncesNeverRepeat` | cloudflare/wasm/src/secure.rs:505-524 | Over every interleaving of reconnects, rotations and sends, two seals under one root key belong to one session and use strictly increasing (epoch, sequence) pairs, unless an epoch of that session wrapped in between. |
| `StoreRuns.SharedEpochIsShort` | cloudflare/wasm/src/secure.rs:682-693 | Over every interleaving of connections, two seals under one root key and one epoch are less than ten minutes and less than a million sequence numbers apart, unless an epoch of that session wrapped in between. |
| `SessionLife.AuthenticatedIff` | cloudflare/wasm/src/secure.rs:988-1009 | A connection becomes authenticated exactly by a proof of the key its session has pinned, or now pins, and stays so exactly until it is dropped. |
| `SessionLife.PinnedForGood` | cloudflare/wasm/src/secure.rs:988-1009 | Over every run, a session that has pinned a key never has another one while its root key is in use. |
| `SessionLife.AuthenticatedHasProved` | cloudflare/wasm/src/secure.rs:988-1009 | In every run from the empty store, each authenticated connection has ended its handshake with a proof of the very key that its session has pinned, so all that share a session have proved one key. |
| `SessionLife.OnlyProvedWork` | cloudflare/wasm/src/secure.rs:479-524 | In every run, a call to seal or open changes anything only if its connection has proved a key before. |
| `SessionLife.TouchedAtLastUse` | cloudflare/wasm/src/secure.rs:571-591 | In every run the time stamp of a stored session is the time of the last call that worked on it, chose it, confirmed a key in it or detached from it. |
| `SessionLife.SessionEndsIff` | cloudflare/wasm/src/secure.rs:887-900 | In every run a session ends exactly at a call that chooses a session, its own or another, when nobody is attached to it and its last use is a minute or more ago. |
| `Rotation.SendRotatesIff` | cloudflare/wasm/src/secure.rs:682-693 | A send ends the epoch exactly when it is its millionth packet or ten minutes have passed; the next epoch then starts empty, now. |
| `Rotation.SealIsNext` | cloudflare/wasm/src/secure.rs:618-639 | A seal is under the epoch that the send leaves behind, at the next sequence of its direction, which alone moves on, by one; it is refused exactly when that sequence is exhausted. |
| `Rotation.EpochIsShort` | cloudflare/wasm/src/secure.rs:682-693 | In every run of one session, two seals under one epoch, in one direction and with no wrap in between, differ in sequence by less than a million and in time by less than ten minutes. |
| `Rotation.SealedInRange` | cloudflare/wasm/src/secure.rs:618-693 | Everything a run without a wrap seals under one epoch and in one direction lies in a range shorter than 2^32. |
| `Rotation.GenuineInRange` | cloudflare/wasm/src/secure.rs:618-693 | What such a sender has sealed meets the range hypothesis of the theorems about receiving. |
| `StoreRuns.SharedSessionDeliversAtMostOnce` | cloudflare/wasm/src/secure.rs:641-680 | If two calls of any connections hand on the same (epoch, sequence) of one session, an event in between made that session discard its memory of the epoch. |
| `StoreRuns.SharedSessionRemembers` | cloudflare/wasm/src/secure.rs:479-503 | Over every quiet interleaving of connections that share a session, the session remembers of an epoch exactly the set of sequences that any of their calls has handed on. |
| `StoreRuns.SharedSessionDeliversIffFresh` | cloudflare/wasm/src/secure.rs:479-503 | Over every quiet interleaving, a genuine packet that a connection of the session offers is handed on if and only if it is new and above everything any connection has been handed of its epoch minus 256; one of an unknown epoch, if that epoch is let in as well; one of a superseded epoch, never. |
| `StoreRuns.SharedSessionDeliversAll` | cloudflare/wasm/src/secure.rs:479-503 | Over every quiet interleaving, a genuine packet that is new and reordered by less than 256 among everything offered by any connection is handed on if and only if its epoch is held or let in at that moment. |
| `SecureEndpoint.SessionTable.Purge` | cloudflare/wasm/src/secure.rs:892-900 | Exactly the sessions that are in use or were touched within the idle time stay. |
| `SecureEndpoint.SessionTable.UpsertSession` | cloudflare/wasm/src/secure.rs:887-986 | Purge, then Create, Join or Sync in place: result and table are those of the session model, whose answer, refusals and effect `SessionStore.SelectionTellsTable` and `SessionStore.RefusedIff` state. |
| `SecureEndpoint.SyncTraffic` | cloudflare/wasm/src/secure.rs:924-941 | The traffic state built field by field is the Sync of the session model. |
| `SecureEndpoint.HighestReceivedEpoch` | cloudflare/wasm/src/secure.rs:924-932 | The loop over all slots yields an epoch at least as high as the send epoch and every epoch received. |
| `SecureEndpoint.SecurePeer.AttachSession` | cloudflare/wasm/src/secure.rs:528-547 | Attaching counts one more connection on the session; it fails, changing nothing, exactly without a session key, when the session is gone, or when its counter is full. |
| `SecureEndpoint.SecurePeer.LoadSessionState` | cloudflare/wasm/src/secure.rs:549-569 | Loading copies the whole stored state, and fails exactly when the session is gone. |
| `SecureEndpoint.SecurePeer.PersistSessionState` | cloudflare/wasm/src/secure.rs:571-591 | Persisting writes the whole working state back and touches no other session; it fails, changing nothing, exactly when there is no session to write to. |
| `SecureEndpoint.SecurePeer.MaybeRotateEpoch` | cloudflare/wasm/src/secure.rs:682-693 | The epoch of the working state is rotated in place as a send of the traffic model does, which is exactly when `Rotation.SendRotatesIff` says. |
| `SecureEndpoint.SecurePeer.EncryptPayload` | cloudflare/wasm/src/secure.rs:618-639 | The endpoint makes one send step and seals under exactly the nonce of the model. |
| `SecureEndpoint.SecurePeer.EncryptPacket` | cloudflare/wasm/src/secure.rs:506-524 | The shared table makes exactly one send step of this session, and only for a frame the endpoint may seal. |
| `SecureEndpoint.SecurePeer.EvictOldRxSlots` | cloudflare/wasm/src/secure.rs:695-715 | The in-place pass over receive and grace slots is the eviction of the model. |
| `SecureEndpoint.SecurePeer.PrecheckReplay` | cloudflare/wasm/src/secure.rs:717-743 | The check reads the slots as the model does, without changing them. |
| `SecureEndpoint.SecurePeer.CommitReplay` | cloudflare/wasm/src/secure.rs:745-788 | The in-place commit marks, opens or moves slots as the model does, and accepts exactly when the model accepts. |
| `SecureEndpoint.SecurePeer.DecryptPayload` | cloudflare/wasm/src/secure.rs:641-680 | A payload too short for its tail is an error that changes nothing; any other is handed on exactly when the check admits its nonce and its tag opens; the tenth failure in a row is an error. |
| `SecureEndpoint.SecurePeer.DecryptPacket` | cloudflare/wasm/src/secure.rs:479-503 | The shared table makes exactly one receive step of this session, and only for an encrypted frame between the two endpoints. |
| `SecureEndpoint.SecurePeer.BuildMsg2` | cloudflare/wasm/src/secure.rs:338-405 | A second message attaches the connection once to the session the store chose. |
| `SecureEndpoint.SecurePeer.ConfirmPublicKey` | cloudflare/wasm/src/secure.rs:988-1009 | The first proven static key is pinned, and a different one is refused. |
| `SecureEndpoint.SecurePeer.Drop` | cloudflare/wasm/src/secure.rs:791-806 | Dropping gives back exactly the attachment the connection holds. |
| `Packet.DecodeEncode` | cloudflare/wasm/src/packet.rs:22-48 | Decoding a header undoes encoding it, whatever follows. |
| `Packet.EncodeDecode` | cloudflare/wasm/src/packet.rs:22-48 | Encoding a decoded header gives back its 16 bytes. |
| `Packet.FieldsAre` | cloudflare/wasm/src/packet.rs:22-36 | Where each header field is found and what its bytes are worth, the least first; a header is read exactly from 16 bytes on. |
| `Packet.ToBytes` | cloudflare/wasm/src/packet.rs:38-48 | The buffer filled field by field is the encoded header. |
| `Packet.BuiltPacketParses` | cloudflare/wasm/src/packet.rs:83-103 | A built frame is accepted by the parser with the header and payload it was built from. |
| `Packet.JoinParse` | cloudflare/wasm/src/packet.rs:51-66 | Parsing a frame and joining it again gives the frame back. |
| `Packet.LengthTestExactIff` | cloudflare/wasm/src/packet.rs:51-66 | The length test in 32-bit arithmetic agrees with the unbounded one on every payload that fits into memory if and only if the frame is clear or its declared length leaves room for the tail below 2^32. |
| `Packet.PrepareForward` | cloudflare/wasm/src/packet.rs:106-114 | Patching one byte of the copy is the same as joining the header with its counter increased. |
| `Packet.PreparePong` | cloudflare/wasm/src/packet.rs:117-125 | Exactly a Ping becomes a Pong, which parses and differs in its type alone. |
| `Packet.HopsAreBounded` | cloudflare/wasm/src/packet.rs:106-114 | A chain of relays carries a frame for exactly 8 minus its counter hops, with payload and all other header fields unchanged. |
| `Framing.NonceRoundTrip` | cloudflare/wasm/src/secure.rs:618-680 | The 12 nonce bytes carry epoch and sequence without loss, the greatest byte of the epoch first. |
| `Framing.OpenSealed` | cloudflare/wasm/src/secure.rs:618-680 | A sealed payload is 28 bytes longer, names its nonce, and opens to its plaintext. |
| `Framing.SecureRoundTrip` | cloudflare/wasm/src/secure.rs:479-524 | Between mirrored endpoints with a common root key and cipher, under whatever name, decryption restores header and payload if and only if the receiver admits the nonce, and the grown frame parses. |
| `Framing.OnlyAddressedFramesPass` | cloudflare/wasm/src/secure.rs:479-524 | A frame is sealed exactly if it is clear, runs from the endpoint to its peer, and its sequence is not exhausted; one is received without error only if it runs the other way, and a clear one is then handed on as it is. |
| `Framing.KeysAgreeIffCollision` | cloudflare/wasm/src/secure.rs:601-616 | The traffic keys, as the cipher uses them, of different root keys, epochs or directions agree if and only if one of the two derivation stages collides, for AES-128 in its first 16 bytes; the expanded label tells epoch and direction apart. |
| `Framing.OnlySealedFramesPass` | cloudflare/wasm/src/secure.rs:479-503 | Against a log of all sealings of an ideal cipher, whatever an encrypted frame hands on was sealed under the endpoint's own cipher, the traffic key of its session, inbound direction and named epoch, and the nonce that the frame names. |
| `Framing.OpensIffKeysAgree` | cloudflare/wasm/src/secure.rs:601-680 | A sealed payload opens if and only if it is read under the cipher it was sealed with and under an equal traffic key, and then to its plaintext. |
| `Framing.ForeignPayloadIsNotHandedOn` | cloudflare/wasm/src/secure.rs:479-503 | A payload that was sealed under a traffic key other than the inbound one is never handed on, whatever header it comes back under. |
| `Framing.ReflectedPayloadIsNotHandedOn` | cloudflare/wasm/src/secure.rs:479-503 | A payload that the endpoint sealed itself and gets back is never handed on, unless the derivation gives both directions the same key. |
| `Reassembly.MergeKeepsTableOk` | cloudflare/wasm/src/rpc.rs:430-547 | Every call, whatever the packet, keeps the byte and piece budgets, the per-peer cap, and each entry's counters equal to its filled pieces. |
| `Reassembly.StorePieceOk` | cloudflare/wasm/src/rpc.rs:480-547 | No subtraction saturates, and when the last piece is in, every piece and the first packet are there: the missing-piece error is unreachable. |
| `Reassembly.Reassembler.MergePacketInPlace` | cloudflare/wasm/src/rpc.rs:430-547 | The in-place merge computes the specified table and result and keeps both counters equal to the sums over the table. |
| `Reassembly.Reassembler.StoreInPlace` | cloudflare/wasm/src/rpc.rs:480-547 | Storing one piece in place, with its budget arithmetic and its refreshed time stamp, is the specified step; that the stamp is the time of the last fragment is `ReassemblyRuns.UpdatedAtLastFragment`. |
| `Reassembly.Reassembler.OpenTransaction` | cloudflare/wasm/src/rpc.rs:453-480 | Room for all declared pieces is reserved at once, or the transaction is refused for exactly the cap that is hit. |
| `Reassembly.Reassembler.RemovePending` | cloudflare/wasm/src/rpc.rs:561-568 | Removing an entry gives its bytes and pieces back exactly. |
| `Reassembly.Reassembler.CleanPending` | cloudflare/wasm/src/rpc.rs:549-559 | Exactly the expired transactions go, and the counters follow. |
| `Reassembly.Reassembler.RemovePeer` | cloudflare/wasm/src/rpc.rs:118-134 | Exactly the peer's transactions go, and the counters follow. |
| `ReassemblyRuns.BudgetsHold` | cloudflare/wasm/src/rpc.rs:118-547 | In every run of arrivals, expiry sweeps and departures of peers, the budgets hold in every state. |
| `ReassemblyRuns.OthersDoNotInterfere` | cloudflare/wasm/src/rpc.rs:430-592 | A packet of another network, peer, transaction number or direction leaves this transaction's entry as it was. |
| `ReassemblyRuns.RefusedIff` | cloudflare/wasm/src/rpc.rs:430-547 | A packet is an error exactly when it is neither whole nor a proper fragment (whose piece 0 names its service), or its piece count differs from the pending one, or a budget has no room for it. |
| `ReassemblyRuns.PendingIff` | cloudflare/wasm/src/rpc.rs:430-547 | After a fragment its transaction is pending exactly when more pieces were asked for; any other outcome leaves nothing of it behind. |
| `ReassemblyRuns.UpdatedAtLastFragment` | cloudflare/wasm/src/rpc.rs:480-559 | In every run a pending transaction carries the time of its last fragment, told from the arrivals alone. |
| `ReassemblyRuns.PieceArrives` | cloudflare/wasm/src/rpc.rs:480-547 | An accepted piece is added to exactly the pieces held, and completes the body exactly when it was the last one missing. |
| `ReassemblyRuns.ReassemblyInvertsSplitting` | cloudflare/wasm/src/rpc.rs:430-547 | For any cut of a body into 2 to 32768 pieces, in any order, with repeats, other traffic, sweeps and departures of other peers in between, and every event less than ten seconds after the transaction's last arrival, the call that brings the last missing piece, and no earlier one, returns the original body with piece 0's envelope. |
| `ReassemblyRuns.GapDrops` | cloudflare/wasm/src/rpc.rs:549-559 | After a gap of ten seconds or more a sweep or another fragment drops the transaction, and a further piece of its own starts it anew. |
| `Topology.FillBitmap` | cloudflare/wasm/src/route_state.rs:572-611 | The in-place loops set exactly the cells of the diagonal and of the server's row and column, and leave the padding zero. |
| `Topology.BuildPeerList` | cloudflare/wasm/src/route_state.rs:546-570 | The list built by passes over the peers connects the server with everybody and everybody with the server. |
| `Topology.EncodingsAgree` | cloudflare/wasm/src/route_state.rs:540-617 | Bitmap and list describe the same star graph: off the diagonal a cell is set exactly when the list connects the two peers. |
| `Topology.BitmapUnique` | cloudflare/wasm/src/route_state.rs:572-611 | The star graph determines the bitmap byte for byte, and it is no longer than its n * n bits need. |
| `RouteRuns.SavedIsAcknowledged` | cloudflare/wasm/src/route_state.rs:183-230 | Every remembered version, and its time stamp, comes from an acknowledgement in the peer's current session. |
| `RouteRuns.OmittedInfoWasAcknowledged` | cloudflare/wasm/src/route_state.rs:294-346 | Whenever an update leaves out a known peer, the target acknowledged, in its current session, an update with that peer at the current version or later, and some update with it within 60 seconds. |
| `RouteRuns.OmittedConnWasAcknowledged` | cloudflare/wasm/src/route_state.rs:516-526 | Whenever an update leaves out connection info, the target acknowledged, in its current session and within 60 seconds, connection info of the same topology version. |
| `RouteContent.OmittedContentIsCurrent` | cloudflare/wasm/src/route_state.rs:294-346 | If every change of a peer's info that happens while that info is on its way raises its version, and the version is not 0, then an update leaves the peer out only if the target acknowledged, in its current session, an update that carried exactly its current info, instance and content included. |
| `RouteContent.OmittedOwnInfoIsCurrent` | cloudflare/wasm/src/route_state.rs:232-346 | An update leaves out the server's own info only if the target acknowledged, in its current session, an update that carried exactly what it is now, as long as its version has not wrapped. |
| `RouteContent.SavedSinceAcknowledged` | cloudflare/wasm/src/route_state.rs:183-230 | A remembered version comes from an acknowledgement since which it has been remembered without a break. |
| `RouteContent.RememberedMovesForward` | cloudflare/wasm/src/route_state.rs:431-465 | An event after which a peer is still remembered for somebody has left its info as it was or raised its version within the same instance. |
| `RouteContent.LateAcknowledgementHidesIff` | cloudflare/wasm/src/route_state.rs:202-230 | An acknowledgement that arrives after a change of an info, a peer's or the server's own, hides the changed info if and only if its version is no higher than the acknowledged one or one remembered before, whatever its instance. |
| `RouteContent.VersionZeroHidesOne` | cloudflare/wasm/src/route_state.rs:312-334 | Version 0 is sent as version 1, so a change to version 1 can stay hidden although the version grows. |
| `RouteContent.OwnVersionWrapHides` | cloudflare/wasm/src/route_state.rs:254-271 | A change of the server's own info that wraps its version stays hidden from a target that has acknowledged the one before. |
| `RouteUpdates.CarriesIff` | cloudflare/wasm/src/route_state.rs:294-346 | An update carries a known info of the room, exactly as it is, if and only if it is forced, or the target has no session id yet, or the target has not acknowledged that version or a later one within a minute. |
| `RouteUpdates.CarriesOnlyThose` | cloudflare/wasm/src/route_state.rs:306-346 | Every entry of an update is the current info, with its version, of the server or of a peer in the room other than the target, each at most once and in order. |
| `RouteUpdates.ConnCarriedIff` | cloudflare/wasm/src/route_state.rs:505-538 | Connection info is left out exactly when the target acknowledged the current topology within a minute, and is a list exactly when the target reads lists. |
| `RouteUpdates.BuildFailsIff` | cloudflare/wasm/src/route_state.rs:505-580 | In every run without a version wrap an update cannot be built exactly when connection info is due, the target reads bitmaps only, and the room with the server has more than 8192 peers. |
| `RouteUpdates.RoomIdsAre` | cloudflare/wasm/src/route_state.rs:505-570 | The adjacency lists the room's members and the server, each once, in order, with its connection version. |
| `RouteUpdates.VersionsAreRemembered` | cloudflare/wasm/src/route_state.rs:202-230 | An acknowledgement is remembered with its time for exactly the peers it carries, and never lowers a remembered version. |
| `RouteUpdates.AcknowledgedIsOmitted` | cloudflare/wasm/src/route_state.rs:294-346 | What the target acknowledged within the last minute, in the same session and not forgotten since, at a version no lower than the current one, an unforced update leaves out. |
| `RouteUpdates.RoomIsWhoWasAdded` | cloudflare/wasm/src/route_state.rs:139-181 | In every run room and bindings are exactly the peers added and not removed since, each under the key it was added with. |
| `RouteUpdates.RemovedIsForgotten` | cloudflare/wasm/src/route_state.rs:166-181 | A removed peer is in no table, no session remembers it, and every session forgets the topology. |
| `RouteUpdates.BumpRaises` | cloudflare/wasm/src/route_state.rs:490-503 | A bump raises the connection version of exactly the known peers and the server by one, moves the topology version on and drops both caches. |
| `RouteUpdates.TopologyMovesIff` | cloudflare/wasm/src/route_state.rs:139-503 | An event moves the topology version exactly when it admits a new peer, removes a known one, or accepts the first info of one. |
| `RouteUpdates.ReportedIffChanged` | cloudflare/wasm/src/route_state.rs:412-486 | A message that names the stored instance throughout, or comes from a peer without an info, reports a change exactly when the sender's published info has changed. |
| `RouteUpdates.SwitchingBackReportsChange` | cloudflare/wasm/src/route_state.rs:431-465 | A concrete message that switches the instance and back reports a change and leaves the info as it was. |
| `RouteSessions.EndsAreWhatWasSaid` | cloudflare/wasm/src/route_state.rs:183-485 | In every run the two ids of a session, and who opened it, are those that builds, requests and acknowledgements last named. |
| `RouteSessions.AcknowledgedConnIsOmitted` | cloudflare/wasm/src/route_state.rs:202-230 | Connection info of the current topology that the target acknowledged within the last minute, in the same session, is left out, unless a peer that was not there was removed in between. |
| `RouteSessions.IdleRemovalForgets` | cloudflare/wasm/src/route_state.rs:166-181 | Removing a peer that is not there moves no version, and yet makes every session forget the topology. |
| `RouteRuns.SessionStep` | cloudflare/wasm/src/route_state.rs:387-486 | No event but the peer's own acknowledgement adds to what its session remembers. |
| `RouteInvariants.CacheHitIsFresh` | cloudflare/wasm/src/route_state.rs:528-538 | For every target in the room a cache hit is what a fresh build would give, whoever the target is. |
| `RouteInvariants.FillKeepsCacheIff` | cloudflare/wasm/src/route_state.rs:528-617 | Filling the cache for a target keeps it right for everybody if and only if the target is in the room. |
| `RouteInvariants.CacheAlwaysSound` | cloudflare/wasm/src/route_state.rs:490-503 | In every run the caches stay right, across joins, leaves, infos and builds. |
| `RouteInvariants.VersionIdentifiesTopology` | cloudflare/wasm/src/route_state.rs:490-503 | An unchanged topology version means an unchanged room with unchanged connection versions. |
| `RouteInvariants.TargetKnowsAdjacency` | cloudflare/wasm/src/route_state.rs:276-384 | An update carries the room's current adjacency, or the target acknowledged exactly that adjacency in its current session. |
| `RouteInvariants.IdentityStep` | cloudflare/wasm/src/route_state.rs:387-486 | An event changes no published info but the sender's own, or drops that of a removed peer. |
| `RouteInvariants.AlwaysIdentified` | cloudflare/wasm/src/route_state.rs:412-430 | In every run each published info belongs to a bound peer and carries the key that peer was authenticated with. |
| `RouteInvariants.SameInstanceMovesForward` | cloudflare/wasm/src/route_state.rs:431-465 | Within one pass over a message whose infos name the stored instance, a published version never goes back, and grows with every change. |
| `RouteInvariants.EventMovesForward` | cloudflare/wasm/src/route_state.rs:387-486 | One event that neither removes a peer nor brings an info of it from another instance leaves its info as it was or raises its version. |
| `RouteInvariants.VersionMovesForward` | cloudflare/wasm/src/route_state.rs:387-486 | Over a run: while a peer stays present and publishes for one instance only, its info keeps that instance and is as it was or has a higher version, whatever everybody else does. |
| `RouteInvariants.VersionGoesBackIff` | cloudflare/wasm/src/route_state.rs:387-465 | Handling any message of a peer, accepted or rejected, takes its published version back within the same instance if and only if the part that is read, up to the first own info with a wrong key, switches to another instance and back again and then stays below the stored version; the condition is read off the message, the bound key and the stored info. |
| `RouteInvariants.RejectionKeepsReadPart` | cloudflare/wasm/src/route_state.rs:412-465 | A rejected message does exactly what the part before its first own info with a wrong key does. |
| `RouteInvariants.RejectedMessageCanGoBack` | cloudflare/wasm/src/route_state.rs:412-465 | A concrete message that is rejected and has taken the version back before. |
| `RouteInvariants.OneMessageCanGoBack` | cloudflare/wasm/src/route_state.rs:431-465 | A concrete message that changes the instance twice and thereby takes the version of the first instance back. |
| `RouteStateInPlace.RouteState.AddPeer` | cloudflare/wasm/src/route_state.rs:139-164 | Binding a key and joining the room in place is the specified step, refused exactly when the key has not 32 bytes or another one is bound. |
| `RouteStateInPlace.RouteState.RemovePeer` | cloudflare/wasm/src/route_state.rs:166-181 | A leaving peer is forgotten in every table and by every session. |
| `RouteStateInPlace.RouteState.BumpAllConnVersions` | cloudflare/wasm/src/route_state.rs:490-503 | One pass raises every connection version once, moves the topology version on and drops both caches. |
| `RouteStateInPlace.RouteState.HandleSyncRouteInfo` | cloudflare/wasm/src/route_state.rs:387-486 | A request under another id than the sender's changes nothing; otherwise the loop stores, skips or rejects each info as specified, keeping what came before a rejection, reports whether routes or the session changed, and answers with the server's own session id, or 1. |
| `RouteStateInPlace.RouteState.Acknowledge` | cloudflare/wasm/src/route_state.rs:183-230 | Noting the session and committing the versions one by one is the specified acknowledgement. |
| `RouteStateInPlace.RouteState.BuildConnInfo` | cloudflare/wasm/src/route_state.rs:505-618 | Cached or built, the encoding is well formed and means the specified connection info. |
| `RouteStateInPlace.RouteState.BuildSyncRouteInfo` | cloudflare/wasm/src/route_state.rs:276-384 | The update built in place carries exactly the specified infos, versions and connection info; which those are, forced or not, is `RouteUpdates.CarriesIff` and `RouteUpdates.ConnCarriedIff`. |
| `RouteSync.SentStaysInStep` | cloudflare/src/core/rpc.ts:144-166 | An update sent for a peer with nothing outstanding is its only transaction, and due exactly when the sender gives up on it. |
| `RouteSync.OverdueHasNone` | cloudflare/src/core/rpc.ts:51-69 | When an update has timed out on one side, its transaction is gone on the other. |
| `RouteSync.CommitStaysSound` | cloudflare/wasm/src/rpc.rs:289-309 | A reply in time moves its build from the outstanding to the acknowledged ones, so no build is ever acknowledged twice. |
| `RouteSync.AtRestAllIsCovered` | cloudflare/src/core/rpc.ts:124-166 | With nothing in flight, every change asked for is covered by an update built since, and nothing is outstanding. |
| `RouteSync.GoneNeedNoExcuse` | cloudflare/src/server.ts:215-231 | Once the failed peers are removed, the two tables agree again about everybody. |
| `RouteSync.EasyTierRpc.AddPeer` | cloudflare/src/core/rpc.ts:41-44 | A peer is bound to its key; a binding to another key is refused. |
| `RouteSync.EasyTierRpc.RemovePeer` | cloudflare/src/core/rpc.ts:46-49 | The peer leaves both tables at once. |
| `RouteSync.EasyTierRpc.CleanExpired` | cloudflare/src/core/rpc.ts:51-69 | Every timed-out update is asked for again in full and is on its way, or its peer is reported, and then an attempt of this sweep for it was refused by the environment; nobody else is touched and nothing overdue stays outstanding. |
| `RouteSync.EasyTierRpc.HandleRequest` | cloudflare/src/core/rpc.ts:71-94 | An answered request that changed routes or sessions asks for exactly one more update back; any other changes neither marks nor transactions, and is an error exactly when its answer could not be sent. |
| `RouteSync.EasyTierRpc.SettleTransaction` | cloudflare/wasm/src/rpc.rs:242-311 | Exactly a matching, positive reply by the deadline ends its transaction and commits its build, after which nothing is outstanding for the peer; a late one only ends it, any other changes nothing. |
| `RouteSync.EasyTierRpc.HandleResponse` | cloudflare/src/core/rpc.ts:96-110 | A timely positive reply ends the flight, commits its build and sends what was asked meanwhile; any other leaves the marks alone, and is an error unless it is a timely partial one. |
| `RouteSync.EasyTierRpc.MaintainPeer` | cloudflare/src/core/rpc.ts:112-122 | A peer is asked for one more update exactly when it has been idle for ten seconds; otherwise nothing changes. |
| `RouteSync.EasyTierRpc.SendRouteUpdate` | cloudflare/src/core/rpc.ts:124-142 | A request is counted once and marked; it goes out, or is left behind the update in flight, or fails, exactly as the environment's answers to this attempt decide. |
| `RouteSync.EasyTierRpc.FlushRouteUpdate` | cloudflare/src/core/rpc.ts:144-166 | A flush tries exactly when something is marked and nothing is in flight, succeeds exactly when the update can be encoded, a fresh id is drawn and the transport takes it, and then covers everything asked so far; marks and transactions after each of the four outcomes are stated in full. |
| `RouteSync.EasyTierRpc.BuildRouteUpdate` | cloudflare/wasm/src/rpc.rs:313-371 | After everything overdue has been dropped, the first fresh id drawn is registered with its deadline, exactly when the update can be encoded and one of the 16 draws is fresh. |
| `RouteSync.EasyTierRpc.NextTransactionId` | cloudflare/wasm/src/rpc.rs:570-581 | The first of 16 draws that is neither 0 nor outstanding for the peer is taken; there is none exactly when no draw is fresh. |
| `RouteSync.OneMoreTrial` | cloudflare/src/core/rpc.ts:144-166 | One more attempt keeps it so that nobody counts as failed without an attempt that the environment refused; a refused one lets its peer be counted. |
| `Rooms.RoomRegistry.Set` | cloudflare/src/runtime/rooms.ts:10-19 | The connection takes its key, and the previous holder is returned. |
| `Rooms.RoomRegistry.Delete` | cloudflare/src/runtime/rooms.ts:21-27 | Only the connection that holds its key is removed, never its successor; no empty room stays. |
| `Server.TablesNameTheSamePeers` | cloudflare/src/server.ts:207-246 | Between events a peer is bound in the routing core exactly when it is registered, and exactly when one, and only one, connection is ready under its key. |
| `Server.RemovalKeepsTables` | cloudflare/src/server.ts:215-231 | Removing a connection keeps the tables in agreement, even while its successor is already registered. |
| `Server.ReadyKeepsTables` | cloudflare/src/server.ts:145-148 | Completing a handshake makes the new connection the one of its peer. |
| `Server.EasyTierServer.Close` | cloudflare/src/server.ts:292-299 | The cascade of closes terminates; besides its argument it closes only ready connections of the same network whose own update could not be sent, leaves every other connection and every other network as it was, restores the agreement of the tables, and tells every remaining peer. |
| `Server.EasyTierServer.BroadcastRouteUpdate` | cloudflare/src/server.ts:232-246 | While nobody has to be closed, every peer of the network but the excluded one is asked exactly once for an update, and nobody else; when somebody is closed, everybody left in the network has been asked; only peers that could not be told are closed, and no other network is touched. |
| `Server.EasyTierServer.RegisterConnection` | cloudflare/src/server.ts:207-213 | A reconnect replaces the former connection, and binding the key can then no longer be refused. |
| `Server.EasyTierServer.Accept` | cloudflare/src/server.ts:47-74 | A new connection starts in its first phase, and is refused exactly when 2048 are open. |
| `Server.EasyTierServer.Closed` | cloudflare/src/server.ts:71-84 | A socket that closes, or a handshake that takes too long, removes its connection with the same cascade; one that was not ready takes nothing else with it. |
| `Server.EasyTierServer.HandleMessage1` | cloudflare/src/server.ts:110-128 | A first message naming a configured network moves the connection to its next phase exactly when the reply can be sent; an unknown network closes it; any other message is an error; nothing else changes. |
| `Server.EasyTierServer.HandleMessage3` | cloudflare/src/server.ts:130-149 | The message succeeds exactly when it confirms, under a 32-byte key, the identity the connection claimed; then the connection is ready under that key, or an update to its own peer could not be sent, and its whole network has been told; otherwise nothing changes. |
| `Server.EasyTierServer.Establish` | cloudflare/src/server.ts:145-148 | The connection takes its key, replaces its predecessor, is ready, and its network is told. |
| `Server.EasyTierServer.HandleReadyPacket` | cloudflare/src/server.ts:151-205 | A frame of an authenticated peer fails exactly when it is past its last hop, objectionable, or cannot be answered, or when an update that it makes due cannot be sent; exactly what is handed on, who is asked for an update, and which update is committed are stated. |
| `Server.EasyTierServer.Forward` | cloudflare/src/server.ts:157-172 | Exactly when the frame's target is a ready peer of the same network, the frame is refused past its last hop, else handed on one hop further, else its target is closed because it cannot take it; in every other case nothing changes. |
| `Server.EasyTierServer.OnMessage` | cloudflare/src/server.ts:89-108 | Whatever arrives, in any phase: the connection is closed exactly when the frame does not fit its phase, cannot be answered, or an update to its peer could not be sent; otherwise it moves on as the phase says, a confirming third message making it the ready one of its key; nobody else is closed but the connection it replaces, the target it cannot reach, and peers of its network whose own update failed, and no other network is touched. |
| `Server.EasyTierServer.FailConnection` | cloudflare/src/server.ts:283-290 | Closing a failed connection restores the agreement its failure may have broken. |
| `Server.EasyTierServer.Maintain` | cloudflare/src/server.ts:252-281 | Every peer that was timed out or idle and is still there has been asked for something new; only ready connections for which an attempt was refused are closed, and every table agrees at the end; while nobody is closed, exactly the peers that were due have been asked, once each, and nobody else is touched. |
| `SendLimiter.SendKeepsBounded` | cloudflare/src/runtime/connection.ts:62-81 | An interval of one second that holds the new frame carries at most two windows' worth. |
| `SendLimiter.RestartKeepsCounted` | cloudflare/src/runtime/connection.ts:62-69 | Starting a new window keeps the counters exact and both bounds. |
| `SendLimiter.SendKeepsSound` | cloudflare/src/runtime/connection.ts:70-81 | A frame that passes the check keeps counters exact, the window within its limit, and every second within twice the limit. |
| `SendLimiter.SendWindow.Send` | cloudflare/src/runtime/connection.ts:62-81 | A frame is sent exactly when the socket is open and it fits its window; in any half-open second at most 64 MiB and 8192 frames are sent. |
| `SendLimiter.TwoWindowsInOneSecond` | cloudflare/src/runtime/connection.ts:62-81 | The bound on bytes is reached: two full windows can pass within one second. |
| `SendLimiter.TwoWindowsOfFrames` | cloudflare/src/runtime/connection.ts:62-81 | The bound on frames is reached: 8192 frames can pass within one second. |
| `PeerCenter.ListsUnique` | cloudflare/wasm/src/peer_center.rs:52-61 | The sorted list of a map's entries is unique: the order in which the map is walked does not matter. |
| `PeerCenter.DigestIsAFunction` | cloudflare/wasm/src/peer_center.rs:52-61 | The digest depends on the entries alone, not on insertion order or time stamps. |
| `PeerCenter.EqualDigestsMeanEqualMaps` | cloudflare/wasm/src/peer_center.rs:136-146 | Where the hash does not collide, a client told that it is up to date holds the current map. |
| `PeerCenter.CurriedBothWays` | cloudflare/wasm/src/peer_center.rs:148-162 | The nested reply and the flat map determine each other. |
| `PeerCenter.Curry` | cloudflare/wasm/src/peer_center.rs:148-162 | The loop builds exactly the nested form of the flat map. |
| `PeerCenter.CalcDigest` | cloudflare/wasm/src/peer_center.rs:52-61 | The entries are hashed in the order of their pairs. |
| `PeerCenter.PeerCenter.ReportPeers` | cloudflare/wasm/src/peer_center.rs:66-106 | A report replaces the reporter's entries for the peers it names, keeps every other entry and digests the result; a report for somebody else changes nothing. |
| `PeerCenter.PeerCenter.RemovePeer` | cloudflare/wasm/src/peer_center.rs:108-120 | Everything about the peer goes in both directions, and an empty group goes with it. |
| `PeerCenter.PeerCenter.GetGlobalPeerMap` | cloudflare/wasm/src/peer_center.rs:125-169 | A client that names the current non-zero digest is up to date; any other gets the whole map with its digest. |
| `PeerCenter.PeerCenter.CleanOutdated` | cloudflare/wasm/src/peer_center.rs:172-185 | An entry or a report stays exactly if it is younger than the time to live, every group left is digested anew, and exactly the groups with nothing young in them go. |
| `PeerCenterRuns.MapIsLastReports` | cloudflare/wasm/src/peer_center.rs:66-185 | In every run the map of a group holds, for each pair, exactly what its source last reported about it and when, unless one of the two has left or the report was found old since. |
| `PeerCenterRuns.ReportersAreWhoReported` | cloudflare/wasm/src/peer_center.rs:66-185 | In every run the reporters of a group are exactly those that have reported and neither left nor been found old since. |
| `PeerCenterRuns.UpToDateMeansCurrent` | cloudflare/wasm/src/peer_center.rs:136-162 | A client that was handed a map under a digest and is later told that the digest is up to date holds the entries as they are now, where the hash does not collide. |

## Left out

- Connection objects: a connection is a value in the server's map, found by its socket, and a closed one is absent; the phase "closed", updates through an alias of the object, and `disposeConnection` are not modelled.
- Receive slots inside a session hold windows as values; the in-place 32-byte bitmap is `ReplayWindow256`, proved on its own against the same abstract window.
- `SendLimiter.SendWindow` is proved on its own; in the server whether a send succeeds is an input.
- The map of groups in `route_state.rs`: one network's routing state is modelled, and networks do not share any of it.
- The routing core inside `RouteSync` is represented by its key bindings and transactions; the contents of an update are the subject of `RouteRuns`. That a route acknowledgement answers an update at most once and in time is proved in `RouteSync`; `RouteRuns` assumes less, namely that it answers some earlier update.
- RouteRuns.OmittedInfoWasAcknowledged: speaks of version numbers and needs no proviso; what it takes to say the same of contents is `RouteContent.OmittedContentIsCurrent`.
- SecureEndpoint.SecurePeer.BuildMsg2: the contents of the message, its proof of the network secret and the connection ids are not modelled; whether it could be written is a parameter.
- Server.EasyTierServer.HandleReadyPacket: the contents of an RPC answer are not modelled; `handed` is the forwarded frame or the Pong.
- RouteSync.EasyTierRpc.HandleRequest: what the routing core makes of the request is a parameter; that part is `RouteStateInPlace.RouteState.HandleSyncRouteInfo`.
- RouteSync.EasyTierRpc.SettleTransaction: the envelope, reassembly and descriptor checks of a reply are folded into one parameter; reassembly is proved in `ReassemblyRuns`.
- RouteSync.EasyTierRpc.BuildRouteUpdate: whether the payload can be encoded, and which ids are drawn, are inputs; the payload and its versions are those of `RouteStateInPlace.RouteState.BuildSyncRouteInfo`.
- Noise XX, X25519, HMAC, the two HMAC stages of the key derivation and the AEAD ciphers: `Framing.Crypto` is a parameter, assumed ideal where a lemma says so; what the derivation is applied to is modelled. An unsupported algorithm is refused with the first message; the modelled endpoint treats such a name as sealing and opening do.
- Protobuf, JSON and base64 decoding, envelope and compression checks, RPC dispatch and error descriptors: a decoded message or a refusal is a parameter.
- `set_my_info_field`, host names and feature flags, except that changing the server's own info, its key or another field, raises its version.
- The full-mesh branch of the bitmap, which cannot be reached because the server is always among the peers it lists.
- Timers, WebSocket calls and HTTP routing; a handshake timeout and a closed socket are the same event, and closing a socket does not throw.
- The first configuration of a network inside `add_peer` (host name and the server's own key), and its failure.
- Several clock readings within one call: an event has one time.
- `config.ts` and `messages.ts`, straight-line validation; a confirmed key has 32 bytes.
- Logging, deployment scripts and documentation.
