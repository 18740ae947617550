/**
 A connection's secure endpoint, working in place on the shared session table.

 Each call loads the session into the endpoint's own fields, works on them, and writes
 them back; the contracts say that the table makes exactly the step of the session model.
 */
module SecureEndpoint {
  import opened Common
  import opened Endian
  import opened Packet
  import opened Traffic
  import opened ReplayWindow
  import opened SessionStore
  import opened Framing

  class SessionTable {
    var sessions: Sessions

    constructor ()
      ensures sessions == map[]
    {
      sessions := map[];
    }

    /** Sessions in use stay, and so do those touched a short while ago. */
    method Purge(now: nat)
      modifies this
      ensures sessions == Purged(old(sessions), now)
    {
      sessions := map k | k in sessions && (sessions[k].attachments > 0
                                            || SaturatingSub(now, sessions[k].lastTouchMs) < SESSION_IDLE_MS) :: sessions[k];
    }

    /** Purge idle sessions, then Create, Join or Sync. */
    method UpsertSession(key: SessionKey, generation: Option<nat>, algorithm: string, now: nat, random: Key32) returns (r: Result<Selection>)
      modifies this
      ensures r == Upsert(old(sessions), key, generation, algorithm, now, random)
      ensures sessions == Upserted(old(sessions), key, generation, algorithm, now, random)
    {
      Purge(now);
      var count := |sessions|;
      if key in sessions {
        var session := sessions[key];
        if session.clientAlgorithm != algorithm {
          return Err("reconnecting peer changed its secure-session encryption algorithm");
        }
        if generation == Some(session.generation) {
          sessions := sessions[key := session.(lastTouchMs := now)];
          return Ok(Selection(Action.Join, session.generation, None, session.rootKey, 0));
        }
        var traffic := SyncTraffic(session.traffic, now);
        session := session.(traffic := traffic, lastTouchMs := now);
        sessions := sessions[key := session];
        return Ok(Selection(Action.Sync, session.generation, Some(session.rootKey), session.rootKey, session.traffic.sendEpoch));
      }
      if count >= MAX_STORED_SESSIONS {
        return Err("secure peer session capacity exceeded");
      }
      sessions := sessions[key := StoredSession(random, 1, Created(now), algorithm, None, now, 0)];
      return Ok(Selection(Action.Create, 1, Some(random), random, 0));
    }
  }

  /** The traffic state a Sync starts over with. */
  method SyncTraffic(t: State, now: nat) returns (r: State)
    ensures r == Synced(t, now)
  {
    var syncEpoch := HighestReceivedEpoch(t);
    r := State(
      WrappingAdd(syncEpoch, 1, U32), PerDir(0, 0), now, 0,
      PerDir(NO_SLOTS, NO_SLOTS),
      Grace(t.rx, SaturatingAdd(now, SYNC_RX_GRACE_AFTER_MS, U64), true), 0);
  }

  /** The loop over all receive slots that a Sync uses to leave every seen epoch behind. */
  method HighestReceivedEpoch(t: State) returns (epoch: u32)
    ensures epoch == SyncEpoch(t)
    ensures t.sendEpoch <= epoch
    ensures forall d: Dir, e: u32 :: t.rx.At(d).cur.Holds(e) || t.rx.At(d).prev.Holds(e) ==> e <= epoch
  {
    epoch := t.sendEpoch;
    for d := 0 to 2
      invariant epoch == if d == 0 then t.sendEpoch
                         else if d == 1 then HighestEpoch(t.sendEpoch, t.rx.low)
                         else HighestEpoch(HighestEpoch(t.sendEpoch, t.rx.low), t.rx.high)
    {
      var slots := t.rx.At(d);
      if slots.cur.valid {
        epoch := Max(epoch, slots.cur.epoch);
      }
      if slots.prev.valid {
        epoch := Max(epoch, slots.prev.epoch);
      }
    }
  }

  class SecurePeer {
    const table: SessionTable
    const crypto: Crypto
    const serverPeerId: u32
    const clientAlgorithm: string
    var sessionKey: Option<SessionKey>
    var sessionAttached: bool
    var authenticated: bool
    var rootKey: Key32
    var sendEpoch: u32
    var sendSeq: PerDir<nat>
    var epochStartedMs: nat
    var packetsSinceEpoch: nat
    var rxSlots: PerDir<Slots>
    var syncRxGrace: Grace
    var failCount: nat

    constructor (table: SessionTable, crypto: Crypto, serverPeerId: u32, clientAlgorithm: string, now: nat)
      ensures this.table == table && this.serverPeerId == serverPeerId
      ensures sessionKey == None && !sessionAttached && !authenticated && Loaded() == Created(now)
    {
      this.table, this.crypto, this.serverPeerId, this.clientAlgorithm := table, crypto, serverPeerId, clientAlgorithm;
      sessionKey, sessionAttached, authenticated, rootKey := None, false, false, [];
      sendEpoch, sendSeq, epochStartedMs, packetsSinceEpoch := 0, PerDir(0, 0), now, 0;
      rxSlots, syncRxGrace, failCount := PerDir(NO_SLOTS, NO_SLOTS), NO_GRACE, 0;
    }

    /** The endpoint's own copy of the session. */
    ghost function Loaded(): State
      reads this
    {
      State(sendEpoch, sendSeq, epochStartedMs, packetsSinceEpoch, rxSlots, syncRxGrace, failCount)
    }

    ghost predicate Bound()
      reads this, table
    {
      sessionKey.Some? && sessionKey.value in table.sessions
    }

    ghost function Session(): StoredSession
      requires Bound()
      reads this, table
    {
      table.sessions[sessionKey.value]
    }

    // ----- Attaching, loading, saving -----

    method AttachSession(now: nat) returns (ok: bool)
      modifies this`sessionAttached, table
      ensures ok <==> old(Bound()) && old(table.sessions)[sessionKey.value].attachments + 1 < U32
      ensures ok ==> sessionAttached && table.sessions == old(table.sessions)[sessionKey.value :=
                old(table.sessions)[sessionKey.value].(attachments := old(Session()).attachments + 1, lastTouchMs := now)]
      ensures !ok ==> table.sessions == old(table.sessions) && sessionAttached == old(sessionAttached)
    {
      if sessionKey.None? || sessionKey.value !in table.sessions {
        return false;
      }
      var session := table.sessions[sessionKey.value];
      if session.attachments + 1 >= U32 {
        return false;
      }
      table.sessions := table.sessions[sessionKey.value := session.(attachments := session.attachments + 1, lastTouchMs := now)];
      sessionAttached := true;
      return true;
    }

    method LoadSessionState() returns (ok: bool)
      modifies this`rootKey, this`sendEpoch, this`sendSeq, this`epochStartedMs, this`packetsSinceEpoch, this`rxSlots, this`syncRxGrace, this`failCount
      ensures ok <==> Bound()
      ensures ok ==> Loaded() == Session().traffic && rootKey == Session().rootKey
      ensures !ok ==> Loaded() == old(Loaded())
    {
      if sessionKey.None? || sessionKey.value !in table.sessions {
        return false;
      }
      var session := table.sessions[sessionKey.value];
      rootKey := session.rootKey;
      sendEpoch := session.traffic.sendEpoch;
      sendSeq := session.traffic.sendSeq;
      epochStartedMs := session.traffic.epochStartedMs;
      packetsSinceEpoch := session.traffic.packetsSinceEpoch;
      rxSlots := session.traffic.rx;
      syncRxGrace := session.traffic.grace;
      failCount := session.traffic.failCount;
      return true;
    }

    method PersistSessionState(now: nat) returns (ok: bool)
      modifies table
      ensures ok <==> old(Bound())
      ensures table.sessions ==
        if ok then old(table.sessions)[sessionKey.value := old(Session()).(traffic := Loaded(), lastTouchMs := now)]
        else old(table.sessions)
    {
      if sessionKey.None? || sessionKey.value !in table.sessions {
        return false;
      }
      var session := table.sessions[sessionKey.value];
      table.sessions := table.sessions[sessionKey.value := session.(
        traffic := State(sendEpoch, sendSeq, epochStartedMs, packetsSinceEpoch, rxSlots, syncRxGrace, failCount),
        lastTouchMs := now)];
      return true;
    }

    // ----- Sending -----

    method MaybeRotateEpoch(now: nat)
      modifies this`sendEpoch, this`epochStartedMs, this`packetsSinceEpoch
      ensures Loaded() == Rotated(old(Loaded()), now)
    {
      packetsSinceEpoch := SaturatingAdd(packetsSinceEpoch, 1, U64);
      if packetsSinceEpoch < ROTATE_AFTER_PACKETS && SaturatingSub(now, epochStartedMs) < ROTATE_AFTER_MS {
        return;
      }
      sendEpoch := WrappingAdd(sendEpoch, 1, U32);
      epochStartedMs := now;
      packetsSinceEpoch := 0;
    }

    method EncryptPayload(algorithm: string, d: Dir, plaintext: Bytes, now: nat) returns (r: Result<Bytes>)
      modifies this`sendEpoch, this`epochStartedMs, this`packetsSinceEpoch, this`sendSeq
      ensures Loaded() == Sent(old(Loaded()), d, now)
      ensures var n := SealNonce(old(Loaded()), d, now);
              r == if n.None? then Err("secure packet sequence exhausted")
                   else if CipherOf(algorithm).None? then Err("unsupported EasyTier encryption algorithm")
                   else Ok(SealedPayload(crypto, CipherOf(algorithm).value, rootKey, n.value, d, plaintext))
    {
      MaybeRotateEpoch(now);
      var epoch := sendEpoch;
      var sequence := sendSeq.At(d);
      if sequence + 1 >= U64 {
        return Err("secure packet sequence exhausted");
      }
      sendSeq := sendSeq.With(d, sequence + 1);
      var nonce := Be(epoch, 4) + Be(sequence, 8);
      var cipher := CipherOf(algorithm);
      if cipher.None? {
        return Err("unsupported EasyTier encryption algorithm");
      }
      var output := crypto.seal(cipher.value, KeyFor(crypto, cipher.value, rootKey, epoch, d), nonce, plaintext);
      return Ok(output + nonce);
    }

    method EncryptPacket(frame: Bytes, now: nat) returns (r: Result<Bytes>)
      modifies this, table
      ensures sessionKey == old(sessionKey) && authenticated == old(authenticated) && sessionAttached == old(sessionAttached)
      ensures !(old(authenticated) && old(Bound())) ==> r.Err? && table.sessions == old(table.sessions)
      ensures old(authenticated) && old(Bound()) ==>
        && r == EncryptFrame(crypto, SERVER_ENCRYPTION_ALGORITHM, old(Session()).rootKey, old(Session()).traffic, serverPeerId, sessionKey.value.peerId, frame, now)
        && table.sessions ==
             if Addressed(frame, serverPeerId, sessionKey.value.peerId, false) then
               old(table.sessions)[sessionKey.value := old(Session()).(
                 traffic := Sent(old(Session()).traffic, DirectionIndex(serverPeerId, sessionKey.value.peerId), now), lastTouchMs := now)]
             else old(table.sessions)
    {
      if !authenticated {
        return Err("secure session is not authenticated");
      }
      var loaded := LoadSessionState();
      if !loaded {
        return Err("secure session disappeared while loading state");
      }
      var parsed := ParsePacket(frame);
      if parsed.Err? {
        return Err(parsed.reason);
      }
      var header := parsed.value;
      if header.fromPeerId != serverPeerId || header.toPeerId != sessionKey.value.peerId {
        return Err("packet is not addressed over this direct session");
      }
      if Encrypted(header.flags) {
        return Err("packet is already encrypted");
      }
      var d := DirectionIndex(header.fromPeerId, header.toPeerId);
      var sealed_ := EncryptPayload(SERVER_ENCRYPTION_ALGORITHM, d, frame[HEADER_SIZE..], now);
      var saved := PersistSessionState(now);
      assert saved;
      if sealed_.Err? {
        return Err(sealed_.reason);
      }
      return Ok(Frame(Marked(header), sealed_.value));
    }

    // ----- Receiving -----

    method EvictOldRxSlots(now: nat)
      modifies this`rxSlots, this`syncRxGrace
      ensures Loaded() == Evicted(old(Loaded()), now)
    {
      rxSlots := EvictSlots(rxSlots, now);
      if syncRxGrace.valid && now >= syncRxGrace.expiresAtMs {
        syncRxGrace := NO_GRACE;
      } else if syncRxGrace.valid {
        var kept := EvictSlots(syncRxGrace.slots, now);
        syncRxGrace := syncRxGrace.(slots := kept);
      }
    }

    static method EvictSlots(slots: PerDir<Slots>, now: nat) returns (kept: PerDir<Slots>)
      ensures kept == EvictedSlots(slots, now)
    {
      kept := slots;
      for d := 0 to 2
        invariant forall c: Dir :: kept.At(c) == if c < d then EvictedSlots(slots, now).At(c) else slots.At(c)
      {
        var pair := kept.At(d);
        if pair.cur.valid && pair.cur.lastRxMs != 0 && SaturatingSub(now, pair.cur.lastRxMs) > RX_EPOCH_IDLE_MS {
          pair := pair.(cur := NO_SLOT);
        }
        if pair.prev.valid && pair.prev.lastRxMs != 0 && SaturatingSub(now, pair.prev.lastRxMs) > RX_EPOCH_IDLE_MS {
          pair := pair.(prev := NO_SLOT);
        }
        kept := kept.With(d, pair);
      }
      assert kept.At(0) == EvictedSlots(slots, now).At(0) && kept.At(1) == EvictedSlots(slots, now).At(1);
    }

    method PrecheckReplay(epoch: u32, sequence: nat, d: Dir) returns (ok: bool)
      ensures ok == Precheck(Loaded(), d, epoch, sequence)
    {
      if syncRxGrace.valid {
        var grace := syncRxGrace.slots.At(d);
        if grace.cur.Holds(epoch) {
          return CanAccept(grace.cur.window, sequence);
        }
        if grace.prev.Holds(epoch) {
          return CanAccept(grace.prev.window, sequence);
        }
      }
      var slots := rxSlots.At(d);
      if !slots.cur.valid {
        return true;
      }
      if slots.cur.epoch == epoch {
        return CanAccept(slots.cur.window, sequence);
      }
      if slots.prev.Holds(epoch) {
        return CanAccept(slots.prev.window, sequence);
      }
      if epoch > slots.cur.epoch {
        var baseline: u32 := Max(sendEpoch, slots.cur.epoch);
        if slots.prev.valid {
          baseline := Max(baseline, slots.prev.epoch);
        }
        return epoch <= SaturatingAdd(baseline, MAX_ACCEPTED_RX_EPOCH_AHEAD, U32);
      }
      return false;
    }

    method CommitReplay(epoch: u32, sequence: nat, d: Dir, now: nat) returns (ok: bool)
      modifies this`rxSlots, this`syncRxGrace
      ensures Loaded() == Committed(old(Loaded()), d, epoch, sequence, now)
      ensures ok == CommitAccepts(old(Loaded()), d, epoch, sequence)
    {
      if syncRxGrace.valid {
        var grace := syncRxGrace.slots.At(d);
        if grace.cur.Holds(epoch) {
          syncRxGrace := syncRxGrace.(slots := syncRxGrace.slots.With(d, grace.(cur := Touched(grace.cur, sequence, now))));
          return CanAccept(grace.cur.window, sequence);
        }
        if grace.prev.Holds(epoch) {
          syncRxGrace := syncRxGrace.(slots := syncRxGrace.slots.With(d, grace.(prev := Touched(grace.prev, sequence, now))));
          return CanAccept(grace.prev.window, sequence);
        }
      }
      var slots := rxSlots.At(d);
      if !slots.cur.valid {
        slots := slots.(cur := Slot(epoch, EMPTY, now, true));
      }
      if slots.cur.epoch == epoch {
        rxSlots := rxSlots.With(d, slots.(cur := Touched(slots.cur, sequence, now)));
        return CanAccept(slots.cur.window, sequence);
      }
      if slots.prev.Holds(epoch) {
        rxSlots := rxSlots.With(d, slots.(prev := Touched(slots.prev, sequence, now)));
        return CanAccept(slots.prev.window, sequence);
      }
      if epoch > slots.cur.epoch {
        slots := Slots(Slot(epoch, EMPTY, now, true), slots.cur);
        rxSlots := rxSlots.With(d, slots.(cur := Touched(slots.cur, sequence, now)));
        return CanAccept(slots.cur.window, sequence);
      }
      return false;
    }

    /** Ok(None) is a packet dropped in silence. */
    method DecryptPayload(algorithm: string, d: Dir, payload: Bytes, now: nat) returns (r: Result<Option<Bytes>>)
      modifies this`rxSlots, this`syncRxGrace, this`failCount
      ensures |payload| < AEAD_TAIL_SIZE ==> r == Err("encrypted EasyTier payload is too short") && Loaded() == old(Loaded())
      ensures |payload| >= AEAD_TAIL_SIZE ==>
              var n, text := NonceIn(payload), Unsealed(crypto, algorithm, rootKey, d, payload);
              && Loaded() == Received(old(Loaded()), d, n.epoch, n.sequence, text.Some?, now)
              && ((r.Ok? && r.value.Some?) <==> Delivers(old(Loaded()), d, n.epoch, n.sequence, text.Some?, now))
              && (r.Ok? && r.value.Some? ==> r.value == text)
              && (r.Err? ==> r.reason == "EasyTier session decryption failed")
              && (r.Err? <==> Precheck(Evicted(old(Loaded()), now), d, n.epoch, n.sequence) && text.None?
                              && SaturatingAdd(old(failCount), 1, U32) >= DECRYPT_FAIL_THRESHOLD)
    {
      if |payload| < AEAD_TAIL_SIZE {
        return Err("encrypted EasyTier payload is too short");
      }
      var box, nonce := payload[..|payload| - AEAD_NONCE_SIZE], payload[|payload| - AEAD_NONCE_SIZE..];
      var epoch, sequence := U32FromBe(nonce[..4]), FromBe(nonce[4..]);
      EvictOldRxSlots(now);
      var admitted := PrecheckReplay(epoch, sequence, d);
      if !admitted {
        return Ok(None);
      }
      var cipher := CipherOf(algorithm);
      var plaintext := if cipher.None? then None else crypto.open(cipher.value, KeyFor(crypto, cipher.value, rootKey, epoch, d), nonce, box);
      if plaintext.None? {
        failCount := SaturatingAdd(failCount, 1, U32);
        if failCount >= DECRYPT_FAIL_THRESHOLD {
          return Err("EasyTier session decryption failed");
        }
        return Ok(None);
      }
      failCount := 0;
      var committed := CommitReplay(epoch, sequence, d, now);
      if !committed {
        return Ok(None);
      }
      return Ok(plaintext);
    }

    method DecryptPacket(frame: Bytes, now: nat) returns (r: Result<Bytes>)
      modifies this, table
      ensures sessionKey == old(sessionKey) && authenticated == old(authenticated) && sessionAttached == old(sessionAttached)
      ensures !(old(authenticated) && old(Bound())) ==> r.Err? && table.sessions == old(table.sessions)
      ensures old(authenticated) && old(Bound()) ==>
        && r == DecryptFrame(crypto, clientAlgorithm, old(Session()).rootKey, old(Session()).traffic, serverPeerId, sessionKey.value.peerId, frame, now)
        && table.sessions ==
             if Addressed(frame, sessionKey.value.peerId, serverPeerId, true) then
               var d, payload := DirectionIndex(sessionKey.value.peerId, serverPeerId), frame[HEADER_SIZE..];
               var n := NonceIn(payload);
               old(table.sessions)[sessionKey.value := old(Session()).(
                 traffic := Received(old(Session()).traffic, d, n.epoch, n.sequence,
                                     Unsealed(crypto, clientAlgorithm, old(Session()).rootKey, d, payload).Some?, now),
                 lastTouchMs := now)]
             else old(table.sessions)
    {
      if !authenticated {
        return Err("secure session is not authenticated");
      }
      var loaded := LoadSessionState();
      if !loaded {
        return Err("secure session disappeared while loading state");
      }
      var parsed := ParsePacket(frame);
      if parsed.Err? {
        return Err(parsed.reason);
      }
      var header := parsed.value;
      if header.fromPeerId != sessionKey.value.peerId || header.toPeerId != serverPeerId {
        return Err("packet is not addressed over this direct session");
      }
      if !Encrypted(header.flags) {
        return Ok(frame);
      }
      var d := DirectionIndex(header.fromPeerId, header.toPeerId);
      var result := DecryptPayload(clientAlgorithm, d, frame[HEADER_SIZE..], now);
      var saved := PersistSessionState(now);
      assert saved;
      if result.Err? {
        return Err(result.reason);
      }
      if result.value.None? {
        return Ok([]);
      }
      return Ok(Frame(Cleared(header), result.value.value));
    }

    // ----- The handshake and the end of a connection -----

    method BuildMsg2(key: SessionKey, generation: Option<nat>, now: nat, random: Key32, written: bool) returns (r: Result<Selection>)
      modifies this, table
      ensures old(sessionKey).Some? ==> r.Err? && table.sessions == old(table.sessions) && sessionKey == old(sessionKey)
      ensures old(sessionKey).None? ==>
        var ss, chosen := Upserted(old(table.sessions), key, generation, clientAlgorithm, now, random),
                          Upsert(old(table.sessions), key, generation, clientAlgorithm, now, random);
        if chosen.Err? || !written then
          r.Err? && table.sessions == ss && sessionKey == None
        else if key in ss && ss[key].attachments + 1 < U32 then
          && r == chosen && sessionKey == Some(key) && sessionAttached
          && table.sessions == ss[key := ss[key].(attachments := ss[key].attachments + 1, lastTouchMs := now)]
          && Loaded() == ss[key].traffic && rootKey == ss[key].rootKey
        else
          r.Err? && table.sessions == ss
    {
      if sessionKey.Some? {
        return Err("message 2 was already built");
      }
      r := table.UpsertSession(key, generation, clientAlgorithm, now, random);
      if r.Err? {
        return;
      }
      if !written {
        return Err("noise message 2 could not be written");
      }
      sessionKey := Some(key);
      var attached := AttachSession(now);
      if !attached {
        return Err("secure session disappeared while attaching connection");
      }
      var loaded := LoadSessionState();
      if !loaded {
        return Err("secure session disappeared while loading state");
      }
    }

    /** The end of message 3: the proof has been checked, the static key is pinned. */
    method ConfirmPublicKey(remotePublicKey: Key32, now: nat) returns (ok: bool)
      modifies this`authenticated, table
      ensures ok <==> old(Bound()) && !KeyChanged(old(Session()), remotePublicKey)
      ensures ok ==> authenticated && table.sessions == old(table.sessions)[sessionKey.value :=
                old(Session()).(remotePublicKey := Some(remotePublicKey), lastTouchMs := now)]
      ensures !ok ==> table.sessions == old(table.sessions) && authenticated == old(authenticated)
    {
      if sessionKey.None? || sessionKey.value !in table.sessions {
        return false;
      }
      var session := table.sessions[sessionKey.value];
      if session.remotePublicKey.Some? && session.remotePublicKey.value != remotePublicKey {
        return false;
      }
      table.sessions := table.sessions[sessionKey.value := session.(remotePublicKey := Some(remotePublicKey), lastTouchMs := now)];
      authenticated := true;
      return true;
    }

    method Drop(now: nat)
      modifies table
      ensures table.sessions ==
        if sessionAttached && old(Bound()) then
          old(table.sessions)[sessionKey.value := old(Session()).(
            attachments := SaturatingSub(old(Session()).attachments, 1), lastTouchMs := now)]
        else old(table.sessions)
    {
      if !sessionAttached || sessionKey.None? || sessionKey.value !in table.sessions {
        return;
      }
      var session := table.sessions[sessionKey.value];
      table.sessions := table.sessions[sessionKey.value := session.(
        attachments := SaturatingSub(session.attachments, 1), lastTouchMs := now)];
    }
  }

  /** The frame is well formed, runs from one endpoint to the other, and is encrypted as expected. */
  predicate Addressed(frame: Bytes, fromPeer: u32, toPeer: u32, encrypted: bool) {
    match ParsePacket(frame)
    case Err(_) => false
    case Ok(h) => h.fromPeerId == fromPeer && h.toPeerId == toPeer && Encrypted(h.flags) == encrypted
  }
}
