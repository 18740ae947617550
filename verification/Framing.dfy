/** Sealed frames: header with the encrypted flag, ciphertext and tag, then the 12-byte nonce. */
module Framing {
  import opened Common
  import opened Endian
  import opened Packet
  import opened Traffic

  const AEAD_TAG_SIZE: nat := 16
  const AEAD_NONCE_SIZE: nat := 12
  const SERVER_ENCRYPTION_ALGORITHM := "aes-gcm"
  const DECRYPT_FAIL_THRESHOLD: nat := 10

  datatype Cipher = Aes128Gcm | Aes256Gcm | ChaCha20

  function Lower(name: string): string {
    seq(|name|, i requires 0 <= i < |name| => if 'A' <= name[i] <= 'Z' then (name[i] as int + 32) as char else name[i])
  }

  /** Upper and lower case name the same cipher, and ChaCha20 has two names; any other name is refused. */
  function CipherOf(algorithm: string): Option<Cipher> {
    var name := Lower(algorithm);
    if name == "aes-gcm" then Some(Aes128Gcm)
    else if name == "aes-256-gcm" then Some(Aes256Gcm)
    else if name == "chacha20" || name == "chacha20-poly1305" then Some(ChaCha20)
    else None
  }

  /**
   The ciphers and the two stages of the key derivation, as parameters.  `seal` returns the
   ciphertext with its 16-byte tag behind it; `open` takes the two together.
   */
  datatype Crypto = Crypto(
    extract: Key32 -> Key32,
    expand: (Key32, Bytes) -> Key32,
    seal: (Cipher, seq<byte>, Bytes, Bytes) -> Bytes,
    open: (Cipher, seq<byte>, Bytes, Bytes) -> Option<Bytes>)

  /** An ideal authenticated cipher: a box opens, to its plaintext, exactly when it was sealed. */
  ghost predicate Ideal(c: Crypto) {
    && (forall x, k, n, p {:trigger c.seal(x, k, n, p)} :: |c.seal(x, k, n, p)| == |p| + AEAD_TAG_SIZE)
    && (forall x, k, n, p {:trigger c.seal(x, k, n, p)} :: c.open(x, k, n, c.seal(x, k, n, p)) == Some(p))
    && (forall x, k, n, b {:trigger c.open(x, k, n, b)} :: c.open(x, k, n, b).Some? ==> b == c.seal(x, k, n, c.open(x, k, n, b).value))
  }

  // ----- Traffic keys -----

  // The ASCII codes of "et-traffic".
  const TRAFFIC_LABEL: Bytes := [101, 116, 45, 116, 114, 97, 102, 102, 105, 99]

  /** What a traffic key is expanded from: label, epoch, direction, block number. */
  function TrafficInfo(epoch: u32, d: Dir): Bytes {
    TRAFFIC_LABEL + Be(epoch, 4) + [d] + [1]
  }

  function TrafficKey(c: Crypto, root: Key32, epoch: u32, d: Dir): Key32 {
    c.expand(c.extract(root), TrafficInfo(epoch, d))
  }

  /** AES-128 takes the first half of the traffic key. */
  function CutFor(cipher: Cipher, key: Key32): seq<byte> {
    if cipher == Aes128Gcm && |key| == 32 then key[..16] else key
  }

  function KeyFor(c: Crypto, cipher: Cipher, root: Key32, epoch: u32, d: Dir): seq<byte> {
    CutFor(cipher, TrafficKey(c, root, epoch, d))
  }

  lemma TrafficInfoInjective(epoch: u32, d: Dir, epoch': u32, d': Dir)
    ensures TrafficInfo(epoch, d) == TrafficInfo(epoch', d') <==> epoch == epoch' && d == d'
  {
    var a, b := TrafficInfo(epoch, d), TrafficInfo(epoch', d');
    assert a[10..14] == Be(epoch, 4) && b[10..14] == Be(epoch', 4) && a[14] == d && b[14] == d';
    WordSizes();
    BeRoundTrip(epoch, 4);
    BeRoundTrip(epoch', 4);
  }

  /** Two different root keys give the same intermediate key. */
  predicate ExtractCollides(c: Crypto, root: Key32, root': Key32) {
    root != root' && c.extract(root) == c.extract(root')
  }

  /** Two different expansions give keys that agree in the bytes the cipher uses. */
  predicate ExpandCollides(c: Crypto, cipher: Cipher, key: Key32, info: Bytes, key': Key32, info': Bytes) {
    (key != key' || info != info') && CutFor(cipher, c.expand(key, info)) == CutFor(cipher, c.expand(key', info'))
  }

  predicate DerivationCollides(c: Crypto, cipher: Cipher, root: Key32, epoch: u32, d: Dir, root': Key32, epoch': u32, d': Dir) {
    || (epoch == epoch' && d == d' && ExtractCollides(c, root, root'))
    || ExpandCollides(c, cipher, c.extract(root), TrafficInfo(epoch, d), c.extract(root'), TrafficInfo(epoch', d'))
  }

  /** The derivation separates sessions, epochs and directions: their keys agree exactly where it collides. */
  lemma KeysAgreeIffCollision(c: Crypto, cipher: Cipher, root: Key32, epoch: u32, d: Dir, root': Key32, epoch': u32, d': Dir)
    requires root != root' || epoch != epoch' || d != d'
    ensures KeyFor(c, cipher, root, epoch, d) == KeyFor(c, cipher, root', epoch', d') <==>
            DerivationCollides(c, cipher, root, epoch, d, root', epoch', d')
  {
    TrafficInfoInjective(epoch, d, epoch', d');
  }

  function NonceBytes(n: Nonce): (r: Bytes)
    ensures |r| == AEAD_NONCE_SIZE
  {
    Be(n.epoch, 4) + Be(n.sequence, 8)
  }

  function NonceOf(b: Bytes): Nonce
    requires |b| == AEAD_NONCE_SIZE
  {
    Nonce(U32FromBe(b[..4]), FromBe(b[4..]))
  }

  lemma NonceRoundTrip(n: Nonce)
    requires n.sequence < U64
    ensures NonceOf(NonceBytes(n)) == n
    ensures var b := NonceBytes(n); n.epoch == Word(b[3], b[2], b[1], b[0])
  {
    Worths(NonceBytes(n)[..4]);
    var b := NonceBytes(n);
    assert b[..4] == Be(n.epoch, 4) && b[4..] == Be(n.sequence, 8);
    WordSizes();
    BeRoundTrip(n.epoch, 4);
    BeRoundTrip(n.sequence, 8);
  }

  // ----- Sealing and opening payloads -----

  function SealedBox(c: Crypto, cipher: Cipher, root: Key32, n: Nonce, d: Dir, plaintext: Bytes): Bytes {
    c.seal(cipher, KeyFor(c, cipher, root, n.epoch, d), NonceBytes(n), plaintext)
  }

  function SealedPayload(c: Crypto, cipher: Cipher, root: Key32, n: Nonce, d: Dir, plaintext: Bytes): Bytes {
    SealedBox(c, cipher, root, n, d, plaintext) + NonceBytes(n)
  }

  /** The box and the nonce of a sealed payload. */
  function BoxOf(payload: Bytes): Bytes
    requires |payload| >= AEAD_TAIL_SIZE
  {
    payload[..|payload| - AEAD_NONCE_SIZE]
  }

  function NonceIn(payload: Bytes): Nonce
    requires |payload| >= AEAD_TAIL_SIZE
  {
    NonceOf(payload[|payload| - AEAD_NONCE_SIZE..])
  }

  function Unsealed(c: Crypto, algorithm: string, root: Key32, d: Dir, payload: Bytes): Option<Bytes>
    requires |payload| >= AEAD_TAIL_SIZE
  {
    match CipherOf(algorithm)
    case None => None
    case Some(cipher) =>
      c.open(cipher, KeyFor(c, cipher, root, NonceIn(payload).epoch, d), payload[|payload| - AEAD_NONCE_SIZE..], BoxOf(payload))
  }

  /** Box and nonce are read back from a sealed payload. */
  lemma SealedParts(box: Bytes, n: Nonce)
    requires n.sequence < U64 && |box| >= AEAD_TAG_SIZE
    ensures var payload := box + NonceBytes(n);
            && |payload| == |box| + AEAD_NONCE_SIZE && BoxOf(payload) == box && NonceIn(payload) == n
            && payload[|payload| - AEAD_NONCE_SIZE..] == NonceBytes(n)
  {
    var payload := box + NonceBytes(n);
    assert payload[..|payload| - AEAD_NONCE_SIZE] == box;
    assert payload[|payload| - AEAD_NONCE_SIZE..] == NonceBytes(n);
    NonceRoundTrip(n);
  }

  lemma OpenSealed(c: Crypto, cipher: Cipher, algorithm: string, root: Key32, n: Nonce, d: Dir, plaintext: Bytes)
    requires Ideal(c) && n.sequence < U64 && CipherOf(algorithm) == Some(cipher)
    ensures var payload := SealedPayload(c, cipher, root, n, d, plaintext);
            && |payload| == |plaintext| + AEAD_TAIL_SIZE
            && NonceIn(payload) == n
            && Unsealed(c, algorithm, root, d, payload) == Some(plaintext)
  {
    SealedParts(SealedBox(c, cipher, root, n, d, plaintext), n);
  }

  // ----- Frames -----

  function Marked(h: Header): Header {
    if Encrypted(h.flags) then h else h.(flags := h.flags + 1)
  }

  function Cleared(h: Header): Header {
    if Encrypted(h.flags) then h.(flags := h.flags - 1) else h
  }

  /** What the sender puts on the wire for a clear frame addressed from `me` to `other`; the server's algorithm is fixed. */
  function EncryptFrame(c: Crypto, algorithm: string, root: Key32, t: State, me: u32, other: u32, frame: Bytes, now: nat): Result<Bytes> {
    match ParsePacket(frame)
    case Err(reason) => Err(reason)
    case Ok(h) =>
      if h.fromPeerId != me || h.toPeerId != other then Err("packet is not addressed over this direct session")
      else if Encrypted(h.flags) then Err("packet is already encrypted")
      else
        match SealNonce(t, DirectionIndex(me, other), now)
        case None => Err("secure packet sequence exhausted")
        case Some(n) =>
          match CipherOf(algorithm)
          case None => Err("unsupported EasyTier encryption algorithm")
          case Some(cipher) =>
            Ok(Frame(Marked(h), SealedPayload(c, cipher, root, n, DirectionIndex(me, other), frame[HEADER_SIZE..])))
  }

  /** What the receiver hands on; an empty frame means the packet was dropped. */
  function DecryptFrame(c: Crypto, algorithm: string, root: Key32, t: State, me: u32, other: u32, frame: Bytes, now: nat): Result<Bytes> {
    match ParsePacket(frame)
    case Err(reason) => Err(reason)
    case Ok(h) =>
      var d, payload := DirectionIndex(other, me), frame[HEADER_SIZE..];
      if h.fromPeerId != other || h.toPeerId != me then Err("packet is not addressed over this direct session")
      else if !Encrypted(h.flags) then Ok(frame)
      else
        var n := NonceIn(payload);
        if !Precheck(Evicted(t, now), d, n.epoch, n.sequence) then Ok([])
        else
          match Unsealed(c, algorithm, root, d, payload)
          case None => if SaturatingAdd(t.failCount, 1, U32) >= DECRYPT_FAIL_THRESHOLD then Err("EasyTier session decryption failed") else Ok([])
          case Some(plaintext) => Ok(Frame(Cleared(h), plaintext))
  }

  /** The frame parses, and runs from one peer to the other. */
  predicate RunsFrom(frame: Bytes, fromPeer: u32, toPeer: u32) {
    ParsePacket(frame).Ok? && ParsePacket(frame).value.fromPeerId == fromPeer && ParsePacket(frame).value.toPeerId == toPeer
  }

  /**
   A frame is sealed exactly if it is clear, runs from the endpoint to its peer, and the sequence is
   not exhausted; a frame is received without error only if it runs the other way, and a clear one
   is then handed on as it is.
   */
  lemma OnlyAddressedFramesPass(c: Crypto, algorithm: string, root: Key32, t: State, me: u32, other: u32, frame: Bytes, now: nat)
    ensures EncryptFrame(c, algorithm, root, t, me, other, frame, now).Ok? <==>
      && RunsFrom(frame, me, other) && !Encrypted(ParsePacket(frame).value.flags)
      && t.sendSeq.At(DirectionIndex(me, other)) + 1 < U64 && CipherOf(algorithm).Some?
    ensures DecryptFrame(c, algorithm, root, t, me, other, frame, now).Ok? ==> RunsFrom(frame, other, me)
    ensures RunsFrom(frame, other, me) && !Encrypted(ParsePacket(frame).value.flags) ==>
      DecryptFrame(c, algorithm, root, t, me, other, frame, now) == Ok(frame)
  {
  }

  /**
   Between mirrored endpoints that share a root key and a cipher, under whatever name, decryption
   restores the clear frame, header and payload, exactly when the receiver's replay check admits
   the nonce; the grown frame passes the parser.
   */
  lemma SecureRoundTrip(c: Crypto, algorithm: string, algorithm': string, root: Key32, sender: State, receiver: State,
                        a: u32, b: u32, frame: Bytes, sentAt: nat, now: nat)
    requires Ideal(c) && CipherOf(algorithm') == CipherOf(algorithm)
    requires EncryptFrame(c, algorithm, root, sender, a, b, frame, sentAt).Ok?
    ensures var wire := EncryptFrame(c, algorithm, root, sender, a, b, frame, sentAt).value;
            var n := SealNonce(sender, DirectionIndex(a, b), sentAt).value;
            && ParsePacket(wire) == Ok(Marked(ParsePacket(frame).value))
            && |wire| == |frame| + AEAD_TAIL_SIZE
            && DecryptFrame(c, algorithm', root, receiver, b, a, wire, now) ==
                 Ok(if Precheck(Evicted(receiver, now), DirectionIndex(a, b), n.epoch, n.sequence) then frame else [])
  {
    var h, d, plaintext := ParsePacket(frame).value, DirectionIndex(a, b), frame[HEADER_SIZE..];
    var n, cipher := SealNonce(sender, d, sentAt).value, CipherOf(algorithm).value;
    var payload := SealedPayload(c, cipher, root, n, d, plaintext);
    OpenSealed(c, cipher, algorithm', root, n, d, plaintext);
    ParseJoin(Marked(h), payload);
    JoinParse(frame);
    assert Cleared(Marked(h)) == h;
  }

  // ----- Separation of sessions and directions -----

  /** One call of the cipher: what was sealed, under which key and nonce. */
  datatype Sealing = Sealing(cipher: Cipher, key: seq<byte>, nonce: Bytes, plaintext: Bytes) {
    function Box(c: Crypto): Bytes {
      c.seal(cipher, key, nonce, plaintext)
    }
  }

  /**
   An ideal cipher as a log of what has been sealed, by anybody under any key: every box in it
   opens, nothing opens under a cipher, key and nonce that was not sealed under exactly these,
   and no two sealings made the same box.
   */
  ghost predicate Unforged(c: Crypto, log: set<Sealing>) {
    && (forall s :: s in log ==> |s.Box(c)| == |s.plaintext| + AEAD_TAG_SIZE && c.open(s.cipher, s.key, s.nonce, s.Box(c)) == Some(s.plaintext))
    && (forall x, k, n, b {:trigger c.open(x, k, n, b)} ::
          c.open(x, k, n, b).Some? ==> exists s :: s in log && s.cipher == x && s.key == k && s.nonce == n && s.Box(c) == b)
    && (forall s, s' :: s in log && s' in log && s.Box(c) == s'.Box(c) ==> s == s')
  }

  /** The sealing that an endpoint makes for a session, an epoch and a direction. */
  function SealingFor(c: Crypto, cipher: Cipher, root: Key32, n: Nonce, d: Dir, plaintext: Bytes): Sealing {
    Sealing(cipher, KeyFor(c, cipher, root, n.epoch, d), NonceBytes(n), plaintext)
  }

  predicate Opens(c: Crypto, algorithm: string, root: Key32, d: Dir, payload: Bytes) {
    |payload| >= AEAD_TAIL_SIZE && Unsealed(c, algorithm, root, d, payload).Some?
  }

  /** A sealed payload opens exactly where cipher and traffic key are those it was sealed under; and then to its plaintext. */
  lemma OpensIffKeysAgree(c: Crypto, log: set<Sealing>, cipher: Cipher, root': Key32, n: Nonce, d': Dir, plaintext: Bytes,
                          algorithm: string, root: Key32, d: Dir)
    requires Unforged(c, log) && n.sequence < U64 && SealingFor(c, cipher, root', n, d', plaintext) in log
    ensures var payload := SealedPayload(c, cipher, root', n, d', plaintext);
      && |payload| == |plaintext| + AEAD_TAIL_SIZE
      && (Opens(c, algorithm, root, d, payload) <==>
            CipherOf(algorithm) == Some(cipher) && KeyFor(c, cipher, root, n.epoch, d) == KeyFor(c, cipher, root', n.epoch, d'))
      && (Opens(c, algorithm, root, d, payload) ==> Unsealed(c, algorithm, root, d, payload) == Some(plaintext))
  {
    var s := SealingFor(c, cipher, root', n, d', plaintext);
    SealedParts(s.Box(c), n);
  }

  /** The sealing in the log is the one that the payload is read as. */
  predicate ReadAs(c: Crypto, s: Sealing, algorithm: string, root: Key32, d: Dir, payload: Bytes)
    requires |payload| >= AEAD_TAIL_SIZE
  {
    && CipherOf(algorithm) == Some(s.cipher)
    && s.key == KeyFor(c, s.cipher, root, NonceIn(payload).epoch, d)
    && payload == s.Box(c) + s.nonce
  }

  lemma OpenedWasSealed(c: Crypto, log: set<Sealing>, algorithm: string, root: Key32, d: Dir, payload: Bytes)
    requires Unforged(c, log) && |payload| >= AEAD_TAIL_SIZE && Unsealed(c, algorithm, root, d, payload).Some?
    ensures exists s :: s in log && ReadAs(c, s, algorithm, root, d, payload) && Unsealed(c, algorithm, root, d, payload) == Some(s.plaintext)
  {
    var x := CipherOf(algorithm).value;
    var k, nonce, b := KeyFor(c, x, root, NonceIn(payload).epoch, d), payload[|payload| - AEAD_NONCE_SIZE..], BoxOf(payload);
    assert c.open(x, k, nonce, b).Some?;
    var s :| s in log && s.cipher == x && s.key == k && s.nonce == nonce && s.Box(c) == b;
    assert payload == b + nonce;
    assert ReadAs(c, s, algorithm, root, d, payload);
  }

  /**
   Whatever is handed on from an encrypted frame was sealed under this endpoint's own cipher, under
   the traffic key of its session, of the frame's epoch and of the inbound direction, and under the
   frame's nonce.
   */
  lemma OnlySealedFramesPass(c: Crypto, log: set<Sealing>, algorithm: string, root: Key32, t: State, me: u32, other: u32, frame: Bytes, now: nat)
    requires Unforged(c, log) && ParsePacket(frame).Ok? && Encrypted(ParsePacket(frame).value.flags)
    requires DecryptFrame(c, algorithm, root, t, me, other, frame, now).Ok?
    requires DecryptFrame(c, algorithm, root, t, me, other, frame, now).value != []
    ensures var payload, h := frame[HEADER_SIZE..], ParsePacket(frame).value;
            exists s :: s in log && ReadAs(c, s, algorithm, root, DirectionIndex(other, me), payload)
              && DecryptFrame(c, algorithm, root, t, me, other, frame, now).value == Frame(Cleared(h), s.plaintext)
  {
    OpenedWasSealed(c, log, algorithm, root, DirectionIndex(other, me), frame[HEADER_SIZE..]);
  }

  /** A payload that was sealed under another traffic key is not handed on, whatever header it comes back under. */
  lemma ForeignPayloadIsNotHandedOn(c: Crypto, log: set<Sealing>, cipher: Cipher, root': Key32, n: Nonce, d': Dir, plaintext: Bytes,
                                    algorithm: string, root: Key32, t: State, me: u32, other: u32, h: Header, now: nat)
    requires Unforged(c, log) && n.sequence < U64 && SealingFor(c, cipher, root', n, d', plaintext) in log && Encrypted(h.flags)
    requires KeyFor(c, cipher, root, n.epoch, DirectionIndex(other, me)) != KeyFor(c, cipher, root', n.epoch, d')
    ensures var r := DecryptFrame(c, algorithm, root, t, me, other, Frame(h, SealedPayload(c, cipher, root', n, d', plaintext)), now);
            r.Err? || r.value == []
  {
    OpensIffKeysAgree(c, log, cipher, root', n, d', plaintext, algorithm, root, DirectionIndex(other, me));
    ParseJoin(h, SealedPayload(c, cipher, root', n, d', plaintext));
  }

  /** What an endpoint has sealed itself and gets back is not handed on, unless the derivation gives both directions the same key. */
  lemma ReflectedPayloadIsNotHandedOn(c: Crypto, log: set<Sealing>, cipher: Cipher, n: Nonce, plaintext: Bytes,
                                      algorithm: string, root: Key32, t: State, me: u32, other: u32, h: Header, now: nat)
    requires Unforged(c, log) && n.sequence < U64 && SealingFor(c, cipher, root, n, DirectionIndex(me, other), plaintext) in log
    requires me != other && Encrypted(h.flags)
    requires !DerivationCollides(c, cipher, root, n.epoch, DirectionIndex(other, me), root, n.epoch, DirectionIndex(me, other))
    ensures var r := DecryptFrame(c, algorithm, root, t, me, other, Frame(h, SealedPayload(c, cipher, root, n, DirectionIndex(me, other), plaintext)), now);
            r.Err? || r.value == []
  {
    DirectionsMirror(me, other);
    KeysAgreeIffCollision(c, cipher, root, n.epoch, DirectionIndex(other, me), root, n.epoch, DirectionIndex(me, other));
    ForeignPayloadIsNotHandedOn(c, log, cipher, root, n, DirectionIndex(me, other), plaintext, algorithm, root, t, me, other, h, now);
  }
}
