/** The 16-byte EasyTier frame header and the frames a relay forwards or answers. */
module Packet {
  import opened Common
  import opened Endian

  const HEADER_SIZE: nat := 16
  const AEAD_TAIL_SIZE: nat := 28
  const MAX_FORWARD_HOPS: nat := 7
  const PACKET_TYPE_PING: nat := 4
  const PACKET_TYPE_PONG: nat := 5

  datatype Header = Header(
    fromPeerId: u32,
    toPeerId: u32,
    packetType: u8,
    flags: u8,
    forwardCounter: u8,
    reserved: u8,
    len: u32)

  /** Bit 0 of the flags. */
  predicate Encrypted(flags: u8) {
    flags % 2 == 1
  }

  // ----- Headers -----

  function FromBytes(bytes: Bytes): Result<Header> {
    if |bytes| < HEADER_SIZE then Err("header too short")
    else
      Ok(Header(U32FromLe(bytes[0..4]), U32FromLe(bytes[4..8]), bytes[8], bytes[9], bytes[10], bytes[11], U32FromLe(bytes[12..16])))
  }

  function Encode(h: Header): (r: Bytes)
    ensures |r| == HEADER_SIZE
  {
    Le(h.fromPeerId, 4) + Le(h.toPeerId, 4) + [h.packetType, h.flags, h.forwardCounter, h.reserved] + Le(h.len, 4)
  }

  /** Encoding fills a zeroed 16-byte buffer field by field. */
  method ToBytes(h: Header) returns (buf: array<u8>)
    ensures fresh(buf) && buf[..] == Encode(h)
  {
    buf := new u8[HEADER_SIZE](_ => 0);
    var from_, to_, len := Le(h.fromPeerId, 4), Le(h.toPeerId, 4), Le(h.len, 4);
    forall i | 0 <= i < 4 { buf[i] := from_[i]; }
    forall i | 4 <= i < 8 { buf[i] := to_[i - 4]; }
    buf[8], buf[9], buf[10], buf[11] := h.packetType, h.flags, h.forwardCounter, h.reserved;
    forall i | 12 <= i < 16 { buf[i] := len[i - 12]; }
  }

  /** Decoding undoes encoding, whatever follows the header. */
  lemma DecodeEncode(h: Header, rest: Bytes)
    ensures FromBytes(Encode(h) + rest) == Ok(h)
  {
    var b := Encode(h) + rest;
    assert b[0..4] == Le(h.fromPeerId, 4) && b[4..8] == Le(h.toPeerId, 4) && b[12..16] == Le(h.len, 4);
    U32RoundTrips(h.fromPeerId, b[0..4]);
    U32RoundTrips(h.toPeerId, b[4..8]);
    U32RoundTrips(h.len, b[12..16]);
  }

  /** Where each field of a header is found, and what its bytes are worth. */
  lemma FieldsAre(bytes: Bytes)
    ensures FromBytes(bytes).Ok? <==> |bytes| >= 16
    ensures |bytes| >= 16 ==>
      var h := FromBytes(bytes).value;
      && h.fromPeerId == Word(bytes[0], bytes[1], bytes[2], bytes[3])
      && h.toPeerId == Word(bytes[4], bytes[5], bytes[6], bytes[7])
      && h.len == Word(bytes[12], bytes[13], bytes[14], bytes[15])
      && [h.packetType, h.flags, h.forwardCounter, h.reserved] == bytes[8..12]
  {
    if |bytes| >= 16 {
      Worths(bytes[0..4]);
      Worths(bytes[4..8]);
      Worths(bytes[12..16]);
    }
  }

  lemma HeaderChunks(bytes: Bytes)
    requires |bytes| >= HEADER_SIZE
    ensures bytes[0..4] + bytes[4..8] + [bytes[8], bytes[9], bytes[10], bytes[11]] + bytes[12..16] == bytes[..HEADER_SIZE]
  {
  }

  /** Encoding undoes decoding: no header bit is lost. */
  lemma EncodeDecode(bytes: Bytes)
    requires |bytes| >= HEADER_SIZE
    ensures Encode(FromBytes(bytes).value) == bytes[..HEADER_SIZE]
  {
    var h := FromBytes(bytes).value;
    assert Le(h.fromPeerId, 4) == bytes[0..4] by { U32RoundTrips(0, bytes[0..4]); }
    assert Le(h.toPeerId, 4) == bytes[4..8] by { U32RoundTrips(0, bytes[4..8]); }
    assert Le(h.len, 4) == bytes[12..16] by { U32RoundTrips(0, bytes[12..16]); }
    HeaderChunks(bytes);
  }

  // ----- Frames -----

  /** The payload has the length the header declares, plus the AEAD tail when the frame is encrypted. */
  predicate Fits(h: Header, payloadLength: nat) {
    payloadLength == h.len + if Encrypted(h.flags) then AEAD_TAIL_SIZE else 0
  }

  function ParsePacket(bytes: Bytes): Result<Header> {
    match FromBytes(bytes)
    case Err(reason) => Err(reason)
    case Ok(h) => if Fits(h, |bytes| - HEADER_SIZE) then Ok(h) else Err("payload length mismatch")
  }

  /** The same test as 32-bit `usize` arithmetic makes it, where the sum wraps around. */
  predicate FitsWrapped(h: Header, payloadLength: nat) {
    payloadLength == WrappingAdd(h.len, if Encrypted(h.flags) then AEAD_TAIL_SIZE else 0, USIZE)
  }

  /** The two tests agree on every payload that fits into memory, exactly when the declared length leaves room for the tail. */
  lemma LengthTestExactIff(h: Header)
    ensures (forall n :: 0 <= n < USIZE ==> (FitsWrapped(h, n) <==> Fits(h, n))) <==> !Encrypted(h.flags) || h.len + AEAD_TAIL_SIZE < USIZE
  {
    if Encrypted(h.flags) && h.len + AEAD_TAIL_SIZE >= USIZE {
      var n := h.len + AEAD_TAIL_SIZE - USIZE;
      assert FitsWrapped(h, n) && !Fits(h, n);
    }
  }

  function Frame(h: Header, payload: Bytes): Bytes {
    Encode(h) + payload
  }

  function BuildPacket(fromPeerId: u32, toPeerId: u32, packetType: u8, payload: Bytes): Result<Bytes> {
    if |payload| >= U32 then Err("packet payload exceeds the EasyTier u32 length")
    else Ok(Frame(Header(fromPeerId, toPeerId, packetType, 0, 1, 0, |payload|), payload))
  }

  lemma ParseJoin(h: Header, payload: Bytes)
    ensures ParsePacket(Frame(h, payload)) == if Fits(h, |payload|) then Ok(h) else Err("payload length mismatch")
    ensures Frame(h, payload)[HEADER_SIZE..] == payload
  {
    DecodeEncode(h, payload);
  }

  /** A frame the relay builds is accepted by the parser, and carries the payload it was built from. */
  lemma BuiltPacketParses(fromPeerId: u32, toPeerId: u32, packetType: u8, payload: Bytes)
    requires |payload| < U32
    ensures var frame := BuildPacket(fromPeerId, toPeerId, packetType, payload).value;
            && frame[HEADER_SIZE..] == payload
            && ParsePacket(frame) == Ok(Header(fromPeerId, toPeerId, packetType, 0, 1, 0, |payload|))
  {
    ParseJoin(Header(fromPeerId, toPeerId, packetType, 0, 1, 0, |payload|), payload);
  }

  /** Whoever parses a frame and joins it again gets the frame back. */
  lemma JoinParse(frame: Bytes)
    requires ParsePacket(frame).Ok?
    ensures Frame(ParsePacket(frame).value, frame[HEADER_SIZE..]) == frame
  {
    EncodeDecode(frame);
  }

  // ----- Forwarding -----

  function Forwarded(bytes: Bytes): Result<Bytes> {
    match ParsePacket(bytes)
    case Err(reason) => Err(reason)
    case Ok(h) =>
      if h.forwardCounter > MAX_FORWARD_HOPS then Err("EasyTier forwarding hop limit exceeded")
      else Ok(Frame(h.(forwardCounter := h.forwardCounter + 1), bytes[HEADER_SIZE..]))
  }

  /** Forwarding copies the frame and patches one byte of the copy. */
  method PrepareForward(bytes: Bytes) returns (r: Result<Bytes>)
    ensures r == Forwarded(bytes)
  {
    var parsed := ParsePacket(bytes);
    if parsed.Err? {
      return Err(parsed.reason);
    }
    var h := parsed.value;
    if h.forwardCounter > MAX_FORWARD_HOPS {
      return Err("EasyTier forwarding hop limit exceeded");
    }
    var forwarded := bytes;
    forwarded := forwarded[10 := h.forwardCounter + 1];
    JoinParse(bytes);
    assert forwarded == Frame(h.(forwardCounter := h.forwardCounter + 1), bytes[HEADER_SIZE..]);
    r := Ok(forwarded);
  }

  method PreparePong(bytes: Bytes) returns (r: Result<Bytes>)
    ensures r.Ok? <==> ParsePacket(bytes).Ok? && ParsePacket(bytes).value.packetType == PACKET_TYPE_PING
    ensures r.Ok? ==> r.value == bytes[8 := PACKET_TYPE_PONG]
    ensures r.Ok? ==> ParsePacket(r.value) == Ok(ParsePacket(bytes).value.(packetType := PACKET_TYPE_PONG))
  {
    var parsed := ParsePacket(bytes);
    if parsed.Err? {
      return Err(parsed.reason);
    }
    if parsed.value.packetType != PACKET_TYPE_PING {
      return Err("only an EasyTier Ping packet can become Pong");
    }
    var pong := bytes;
    pong := pong[8 := PACKET_TYPE_PONG];
    JoinParse(bytes);
    assert pong == Frame(parsed.value.(packetType := PACKET_TYPE_PONG), bytes[HEADER_SIZE..]);
    ParseJoin(parsed.value.(packetType := PACKET_TYPE_PONG), bytes[HEADER_SIZE..]);
    r := Ok(pong);
  }

  function ForwardedTimes(bytes: Bytes, hops: nat): Result<Bytes> {
    if hops == 0 then Ok(bytes)
    else Then(ForwardedTimes(bytes, hops - 1))
  }

  lemma ForwardJoined(h: Header, payload: Bytes)
    requires Fits(h, |payload|)
    ensures Forwarded(Frame(h, payload)) ==
      if h.forwardCounter > MAX_FORWARD_HOPS then Err("EasyTier forwarding hop limit exceeded")
      else Ok(Frame(h.(forwardCounter := h.forwardCounter + 1), payload))
  {
    ParseJoin(h, payload);
  }

  predicate WithinHops(h: Header, hops: nat) {
    hops == 0 || h.forwardCounter + hops <= MAX_FORWARD_HOPS + 1
  }

  function AfterHops(h: Header, hops: nat): Header
    requires WithinHops(h, hops)
  {
    h.(forwardCounter := h.forwardCounter + hops)
  }

  function AfterRelays(h: Header, payload: Bytes, hops: nat): Result<Bytes> {
    if WithinHops(h, hops) then Ok(Frame(AfterHops(h, hops), payload)) else Err("EasyTier forwarding hop limit exceeded")
  }

  lemma NextHop(h: Header, payload: Bytes, hops: nat)
    requires Fits(h, |payload|)
    ensures AfterRelays(h, payload, hops + 1) == Then(AfterRelays(h, payload, hops))
  {
    if WithinHops(h, hops) {
      ForwardJoined(AfterHops(h, hops), payload);
    }
  }

  function Then(r: Result<Bytes>): Result<Bytes> {
    match r
    case Err(reason) => Err(reason)
    case Ok(frame) => Forwarded(frame)
  }

  /** A chain of results that starts at the frame and is forwarded from each to the next is the chain of relays. */
  lemma {:induction false} HopsJoined(frame: Bytes, after: nat -> Result<Bytes>, hops: nat)
    requires after(0) == Ok(frame) && forall n: nat :: after(n + 1) == Then(after(n))
    ensures ForwardedTimes(frame, hops) == after(hops)
  {
    if hops > 0 {
      HopsJoined(frame, after, hops - 1);
      assert after(hops - 1 + 1) == Then(after(hops - 1));
    }
  }

  /**
   A chain of relays carries a frame for exactly 8 - counter hops and then drops it; on the
   way the payload and every header field but the counter stay the same.
   */
  lemma HopsAreBounded(bytes: Bytes, hops: nat)
    requires ParsePacket(bytes).Ok?
    ensures var h, payload := ParsePacket(bytes).value, bytes[HEADER_SIZE..];
            ForwardedTimes(bytes, hops) ==
              if WithinHops(h, hops) then Ok(Frame(AfterHops(h, hops), payload))
              else Err("EasyTier forwarding hop limit exceeded")
  {
    JoinParse(bytes);
    var h, payload := ParsePacket(bytes).value, bytes[HEADER_SIZE..];
    var after: nat -> Result<Bytes> := n => AfterRelays(h, payload, n);
    forall n: nat ensures after(n + 1) == Then(after(n)) {
      NextHop(h, payload, n);
    }
    HopsJoined(bytes, after, hops);
  }
}
