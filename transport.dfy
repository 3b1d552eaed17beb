/**
 * The inbound side of the WICED HCI transport in platform.c: the rx data
 * handler decodes the 4-byte header (opcode, payload length) of a received
 * frame and routes the "push NVRAM data" opcode to the push handler, which
 * reads a 2-byte vs_id and hands the rest to wiced_platform_nvram_write.
 * Multi-byte fields are little-endian (STREAM_TO_UINT16).
 */
module Transport {
  import opened Wrappers
  import opened PoolConfig
  import opened PoolSpec
  import opened NvramSpec
  import opened Nvram

  /** The two values the rx handler returns. */
  datatype HciStatus = HciSuccess | HciInvalidArgs

  /** sizeof(opcode) + sizeof(payload_len). */
  const HEADER_BYTES: nat := 4

  /** sizeof(vs_id) at the start of a push payload. */
  const VS_ID_BYTES: nat := 2

  /** A decoded frame header. */
  datatype Header = Header(opcode: nat, payloadLen: nat)

  /** What the push handler passes to wiced_platform_nvram_write. */
  datatype PushArgs = PushArgs(vsId: nat, data: seq<byte>)

  /** The result of one received frame: the handler's status and the store after it. */
  datatype RxResult = RxResult(status: HciStatus, store: Store)

  // ---------------------------------------------------------------------------
  // Little-endian 16-bit fields
  // ---------------------------------------------------------------------------

  /** STREAM_TO_UINT16: the low byte first. */
  function U16(lo: byte, hi: byte): (r: nat)
    ensures r < UINT16_LIMIT
    ensures r % 256 == lo as nat && r / 256 == hi as nat
  {
    lo as nat + 256 * hi as nat
  }

  /** The two bytes a host writes for a 16-bit field. */
  function U16Bytes(x: nat): (r: seq<byte>)
    requires x < UINT16_LIMIT
    ensures |r| == 2 && r[0] as nat == x % 256 && r[1] as nat == x / 256
  {
    [(x % 256) as byte, (x / 256) as byte]
  }

  /** Decoding the bytes of a 16-bit value gives the value back. */
  lemma U16RoundTrip(x: nat)
    requires x < UINT16_LIMIT
    ensures U16(U16Bytes(x)[0], U16Bytes(x)[1]) == x
  {
  }

  /** Encoding a decoded pair of bytes gives the bytes back. */
  lemma U16BytesRoundTrip(lo: byte, hi: byte)
    ensures U16Bytes(U16(lo, hi)) == [lo, hi]
  {
    var r := U16Bytes(U16(lo, hi));
    assert r[0] as nat == lo as nat && r[1] as nat == hi as nat;
  }

  // ---------------------------------------------------------------------------
  // The frame header
  // ---------------------------------------------------------------------------

  /**
   * The checks and the decode at the top of platform_transport_rx_data_handler:
   * a NULL buffer or one shorter than the header is rejected; otherwise the
   * opcode and the payload length are read from the first four bytes.
   */
  function ParseHeader(buffer: Option<seq<byte>>): (r: Option<Header>)
    ensures r.None? <==> buffer.None? || |buffer.value| < HEADER_BYTES
    ensures r.Some? ==> r.value.opcode < UINT16_LIMIT && r.value.payloadLen < UINT16_LIMIT
  {
    match buffer
    case None => None
    case Some(b) =>
      if |b| < HEADER_BYTES then None
      else Some(Header(U16(b[0], b[1]), U16(b[2], b[3])))
  }

  /** The header bytes a host sends in front of a payload. */
  function EncodeHeader(h: Header): (r: seq<byte>)
    requires h.opcode < UINT16_LIMIT && h.payloadLen < UINT16_LIMIT
    ensures |r| == HEADER_BYTES
  {
    U16Bytes(h.opcode) + U16Bytes(h.payloadLen)
  }

  /** A frame built from a header and any payload decodes to that header. */
  lemma ParseEncodedHeader(h: Header, payload: seq<byte>)
    requires h.opcode < UINT16_LIMIT && h.payloadLen < UINT16_LIMIT
    ensures ParseHeader(Some(EncodeHeader(h) + payload)) == Some(h)
  {
    var b := EncodeHeader(h) + payload;
    assert b[0] == U16Bytes(h.opcode)[0] && b[1] == U16Bytes(h.opcode)[1];
    assert b[2] == U16Bytes(h.payloadLen)[0] && b[3] == U16Bytes(h.payloadLen)[1];
    U16RoundTrip(h.opcode);
    U16RoundTrip(h.payloadLen);
  }

  /** Every accepted buffer starts with the encoding of the header it decodes to. */
  lemma EncodeParsedHeader(b: seq<byte>)
    requires |b| >= HEADER_BYTES
    ensures ParseHeader(Some(b)).Some? && EncodeHeader(ParseHeader(Some(b)).value) == b[..HEADER_BYTES]
  {
    U16BytesRoundTrip(b[0], b[1]);
    U16BytesRoundTrip(b[2], b[3]);
    assert EncodeHeader(ParseHeader(Some(b)).value) == [b[0], b[1]] + [b[2], b[3]];
  }

  /**
   * The rx handler does not compare the header's payload length with the
   * bytes received; the model handles frames whose declared payload is
   * present in the buffer.
   */
  predicate FrameFits(buffer: Option<seq<byte>>)
  {
    buffer.Some? && |buffer.value| >= HEADER_BYTES ==>
      U16(buffer.value[2], buffer.value[3]) <= |buffer.value| - HEADER_BYTES
  }

  // ---------------------------------------------------------------------------
  // The push handler
  // ---------------------------------------------------------------------------

  /**
   * The data length platform_transport_rx_data_handler_push_nvram_data passes
   * to wiced_platform_nvram_write as written: data_len - 2 in uint32_t, then
   * narrowed to the uint16_t parameter data_length.
   */
  function PushLengthAsWritten(dataLen: nat): (r: nat)
    requires dataLen < UINT16_LIMIT
    ensures r < UINT16_LIMIT
  {
    ((dataLen - VS_ID_BYTES) % 0x1_0000_0000) % UINT16_LIMIT
  }

  /**
   * A one-byte push payload passes the guard, and the write is then asked to
   * copy 65535 bytes, although the frame holds no byte after its vs_id.
   */
  lemma PushLengthUnderflows()
    ensures PushLengthAsWritten(1) == 65535
    ensures PushNvramArgs(Some([0]), 1) == None
  {
  }

  /**
   * As written, a one-byte push asks wiced_platform_nvram_write for 65535
   * bytes from beyond the frame (junk). No class can hold such a record, and
   * a stored value never has that length, so a present key goes down the
   * resize path: its record is unlinked and announced, and the write then
   * ends in NO_MEMORY with the key gone. An absent key ends in NO_MEMORY with
   * nothing changed.
   */
  lemma PushOneByteAsWritten(cfg: seq<ClassCfg>, s: Store, vsId: nat, junk: seq<byte>)
    requires StoreInv(cfg, s) && vsId < UINT16_LIMIT && |junk| == PushLengthAsWritten(1)
    ensures var w := WriteSpec(cfg, s, vsId, junk, true, true);
      w.status == Some(NoMemory) && w.n == 0 &&
      Lookup(w.store.records, vsId) == None && w.store.pool == s.pool &&
      (Lookup(s.records, vsId).Some? ==>
        w.store == DeleteSpec(cfg, s, vsId, true).store &&
        w.store.events == s.events + [DeleteEvent(vsId)] &&
        |w.store.records| == |s.records| - 1) &&
      (Lookup(s.records, vsId).None? ==> w.store == s)
  {
    PushLengthUnderflows();
    assert forall j :: 0 <= j < |cfg| ==> !Fits(cfg, s.pool, RecordSize(junk), j) by {
      forall j | 0 <= j < |cfg| ensures !Fits(cfg, s.pool, RecordSize(junk), j) {
        assert Stride(cfg[j]) < 0x1_0000;
      }
    }
    AllocateOutcome(cfg, s.pool, RecordSize(junk));
    match Find(s.records, vsId)
    case None =>
      WriteAbsent(cfg, s, vsId, junk);
    case Some(i) =>
      var r := s.records[i];
      assert RecordOk(cfg, s.pool, r);
      assert |r.data| != |junk|;
      WriteResize(cfg, s, vsId, junk);
  }

  /** For every payload that holds a vs_id the written length is the corrected one. */
  lemma PushLengthAgrees(body: seq<byte>, dataLen: nat)
    requires VS_ID_BYTES <= dataLen <= |body| && dataLen < UINT16_LIMIT
    ensures PushNvramArgs(Some(body), dataLen).Some?
    ensures PushLengthAsWritten(dataLen) == |PushNvramArgs(Some(body), dataLen).value.data|
  {
  }

  /**
   * The push handler with the guard its check evidently means: no buffer, or
   * fewer bytes than a vs_id, and nothing is written. Otherwise the first two
   * bytes are the key and the next dataLen - 2 the value.
   */
  function PushNvramArgs(body: Option<seq<byte>>, dataLen: nat): (r: Option<PushArgs>)
    requires body.Some? ==> dataLen <= |body.value|
    ensures r.None? <==> body.None? || dataLen < VS_ID_BYTES
    ensures r.Some? ==>
      r.value.vsId < UINT16_LIMIT && |r.value.data| == dataLen - VS_ID_BYTES &&
      body.value[..dataLen] == U16Bytes(r.value.vsId) + r.value.data
  {
    match body
    case None => None
    case Some(b) =>
      if dataLen < VS_ID_BYTES then None
      else
        var vsId := U16(b[0], b[1]);
        U16BytesRoundTrip(b[0], b[1]);
        assert b[..dataLen] == [b[0], b[1]] + b[VS_ID_BYTES..dataLen];
        Some(PushArgs(vsId, b[VS_ID_BYTES..dataLen]))
  }

  /** A push payload built from a key and a value decodes to that key and value. */
  lemma PushArgsRoundTrip(vsId: nat, data: seq<byte>, rest: seq<byte>)
    requires vsId < UINT16_LIMIT
    ensures PushNvramArgs(Some(U16Bytes(vsId) + data + rest), VS_ID_BYTES + |data|) == Some(PushArgs(vsId, data))
  {
    var b := U16Bytes(vsId) + data + rest;
    U16RoundTrip(vsId);
    assert b[VS_ID_BYTES..VS_ID_BYTES + |data|] == data;
  }

  /** The store after the push handler. */
  function PushSpec(cfg: seq<ClassCfg>, s: Store, body: seq<byte>, dataLen: nat): (r: Store)
    requires |s.pool.free| == |cfg| && dataLen <= |body| && dataLen < UINT16_LIMIT
    ensures |r.pool.free| == |cfg|
    ensures dataLen < VS_ID_BYTES ==> r == s
    ensures dataLen >= VS_ID_BYTES ==> r == WriteSpec(cfg, s, U16(body[0], body[1]), body[VS_ID_BYTES..dataLen], true, true).store
  {
    match PushNvramArgs(Some(body), dataLen)
    case None => s
    case Some(a) => WriteSpec(cfg, s, a.vsId, a.data, true, true).store
  }

  // ---------------------------------------------------------------------------
  // The rx handler
  // ---------------------------------------------------------------------------

  /**
   * platform_transport_rx_data_handler: a rejected buffer leaves everything as
   * it was; a push frame is handed to the push handler; any other opcode goes
   * to the application's callback, which is not part of this model.
   */
  function RxSpec(cfg: seq<ClassCfg>, s: Store, buffer: Option<seq<byte>>, pushOpcode: nat): (r: RxResult)
    requires |s.pool.free| == |cfg| && FrameFits(buffer)
    ensures r.status == HciInvalidArgs <==> ParseHeader(buffer).None?
    ensures r.status == HciInvalidArgs ==> r.store == s
    ensures ParseHeader(buffer).Some? && ParseHeader(buffer).value.opcode != pushOpcode ==> r.store == s
  {
    match ParseHeader(buffer)
    case None => RxResult(HciInvalidArgs, s)
    case Some(h) =>
      if h.opcode == pushOpcode then RxResult(HciSuccess, PushSpec(cfg, s, buffer.value[HEADER_BYTES..], h.payloadLen))
      else RxResult(HciSuccess, s)
  }

  /** The frame a host sends to push a key and a value. */
  function PushFrame(pushOpcode: nat, vsId: nat, data: seq<byte>): (r: seq<byte>)
    requires pushOpcode < UINT16_LIMIT && vsId < UINT16_LIMIT && VS_ID_BYTES + |data| < UINT16_LIMIT
    ensures |r| == HEADER_BYTES + VS_ID_BYTES + |data|
  {
    EncodeHeader(Header(pushOpcode, VS_ID_BYTES + |data|)) + (U16Bytes(vsId) + data)
  }

  /** A push frame decodes to its opcode, its length, its key and its value. */
  lemma PushFrameDecodes(pushOpcode: nat, vsId: nat, data: seq<byte>)
    requires pushOpcode < UINT16_LIMIT && vsId < UINT16_LIMIT && VS_ID_BYTES + |data| < UINT16_LIMIT
    ensures var frame := PushFrame(pushOpcode, vsId, data);
      ParseHeader(Some(frame)) == Some(Header(pushOpcode, VS_ID_BYTES + |data|)) &&
      FrameFits(Some(frame)) &&
      PushNvramArgs(Some(frame[HEADER_BYTES..]), VS_ID_BYTES + |data|) == Some(PushArgs(vsId, data))
  {
    var h := Header(pushOpcode, VS_ID_BYTES + |data|);
    var body := U16Bytes(vsId) + data;
    var frame := PushFrame(pushOpcode, vsId, data);
    ParseEncodedHeader(h, body);
    assert frame[HEADER_BYTES..] == body;
    assert body == U16Bytes(vsId) + data + [];
    PushArgsRoundTrip(vsId, data, []);
  }

  /** Receiving a push frame is exactly the write of its key and value. */
  lemma PushFrameWrites(cfg: seq<ClassCfg>, s: Store, pushOpcode: nat, vsId: nat, data: seq<byte>)
    requires |s.pool.free| == |cfg| && pushOpcode < UINT16_LIMIT && vsId < UINT16_LIMIT
    requires VS_ID_BYTES + |data| < UINT16_LIMIT
    ensures FrameFits(Some(PushFrame(pushOpcode, vsId, data)))
    ensures RxSpec(cfg, s, Some(PushFrame(pushOpcode, vsId, data)), pushOpcode) ==
      RxResult(HciSuccess, WriteSpec(cfg, s, vsId, data, true, true).store)
  {
    PushFrameDecodes(pushOpcode, vsId, data);
  }

  /**
   * A push frame whose write reports success stores the value: reading the
   * key back returns it. When the pool has no room the key is gone.
   */
  lemma PushFrameThenRead(cfg: seq<ClassCfg>, s: Store, pushOpcode: nat, vsId: nat, data: seq<byte>)
    requires StoreInv(cfg, s) && pushOpcode < UINT16_LIMIT && vsId < UINT16_LIMIT
    requires 0 < |data| && VS_ID_BYTES + |data| < UINT16_LIMIT
    ensures FrameFits(Some(PushFrame(pushOpcode, vsId, data)))
    ensures var rx := RxSpec(cfg, s, Some(PushFrame(pushOpcode, vsId, data)), pushOpcode);
      var w := WriteSpec(cfg, s, vsId, data, true, true);
      rx.status == HciSuccess &&
      (w.status == Some(Success) ==>
        ReadSpec(rx.store.records, vsId, |data|, true, true) == ReadResult(|data|, Some(Success), data)) &&
      (w.status != Some(Success) ==>
        ReadSpec(rx.store.records, vsId, |data|, true, true) == ReadResult(0, Some(BadArg), []))
  {
    PushFrameWrites(cfg, s, pushOpcode, vsId, data);
    WriteThenRead(cfg, s, vsId, data, |data|);
  }

  /**
   * A frame with any other opcode is acknowledged, and the handler itself
   * leaves the catalogue alone; what the registered callback does with the
   * frame is not part of this model.
   */
  lemma OtherOpcodeKeepsStore(cfg: seq<ClassCfg>, s: Store, buffer: seq<byte>, pushOpcode: nat)
    requires |s.pool.free| == |cfg| && FrameFits(Some(buffer)) && |buffer| >= HEADER_BYTES
    requires U16(buffer[0], buffer[1]) != pushOpcode
    ensures RxSpec(cfg, s, Some(buffer), pushOpcode) == RxResult(HciSuccess, s)
  {
  }

  /** platform_transport_rx_data_handler over the platform's virtual NVRAM. */
  method RxDataHandler(nvram: VirtualNvram, buffer: Option<seq<byte>>, pushOpcode: nat) returns (status: HciStatus)
    requires nvram.Valid() && FrameFits(buffer)
    modifies nvram, nvram.pool, nvram.pool.useMap, nvram.pool.arena
    ensures nvram.Valid()
    ensures RxResult(status, nvram.State()) == RxSpec(nvram.pool.cfg, old(nvram.State()), buffer, pushOpcode)
  {
    if buffer.None? {
      return HciInvalidArgs;
    }
    var b := buffer.value;
    if |b| < HEADER_BYTES {
      return HciInvalidArgs;
    }
    var opcode := U16(b[0], b[1]);
    var payloadLen := U16(b[2], b[3]);
    if opcode == pushOpcode {
      PushNvramData(nvram, Some(b[HEADER_BYTES..]), payloadLen);
    }
    return HciSuccess;
  }

  /** platform_transport_rx_data_handler_push_nvram_data, with the corrected length guard. */
  method PushNvramData(nvram: VirtualNvram, body: Option<seq<byte>>, dataLen: nat)
    requires nvram.Valid() && dataLen < UINT16_LIMIT && (body.Some? ==> dataLen <= |body.value|)
    modifies nvram, nvram.pool, nvram.pool.useMap, nvram.pool.arena
    ensures nvram.Valid()
    ensures body.None? ==> nvram.State() == old(nvram.State())
    ensures body.Some? ==> nvram.State() == PushSpec(nvram.pool.cfg, old(nvram.State()), body.value, dataLen)
  {
    if body.None? || dataLen == 0 {
      return;
    }
    var p := body.value;
    // The source goes on with a single byte; the model stops, as the guard intends.
    if dataLen < VS_ID_BYTES {
      return;
    }
    var vsId := U16(p[0], p[1]);
    var payload := p[VS_ID_BYTES..dataLen];
    var n, status := nvram.Write(vsId, payload, true, true);
  }
}
