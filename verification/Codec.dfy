/** The binary form of the six Semtech packet types (PROTOCOL.TXT of packet_forwarder, sections 3 and 5). */
module Codec {
  import opened Wrappers

  type Byte = b: int | 0 <= b < 0x100
  type Uint16 = x: int | 0 <= x < 0x1_0000
  type Bytes = seq<Byte>
  type Mac = m: Bytes | |m| == 8 witness [0, 0, 0, 0, 0, 0, 0, 0]

  const PUSH_DATA: Byte := 0
  const PUSH_ACK: Byte := 1
  const PULL_DATA: Byte := 2
  const PULL_RESP: Byte := 3
  const PULL_ACK: Byte := 4
  const TX_ACK: Byte := 5

  const PROTOCOL_VERSION_1: Byte := 1
  const PROTOCOL_VERSION_2: Byte := 2

  datatype CodecError = WrongLength | IdentifierMismatch | InvalidProtocolVersion | BadJson

  predicate Supported(version: Byte) {
    version == PROTOCOL_VERSION_1 || version == PROTOCOL_VERSION_2
  }

  /**
   * `encoding/json` on one payload type, left abstract. Decoding works on the value the receiver holds, and
   * gives the value it is left with and whether there was no error; `zero` is the type's zero value.
   */
  datatype Json<!P> = Json(zero: P, encode: P -> Option<Bytes>, decode: (Bytes, P) -> (P, bool))

  /** The payload survives the trip through JSON, whose text is never empty, into a receiver holding `into`. */
  ghost predicate Survives<P(!new)>(json: Json<P>, into: P, payload: P) {
    var text := json.encode(payload);
    text.Some? && text.value != [] && json.decode(text.value, into) == (payload, true)
  }

  // ----- packets as values -----

  datatype Ack = Ack(version: Byte, token: Uint16)
  datatype PullData = PullData(version: Byte, token: Uint16, mac: Mac)
  datatype PushData<P> = PushData(version: Byte, token: Uint16, mac: Mac, payload: P)
  datatype PullResp<P> = PullResp(version: Byte, token: Uint16, payload: P)
  datatype TxAck<P> = TxAck(version: Byte, token: Uint16, mac: Mac, payload: Option<P>)

  function LittleEndian(x: Uint16): (b: Bytes)
    ensures |b| == 2
  {
    [x % 0x100, x / 0x100]
  }

  function FromLittleEndian(lo: Byte, hi: Byte): (x: Uint16) {
    lo + 0x100 * hi
  }

  function Header(version: Byte, token: Uint16, id: Byte): (b: Bytes)
    ensures |b| == 4
  {
    [version] + LittleEndian(token) + [id]
  }

  function TokenOf(data: Bytes): (x: Uint16)
    requires |data| >= 4
  {
    FromLittleEndian(data[1], data[2])
  }

  /** The two checks every decoder makes once the length is right. */
  function CheckHeader(data: Bytes, id: Byte): (e: Option<CodecError>)
    requires |data| >= 4
  {
    if data[3] != id then Some(IdentifierMismatch)
    else if !Supported(data[0]) then Some(InvalidProtocolVersion)
    else None
  }

  function GetPacketType(data: Bytes): (t: Result<Byte, CodecError>) {
    if |data| < 4 then Err(WrongLength)
    else if !Supported(data[0]) then Err(InvalidProtocolVersion)
    else Ok(data[3])
  }

  function EncodeAck(id: Byte, p: Ack): (b: Bytes) {
    Header(p.version, p.token, id)
  }

  function DecodeAck(id: Byte, data: Bytes): (r: Result<Ack, CodecError>) {
    if |data| != 4 then Err(WrongLength)
    else
      var e := CheckHeader(data, id);
      if e.Some? then Err(e.value) else Ok(Ack(data[0], TokenOf(data)))
  }

  function EncodePullData(p: PullData): (b: Bytes) {
    Header(p.version, p.token, PULL_DATA) + p.mac
  }

  function DecodePullData(data: Bytes): (r: Result<PullData, CodecError>) {
    if |data| != 12 then Err(WrongLength)
    else
      var e := CheckHeader(data, PULL_DATA);
      if e.Some? then Err(e.value) else Ok(PullData(data[0], TokenOf(data), data[4..12]))
  }

  function EncodePushData<P>(json: Json<P>, p: PushData<P>): (b: Option<Bytes>) {
    var text := json.encode(p.payload);
    if text.None? then None else Some(Header(p.version, p.token, PUSH_DATA) + p.mac + text.value)
  }

  function DecodePushData<P>(json: Json<P>, into: P, data: Bytes): (r: Result<PushData<P>, CodecError>) {
    if |data| < 13 then Err(WrongLength)
    else
      var e := CheckHeader(data, PUSH_DATA);
      if e.Some? then Err(e.value)
      else
        var (payload, ok) := json.decode(data[12..], into);
        if !ok then Err(BadJson) else Ok(PushData(data[0], TokenOf(data), data[4..12], payload))
  }

  function EncodePullResp<P>(json: Json<P>, p: PullResp<P>): (b: Option<Bytes>) {
    var text := json.encode(p.payload);
    // version 1 leaves the token bytes unused
    var token := if p.version != PROTOCOL_VERSION_1 then p.token else 0;
    if text.None? then None else Some(Header(p.version, token, PULL_RESP) + text.value)
  }

  function DecodePullResp<P>(json: Json<P>, into: P, data: Bytes): (r: Result<PullResp<P>, CodecError>) {
    if |data| < 5 then Err(WrongLength)
    else
      var e := CheckHeader(data, PULL_RESP);
      if e.Some? then Err(e.value)
      else
        var (payload, ok) := json.decode(data[4..], into);
        if !ok then Err(BadJson) else Ok(PullResp(data[0], TokenOf(data), payload))
  }

  function EncodeTxAck<P>(json: Json<P>, p: TxAck<P>): (b: Option<Bytes>) {
    var text := if p.payload.None? then Some([]) else json.encode(p.payload.value);
    if text.None? then None else Some(Header(p.version, p.token, TX_ACK) + p.mac + text.value)
  }

  /** A body is decoded, into a new payload, only when there is one; without it the receiver keeps what it has. */
  function DecodeTxAck<P>(json: Json<P>, into: Option<P>, data: Bytes): (r: Result<TxAck<P>, CodecError>) {
    if |data| < 12 then Err(WrongLength)
    else
      var e := CheckHeader(data, TX_ACK);
      if e.Some? then Err(e.value)
      else if |data| == 12 then Ok(TxAck(data[0], TokenOf(data), data[4..12], into))
      else
        var (payload, ok) := json.decode(data[12..], json.zero);
        if !ok then Err(BadJson) else Ok(TxAck(data[0], TokenOf(data), data[4..12], Some(payload)))
  }

  // ----- what the codec promises -----

  lemma TokenRoundTrip(token: Uint16, lo: Byte, hi: Byte)
    ensures FromLittleEndian(token % 0x100, token / 0x100) == token
    ensures LittleEndian(FromLittleEndian(lo, hi)) == [lo, hi]
  {
  }

  /** The first four bytes of an accepted datagram are the header of what it decodes to. */
  lemma HeaderIs(data: Bytes, version: Byte, token: Uint16, id: Byte)
    requires |data| >= 4
    ensures data[..4] == Header(version, token, id) <==> data[0] == version && TokenOf(data) == token && data[3] == id
  {
    TokenRoundTrip(token, data[1], data[2]);
    assert data[..4] == [data[0]] + [data[1], data[2]] + [data[3]];
  }

  // ----- the bytes on the wire -----

  lemma AcceptedVersions(version: Byte)
    ensures Supported(version) <==> version == 1 || version == 2
  {
  }

  lemma HeaderIsBytes(version: Byte, token: Uint16, id: Byte)
    ensures Header(version, token, id) == [version, token % 0x100, token / 0x100, id]
  {
  }

  /** The acknowledgements are four bytes. */
  lemma AckBytes(p: Ack)
    ensures EncodeAck(PUSH_ACK, p) == [p.version, p.token % 0x100, p.token / 0x100, 1]
    ensures EncodeAck(PULL_ACK, p) == [p.version, p.token % 0x100, p.token / 0x100, 4]
  {
  }

  lemma PullDataBytes(p: PullData)
    ensures EncodePullData(p) == [p.version, p.token % 0x100, p.token / 0x100, 2] + p.mac
  {
  }

  lemma PushDataBytes<P(!new)>(json: Json<P>, p: PushData<P>)
    ensures EncodePushData(json, p) == match json.encode(p.payload)
      case None => None
      case Some(text) => Some([p.version, p.token % 0x100, p.token / 0x100, 0] + p.mac + text)
  {
    HeaderIsBytes(p.version, p.token, 0);
  }

  /** The token bytes of version 1 are 0. */
  lemma PullRespBytes<P(!new)>(json: Json<P>, p: PullResp<P>)
    ensures EncodePullResp(json, p) == match json.encode(p.payload)
      case None => None
      case Some(text) =>
        if p.version == 1 then Some([1, 0, 0, 3] + text)
        else Some([p.version, p.token % 0x100, p.token / 0x100, 3] + text)
  {
    HeaderIsBytes(p.version, p.token, 3);
    HeaderIsBytes(p.version, 0, 3);
  }

  /** Nothing follows the MAC when there is no payload. */
  lemma TxAckBytes<P(!new)>(json: Json<P>, p: TxAck<P>)
    ensures p.payload == None ==>
      EncodeTxAck(json, p) == Some([p.version, p.token % 0x100, p.token / 0x100, 5] + p.mac)
    ensures p.payload.Some? ==> EncodeTxAck(json, p) == match json.encode(p.payload.value)
      case None => None
      case Some(text) => Some([p.version, p.token % 0x100, p.token / 0x100, 5] + p.mac + text)
  {
    HeaderIsBytes(p.version, p.token, 5);
    var head := Header(p.version, p.token, 5) + p.mac;
    assert head + [] == head;
  }

  /** The length is checked first, then the identifier, then the version; what is left is up to the body. */
  ghost predicate Refused(r: Option<CodecError>, data: Bytes, long: bool, id: Byte, decodes: bool) {
    && (r == Some(WrongLength) <==> !long)
    && (r == Some(IdentifierMismatch) <==> long && (|data| < 4 || data[3] != id))
    && (r == Some(InvalidProtocolVersion) <==> long && |data| >= 4 && data[3] == id && data[0] != 1 && data[0] != 2)
    && (r == Some(BadJson) <==> long && |data| >= 4 && data[3] == id && (data[0] == 1 || data[0] == 2) && !decodes)
  }

  function ErrorOf<T>(r: Result<T, CodecError>): (e: Option<CodecError>) {
    if r.Err? then Some(r.error) else None
  }

  lemma AcksRefused(data: Bytes)
    ensures Refused(ErrorOf(DecodeAck(PUSH_ACK, data)), data, |data| == 4, 1, true)
    ensures Refused(ErrorOf(DecodeAck(PULL_ACK, data)), data, |data| == 4, 4, true)
    ensures Refused(ErrorOf(DecodePullData(data)), data, |data| == 12, 2, true)
  {
  }

  lemma BodiesRefused<P(!new), Q(!new), R(!new)>(push: Json<P>, p: P, resp: Json<Q>, q: Q, tx: Json<R>, r: Option<R>,
                                                 data: Bytes)
    ensures Refused(ErrorOf(DecodePushData(push, p, data)), data, |data| >= 13, 0,
                    |data| >= 13 ==> push.decode(data[12..], p).1)
    ensures Refused(ErrorOf(DecodePullResp(resp, q, data)), data, |data| >= 5, 3,
                    |data| >= 5 ==> resp.decode(data[4..], q).1)
    ensures Refused(ErrorOf(DecodeTxAck(tx, r, data)), data, |data| >= 12, 5,
                    |data| > 12 ==> tx.decode(data[12..], tx.zero).1)
  {
  }

  /** The acknowledgement of a datagram repeats its first three bytes. */
  lemma AcksEcho<P(!new)>(json: Json<P>, into: P, data: Bytes)
    ensures var r := DecodePushData(json, into, data);
      r.Ok? ==> |data| >= 13 && EncodeAck(PUSH_ACK, Ack(r.value.version, r.value.token)) == data[..3] + [1]
    ensures var r := DecodePullData(data);
      r.Ok? ==> |data| == 12 && EncodeAck(PULL_ACK, Ack(r.value.version, r.value.token)) == data[..3] + [4]
  {
    if |data| >= 4 {
      TokenRoundTrip(TokenOf(data), data[1], data[2]);
      HeaderIsBytes(data[0], TokenOf(data), 1);
      HeaderIsBytes(data[0], TokenOf(data), 4);
      assert data[..3] == [data[0], data[1], data[2]];
    }
  }

  lemma PullDataSource(data: Bytes)
    ensures var r := DecodePullData(data); r.Ok? ==> r.value.version == data[0] && r.value.mac == data[4..12]
  {
  }

  /** PUSH_ACK and PULL_ACK: what is accepted is exactly what is encoded, on the supported versions. */
  lemma AckExact(id: Byte, p: Ack, data: Bytes)
    ensures DecodeAck(id, data) == Ok(p) <==> Supported(p.version) && data == EncodeAck(id, p)
  {
  }

  lemma PullDataExact(p: PullData, data: Bytes)
    ensures DecodePullData(data) == Ok(p) <==> Supported(p.version) && data == EncodePullData(p)
  {
    if |data| == 12 {
      HeaderIs(data, p.version, p.token, PULL_DATA);
      assert data == data[..4] + data[4..12];
      assert EncodePullData(p)[4..12] == p.mac && EncodePullData(p)[..4] == Header(p.version, p.token, PULL_DATA);
    }
  }

  /** PUSH_DATA accepts a supported header, a MAC and a non-empty body that decodes, and nothing else. */
  lemma PushDataExact<P(!new)>(json: Json<P>, into: P, p: PushData<P>, data: Bytes)
    ensures DecodePushData(json, into, data) == Ok(p) <==>
      Supported(p.version) && |data| >= 13 && json.decode(data[12..], into) == (p.payload, true)
      && data == Header(p.version, p.token, PUSH_DATA) + p.mac + data[12..]
  {
  }

  /** PULL_RESP takes whatever token bytes there are, in version 1 too. */
  lemma PullRespExact<P(!new)>(json: Json<P>, into: P, p: PullResp<P>, data: Bytes)
    ensures DecodePullResp(json, into, data) == Ok(p) <==>
      (p.version == 1 || p.version == 2) && |data| >= 5 && json.decode(data[4..], into) == (p.payload, true)
      && data[..4] == [p.version, p.token % 0x100, p.token / 0x100, 3]
  {
    if |data| >= 4 {
      HeaderIs(data, p.version, p.token, 3);
      HeaderIsBytes(p.version, p.token, 3);
    }
  }

  lemma TxAckExact<P(!new)>(json: Json<P>, into: Option<P>, p: TxAck<P>, data: Bytes)
    ensures DecodeTxAck(json, into, data) == Ok(p) <==>
      (p.version == 1 || p.version == 2) && |data| >= 12
      && data[..4] == [p.version, p.token % 0x100, p.token / 0x100, 5] && p.mac == data[4..12]
      && if |data| == 12 then p.payload == into
         else p.payload.Some? && json.decode(data[12..], json.zero) == (p.payload.value, true)
  {
    if |data| >= 4 {
      HeaderIs(data, p.version, p.token, 5);
      HeaderIsBytes(p.version, p.token, 5);
    }
  }

  lemma PushDataRoundTrip<P(!new)>(json: Json<P>, into: P, p: PushData<P>)
    requires Survives(json, into, p.payload)
    ensures EncodePushData(json, p).Some?
    ensures DecodePushData(json, into, EncodePushData(json, p).value) == Ok(p) <==> Supported(p.version)
  {
  }

  /** A PULL_RESP keeps its token exactly when the version carries one or there is none to keep. */
  lemma PullRespRoundTrip<P(!new)>(json: Json<P>, into: P, p: PullResp<P>)
    requires Survives(json, into, p.payload)
    ensures EncodePullResp(json, p).Some?
    ensures DecodePullResp(json, into, EncodePullResp(json, p).value) == Ok(p)
      <==> Supported(p.version) && (p.version != PROTOCOL_VERSION_1 || p.token == 0)
    ensures Supported(p.version) ==> exists token: Uint16 ::
      DecodePullResp(json, into, EncodePullResp(json, p).value) == Ok(PullResp(p.version, token, p.payload))
  {
  }

  /**
   * A missing payload and a present one are told apart by the length alone, so a missing one comes back
   * only in a receiver that holds none.
   */
  lemma TxAckRoundTrip<P(!new)>(json: Json<P>, into: Option<P>, p: TxAck<P>)
    requires p.payload.Some? ==> Survives(json, json.zero, p.payload.value)
    ensures EncodeTxAck(json, p).Some?
    ensures DecodeTxAck(json, into, EncodeTxAck(json, p).value) == Ok(p)
      <==> Supported(p.version) && (p.payload == None ==> into == None)
  {
  }

  /** The identifiers under which some decoder, with some receiver, accepts `data`. */
  ghost predicate AcceptedAs<P(!new), Q(!new), R(!new)>(push: Json<P>, resp: Json<Q>, tx: Json<R>, data: Bytes,
                                                        id: Byte)
  {
    || (id == PUSH_DATA && exists p :: DecodePushData(push, p, data).Ok?)
    || (id == PUSH_ACK && DecodeAck(PUSH_ACK, data).Ok?)
    || (id == PULL_DATA && DecodePullData(data).Ok?)
    || (id == PULL_RESP && exists q :: DecodePullResp(resp, q, data).Ok?)
    || (id == PULL_ACK && DecodeAck(PULL_ACK, data).Ok?)
    || (id == TX_ACK && exists r :: DecodeTxAck(tx, r, data).Ok?)
  }

  /** No datagram is two packets: the decoder that accepts it is the one its packet type names. */
  lemma OneType<P(!new), Q(!new), R(!new)>(push: Json<P>, resp: Json<Q>, tx: Json<R>, data: Bytes, id: Byte, id': Byte)
    requires AcceptedAs(push, resp, tx, data, id)
    ensures GetPacketType(data) == Ok(id)
    ensures AcceptedAs(push, resp, tx, data, id') ==> id' == id
  {
  }
}
