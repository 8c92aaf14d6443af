/** The packet structs: MarshalBinary fills a buffer, UnmarshalBinary assigns the receiver's fields. */
module Packets {
  import opened Wrappers
  import opened Codec

  /** `make([]byte, 4)`, then version, little-endian token and identifier. */
  method HeaderBytes(version: Byte, token: Uint16, id: Byte) returns (out: Bytes)
    ensures out == Header(version, token, id)
  {
    out := [0, 0, 0, 0];
    out := out[0 := version];
    out := out[1 := token % 0x100];
    out := out[2 := token / 0x100];
    out := out[3 := id];
  }

  /** The loop that copies the MAC out of a datagram. */
  method ReadMac(data: Bytes) returns (mac: Mac)
    requires |data| >= 12
    ensures mac == data[4..12]
  {
    mac := [0, 0, 0, 0, 0, 0, 0, 0];
    for i := 0 to 8
      invariant forall k :: 0 <= k < i ==> mac[k] == data[4+k]
    {
      mac := mac[i := data[4+i]];
    }
  }

  /** PushACKPacket and PullACKPacket, which differ in the identifier only. */
  class AckPacket {
    const id: Byte
    var version: Byte
    var token: Uint16

    constructor (id: Byte)
      ensures this.id == id && Value() == Ack(0, 0)
    {
      this.id, version, token := id, 0, 0;
    }

    function Value(): Ack
      reads this
    {
      Ack(version, token)
    }

    method MarshalBinary() returns (out: Bytes)
      ensures out == EncodeAck(id, Value())
    {
      out := HeaderBytes(version, token, id);
    }

    method UnmarshalBinary(data: Bytes) returns (err: Option<CodecError>)
      modifies this
      ensures err == None <==> DecodeAck(id, data).Ok?
      ensures err == None ==> Value() == DecodeAck(id, data).value
      ensures err.Some? ==> err.value == DecodeAck(id, data).error && Value() == old(Value())
    {
      if |data| != 4 {
        return Some(WrongLength);
      }
      if data[3] != id {
        return Some(IdentifierMismatch);
      }
      if !Supported(data[0]) {
        return Some(InvalidProtocolVersion);
      }
      version := data[0];
      token := FromLittleEndian(data[1], data[2]);
      err := None;
    }
  }

  class PullDataPacket {
    var version: Byte
    var token: Uint16
    var mac: Mac

    constructor ()
      ensures version == 0 && token == 0
    {
      version, token, mac := 0, 0, [0, 0, 0, 0, 0, 0, 0, 0];
    }

    function Value(): PullData
      reads this
    {
      PullData(version, token, mac)
    }

    method MarshalBinary() returns (out: Bytes)
      ensures out == EncodePullData(Value())
    {
      out := HeaderBytes(version, token, PULL_DATA);
      out := out + mac;
    }

    method UnmarshalBinary(data: Bytes) returns (err: Option<CodecError>)
      modifies this
      ensures err == None <==> DecodePullData(data).Ok?
      ensures err == None ==> Value() == DecodePullData(data).value
      ensures err.Some? ==> err.value == DecodePullData(data).error && Value() == old(Value())
    {
      if |data| != 12 {
        return Some(WrongLength);
      }
      if data[3] != PULL_DATA {
        return Some(IdentifierMismatch);
      }
      if !Supported(data[0]) {
        return Some(InvalidProtocolVersion);
      }
      version := data[0];
      token := FromLittleEndian(data[1], data[2]);
      mac := ReadMac(data);
      err := None;
    }
  }

  class PushDataPacket<P> {
    const json: Json<P>
    var version: Byte
    var token: Uint16
    var mac: Mac
    var payload: P

    constructor (json: Json<P>, payload: P)
      ensures this.json == json && this.payload == payload && version == 0 && token == 0
    {
      this.json, this.payload := json, payload;
      version, token, mac := 0, 0, [0, 0, 0, 0, 0, 0, 0, 0];
    }

    function Value(): PushData<P>
      reads this
    {
      PushData(version, token, mac, payload)
    }

    method MarshalBinary() returns (out: Option<Bytes>)
      ensures out == EncodePushData(json, Value())
    {
      var pb := json.encode(payload);
      if pb == None {
        return None;
      }
      var head := HeaderBytes(version, token, PUSH_DATA);
      out := Some(head + mac + pb.value);
    }

    /** A body that does not decode is noticed only after the header fields have been assigned. */
    method UnmarshalBinary(data: Bytes) returns (err: Option<CodecError>)
      modifies this
      ensures err == None <==> DecodePushData(json, old(payload), data).Ok?
      ensures err == None ==> Value() == DecodePushData(json, old(payload), data).value
      ensures err.Some? ==> err.value == DecodePushData(json, old(payload), data).error
      ensures err.Some? && err.value != BadJson ==> Value() == old(Value())
      ensures err == Some(BadJson) ==>
        Header(version, token, PUSH_DATA) + mac == data[..12] && payload == json.decode(data[12..], old(payload)).0
    {
      if |data| < 13 {
        return Some(WrongLength);
      }
      if data[3] != PUSH_DATA {
        return Some(IdentifierMismatch);
      }
      if !Supported(data[0]) {
        return Some(InvalidProtocolVersion);
      }
      version := data[0];
      token := FromLittleEndian(data[1], data[2]);
      mac := ReadMac(data);
      HeaderIs(data, version, token, PUSH_DATA);
      assert data[..12] == data[..4] + data[4..12];
      var (decoded, ok) := json.decode(data[12..], payload);
      payload := decoded;
      err := if ok then None else Some(BadJson);
    }
  }

  class PullRespPacket<P> {
    const json: Json<P>
    var version: Byte
    var token: Uint16
    var payload: P

    constructor (json: Json<P>, version: Byte, payload: P)
      ensures this.json == json && Value() == PullResp(version, 0, payload)
    {
      this.json, this.version, token, this.payload := json, version, 0, payload;
    }

    function Value(): PullResp<P>
      reads this
    {
      PullResp(version, token, payload)
    }

    method MarshalBinary() returns (out: Option<Bytes>)
      ensures out == EncodePullResp(json, Value())
    {
      var pb := json.encode(payload);
      if pb == None {
        return None;
      }
      var head: Bytes := [0, 0, 0, 0];
      head := head[0 := version];
      if version != PROTOCOL_VERSION_1 {
        head := head[1 := token % 0x100];
        head := head[2 := token / 0x100];
      }
      head := head[3 := PULL_RESP];
      assert head == Header(version, if version != PROTOCOL_VERSION_1 then token else 0, PULL_RESP);
      out := Some(head + pb.value);
    }

    method UnmarshalBinary(data: Bytes) returns (err: Option<CodecError>)
      modifies this
      ensures err == None <==> DecodePullResp(json, old(payload), data).Ok?
      ensures err == None ==> Value() == DecodePullResp(json, old(payload), data).value
      ensures err.Some? ==> err.value == DecodePullResp(json, old(payload), data).error
      ensures err.Some? && err.value != BadJson ==> Value() == old(Value())
      ensures err == Some(BadJson) ==>
        Header(version, token, PULL_RESP) == data[..4] && payload == json.decode(data[4..], old(payload)).0
    {
      if |data| < 5 {
        return Some(WrongLength);
      }
      if data[3] != PULL_RESP {
        return Some(IdentifierMismatch);
      }
      if !Supported(data[0]) {
        return Some(InvalidProtocolVersion);
      }
      version := data[0];
      token := FromLittleEndian(data[1], data[2]);
      HeaderIs(data, version, token, PULL_RESP);
      var (decoded, ok) := json.decode(data[4..], payload);
      payload := decoded;
      err := if ok then None else Some(BadJson);
    }
  }

  class TxAckPacket<P> {
    const json: Json<P>
    var version: Byte
    var token: Uint16
    var mac: Mac
    var payload: Option<P>

    constructor (json: Json<P>)
      ensures this.json == json && payload == None
    {
      this.json, payload := json, None;
      version, token, mac := 0, 0, [0, 0, 0, 0, 0, 0, 0, 0];
    }

    function Value(): TxAck<P>
      reads this
    {
      TxAck(version, token, mac, payload)
    }

    method MarshalBinary() returns (out: Option<Bytes>)
      ensures out == EncodeTxAck(json, Value())
    {
      var pb := Some([]);
      if payload.Some? {
        pb := json.encode(payload.value);
        if pb == None {
          return None;
        }
      }
      var head := HeaderBytes(version, token, TX_ACK);
      out := Some(head + mac + pb.value);
    }

    /** A body goes into a new payload, whether it decodes or not; without one the receiver's payload stays. */
    method UnmarshalBinary(data: Bytes) returns (err: Option<CodecError>)
      modifies this
      ensures err == None <==> DecodeTxAck(json, old(payload), data).Ok?
      ensures err == None ==> Value() == DecodeTxAck(json, old(payload), data).value
      ensures err.Some? ==> err.value == DecodeTxAck(json, old(payload), data).error
      ensures err.Some? && err.value != BadJson ==> Value() == old(Value())
      ensures err == Some(BadJson) ==>
        Header(version, token, TX_ACK) + mac == data[..12] && payload == Some(json.decode(data[12..], json.zero).0)
    {
      if |data| < 12 {
        return Some(WrongLength);
      }
      if data[3] != TX_ACK {
        return Some(IdentifierMismatch);
      }
      if !Supported(data[0]) {
        return Some(InvalidProtocolVersion);
      }
      version := data[0];
      token := FromLittleEndian(data[1], data[2]);
      mac := ReadMac(data);
      if |data| > 12 {
        var (decoded, ok) := json.decode(data[12..], json.zero);
        payload := Some(decoded);
        if !ok {
          HeaderIs(data, version, token, TX_ACK);
          assert data[..12] == data[..4] + data[4..12];
          return Some(BadJson);
        }
      }
      err := None;
    }
  }
}
