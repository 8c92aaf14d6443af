/** Between the Semtech JSON entries and the bridge's own packets. */
module Conversions {
  import opened Wrappers
  import opened Codec
  import opened DataRates

  /** Times, and the floating-point frequency and SNR of a received packet, are not part of the model. */
  datatype RXPK = RXPK(tmst: Uint32, chan: Byte, rfCh: Byte, stat: int, datR: DatR, codR: string, rssi: int,
                       size: Uint16, data: string)

  datatype RxPacket = RxPacket(mac: Mac, phyPayload: Bytes, timestamp: Uint32, channel: int, rfChain: int,
                               crcStatus: int, dataRate: DataRate, codeRate: string, rssi: int, size: int)

  datatype TxPacket = TxPacket(mac: Mac, immediately: bool, timestamp: Uint32, frequency: int, power: int,
                               dataRate: DataRate, codeRate: string, iPol: Option<bool>, phyPayload: Bytes)

  datatype TXPK = TXPK(imme: bool, tmst: Uint32, freq: real, powe: Byte, modu: string, datR: DatR, codR: string,
                       fDev: Uint16, iPol: bool, size: Uint16, data: string)

  /** What the gateway itself says in a status report does not matter here. */
  datatype PushPayload = PushPayload(rxpk: seq<RXPK>, stat: Option<nat>)

  /** A published status report: the gateway's MAC, what it says, and the IPs it was seen at. */
  datatype StatReport = StatReport(mac: Mac, stat: nat, ips: seq<string>)

  /** What the handlers use from the standard library; `ip` prints the IP of an address. */
  datatype Env = Env(push: Json<PushPayload>, resp: Json<TXPK>, txAck: Json<string>,
                     decode64: string -> Option<Bytes>, encode64: Bytes -> string, ip: nat -> string)

  function NewRxPacket(env: Env, mac: Mac, r: RXPK): (p: Option<RxPacket>) {
    var dataRate := NewDataRateFromDatR(r.datR);
    if dataRate.Err? then None
    else
      var payload := env.decode64(r.data);
      if payload.None? then None
      else Some(RxPacket(mac, payload.value, r.tmst, r.chan, r.rfCh, r.stat, dataRate.value, r.codR, r.rssi, r.size))
  }

  function NewTXPK(env: Env, t: TxPacket): (k: TXPK) {
    var half: int := if t.dataRate.bitRate >= 0 then t.dataRate.bitRate / 2 else -((-(t.dataRate.bitRate as int)) / 2);
    TXPK(t.immediately, t.timestamp, t.frequency as real / 1_000_000.0, t.power % 0x100, t.dataRate.modulation,
         NewDatRFromDataRate(t.dataRate), t.codeRate,
         if t.dataRate.modulation == FSK then half % 0x1_0000 else 0,
         if t.iPol.Some? then t.iPol.value else t.dataRate.modulation == LORA,
         |t.phyPayload| % 0x1_0000, env.encode64(t.phyPayload))
  }

  /** An entry that is passed on: it converts, and its CRC was right. */
  predicate Good(env: Env, mac: Mac, r: RXPK) {
    var p := NewRxPacket(env, mac, r);
    p.Some? && p.value.crcStatus == 1
  }

  /** How many entries come before the first one that is not good. */
  function GoodCount(env: Env, mac: Mac, rs: seq<RXPK>): (n: nat)
    ensures n <= |rs|
  {
    if rs == [] || !Good(env, mac, rs[0]) then 0 else 1 + GoodCount(env, mac, rs[1..])
  }

  /** Its rate and its base64 data can be read, and its CRC status is 1. */
  lemma GoodIs(env: Env, mac: Mac, r: RXPK)
    ensures Good(env, mac, r) <==> NewDataRateFromDatR(r.datR).Ok? && env.decode64(r.data).Some? && r.stat == 1
  {
    hide NewDataRateFromDatR;
  }

  /** What an entry becomes: every field is the entry's own, the rate and the payload as they are read. */
  ghost predicate IsConversion(env: Env, mac: Mac, r: RXPK, p: RxPacket) {
    && p.mac == mac && Some(p.phyPayload) == env.decode64(r.data) && Ok(p.dataRate) == NewDataRateFromDatR(r.datR)
    && p.timestamp == r.tmst && p.channel == r.chan && p.rfChain == r.rfCh && p.crcStatus == r.stat
    && p.codeRate == r.codR && p.rssi == r.rssi && p.size == r.size
  }

  lemma NewRxPacketIs(env: Env, mac: Mac, r: RXPK, p: RxPacket)
    ensures NewRxPacket(env, mac, r) == Some(p) <==> IsConversion(env, mac, r, p)
  {
    hide NewDataRateFromDatR;
  }

  lemma {:induction false} GoodCountIsLongest(env: Env, mac: Mac, rs: seq<RXPK>)
    ensures var n := GoodCount(env, mac, rs);
      (forall k :: 0 <= k < n ==> Good(env, mac, rs[k])) && (n < |rs| ==> !Good(env, mac, rs[n]))
  {
    if rs != [] && Good(env, mac, rs[0]) {
      GoodCountIsLongest(env, mac, rs[1..]);
    }
  }

  /** The packets the first `n` entries become. */
  function Converted(env: Env, mac: Mac, rs: seq<RXPK>, n: nat): (ps: seq<RxPacket>)
    requires n <= |rs| && forall k :: 0 <= k < n ==> Good(env, mac, rs[k])
    ensures |ps| == n
  {
    if n == 0 then []
    else
      assert Good(env, mac, rs[n-1]);
      Converted(env, mac, rs, n - 1) + [NewRxPacket(env, mac, rs[n-1]).value]
  }

  /** What one PUSH_DATA publishes in the end: its entries up to the first that fails, converted in order. */
  function Published(env: Env, p: PushData<PushPayload>): (ps: seq<RxPacket>) {
    GoodCountIsLongest(env, p.mac, p.payload.rxpk);
    Converted(env, p.mac, p.payload.rxpk, GoodCount(env, p.mac, p.payload.rxpk))
  }

  /** The packets published are the conversions of the entries before the first that cannot be read or has a bad CRC. */
  lemma PublishedAre(env: Env, p: PushData<PushPayload>)
    ensures var n, rs := |Published(env, p)|, p.payload.rxpk;
      && n <= |rs|
      && (forall k :: 0 <= k < n ==> rs[k].stat == 1 && IsConversion(env, p.mac, rs[k], Published(env, p)[k]))
      && (n < |rs| ==> NewDataRateFromDatR(rs[n].datR).Err? || env.decode64(rs[n].data) == None || rs[n].stat != 1)
  {
    hide NewRxPacket, NewDataRateFromDatR, GoodCount, Good, IsConversion;
    var n, rs := GoodCount(env, p.mac, p.payload.rxpk), p.payload.rxpk;
    GoodCountIsLongest(env, p.mac, rs);
    forall k | 0 <= k < n ensures rs[k].stat == 1 && IsConversion(env, p.mac, rs[k], Published(env, p)[k]) {
      ConvertedAt(env, p.mac, rs, n, k);
      GoodIs(env, p.mac, rs[k]);
      NewRxPacketIs(env, p.mac, rs[k], Published(env, p)[k]);
    }
    if n < |rs| {
      GoodIs(env, p.mac, rs[n]);
    }
  }

  /** The TXPK of a downlink says what the packet says. */
  ghost predicate Describes(env: Env, t: TxPacket, k: TXPK) {
    && k.imme == t.immediately && k.tmst == t.timestamp && k.freq * 1_000_000.0 == t.frequency as real
    && (t.power - k.powe) % 0x100 == 0 && k.codR == t.codeRate
    && k.modu == t.dataRate.modulation && k.datR == NewDatRFromDataRate(t.dataRate)
    && (k.modu == "FSK" && 0 <= t.dataRate.bitRate < 0x2_0000 ==>
          2 * k.fDev <= t.dataRate.bitRate <= 2 * k.fDev + 1)
    && (k.modu != "FSK" ==> k.fDev == 0)
    && (t.iPol.Some? ==> k.iPol == t.iPol.value) && (t.iPol == None ==> (k.iPol <==> k.modu == "LORA"))
    && (|t.phyPayload| - k.size) % 0x1_0000 == 0 && k.data == env.encode64(t.phyPayload)
  }

  lemma NewTXPKDescribes(env: Env, t: TxPacket)
    ensures Describes(env, t, NewTXPK(env, t))
  {
    hide NewDatRFromDataRate;
  }

  lemma {:induction false} ConvertedAt(env: Env, mac: Mac, rs: seq<RXPK>, n: nat, k: nat)
    requires k < n <= |rs| && forall j :: 0 <= j < n ==> Good(env, mac, rs[j])
    ensures Some(Converted(env, mac, rs, n)[k]) == NewRxPacket(env, mac, rs[k])
  {
    hide NewRxPacket;
    if k < n - 1 {
      ConvertedAt(env, mac, rs, n - 1, k);
    }
  }

  /** What a PUSH_DATA from `addr` puts on the stats channel. */
  function Reports(env: Env, addr: nat, p: PushData<PushPayload>): (rs: seq<StatReport>) {
    if p.payload.stat.Some? then [StatReport(p.mac, p.payload.stat.value, [env.ip(addr)])] else []
  }
}
