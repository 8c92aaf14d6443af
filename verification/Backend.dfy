/** The handlers of gateway/backend.go as one goroutine runs them, from the datagram to the channels. */
module Backends {
  import opened Wrappers
  import opened Lex
  import opened Codec
  import opened Packets
  import opened DataRates
  import opened Conversions
  import Registry
  import opened Handlers

  /** The datagrams `sendPackets` lets through. */
  function Sendable(queue: seq<Datagram>): (wire: seq<Datagram>)
  {
    if queue == [] then []
    else
      var last := queue[|queue|-1];
      Sendable(queue[..|queue|-1]) + if GetPacketType(last.data).Ok? then [last] else []
  }

  lemma {:induction false} SendableGrows(queue: seq<Datagram>, n: nat)
    requires n <= |queue|
    ensures Sendable(queue[..n]) <= Sendable(queue)
    decreases |queue| - n
  {
    if n == |queue| {
      assert queue[..n] == queue;
    } else {
      assert queue[..n+1][..n] == queue[..n];
      SendableGrows(queue, n + 1);
    }
  }

  /** A datagram is sendable exactly if it has four bytes and starts with version 1 or 2; all of these are sent. */
  lemma {:induction false} SendableIs(queue: seq<Datagram>, d: Datagram)
    ensures var typed := |d.data| >= 4 && (d.data[0] == 1 || d.data[0] == 2);
      multiset(Sendable(queue))[d] == if typed then multiset(queue)[d] else 0
  {
    if queue != [] {
      var front := queue[..|queue|-1];
      assert queue == front + [queue[|queue|-1]];
      SendableIs(front, d);
    }
  }

  lemma {:induction false} AllSendable(queue: seq<Datagram>)
    requires forall k :: 0 <= k < |queue| ==> GetPacketType(queue[k].data).Ok?
    ensures Sendable(queue) == queue
  {
    if queue != [] {
      hide GetPacketType;
      AllSendable(queue[..|queue|-1]);
      assert queue == queue[..|queue|-1] + [queue[|queue|-1]];
    }
  }

  /** `err != nil && gtw.addr != nil`. */
  function SecondAddress(err: bool, found: Option<nat>): (address: Option<nat>) {
    if err then found else None
  }

  class Backend {
    const env: Env
    const gateways: Registry.Gateways
    var sendChan: seq<Datagram>
    var rxChan: seq<RxPacket>
    var statsChan: seq<StatReport>

    constructor (env: Env, config: Registry.Config)
      ensures this.env == env && fresh(gateways) && gateways.Valid() && gateways.Value() == Registry.EMPTY
      ensures sendChan == [] && rxChan == [] && statsChan == []
    {
      this.env := env;
      gateways := new Registry.Gateways(config);
      sendChan, rxChan, statsChan := [], [], [];
    }

    /**
     * `sendPackets` over what is on the channel: a datagram without a packet type is dropped, and the first
     * failing write ends it. `written` answers the successive writes.
     */
    method SendPackets(written: nat -> bool) returns (failed: bool, wire: seq<Datagram>)
      ensures wire <= Sendable(sendChan) && forall k :: 0 <= k < |wire| ==> written(k)
      ensures if failed then |wire| < |Sendable(sendChan)| && !written(|wire|) else wire == Sendable(sendChan)
      ensures (forall k :: 0 <= k < |sendChan| ==> GetPacketType(sendChan[k].data).Ok?) ==>
        Sendable(sendChan) == sendChan
    {
      wire := [];
      failed := false;
      for k := 0 to |sendChan|
        invariant wire == Sendable(sendChan[..k]) && forall j :: 0 <= j < |wire| ==> written(j)
      {
        assert sendChan[..k+1][..k] == sendChan[..k];
        SendableGrows(sendChan, k + 1);
        var pt := GetPacketType(sendChan[k].data);
        if pt.Err? {
          continue;
        }
        if !written(|wire|) {
          failed := true;
          break;
        }
        wire := wire + [sendChan[k]];
      }
      assert sendChan[..|sendChan|] == sendChan;
      if forall k :: 0 <= k < |sendChan| ==> GetPacketType(sendChan[k].data).Ok? {
        AllSendable(sendChan);
      }
    }

    /** `now` and `ok` are the clock and onNew's outcome, for the one handler that needs them. */
    method HandlePacket(addr: nat, data: Bytes, now: int, ok: bool) returns (failed: bool)
      requires gateways.Valid()
      modifies this, gateways
      ensures gateways.Valid()
      ensures sendChan == old(sendChan) + SentAt(env, Thread(Handle(addr, data), Done(failed)))
      ensures rxChan == old(rxChan) + PublishedAt(env, Thread(Handle(addr, data), Done(failed)))
      ensures statsChan == old(statsChan) + ReportedAt(env, Thread(Handle(addr, data), Done(failed)))
      ensures gateways.Value() == match Dispatch(env, data)
        case PullSet(p) =>
          Registry.SetStep(gateways.config, old(gateways.Value()), p.mac, Registry.Gateway(addr, now, p.version), ok).0
        case _ => old(gateways.Value())
      ensures var push, pull := DecodePushData(env.push, env.push.zero, data), DecodePullData(data);
        && (push.Ok? ==> (failed <==> |Published(env, push.value)| < |push.value.payload.rxpk|))
        && (pull.Ok? ==> (failed <==> pull.value.mac !in old(gateways.gateways) && gateways.config.onNew && !ok))
        && (push.Err? && pull.Err? ==> (failed <==> DecodeTxAck(env.txAck, None, data).Err?))
    {
      AcksEcho(env.push, env.push.zero, data);
      DispatchIs(env, data);
      hide Published, GoodCount, DecodePushData, DecodePullData, DecodeTxAck;
      var pt := GetPacketType(data);
      if pt.Err? {
        return true;
      }
      if pt.value == PUSH_DATA {
        failed := HandlePushData(addr, data);
      } else if pt.value == PULL_DATA {
        failed := HandlePullData(addr, data, now, ok);
      } else if pt.value == TX_ACK {
        failed := HandleTxAck(data);
      } else {
        failed := true;
      }
    }

    method HandlePullData(addr: nat, data: Bytes, now: int, ok: bool) returns (failed: bool)
      requires gateways.Valid()
      modifies this`sendChan, gateways
      ensures gateways.Valid()
      ensures match DecodePullData(data)
        case Err(_) => failed && sendChan == old(sendChan) && gateways.Value() == old(gateways.Value())
        case Ok(p) =>
          && (gateways.Value(), failed) ==
            Registry.SetStep(gateways.config, old(gateways.Value()), p.mac, Registry.Gateway(addr, now, p.version), ok)
          && sendChan == old(sendChan) + (if failed then [] else [Datagram(addr, data[..3] + [4])])
          && (failed <==> p.mac !in old(gateways.gateways) && gateways.config.onNew && !ok)
          && (!failed ==> gateways.gateways == old(gateways.gateways)[p.mac := Registry.Gateway(addr, now, data[0])])
    {
      AcksEcho(env.push, env.push.zero, data);
      PullDataSource(data);
      hide DecodePullData;
      var p := new PullDataPacket();
      var err := p.UnmarshalBinary(data);
      if err.Some? {
        return true;
      }
      var ack := new AckPacket(PULL_ACK);
      ack.version := p.version;
      ack.token := p.token;
      var bytes := ack.MarshalBinary();
      failed := gateways.Set(p.mac, Registry.Gateway(addr, now, p.version), ok);
      if failed {
        return;
      }
      sendChan := sendChan + [Datagram(addr, bytes)];
    }

    method HandlePushData(addr: nat, data: Bytes) returns (failed: bool)
      requires gateways.Valid()
      modifies this`sendChan, this`rxChan, this`statsChan
      ensures match DecodePushData(env.push, env.push.zero, data)
        case Err(_) =>
          failed && sendChan == old(sendChan) && rxChan == old(rxChan) && statsChan == old(statsChan)
        case Ok(p) =>
          && sendChan == old(sendChan) + [Datagram(addr, data[..3] + [1])]
          && rxChan == old(rxChan) + Published(env, p)
          && (p.payload.stat == None ==> statsChan == old(statsChan))
          && (p.payload.stat.Some? ==>
                statsChan == old(statsChan) + [StatReport(p.mac, p.payload.stat.value, [env.ip(addr)])])
          && (failed <==> |Published(env, p)| < |p.payload.rxpk|)
    {
      AcksEcho(env.push, env.push.zero, data);
      hide DecodePushData, GoodCount, Converted, NewRxPacket;
      var p := new PushDataPacket(env.push, env.push.zero);
      var err := p.UnmarshalBinary(data);
      if err.Some? {
        return true;
      }
      ghost var q := p.Value();
      var ack := new AckPacket(PUSH_ACK);
      ack.version := p.version;
      ack.token := p.token;
      var bytes := ack.MarshalBinary();
      sendChan := sendChan + [Datagram(addr, bytes)];
      if p.payload.stat.Some? {
        HandleStat(addr, p.mac, p.payload.stat.value);
      }
      failed := HandleRxPackets(p.mac, p.payload.rxpk);
    }

    /**
     * The test before the second address is the wrong way round: it wants an error of the lookup and an
     * address from it. So the registered address is in the report exactly if its IP is the datagram's.
     */
    method HandleStat(addr: nat, mac: Mac, stat: nat)
      requires gateways.Valid()
      modifies this`statsChan
      ensures statsChan == old(statsChan) + [StatReport(mac, stat, [env.ip(addr)])]
      ensures mac in gateways.gateways ==> var seen := gateways.gateways[mac].addr;
        env.ip(seen) in statsChan[|statsChan|-1].ips <==> env.ip(seen) == env.ip(addr)
    {
      var ips := AddIp([], env.ip(addr));
      var gtw := gateways.Get(mac);
      match SecondAddress(gtw == None, if gtw.Some? then Some(gtw.value.addr) else None) {
        case Some(second) => ips := AddIp(ips, env.ip(second));
        case None =>
      }
      assert ips == [env.ip(addr)];
      statsChan := statsChan + [StatReport(mac, stat, ips)];
    }

    /** `addIPToGatewayStatsPacket`: each IP is listed once. */
    method AddIp(existing: seq<string>, ip: string) returns (ips: seq<string>)
      ensures ips == if ip in existing then existing else existing + [ip]
      ensures Distinct(existing) ==> Distinct(ips)
    {
      for k := 0 to |existing|
        invariant ip !in existing[..k]
      {
        if ip == existing[k] {
          return existing;
        }
      }
      assert existing[..|existing|] == existing;
      ips := existing + [ip];
    }

    /** The loop over the entries of one PUSH_DATA; the first failure ends it. */
    method HandleRxPackets(mac: Mac, rxpk: seq<RXPK>) returns (failed: bool)
      modifies this`rxChan
      ensures var n := GoodCount(env, mac, rxpk);
        && (failed <==> n < |rxpk|)
        && (forall k :: 0 <= k < n ==> Good(env, mac, rxpk[k]))
        && rxChan == old(rxChan) + Converted(env, mac, rxpk, n)
    {
      hide NewRxPacket, GoodCount;
      GoodCountIsLongest(env, mac, rxpk);
      for i := 0 to |rxpk|
        invariant i <= GoodCount(env, mac, rxpk)
        invariant rxChan == old(rxChan) + Converted(env, mac, rxpk, i)
      {
        failed := HandleRxPacket(mac, rxpk[i]);
        if failed {
          return;
        }
        assert Converted(env, mac, rxpk, i + 1)
          == Converted(env, mac, rxpk, i) + [NewRxPacket(env, mac, rxpk[i]).value];
      }
      failed := false;
    }

    method HandleRxPacket(mac: Mac, rxpk: RXPK) returns (failed: bool)
      modifies this`rxChan
      ensures failed <==> !Good(env, mac, rxpk)
      ensures rxChan == old(rxChan) + if failed then [] else [NewRxPacket(env, mac, rxpk).value]
      ensures failed <==> NewDataRateFromDatR(rxpk.datR).Err? || env.decode64(rxpk.data) == None || rxpk.stat != 1
      ensures !failed ==> IsConversion(env, mac, rxpk, rxChan[|rxChan|-1])
    {
      GoodIs(env, mac, rxpk);
      if Good(env, mac, rxpk) {
        NewRxPacketIs(env, mac, rxpk, NewRxPacket(env, mac, rxpk).value);
      }
      hide NewRxPacket, IsConversion, NewDataRateFromDatR;
      var rxPacket := NewRxPacket(env, mac, rxpk);
      if rxPacket == None {
        return true;
      }
      if rxPacket.value.crcStatus != 1 {
        return true;
      }
      rxChan := rxChan + [rxPacket.value];
      failed := false;
    }

    method HandleTxAck(data: Bytes) returns (failed: bool)
      ensures failed <==> DecodeTxAck(env.txAck, None, data).Err?
    {
      hide DecodeTxAck;
      var p := new TxAckPacket(env.txAck);
      var err := p.UnmarshalBinary(data);
      failed := err.Some?;
    }

    method Send(tx: TxPacket) returns (failed: bool)
      requires gateways.Valid()
      modifies this`sendChan
      ensures var sent := if tx.mac in gateways.gateways then Downlink(env, gateways.gateways[tx.mac], tx) else None;
        && (failed <==> sent == None)
        && sendChan == old(sendChan) + if failed then [] else [Datagram(gateways.gateways[tx.mac].addr, sent.value)]
      ensures !failed ==> tx.mac in gateways.gateways
      ensures !failed ==>
        var g, d := gateways.gateways[tx.mac], sendChan[|sendChan|-1];
        && d.addr == g.addr && |d.data| >= 4 && d.data[..4] == [g.version, 0, 0, 3]
        && Carries(env, tx, d.data[4..])
    {
      hide NewTXPK, Carries;
      if tx.mac in gateways.gateways {
        DownlinkBytes(env, gateways.gateways[tx.mac], tx);
      }
      var gw := gateways.Get(tx.mac);
      if gw == None {
        return true;
      }
      var txpk := NewTXPK(env, tx);
      var pullResp := new PullRespPacket(env.resp, gw.value.version, txpk);
      var bytes := pullResp.MarshalBinary();
      if bytes == None {
        return true;
      }
      sendChan := sendChan + [Datagram(gw.value.addr, bytes.value)];
      failed := false;
    }
  }
}
