/**
 * The bridge with any number of packet handlers and downlink senders running at once. Every step is one
 * access to shared state: the registry, which is under a lock, or a channel.
 */
module Handlers {
  import opened Wrappers
  import opened Codec
  import opened Conversions
  import Registry

  datatype Task = Handle(addr: nat, data: Bytes) | Send(tx: TxPacket)

  /** Where a goroutine stands: what it is about to do, with the locals it still needs. */
  datatype Pc =
    | Start
    | PullSet(pull: PullData)
    | PullAck(pull: PullData, now: int)
    | PushAck(push: PushData<PushPayload>)
    | PushStat(push: PushData<PushPayload>)
    | PushRx(push: PushData<PushPayload>, i: nat)
    | SendQueue(gw: Registry.Gateway)
    | Sent(gw: Registry.Gateway)
    | Done(failed: bool)

  datatype Thread = Thread(task: Task, pc: Pc)

  datatype Event =
    | SetDone(tid: nat, mac: Mac, gateway: Registry.Gateway)
    | Deleted(mac: Mac)
    | Queued(tid: nat, addr: nat, data: Bytes)
    | StatSent(tid: nat, report: StatReport)
    | RxSent(tid: nat, packet: RxPacket)

  /** `log` is everything that happened, in order. */
  datatype State = State(log: seq<Event>, registry: map<Mac, Registry.Gateway>, threads: map<nat, Thread>)

  /** A scheduler's choice; `now` and `ok` are a clock reading and onNew's outcome, where they matter. */
  datatype Choice = Spawn(tid: nat, task: Task) | Advance(tid: nat, now: int, ok: bool) | Clean(mac: Mac)

  const INITIAL: State := State([], map[], map[])

  /** handlePacket, up to the first access to shared state. */
  function Dispatch(env: Env, data: Bytes): (pc: Pc) {
    var t := GetPacketType(data);
    if t.Err? then Done(true)
    else if t.value == PUSH_DATA then
      var p := DecodePushData(env.push, env.push.zero, data);
      if p.Err? then Done(true) else PushAck(p.value)
    else if t.value == PULL_DATA then
      var p := DecodePullData(data);
      if p.Err? then Done(true) else PullSet(p.value)
    else if t.value == TX_ACK then Done(DecodeTxAck(env.txAck, None, data).Err?)
    else Done(true)
  }

  /** The thread moves to `pc`, having caused `events`. */
  function Moved(s: State, tid: nat, pc: Pc, events: seq<Event>): (r: State)
    requires tid in s.threads
  {
    s.(threads := s.threads[tid := s.threads[tid].(pc := pc)], log := s.log + events)
  }

  function PullReply(p: PullData): (data: Bytes) {
    EncodeAck(PULL_ACK, Ack(p.version, p.token))
  }

  function PushReply(p: PushData<PushPayload>): (data: Bytes) {
    EncodeAck(PUSH_ACK, Ack(p.version, p.token))
  }

  /** The downlink datagram Send builds for a gateway it found. */
  function Downlink(env: Env, gw: Registry.Gateway, tx: TxPacket): (data: Option<Bytes>) {
    EncodePullResp(env.resp, PullResp(gw.version, 0, NewTXPK(env, tx)))
  }

  function StatEvents(env: Env, tid: nat, addr: nat, p: PushData<PushPayload>): (es: seq<Event>)
    ensures |es| <= 1
  {
    if p.payload.stat.Some? then [StatSent(tid, Reports(env, addr, p)[0])] else []
  }

  function AdvanceHandler(env: Env, s: State, tid: nat, addr: nat, data: Bytes, now: int, ok: bool): (r: State)
    requires tid in s.threads
  {
    match s.threads[tid].pc
    case Start => Moved(s, tid, Dispatch(env, data), [])
    case PullSet(p) =>
      if p.mac !in s.registry && !ok then Moved(s, tid, Done(true), [])
      else
        var g := Registry.Gateway(addr, now, p.version);
        Moved(s, tid, PullAck(p, now), [SetDone(tid, p.mac, g)]).(registry := s.registry[p.mac := g])
    case PullAck(p, _) => Moved(s, tid, Done(false), [Queued(tid, addr, PullReply(p))])
    case PushAck(p) => Moved(s, tid, PushStat(p), [Queued(tid, addr, PushReply(p))])
    case PushStat(p) => Moved(s, tid, PushRx(p, 0), StatEvents(env, tid, addr, p))
    case PushRx(p, i) =>
      if i >= |p.payload.rxpk| then Moved(s, tid, Done(false), [])
      else if !Good(env, p.mac, p.payload.rxpk[i]) then Moved(s, tid, Done(true), [])
      else Moved(s, tid, PushRx(p, i + 1), [RxSent(tid, NewRxPacket(env, p.mac, p.payload.rxpk[i]).value)])
    case _ => s
  }

  function AdvanceSender(env: Env, s: State, tid: nat, tx: TxPacket): (r: State)
    requires tid in s.threads
  {
    match s.threads[tid].pc
    case Start =>
      if tx.mac in s.registry then Moved(s, tid, SendQueue(s.registry[tx.mac]), [])
      else Moved(s, tid, Done(true), [])
    case SendQueue(g) =>
      var data := Downlink(env, g, tx);
      if data.None? then Moved(s, tid, Done(true), [])
      else Moved(s, tid, Sent(g), [Queued(tid, g.addr, data.value)])
    case _ => s
  }

  /** A choice that is not possible changes nothing. */
  function Next(env: Env, s: State, c: Choice): (r: State) {
    match c
    case Spawn(tid, task) => if tid in s.threads then s else s.(threads := s.threads[tid := Thread(task, Start)])
    case Clean(mac) =>
      if mac in s.registry then s.(registry := s.registry - {mac}, log := s.log + [Deleted(mac)]) else s
    case Advance(tid, now, ok) =>
      if tid !in s.threads then s
      else
        match s.threads[tid].task
        case Handle(addr, data) => AdvanceHandler(env, s, tid, addr, data, now, ok)
        case Send(tx) => AdvanceSender(env, s, tid, tx)
  }

  function Run(env: Env, cs: seq<Choice>): (s: State)
  {
    if cs == [] then INITIAL else Next(env, Run(env, cs[..|cs|-1]), cs[|cs|-1])
  }

  // ----- what a log says -----

  datatype Datagram = Datagram(addr: nat, data: Bytes)

  /** The datagrams thread `tid` put on the send channel. */
  function SentBy(log: seq<Event>, tid: nat): (ds: seq<Datagram>)
  {
    if log == [] then []
    else
      var e := log[|log|-1];
      SentBy(log[..|log|-1], tid) + if e.Queued? && e.tid == tid then [Datagram(e.addr, e.data)] else []
  }

  /** The packets thread `tid` published. */
  function PublishedBy(log: seq<Event>, tid: nat): (ps: seq<RxPacket>)
  {
    if log == [] then []
    else
      var e := log[|log|-1];
      PublishedBy(log[..|log|-1], tid) + if e.RxSent? && e.tid == tid then [e.packet] else []
  }

  /** The status reports thread `tid` published. */
  function ReportedBy(log: seq<Event>, tid: nat): (rs: seq<StatReport>)
  {
    if log == [] then []
    else
      var e := log[|log|-1];
      ReportedBy(log[..|log|-1], tid) + if e.StatSent? && e.tid == tid then [e.report] else []
  }

  /** The last successful set for `mac`, unless cleanup came after it. */
  function LastSet(log: seq<Event>, mac: Mac): (g: Option<Registry.Gateway>)
  {
    if log == [] then None
    else
      var e := log[|log|-1];
      if e.SetDone? && e.mac == mac then Some(e.gateway)
      else if e.Deleted? && e.mac == mac then None
      else LastSet(log[..|log|-1], mac)
  }

  lemma Snoc(log: seq<Event>, e: Event, tid: nat, mac: Mac)
    ensures SentBy(log + [e], tid)
      == SentBy(log, tid) + if e.Queued? && e.tid == tid then [Datagram(e.addr, e.data)] else []
    ensures PublishedBy(log + [e], tid)
      == PublishedBy(log, tid) + if e.RxSent? && e.tid == tid then [e.packet] else []
    ensures ReportedBy(log + [e], tid)
      == ReportedBy(log, tid) + if e.StatSent? && e.tid == tid then [e.report] else []
    ensures LastSet(log + [e], mac) ==
      if e.SetDone? && e.mac == mac then Some(e.gateway)
      else if e.Deleted? && e.mac == mac then None else LastSet(log, mac)
  {
    assert (log + [e])[..|log|] == log;
  }

  // ----- what a thread must have done by the point it has reached -----

  function SentAt(env: Env, t: Thread): (ds: seq<Datagram>) {
    match t.task
    case Handle(addr, data) =>
      (match Dispatch(env, data)
       case PullSet(p) => if t.pc == Done(false) then [Datagram(addr, PullReply(p))] else []
       case PushAck(p) => if t.pc.Start? || t.pc.PushAck? then [] else [Datagram(addr, PushReply(p))]
       case _ => [])
    case Send(tx) =>
      if t.pc.Sent? && Downlink(env, t.pc.gw, tx).Some? then
        [Datagram(t.pc.gw.addr, Downlink(env, t.pc.gw, tx).value)]
      else []
  }

  function PublishedAt(env: Env, t: Thread): (ps: seq<RxPacket>) {
    if t.task.Handle? && Dispatch(env, t.task.data).PushAck? then
      var p := Dispatch(env, t.task.data).push;
      GoodCountIsLongest(env, p.mac, p.payload.rxpk);
      if t.pc.Done? then Published(env, p)
      else if t.pc.PushRx? && t.pc.i <= GoodCount(env, p.mac, p.payload.rxpk) then
        Converted(env, p.mac, p.payload.rxpk, t.pc.i)
      else []
    else []
  }

  function ReportedAt(env: Env, t: Thread): (rs: seq<StatReport>) {
    if t.task.Handle? && Dispatch(env, t.task.data).PushAck? && (t.pc.PushRx? || t.pc.Done?) then
      Reports(env, t.task.addr, Dispatch(env, t.task.data).push)
    else []
  }

  /** The program points a task can reach, with the right locals. */
  ghost predicate Typed(env: Env, t: Thread) {
    match t.task
    case Handle(addr, data) =>
      (match t.pc
       case Start => true
       case PullSet(p) => Dispatch(env, data) == PullSet(p)
       case PullAck(p, _) => Dispatch(env, data) == PullSet(p)
       case PushAck(p) => Dispatch(env, data) == PushAck(p)
       case PushStat(p) => Dispatch(env, data) == PushAck(p)
       case PushRx(p, i) => Dispatch(env, data) == PushAck(p) && i <= GoodCount(env, p.mac, p.payload.rxpk)
       case Done(_) => true
       case _ => false)
    case Send(tx) =>
      t.pc.Start? || t.pc.Done? || t.pc.SendQueue? || (t.pc.Sent? && Downlink(env, t.pc.gw, tx).Some?)
  }

  /** A PULL_ACK's thread has its own successful set in the log. */
  ghost predicate SetBefore(env: Env, log: seq<Event>, tid: nat, t: Thread) {
    match t.task
    case Handle(addr, data) =>
      (match Dispatch(env, data)
       case PullSet(p) => t.pc.PullAck? || t.pc == Done(false) ==>
         exists k, now :: 0 <= k < |log| && log[k] == SetDone(tid, p.mac, Registry.Gateway(addr, now, p.version))
       case _ => true)
    case Send(_) => true
  }

  /** A sender's gateway speaks a supported version. */
  ghost predicate Routed(t: Thread) {
    t.task.Send? && (t.pc.SendQueue? || t.pc.Sent?) ==> Supported(t.pc.gw.version)
  }

  ghost predicate ThreadOk(env: Env, log: seq<Event>, tid: nat, t: Thread) {
    && Typed(env, t)
    && SentBy(log, tid) == SentAt(env, t)
    && PublishedBy(log, tid) == PublishedAt(env, t)
    && ReportedBy(log, tid) == ReportedAt(env, t)
    && SetBefore(env, log, tid, t)
    && Routed(t)
  }

  ghost predicate ThreadsOk(env: Env, s: State) {
    && (forall tid :: tid in s.threads ==> ThreadOk(env, s.log, tid, s.threads[tid]))
    && (forall tid: nat :: tid !in s.threads ==>
          SentBy(s.log, tid) == [] && PublishedBy(s.log, tid) == [] && ReportedBy(s.log, tid) == [])
  }

  ghost predicate RegistryOk(s: State) {
    && (forall mac: Mac :: LastSet(s.log, mac) == if mac in s.registry then Some(s.registry[mac]) else None)
    && (forall mac :: mac in s.registry ==> Supported(s.registry[mac].version))
  }

  /** What `sendPackets` checks before it writes a datagram to the socket; and a PULL_ACK comes after its set. */
  ghost predicate QueueOk(env: Env, s: State) {
    forall j :: 0 <= j < |s.log| && s.log[j].Queued? ==>
      GetPacketType(s.log[j].data).Ok? && s.log[j].tid in s.threads
      && SetBefore(env, s.log[..j], s.log[j].tid, Thread(s.threads[s.log[j].tid].task, Done(false)))
  }

  ghost predicate Inv(env: Env, s: State) {
    ThreadsOk(env, s) && RegistryOk(s) && QueueOk(env, s)
  }

  // ----- one step -----

  /** Events of other threads change nothing a thread relies on. */
  lemma GrowKeeps(env: Env, log: seq<Event>, e: Event, tid: nat, t: Thread)
    requires ThreadOk(env, log, tid, t) && (e.Queued? || e.RxSent? || e.StatSent? ==> e.tid != tid)
    ensures ThreadOk(env, log + [e], tid, t)
  {
    hide SentAt, PublishedAt, ReportedAt, Typed;
    Snoc(log, e, tid, Registry.SOME_MAC);
    SetBeforeGrows(env, log, e, tid, t);
  }

  /** One thread moved, at most one event of its own happened, and its new point is right: all is right. */
  lemma MoveKeeps(env: Env, s: State, s': State, tid: nat, pc: Pc, events: seq<Event>)
    requires ThreadsOk(env, s) && tid in s.threads && |events| <= 1
    requires s'.log == s.log + events && s'.threads == s.threads[tid := s.threads[tid].(pc := pc)]
    requires forall e :: e in events ==> (e.Queued? || e.RxSent? || e.StatSent? ==> e.tid == tid)
    requires ThreadOk(env, s'.log, tid, s'.threads[tid])
    ensures ThreadsOk(env, s')
  {
    hide ThreadOk;
    if events == [] {
      assert s'.log == s.log;
    } else {
      var e := events[0];
      assert events == [e] && e in events;
      forall t | t in s.threads && t != tid ensures ThreadOk(env, s'.log, t, s.threads[t]) {
        GrowKeeps(env, s.log, e, t, s.threads[t]);
      }
      forall t: nat | t !in s.threads
        ensures SentBy(s'.log, t) == [] && PublishedBy(s'.log, t) == [] && ReportedBy(s'.log, t) == []
      {
        Snoc(s.log, e, t, Registry.SOME_MAC);
      }
    }
  }

  lemma SetBeforeGrows(env: Env, log: seq<Event>, e: Event, tid: nat, t: Thread)
    requires SetBefore(env, log, tid, t)
    ensures SetBefore(env, log + [e], tid, t)
  {
    if t.task.Handle? && Dispatch(env, t.task.data).PullSet? && (t.pc.PullAck? || t.pc == Done(false)) {
      var p := Dispatch(env, t.task.data).pull;
      var k, now :| 0 <= k < |log| && log[k] == SetDone(tid, p.mac, Registry.Gateway(t.task.addr, now, p.version));
      assert (log + [e])[k] == log[k];
    }
  }

  lemma DispatchShape(env: Env, data: Bytes)
    ensures Dispatch(env, data).PullSet? || Dispatch(env, data).PushAck? || Dispatch(env, data).Done?
  {
  }

  /** A datagram goes to the one handler whose packet it decodes as; what no handler decodes is an error. */
  lemma DispatchIs(env: Env, data: Bytes)
    ensures var push, pull := DecodePushData(env.push, env.push.zero, data), DecodePullData(data);
      && (push.Ok? ==> pull.Err? && Dispatch(env, data) == PushAck(push.value))
      && (pull.Ok? ==> Dispatch(env, data) == PullSet(pull.value))
      && (push.Err? && pull.Err? ==> Dispatch(env, data) == Done(DecodeTxAck(env.txAck, None, data).Err?))
  {
  }

  lemma StartOk(env: Env, log: seq<Event>, tid: nat, t: Thread)
    requires ThreadOk(env, log, tid, t) && t.task.Handle? && t.pc.Start?
    ensures ThreadOk(env, log, tid, t.(pc := Dispatch(env, t.task.data)))
  {
    hide Dispatch, Converted, Published, GoodCount;
    DispatchShape(env, t.task.data);
  }

  lemma PullSetOk(env: Env, log: seq<Event>, tid: nat, t: Thread, now: int)
    requires ThreadOk(env, log, tid, t) && t.task.Handle? && t.pc.PullSet?
    ensures ThreadOk(env, log, tid, t.(pc := Done(true)))
    ensures var e := SetDone(tid, t.pc.pull.mac, Registry.Gateway(t.task.addr, now, t.pc.pull.version));
      ThreadOk(env, log + [e], tid, t.(pc := PullAck(t.pc.pull, now)))
  {
    hide Dispatch, Converted, Published, GoodCount;
    var e := SetDone(tid, t.pc.pull.mac, Registry.Gateway(t.task.addr, now, t.pc.pull.version));
    Snoc(log, e, tid, t.pc.pull.mac);
    assert (log + [e])[|log|] == e;
  }

  lemma PullAckOk(env: Env, log: seq<Event>, tid: nat, t: Thread)
    requires ThreadOk(env, log, tid, t) && t.task.Handle? && t.pc.PullAck?
    ensures ThreadOk(env, log + [Queued(tid, t.task.addr, PullReply(t.pc.pull))], tid, t.(pc := Done(false)))
  {
    hide Dispatch, Converted, Published, GoodCount, PullReply;
    var e := Queued(tid, t.task.addr, PullReply(t.pc.pull));
    Snoc(log, e, tid, t.pc.pull.mac);
    SetBeforeGrows(env, log, e, tid, t);
  }

  lemma PushAckOk(env: Env, log: seq<Event>, tid: nat, t: Thread)
    requires ThreadOk(env, log, tid, t) && t.task.Handle? && t.pc.PushAck?
    ensures ThreadOk(env, log + [Queued(tid, t.task.addr, PushReply(t.pc.push))], tid, t.(pc := PushStat(t.pc.push)))
  {
    hide Dispatch, Converted, Published, GoodCount, PushReply;
    Snoc(log, Queued(tid, t.task.addr, PushReply(t.pc.push)), tid, t.pc.push.mac);
  }

  lemma PushStatOk(env: Env, log: seq<Event>, tid: nat, t: Thread)
    requires ThreadOk(env, log, tid, t) && t.task.Handle? && t.pc.PushStat?
    ensures ThreadOk(env, log + StatEvents(env, tid, t.task.addr, t.pc.push), tid, t.(pc := PushRx(t.pc.push, 0)))
  {
    hide Dispatch, Published, GoodCount, PushReply, SentBy, PublishedBy, ReportedBy;
    var es := StatEvents(env, tid, t.task.addr, t.pc.push);
    if es == [] {
      assert log + es == log;
    } else {
      assert es == [es[0]];
      Snoc(log, es[0], tid, t.pc.push.mac);
    }
  }

  lemma PushRxOk(env: Env, log: seq<Event>, tid: nat, t: Thread)
    requires ThreadOk(env, log, tid, t) && t.task.Handle? && t.pc.PushRx?
    ensures var p, i := t.pc.push, t.pc.i;
      if i >= |p.payload.rxpk| then ThreadOk(env, log, tid, t.(pc := Done(false)))
      else if !Good(env, p.mac, p.payload.rxpk[i]) then ThreadOk(env, log, tid, t.(pc := Done(true)))
      else
        var e := RxSent(tid, NewRxPacket(env, p.mac, p.payload.rxpk[i]).value);
        ThreadOk(env, log + [e], tid, t.(pc := PushRx(p, i + 1)))
  {
    hide ThreadOk, Dispatch, GoodCount, NewRxPacket;
    var p, i := t.pc.push, t.pc.i;
    if i >= |p.payload.rxpk| || !Good(env, p.mac, p.payload.rxpk[i]) {
      RxEnds(env, log, tid, t);
    } else {
      RxGoesOn(env, log, tid, t);
    }
  }

  lemma RxEnds(env: Env, log: seq<Event>, tid: nat, t: Thread)
    requires ThreadOk(env, log, tid, t) && t.task.Handle? && t.pc.PushRx?
    requires t.pc.i >= |t.pc.push.payload.rxpk| || !Good(env, t.pc.push.mac, t.pc.push.payload.rxpk[t.pc.i])
    ensures forall failed :: ThreadOk(env, log, tid, t.(pc := Done(failed)))
  {
    hide Dispatch, GoodCount, PushReply, NewRxPacket, Good, SentBy, PublishedBy, ReportedBy;
    GoodCountIsLongest(env, t.pc.push.mac, t.pc.push.payload.rxpk);
  }

  lemma RxGoesOn(env: Env, log: seq<Event>, tid: nat, t: Thread)
    requires ThreadOk(env, log, tid, t) && t.task.Handle? && t.pc.PushRx?
    requires t.pc.i < |t.pc.push.payload.rxpk| && Good(env, t.pc.push.mac, t.pc.push.payload.rxpk[t.pc.i])
    ensures var p, i := t.pc.push, t.pc.i;
      var e := RxSent(tid, NewRxPacket(env, p.mac, p.payload.rxpk[i]).value);
      ThreadOk(env, log + [e], tid, t.(pc := PushRx(p, i + 1)))
  {
    hide Dispatch, GoodCount, PushReply, NewRxPacket, SentBy, PublishedBy, ReportedBy;
    var p, i := t.pc.push, t.pc.i;
    GoodCountIsLongest(env, p.mac, p.payload.rxpk);
    Snoc(log, RxSent(tid, NewRxPacket(env, p.mac, p.payload.rxpk[i]).value), tid, p.mac);
  }

  lemma HandlerThread(env: Env, s: State, tid: nat, now: int, ok: bool)
    requires ThreadsOk(env, s) && tid in s.threads && s.threads[tid].task.Handle?
    ensures ThreadsOk(env, Next(env, s, Advance(tid, now, ok)))
  {
    hide ThreadOk, Dispatch, GoodCount, NewRxPacket, PullReply, PushReply, SentBy, PublishedBy, ReportedBy;
    var t := s.threads[tid];
    var s' := Next(env, s, Advance(tid, now, ok));
    assert s.log + [] == s.log;
    var pc := s'.threads[tid].pc;
    match t.pc
    case Start =>
      StartOk(env, s.log, tid, t);
      MoveKeeps(env, s, s', tid, pc, []);
    case PullSet(p) =>
      PullSetOk(env, s.log, tid, t, now);
      MoveKeeps(env, s, s', tid, pc, if p.mac !in s.registry && !ok then [] else
        [SetDone(tid, p.mac, Registry.Gateway(t.task.addr, now, p.version))]);
    case PullAck(p, _) =>
      PullAckOk(env, s.log, tid, t);
      MoveKeeps(env, s, s', tid, pc, [Queued(tid, t.task.addr, PullReply(p))]);
    case PushAck(p) =>
      PushAckOk(env, s.log, tid, t);
      MoveKeeps(env, s, s', tid, pc, [Queued(tid, t.task.addr, PushReply(p))]);
    case PushStat(p) =>
      PushStatOk(env, s.log, tid, t);
      MoveKeeps(env, s, s', tid, pc, StatEvents(env, tid, t.task.addr, p));
    case PushRx(p, i) =>
      PushRxOk(env, s.log, tid, t);
      MoveKeeps(env, s, s', tid, pc, if i >= |p.payload.rxpk| || !Good(env, p.mac, p.payload.rxpk[i]) then [] else
        [RxSent(tid, NewRxPacket(env, p.mac, p.payload.rxpk[i]).value)]);
    case _ =>
      SameState(env, s, s');
  }

  lemma SameState(env: Env, s: State, s': State)
    requires s' == s && ThreadsOk(env, s)
    ensures ThreadsOk(env, s')
  {
  }

  lemma LookupOk(env: Env, s: State, tid: nat, t: Thread)
    requires ThreadOk(env, s.log, tid, t) && RegistryOk(s) && t.task.Send? && t.pc.Start?
    ensures ThreadOk(env, s.log, tid, t.(pc := Done(true)))
    ensures t.task.tx.mac in s.registry ==>
      ThreadOk(env, s.log, tid, t.(pc := SendQueue(s.registry[t.task.tx.mac])))
  {
    hide Downlink, SentBy, PublishedBy, ReportedBy;
  }

  lemma SendQueueOk(env: Env, log: seq<Event>, tid: nat, t: Thread)
    requires ThreadOk(env, log, tid, t) && t.task.Send? && t.pc.SendQueue?
    ensures var g, data := t.pc.gw, Downlink(env, t.pc.gw, t.task.tx);
      if data.None? then ThreadOk(env, log, tid, t.(pc := Done(true)))
      else ThreadOk(env, log + [Queued(tid, g.addr, data.value)], tid, t.(pc := Sent(g)))
  {
    hide Downlink;
    var g, data := t.pc.gw, Downlink(env, t.pc.gw, t.task.tx);
    if data.Some? {
      var e := Queued(tid, g.addr, data.value);
      Snoc(log, e, tid, t.task.tx.mac);
    }
  }

  lemma SenderThread(env: Env, s: State, tid: nat, now: int, ok: bool)
    requires ThreadsOk(env, s) && RegistryOk(s) && tid in s.threads && s.threads[tid].task.Send?
    ensures ThreadsOk(env, Next(env, s, Advance(tid, now, ok)))
  {
    hide ThreadOk, RegistryOk, Downlink, SentBy, PublishedBy, ReportedBy;
    var t := s.threads[tid];
    var s' := Next(env, s, Advance(tid, now, ok));
    assert s.log + [] == s.log;
    var pc := s'.threads[tid].pc;
    match t.pc
    case Start =>
      LookupOk(env, s, tid, t);
      MoveKeeps(env, s, s', tid, pc, []);
    case SendQueue(g) =>
      SendQueueOk(env, s.log, tid, t);
      var data := Downlink(env, g, t.task.tx);
      MoveKeeps(env, s, s', tid, pc, if data.None? then [] else [Queued(tid, g.addr, data.value)]);
    case _ =>
      SameState(env, s, s');
  }

  lemma SpawnKeeps(env: Env, s: State, tid: nat, task: Task)
    requires ThreadsOk(env, s) && QueueOk(env, s)
    ensures ThreadsOk(env, Next(env, s, Spawn(tid, task))) && QueueOk(env, Next(env, s, Spawn(tid, task)))
  {
    hide SentBy, PublishedBy, ReportedBy, Dispatch, Downlink;
    if tid !in s.threads {
      FreshOk(env, s.log, tid, task);
    }
  }

  lemma FreshOk(env: Env, log: seq<Event>, tid: nat, task: Task)
    requires SentBy(log, tid) == [] && PublishedBy(log, tid) == [] && ReportedBy(log, tid) == []
    ensures ThreadOk(env, log, tid, Thread(task, Start))
  {
    hide SentBy, PublishedBy, ReportedBy, Downlink, Dispatch;
    match task {
      case Handle(_, data) => DispatchShape(env, data);
      case Send(_) =>
    }
  }

  lemma CleanKeeps(env: Env, s: State, mac: Mac)
    requires ThreadsOk(env, s)
    ensures ThreadsOk(env, Next(env, s, Clean(mac)))
  {
    hide ThreadOk;
    if mac in s.registry {
      var e := Deleted(mac);
      forall t | t in s.threads ensures ThreadOk(env, s.log + [e], t, s.threads[t]) {
        GrowKeeps(env, s.log, e, t, s.threads[t]);
      }
      forall t: nat | t !in s.threads
        ensures SentBy(s.log + [e], t) == [] && PublishedBy(s.log + [e], t) == [] && ReportedBy(s.log + [e], t) == []
      {
        Snoc(s.log, e, t, mac);
      }
    }
  }

  /** One event at most, and the registry follows it. */
  ghost predicate Follows(s: State, s': State) {
    || (s'.log == s.log && s'.registry == s.registry)
    || (|s'.log| == |s.log| + 1 && s'.log[..|s.log|] == s.log &&
        match s'.log[|s.log|]
        case SetDone(_, mac, g) => s'.registry == s.registry[mac := g] && Supported(g.version)
        case Deleted(mac) => s'.registry == s.registry - {mac}
        case _ => s'.registry == s.registry)
  }

  lemma NextFollows(env: Env, s: State, c: Choice)
    requires ThreadsOk(env, s)
    ensures Follows(s, Next(env, s, c))
  {
    hide SentBy, PublishedBy, ReportedBy, SentAt, PublishedAt, ReportedAt;
    hide Downlink, NewRxPacket, Dispatch, PullReply, PushReply;
    if c.Advance? && c.tid in s.threads && s.threads[c.tid].task.Handle? {
      assert ThreadOk(env, s.log, c.tid, s.threads[c.tid]);
      PullVersion(env, s.threads[c.tid].task.data);
    }
  }

  /** Only a decoded PULL_DATA writes the registry, so its versions are supported ones. */
  lemma RegistryKeeps(s: State, s': State)
    requires RegistryOk(s) && Follows(s, s')
    ensures RegistryOk(s')
  {
    forall mac: Mac ensures LastSet(s'.log, mac) == if mac in s'.registry then Some(s'.registry[mac]) else None {
      assert LastSet(s.log, mac) == if mac in s.registry then Some(s.registry[mac]) else None;
    }
  }

  lemma PullVersion(env: Env, data: Bytes)
    ensures Dispatch(env, data).PullSet? ==> Supported(Dispatch(env, data).pull.version)
    ensures Dispatch(env, data).PushAck? ==> Supported(Dispatch(env, data).push.version)
  {
  }

  lemma PullReplyForm(p: PullData)
    requires Supported(p.version)
    ensures GetPacketType(PullReply(p)) == Ok(PULL_ACK)
  {
  }

  lemma PushReplyForm(p: PushData<PushPayload>)
    requires Supported(p.version)
    ensures GetPacketType(PushReply(p)) == Ok(PUSH_ACK)
  {
  }

  lemma DownlinkForm(env: Env, g: Registry.Gateway, tx: TxPacket)
    requires Supported(g.version)
    ensures Downlink(env, g, tx).Some? ==> GetPacketType(Downlink(env, g, tx).value) == Ok(PULL_RESP)
  {
    hide NewTXPK;
  }

  /** The log grew by at most one event, no task changed, and a new datagram is in order. */
  lemma QueueGrows(env: Env, s: State, s': State, events: seq<Event>)
    requires QueueOk(env, s) && s'.log == s.log + events && |events| <= 1
    requires forall t :: t in s.threads ==> t in s'.threads && s'.threads[t].task == s.threads[t].task
    requires forall e :: e in events && e.Queued? ==>
      GetPacketType(e.data).Ok? && e.tid in s'.threads
      && SetBefore(env, s.log, e.tid, Thread(s'.threads[e.tid].task, Done(false)))
    ensures QueueOk(env, s')
  {
    hide SetBefore, GetPacketType;
    forall j | 0 <= j < |s'.log| && s'.log[j].Queued?
      ensures GetPacketType(s'.log[j].data).Ok? && s'.log[j].tid in s'.threads
        && SetBefore(env, s'.log[..j], s'.log[j].tid, Thread(s'.threads[s'.log[j].tid].task, Done(false)))
    {
      if j < |s.log| {
        assert s'.log[..j] == s.log[..j] && s'.log[j] == s.log[j];
      } else {
        assert s'.log[..j] == s.log && s'.log[j] == events[0] && events[0] in events;
      }
    }
  }

  lemma MovedTasks(env: Env, s: State, tid: nat, now: int, ok: bool)
    requires tid in s.threads
    ensures var s' := Next(env, s, Advance(tid, now, ok));
      exists pc :: s'.threads == s.threads[tid := s.threads[tid].(pc := pc)]
  {
    hide Downlink, NewRxPacket, Dispatch, PullReply, PushReply;
    var s' := Next(env, s, Advance(tid, now, ok));
    assert s.threads == s.threads[tid := s.threads[tid].(pc := s.threads[tid].pc)];
    assert s'.threads == s.threads[tid := s.threads[tid].(pc := s'.threads[tid].pc)];
  }

  lemma TasksStay(env: Env, s: State, c: Choice)
    ensures forall t :: t in s.threads ==>
      t in Next(env, s, c).threads && Next(env, s, c).threads[t].task == s.threads[t].task
  {
    hide AdvanceHandler, AdvanceSender;
    if c.Advance? && c.tid in s.threads {
      MovedTasks(env, s, c.tid, c.now, c.ok);
    }
  }

  lemma QueueKeeps(env: Env, s: State, c: Choice)
    requires c.Advance? || c.Clean?
    requires ThreadsOk(env, s) && QueueOk(env, s)
    ensures QueueOk(env, Next(env, s, c))
  {
    hide ThreadsOk, QueueOk, GetPacketType, SetBefore, AdvanceHandler, AdvanceSender;
    var s' := Next(env, s, c);
    TasksStay(env, s, c);
    if c.Clean? {
      QueueGrows(env, s, s', if c.mac in s.registry then [Deleted(c.mac)] else []);
    } else if c.tid in s.threads {
      var events := Caused(env, s, c.tid, c.now, c.ok);
      QueueGrows(env, s, s', events);
    }
  }

  /** The event one step of a thread adds; a datagram among them is in order. */
  lemma Caused(env: Env, s: State, tid: nat, now: int, ok: bool) returns (events: seq<Event>)
    requires ThreadsOk(env, s) && tid in s.threads
    ensures |events| <= 1 && Next(env, s, Advance(tid, now, ok)).log == s.log + events
    ensures forall e :: e in events && e.Queued? ==>
      e.tid == tid && GetPacketType(e.data).Ok?
      && SetBefore(env, s.log, tid, Thread(s.threads[tid].task, Done(false)))
  {
    hide SentBy, PublishedBy, ReportedBy, SentAt, PublishedAt, ReportedAt;
    hide NewRxPacket, Dispatch, PullReply, PushReply, Downlink, GetPacketType;
    var t := s.threads[tid];
    var s' := Next(env, s, Advance(tid, now, ok));
    assert ThreadOk(env, s.log, tid, t);
    events := if s'.log == s.log then [] else [s'.log[|s.log|]];
    match t.task
    case Handle(addr, data) =>
      PullVersion(env, data);
      match t.pc {
        case PullAck(p, _) => PullReplyForm(p);
        case PushAck(q) => PushReplyForm(q);
        case _ =>
      }
    case Send(tx) =>
      if t.pc.SendQueue? {
        DownlinkForm(env, t.pc.gw, tx);
      }
  }

  lemma NextKeeps(env: Env, s: State, c: Choice)
    requires Inv(env, s)
    ensures Inv(env, Next(env, s, c))
  {
    hide ThreadsOk, RegistryOk, QueueOk, Next, Follows;
    NextFollows(env, s, c);
    RegistryKeeps(s, Next(env, s, c));
    match c
    case Spawn(tid, task) => SpawnKeeps(env, s, tid, task);
    case Clean(mac) =>
      CleanKeeps(env, s, mac);
      QueueKeeps(env, s, c);
    case Advance(tid, now, ok) =>
      QueueKeeps(env, s, c);
      AdvanceKeeps(env, s, tid, now, ok);
  }

  lemma AdvanceKeeps(env: Env, s: State, tid: nat, now: int, ok: bool)
    requires ThreadsOk(env, s) && RegistryOk(s)
    ensures ThreadsOk(env, Next(env, s, Advance(tid, now, ok)))
  {
    if tid in s.threads {
      if s.threads[tid].task.Handle? {
        HandlerThread(env, s, tid, now, ok);
      } else {
        SenderThread(env, s, tid, now, ok);
      }
    }
  }

  /** Every reachable state, under every schedule. */
  lemma {:induction false} Reachable(env: Env, cs: seq<Choice>)
    ensures Inv(env, Run(env, cs))
  {
    hide Next;
    if cs != [] {
      Reachable(env, cs[..|cs|-1]);
      NextKeeps(env, Run(env, cs[..|cs|-1]), cs[|cs|-1]);
    }
  }

  // ----- the theorems -----

  ghost predicate Handles(s: State, tid: nat, addr: nat, data: Bytes) {
    tid in s.threads && s.threads[tid].task == Handle(addr, data)
  }

  /**
   * A decodable PUSH_DATA is acknowledged at most once at any time and exactly once in the end, to its source,
   * with its own first three bytes; it publishes its status report, if it has one, once, before any entry; and
   * what it publishes of its entries is always an initial part of, and in the end all of, the conversions of its
   * longest good prefix.
   */
  lemma PushAccounting(env: Env, cs: seq<Choice>, tid: nat, addr: nat, data: Bytes, p: PushData<PushPayload>)
    requires Handles(Run(env, cs), tid, addr, data) && DecodePushData(env.push, env.push.zero, data) == Ok(p)
    ensures var s := Run(env, cs);
      var reply := Datagram(addr, data[..3] + [1]);
      && (SentBy(s.log, tid) == [] || SentBy(s.log, tid) == [reply])
      && PublishedBy(s.log, tid) <= Published(env, p)
      && (PublishedBy(s.log, tid) != [] ==> SentBy(s.log, tid) == [reply])
      && (p.payload.stat == None ==> ReportedBy(s.log, tid) == [])
      && (p.payload.stat.Some? ==>
            var report := StatReport(p.mac, p.payload.stat.value, [env.ip(addr)]);
            && (ReportedBy(s.log, tid) == [] || ReportedBy(s.log, tid) == [report])
            && (s.threads[tid].pc.Done? || PublishedBy(s.log, tid) != [] ==> ReportedBy(s.log, tid) == [report]))
      && (s.threads[tid].pc.Done? ==> SentBy(s.log, tid) == [reply] && PublishedBy(s.log, tid) == Published(env, p))
  {
    AcksEcho(env.push, env.push.zero, data);
    hide Next, NewRxPacket, SentBy, PublishedBy, ReportedBy, Run;
    Reachable(env, cs);
    var s := Run(env, cs);
    assert ThreadOk(env, s.log, tid, s.threads[tid]);
    GoodCountIsLongest(env, p.mac, p.payload.rxpk);
    if s.threads[tid].pc.PushRx? {
      ConvertedPrefix(env, p.mac, p.payload.rxpk, s.threads[tid].pc.i, GoodCount(env, p.mac, p.payload.rxpk));
    }
  }

  lemma {:induction false} ConvertedPrefix(env: Env, mac: Mac, rs: seq<RXPK>, m: nat, n: nat)
    requires m <= n <= |rs| && forall j :: 0 <= j < n ==> Good(env, mac, rs[j])
    ensures Converted(env, mac, rs, m) <= Converted(env, mac, rs, n)
    decreases n
  {
    hide NewRxPacket;
    if m < n {
      ConvertedPrefix(env, mac, rs, m, n - 1);
    }
  }

  /** A PULL_DATA gets its PULL_ACK exactly when its handler ends without error, and never before its own set. */
  lemma PullAccounting(env: Env, cs: seq<Choice>, tid: nat, addr: nat, data: Bytes, p: PullData)
    requires Handles(Run(env, cs), tid, addr, data) && DecodePullData(data) == Ok(p)
    ensures var s := Run(env, cs);
      && PublishedBy(s.log, tid) == [] && ReportedBy(s.log, tid) == []
      && SentBy(s.log, tid) == (if s.threads[tid].pc == Done(false) then [Datagram(addr, data[..3] + [4])] else [])
      && forall j :: 0 <= j < |s.log| && s.log[j].Queued? && s.log[j].tid == tid ==>
        exists k, now :: 0 <= k < j && s.log[k] == SetDone(tid, p.mac, Registry.Gateway(addr, now, p.version))
  {
    AcksEcho(env.push, env.push.zero, data);
    hide Next, NewRxPacket, SentBy, PublishedBy, ReportedBy, Run;
    Reachable(env, cs);
    var s := Run(env, cs);
    assert ThreadOk(env, s.log, tid, s.threads[tid]);
    forall j | 0 <= j < |s.log| && s.log[j].Queued? && s.log[j].tid == tid
      ensures exists k, now :: 0 <= k < j && s.log[k] == SetDone(tid, p.mac, Registry.Gateway(addr, now, p.version))
    {
      var k, now :| 0 <= k < |s.log[..j]|
        && s.log[..j][k] == SetDone(tid, p.mac, Registry.Gateway(addr, now, p.version));
      assert s.log[k] == s.log[..j][k];
    }
  }

  /** Any other datagram queues and publishes nothing. */
  lemma OtherwiseNothing(env: Env, cs: seq<Choice>, tid: nat, addr: nat, data: Bytes)
    requires Handles(Run(env, cs), tid, addr, data)
    requires DecodePushData(env.push, env.push.zero, data).Err? && DecodePullData(data).Err?
    ensures SentBy(Run(env, cs).log, tid) == []
    ensures PublishedBy(Run(env, cs).log, tid) == [] && ReportedBy(Run(env, cs).log, tid) == []
  {
    hide Next, NewRxPacket, SentBy, PublishedBy, ReportedBy, Run;
    Reachable(env, cs);
    var s := Run(env, cs);
    assert ThreadOk(env, s.log, tid, s.threads[tid]);
  }

  /** Whatever reaches the send channel has at least four bytes and a supported version: nothing is dropped there. */
  lemma NothingDropped(env: Env, cs: seq<Choice>, j: nat)
    requires j < |Run(env, cs).log| && Run(env, cs).log[j].Queued?
    ensures var data := Run(env, cs).log[j].data;
      |data| >= 4 && (data[0] == 1 || data[0] == 2) && GetPacketType(data).Ok?
  {
    hide Next, Run, SetBefore;
    Reachable(env, cs);
  }

  /** `body` is the JSON of a TXPK that says what `tx` says. */
  ghost predicate Carries(env: Env, tx: TxPacket, body: Bytes) {
    exists k :: Describes(env, tx, k) && env.resp.encode(k) == Some(body)
  }

  /** A downlink starts with the gateway's own version and a zero token. */
  lemma DownlinkBytes(env: Env, g: Registry.Gateway, tx: TxPacket)
    ensures var data := Downlink(env, g, tx);
      data.Some? ==> |data.value| >= 4 && data.value[..4] == [g.version, 0, 0, 3] && Carries(env, tx, data.value[4..])
  {
    hide Describes, NewTXPK;
    NewTXPKDescribes(env, tx);
    PullRespBytes(env.resp, PullResp(g.version, 0, NewTXPK(env, tx)));
  }

  /** Choice `n` is the one with which sender `tid` looks up the gateway of `tx`, and finds `g`. */
  ghost predicate LooksUp(env: Env, cs: seq<Choice>, n: nat, tid: nat, tx: TxPacket, g: Registry.Gateway) {
    && n < |cs| && cs[n].Advance? && cs[n].tid == tid
    && var s := Run(env, cs[..n]);
      && tid in s.threads && s.threads[tid] == Thread(Send(tx), Start)
      && tx.mac in s.registry && s.registry[tx.mac] == g && LastSet(s.log, tx.mac) == Some(g)
  }

  /** A sender comes by its gateway at the lookup and keeps it from there. */
  lemma SenderStep(env: Env, s: State, c: Choice, tid: nat, tx: TxPacket)
    requires tid in s.threads && s.threads[tid].task == Send(tx)
    ensures var t, pc := s.threads[tid], Next(env, s, c).threads[tid].pc;
      pc.SendQueue? || pc.Sent? ==>
        || ((t.pc.SendQueue? || t.pc.Sent?) && t.pc.gw == pc.gw)
        || (t.pc.Start? && c.Advance? && c.tid == tid && tx.mac in s.registry && s.registry[tx.mac] == pc.gw)
  {
    hide Downlink, NewRxPacket, Dispatch, PullReply, PushReply;
  }

  lemma {:induction false} Looked(env: Env, cs: seq<Choice>, tid: nat, tx: TxPacket)
    requires tid in Run(env, cs).threads && Run(env, cs).threads[tid].task == Send(tx)
    ensures var pc := Run(env, cs).threads[tid].pc;
      pc.SendQueue? || pc.Sent? ==> exists n: nat :: LooksUp(env, cs, n, tid, tx, pc.gw)
  {
    hide Next, ThreadsOk, QueueOk, LastSet;
    assert cs != [];
    var k := |cs| - 1;
    var front, pc := cs[..k], Run(env, cs).threads[tid].pc;
    var s := Run(env, front);
    if tid in s.threads && (pc.SendQueue? || pc.Sent?) {
      TasksStay(env, s, cs[k]);
      SenderStep(env, s, cs[k], tid, tx);
      if s.threads[tid].pc.Start? {
        Reachable(env, front);
        assert LooksUp(env, cs, k, tid, tx, pc.gw);
      } else {
        Looked(env, front, tid, tx);
        var n: nat :| LooksUp(env, front, n, tid, tx, pc.gw);
        assert cs[..n] == front[..n];
        assert LooksUp(env, cs, n, tid, tx, pc.gw);
      }
    } else if tid !in s.threads {
      SpawnedAtStart(env, s, cs[k], tid);
    }
  }

  lemma SpawnedAtStart(env: Env, s: State, c: Choice, tid: nat)
    requires tid !in s.threads && tid in Next(env, s, c).threads
    ensures Next(env, s, c).threads[tid].pc.Start?
  {
    hide Downlink, NewRxPacket, Dispatch, PullReply, PushReply;
  }

  /**
   * A sender queues nothing, or one PULL_RESP, to the address and with the version of the gateway that was
   * registered for its MAC, by the last successful set, at the very step at which it looked; what happens to
   * the registry afterwards does not matter.
   */
  lemma DownlinkRouting(env: Env, cs: seq<Choice>, tid: nat, tx: TxPacket)
    requires tid in Run(env, cs).threads && Run(env, cs).threads[tid].task == Send(tx)
    ensures SentBy(Run(env, cs).log, tid) == [] ||
      exists n: nat, g :: n < |cs| && cs[n].Advance? && cs[n].tid == tid
        && (var s := Run(env, cs[..n]);
            && tid in s.threads && s.threads[tid] == Thread(Send(tx), Start)
            && tx.mac in s.registry && s.registry[tx.mac] == g && LastSet(s.log, tx.mac) == Some(g))
        && Downlink(env, g, tx).Some?
        && (var data := Downlink(env, g, tx).value;
            && SentBy(Run(env, cs).log, tid) == [Datagram(g.addr, data)]
            && |data| >= 4 && data[..4] == [g.version, 0, 0, 3] && Carries(env, tx, data[4..]))
  {
    hide Next, SentBy, PublishedBy, ReportedBy, Run, LastSet, Downlink;
    Reachable(env, cs);
    var t := Run(env, cs).threads[tid];
    assert ThreadOk(env, Run(env, cs).log, tid, t);
    if t.pc.Sent? {
      Looked(env, cs, tid, tx);
      var n: nat :| LooksUp(env, cs, n, tid, tx, t.pc.gw);
      DownlinkBytes(env, t.pc.gw, tx);
    }
  }
}
