/**
 * The TTN back-end under any schedule: publishers and the registry's callbacks find or create the gateway
 * object of a MAC, and the callbacks open and close its downlink stream. Each step is one critical section.
 */
module TtnBackend {
  import opened Codec
  import Registry

  datatype Stream = Stream(mac: Mac, open: bool)

  /** Before getGtw, before newGtw, holding the gateway object, or about to return. */
  datatype Point = Lookup | Create | Use(id: nat) | Return

  /** A goroutine of PublishGatewayRX or PublishGatewayStats. */
  datatype Thread = Thread(mac: Mac, at: Point)

  /**
   * What the UDP registry does under its lock: nothing, a set that has called SubscribeGatewayTX, a cleanup
   * with these turns behind it, or one that has called UnSubscribeGatewayTX in the turn at clock reading `now`.
   */
  datatype Job =
    | Idle
    | Cleaning(visits: seq<Registry.Visit>)
    | Subscribing(mac: Mac, at: Point, gateway: Registry.Gateway)
    | Unsubscribing(mac: Mac, at: Point, visits: seq<Registry.Visit>, now: int)

  /**
   * `gateways` is the back-end's map, to indexes of `owners`, which lists every object ever created with
   * its MAC; `downlink` holds the field of that name of the objects where it is set. `registry` is the UDP
   * registry, and `ops` the operations on it that have ended.
   */
  datatype State = State(registry: Registry.State, ops: seq<Registry.Op>, job: Job, gateways: map<Mac, nat>,
                         owners: seq<Mac>, downlink: map<nat, nat>, streams: seq<Stream>, threads: map<nat, Thread>)

  datatype Choice =
    | Spawn(tid: nat, mac: Mac)
    | Advance(tid: nat)
    | Set(mac: Mac, gateway: Registry.Gateway)
    | StartCleanup
    | Visit(mac: Mac, now: int)
    | EndCleanup
    | AdvanceJob

  const INITIAL: State := State(Registry.EMPTY, [], Idle, map[], [], map[], [], map[])

  /** Both callbacks are set, and neither ever returns an error. */
  const BOTH: Registry.Config := Registry.Config(true, true)

  /** getGtw, then newGtw when it found nothing: where a caller stands after one of the two. */
  function GetGtw(s: State, mac: Mac): (at: Point) {
    if mac in s.gateways then Use(s.gateways[mac]) else Create
  }

  /** newGtw looks again under the write lock before it creates. */
  function NewGtw(s: State, mac: Mac): (r: (State, nat)) {
    if mac in s.gateways then (s, s.gateways[mac])
    else (s.(gateways := s.gateways[mac := |s.owners|], owners := s.owners + [mac]), |s.owners|)
  }

  function AdvanceThread(s: State, tid: nat): (r: State)
    requires tid in s.threads
  {
    var t := s.threads[tid];
    match t.at
    case Lookup => s.(threads := s.threads[tid := t.(at := GetGtw(s, t.mac))])
    case Create =>
      var (s', id) := NewGtw(s, t.mac);
      s'.(threads := s.threads[tid := t.(at := Use(id))])
    case _ => s
  }

  /** `set`, up to its end. */
  function EndSet(s: State, mac: Mac, g: Registry.Gateway): (r: State) {
    s.(registry := Registry.SetStep(BOTH, s.registry, mac, g, true).0, ops := s.ops + [Registry.Set(mac, g, true)],
       job := Idle)
  }

  /** One turn of `cleanup`, up to its end. */
  function EndVisit(s: State, visits: seq<Registry.Visit>, v: Registry.Visit): (r: State) {
    s.(registry := Registry.VisitStep(BOTH, s.registry, v).0, job := Cleaning(visits + [v]))
  }

  /** SubscribeGatewayTX, and the registry entry it allows. */
  function AdvanceSubscribe(s: State, mac: Mac, at: Point, g: Registry.Gateway): (r: State) {
    match at
    case Lookup => s.(job := Subscribing(mac, GetGtw(s, mac), g))
    case Create =>
      var (s', id) := NewGtw(s, mac);
      s'.(job := Subscribing(mac, Use(id), g))
    case Use(id) =>
      s.(streams := s.streams + [Stream(mac, true)], downlink := s.downlink[id := |s.streams|],
         job := Subscribing(mac, Return, g))
    case Return => EndSet(s, mac, g)
  }

  /** UnSubscribeGatewayTX, which creates nothing, and the removal it comes before. */
  function AdvanceUnsubscribe(s: State, mac: Mac, at: Point, visits: seq<Registry.Visit>, now: int): (r: State) {
    match at
    case Lookup =>
      var found := mac in s.gateways && s.gateways[mac] in s.downlink;
      s.(job := Unsubscribing(mac, if found then Use(s.gateways[mac]) else Return, visits, now))
    case Use(id) =>
      if id in s.downlink && s.downlink[id] < |s.streams| then
        var k := s.downlink[id];
        s.(streams := s.streams[k := s.streams[k].(open := false)], job := Unsubscribing(mac, Return, visits, now))
      else s
    case Return => EndVisit(s, visits, Registry.Visit(mac, now, true))
    case Create => s
  }

  /** `set`, as far as the callback if there is one to make. */
  function BeginSet(s: State, mac: Mac, g: Registry.Gateway): (r: State) {
    if mac in s.registry.gateways then EndSet(s, mac, g) else s.(job := Subscribing(mac, Lookup, g))
  }

  /** A turn of `cleanup`, as far as the callback if there is one to make. */
  function BeginVisit(s: State, visits: seq<Registry.Visit>, mac: Mac, now: int): (r: State) {
    if mac in s.registry.gateways && Registry.Stale(s.registry.gateways[mac], now) then
      s.(job := Unsubscribing(mac, Lookup, visits, now))
    else EndVisit(s, visits, Registry.Visit(mac, now, true))
  }

  /** A choice that is not possible changes nothing. */
  function Next(s: State, c: Choice): (r: State) {
    match c
    case Spawn(tid, mac) => if tid in s.threads then s else s.(threads := s.threads[tid := Thread(mac, Lookup)])
    case Advance(tid) => if tid in s.threads then AdvanceThread(s, tid) else s
    case Set(mac, g) => if s.job.Idle? then BeginSet(s, mac, g) else s
    case StartCleanup => if s.job.Idle? then s.(job := Cleaning([])) else s
    case Visit(mac, now) => if s.job.Cleaning? then BeginVisit(s, s.job.visits, mac, now) else s
    case EndCleanup =>
      if s.job.Cleaning? then s.(ops := s.ops + [Registry.Cleanup(s.job.visits)], job := Idle) else s
    case AdvanceJob =>
      match s.job
      case Subscribing(mac, at, g) => AdvanceSubscribe(s, mac, at, g)
      case Unsubscribing(mac, at, visits, now) => AdvanceUnsubscribe(s, mac, at, visits, now)
      case _ => s
  }

  function Run(s: State, cs: seq<Choice>): (r: State)
  {
    if cs == [] then s else Next(Run(s, cs[..|cs|-1]), cs[|cs|-1])
  }

  // ----- creation -----

  /** The map and the list of created objects are inverse to each other. */
  ghost predicate OneEach(s: State) {
    && (forall m :: m in s.gateways ==> s.gateways[m] < |s.owners| && s.owners[s.gateways[m]] == m)
    && (forall i :: 0 <= i < |s.owners| ==> s.owners[i] in s.gateways && s.gateways[s.owners[i]] == i)
  }

  /** A caller that holds an object holds the one in the map. */
  ghost predicate HoldsIt(s: State, mac: Mac, at: Point) {
    at.Use? ==> mac in s.gateways && s.gateways[mac] == at.id
  }

  ghost predicate Created(s: State) {
    && OneEach(s)
    && (forall t :: t in s.threads ==> HoldsIt(s, s.threads[t].mac, s.threads[t].at))
    && (InCallback(s.job) ==> HoldsIt(s, s.job.mac, s.job.at))
  }

  /** The registry waits for a callback. */
  predicate InCallback(job: Job) {
    job.Subscribing? || job.Unsubscribing?
  }

  /** No entry of `s` is missing or different in `s'`. */
  ghost predicate Extends(s: State, s': State) {
    forall m :: m in s.gateways ==> m in s'.gateways && s'.gateways[m] == s.gateways[m]
  }

  lemma NewGtwOk(s: State, mac: Mac)
    requires OneEach(s)
    ensures var (s', id) := NewGtw(s, mac);
      && OneEach(s') && Extends(s, s') && HoldsIt(s', mac, Use(id))
      && s' == s.(gateways := s'.gateways, owners := s'.owners)
      && s.owners <= s'.owners
  {
  }

  lemma HoldersStay(s: State, s': State)
    requires Extends(s, s')
    ensures forall m, at :: HoldsIt(s, m, at) ==> HoldsIt(s', m, at)
  {
  }

  lemma CreatedKeeps(s: State, c: Choice)
    requires Created(s)
    ensures Created(Next(s, c)) && Extends(s, Next(s, c))
  {
    hide OneEach, NewGtw, AdvanceThread, AdvanceSubscribe, AdvanceUnsubscribe, Registry.SetStep, Registry.VisitStep;
    var s' := Next(s, c);
    match c
    case Advance(tid) =>
      if tid in s.threads {
        ThreadStep(s, tid);
      }
    case AdvanceJob =>
      JobStep(s);
    case _ =>
      SameEach(s, s');
  }

  /** Only the map and the list of objects matter to OneEach. */
  lemma SameEach(s: State, s': State)
    ensures s'.gateways == s.gateways && s'.owners == s.owners ==> OneEach(s) == OneEach(s') && Extends(s, s')
  {
  }

  lemma JobStep(s: State)
    requires Created(s)
    ensures Created(Next(s, AdvanceJob)) && Extends(s, Next(s, AdvanceJob))
  {
    hide OneEach, NewGtw;
    if s.job.Subscribing? {
      SubscribeStep(s);
    } else {
      SameEach(s, Next(s, AdvanceJob));
    }
  }

  lemma SubscribeStep(s: State)
    requires Created(s) && s.job.Subscribing?
    ensures Created(Next(s, AdvanceJob)) && Extends(s, Next(s, AdvanceJob))
  {
    hide OneEach, NewGtw, Registry.SetStep, AdvanceUnsubscribe;
    var s' := Next(s, AdvanceJob);
    SameEach(s, s');
    var n := NewGtw(s, s.job.mac).0;
    NewGtwOk(s, s.job.mac);
    HoldersStay(s, n);
    SameEach(n, s');
  }

  lemma ThreadStep(s: State, tid: nat)
    requires Created(s) && tid in s.threads
    ensures Created(AdvanceThread(s, tid)) && Extends(s, AdvanceThread(s, tid))
  {
    hide OneEach, NewGtw;
    var t, s' := s.threads[tid], AdvanceThread(s, tid);
    NewGtwOk(s, t.mac);
    HoldersStay(s, NewGtw(s, t.mac).0);
    SameEach(s, s');
    SameEach(NewGtw(s, t.mac).0, s');
  }

  lemma {:induction false} CreatedRun(s: State, cs: seq<Choice>)
    requires Created(s)
    ensures Created(Run(s, cs)) && Extends(s, Run(s, cs))
  {
    hide Next, Created;
    if cs != [] {
      CreatedRun(s, cs[..|cs|-1]);
      CreatedKeeps(Run(s, cs[..|cs|-1]), cs[|cs|-1]);
    }
  }

  /**
   * Double-checked creation: in every reachable state no MAC has had two objects created, every caller that
   * has got past the lookup, publisher or callback, holds the one in the map, and that object is still the
   * one in the map, and the one any other caller holds, after any further steps.
   */
  lemma CreatedOnce(cs: seq<Choice>, more: seq<Choice>)
    ensures var s, s' := Run(INITIAL, cs), Run(Run(INITIAL, cs), more);
      && (forall i, j :: 0 <= i < j < |s.owners| ==> s.owners[i] != s.owners[j])
      && (forall t :: t in s.threads ==> HoldsIt(s', s.threads[t].mac, s.threads[t].at))
      && (InCallback(s.job) ==> HoldsIt(s', s.job.mac, s.job.at))
      && (forall t, u :: t in s.threads && u in s'.threads && s'.threads[u].mac == s.threads[t].mac ==>
            s.threads[t].at.Use? && s'.threads[u].at.Use? ==> s'.threads[u].at == s.threads[t].at)
      && Extends(s, s')
  {
    hide Run, OneEach;
    var s, s' := Run(INITIAL, cs), Run(Run(INITIAL, cs), more);
    InitialOk();
    CreatedRun(INITIAL, cs);
    CreatedRun(s, more);
    OwnersApart(s);
  }

  lemma OwnersApart(s: State)
    requires OneEach(s)
    ensures forall i, j :: 0 <= i < j < |s.owners| ==> s.owners[i] != s.owners[j]
  {
  }

  // ----- downlink streams -----

  /** Whether `mac` should have an open stream: registered, except between the callback's effect and the registry's. */
  ghost predicate Live(s: State, mac: Mac) {
    if s.job.Subscribing? && s.job.mac == mac then s.job.at.Return?
    else if s.job.Unsubscribing? && s.job.mac == mac then !s.job.at.Return?
    else mac in s.registry.gateways
  }

  ghost predicate JobOk(s: State) {
    && (s.job.Subscribing? ==> s.job.mac !in s.registry.gateways)
    && (s.job.Unsubscribing? ==>
          && s.job.mac in s.registry.gateways && Registry.Stale(s.registry.gateways[s.job.mac], s.job.now)
          && !s.job.at.Create? && (s.job.at.Use? ==> s.job.at.id in s.downlink))
  }

  /** The registry is what its operations make it, those that have ended and the turns of a cleanup that has not. */
  ghost predicate Joined(s: State) {
    var done := Registry.Run(BOTH, s.ops);
    if s.job.Cleaning? || s.job.Unsubscribing? then
      Registry.CleanupStep(BOTH, done, s.job.visits) == (s.registry, false)
    else s.registry == done
  }

  ghost predicate DownlinksOk(s: State) {
    && (forall id :: id in s.downlink ==>
          id < |s.owners| && s.downlink[id] < |s.streams| && s.streams[s.downlink[id]].mac == s.owners[id])
    && (forall k :: 0 <= k < |s.streams| && s.streams[k].open ==>
          var m := s.streams[k].mac;
          Live(s, m) && m in s.gateways && s.gateways[m] in s.downlink && s.downlink[s.gateways[m]] == k)
    && (forall m: Mac :: Live(s, m) ==>
          m in s.gateways && s.gateways[m] in s.downlink && s.streams[s.downlink[s.gateways[m]]].open)
  }

  ghost predicate Inv(s: State) {
    Created(s) && JobOk(s) && Joined(s) && DownlinksOk(s)
  }

  lemma InvKeeps(s: State, c: Choice)
    requires Inv(s)
    ensures Inv(Next(s, c))
  {
    hide Created, DownlinksOk, JobOk, Joined, Next;
    CreatedKeeps(s, c);
    JoinedKeeps(s, c);
    JobKeeps(s, c);
    if !OnStream(s, c) {
      OthersKeep(s, c);
    } else if s.job.Subscribing? {
      OpenKeeps(s);
    } else {
      CloseKeeps(s);
    }
  }

  /** Every step that ends an operation, or a turn, does to the registry what the registry's own step does. */
  lemma JoinedKeeps(s: State, c: Choice)
    requires Joined(s)
    ensures Joined(Next(s, c))
  {
    hide Registry.SetStep, Registry.VisitStep, Registry.Run, Registry.CleanupStep, AdvanceThread, AdvanceSubscribe;
    hide AdvanceUnsubscribe;
    SetRun(s);
    match c
    case Advance(tid) =>
      if tid in s.threads {
        ThreadFrame(s, tid);
      }
    case Visit(mac, now) =>
      if s.job.Cleaning? {
        VisitRun(s, s.job.visits, Registry.Visit(mac, now, true));
      }
    case AdvanceJob =>
      if s.job.Subscribing? {
        SubscribeJoins(s, s.job.mac, s.job.at, s.job.gateway);
      }
      if s.job.Unsubscribing? {
        UnsubscribeJoins(s, s.job.mac, s.job.at, s.job.visits, s.job.now);
      }
    case _ =>
  }

  lemma SubscribeJoins(s: State, mac: Mac, at: Point, g: Registry.Gateway)
    requires Joined(s) && s.job == Subscribing(mac, at, g)
    ensures Joined(AdvanceSubscribe(s, mac, at, g))
  {
    hide Registry.SetStep, Registry.Run, Registry.CleanupStep, NewGtw, GetGtw;
    SetRun(s);
    NewGtwFrame(s, mac);
  }

  lemma UnsubscribeJoins(s: State, mac: Mac, at: Point, visits: seq<Registry.Visit>, now: int)
    requires Joined(s) && s.job == Unsubscribing(mac, at, visits, now)
    ensures Joined(AdvanceUnsubscribe(s, mac, at, visits, now))
  {
    hide Registry.VisitStep, Registry.Run, Registry.CleanupStep;
    VisitRun(s, visits, Registry.Visit(mac, now, true));
  }

  lemma NewGtwFrame(s: State, mac: Mac)
    ensures var s' := NewGtw(s, mac).0; s' == s.(gateways := s'.gateways, owners := s'.owners)
  {
  }

  lemma ThreadFrame(s: State, tid: nat)
    requires tid in s.threads
    ensures var s' := AdvanceThread(s, tid);
      s' == s.(gateways := s'.gateways, owners := s'.owners, threads := s'.threads)
  {
  }

  /** How the operations that have ended grow. */
  lemma SetRun(s: State)
    ensures forall op :: Registry.Run(BOTH, s.ops + [op]) == Registry.Step(BOTH, Registry.Run(BOTH, s.ops), op)
    ensures forall r :: Registry.CleanupStep(BOTH, r, []) == (r, false)
  {
    forall op ensures Registry.Run(BOTH, s.ops + [op]) == Registry.Step(BOTH, Registry.Run(BOTH, s.ops), op) {
      assert (s.ops + [op])[..|s.ops|] == s.ops;
    }
  }

  lemma VisitRun(s: State, visits: seq<Registry.Visit>, v: Registry.Visit)
    requires Registry.CleanupStep(BOTH, Registry.Run(BOTH, s.ops), visits) == (s.registry, false) && v.ok
    ensures Registry.CleanupStep(BOTH, Registry.Run(BOTH, s.ops), visits + [v])
      == (Registry.VisitStep(BOTH, s.registry, v).0, false)
  {
    assert (visits + [v])[..|visits|] == visits;
  }

  lemma JobKeeps(s: State, c: Choice)
    requires JobOk(s)
    ensures JobOk(Next(s, c))
  {
  }

  /** The step opens or closes a stream. */
  predicate OnStream(s: State, c: Choice) {
    c.AdvanceJob? && InCallback(s.job) && s.job.at.Use?
  }

  lemma OthersKeep(s: State, c: Choice)
    requires Created(s) && JobOk(s) && DownlinksOk(s) && !OnStream(s, c)
    ensures DownlinksOk(Next(s, c))
  {
    hide Created, DownlinksOk, Live, JobOk, Next;
    CreatedKeeps(s, c);
    OthersFrame(s, c);
    LiveStays(s, c);
    DownlinksStay(s, Next(s, c));
  }

  lemma OthersFrame(s: State, c: Choice)
    requires !OnStream(s, c)
    ensures var s' := Next(s, c); s.owners <= s'.owners && s'.streams == s.streams && s'.downlink == s.downlink
  {
    hide GetGtw, Registry.SetStep, Registry.VisitStep;
  }

  lemma LiveStays(s: State, c: Choice)
    requires JobOk(s) && DownlinksOk(s) && !OnStream(s, c)
    ensures forall m: Mac :: Live(s, m) == Live(Next(s, c), m)
  {
    hide DownlinksOk, AdvanceThread;
    match c
    case Advance(tid) =>
      if tid in s.threads {
        ThreadFrame(s, tid);
      }
    case AdvanceJob =>
      if s.job.Subscribing? {
        NewGtwFrame(s, s.job.mac);
      } else if s.job.Unsubscribing? && s.job.at.Lookup? {
        LiveHasStream(s, s.job.mac);
      }
    case _ =>
  }

  lemma LiveHasStream(s: State, mac: Mac)
    requires DownlinksOk(s) && Live(s, mac)
    ensures mac in s.gateways && s.gateways[mac] in s.downlink
  {
  }

  lemma DownlinksStay(s: State, s': State)
    requires DownlinksOk(s) && Extends(s, s') && s.owners <= s'.owners
    requires s'.streams == s.streams && s'.downlink == s.downlink
    requires forall m: Mac :: Live(s, m) == Live(s', m)
    ensures DownlinksOk(s')
  {
    hide Live;
  }

  lemma StreamStep(s: State)
    requires JobOk(s) && DownlinksOk(s) && OnStream(s, AdvanceJob)
    ensures Next(s, AdvanceJob) ==
      if s.job.Subscribing? then
        s.(streams := s.streams + [Stream(s.job.mac, true)], downlink := s.downlink[s.job.at.id := |s.streams|],
           job := Subscribing(s.job.mac, Return, s.job.gateway))
      else
        var k := s.downlink[s.job.at.id];
        s.(streams := s.streams[k := s.streams[k].(open := false)],
           job := Unsubscribing(s.job.mac, Return, s.job.visits, s.job.now))
  {
    hide Live;
  }

  /** The new stream takes the place of a closed one. */
  lemma OpenKeeps(s: State)
    requires Created(s) && JobOk(s) && DownlinksOk(s) && s.job.Subscribing? && s.job.at.Use?
    ensures DownlinksOk(Next(s, AdvanceJob))
  {
    hide Next;
    var s' := Next(s, AdvanceJob);
    StreamStep(s);
    assert !Live(s, s.job.mac) && Live(s', s.job.mac);
    assert forall m: Mac :: m != s.job.mac ==> Live(s, m) == Live(s', m);
  }

  lemma CloseKeeps(s: State)
    requires Created(s) && JobOk(s) && DownlinksOk(s) && s.job.Unsubscribing? && s.job.at.Use?
    ensures DownlinksOk(Next(s, AdvanceJob))
  {
    hide Next;
    var s' := Next(s, AdvanceJob);
    StreamStep(s);
    assert Live(s, s.job.mac) && !Live(s', s.job.mac);
    assert forall m: Mac :: m != s.job.mac ==> Live(s, m) == Live(s', m);
  }

  lemma {:induction false} Reachable(cs: seq<Choice>)
    ensures Inv(Run(INITIAL, cs))
  {
    hide Next, Inv;
    if cs == [] {
      InitialOk();
    } else {
      Reachable(cs[..|cs|-1]);
      InvKeeps(Run(INITIAL, cs[..|cs|-1]), cs[|cs|-1]);
    }
  }

  lemma InitialOk()
    ensures Inv(INITIAL)
  {
  }

  ghost function OpenStreams(s: State, mac: Mac): set<nat> {
    set k: nat | k < |s.streams| && s.streams[k].open && s.streams[k].mac == mac
  }

  /**
   * At every moment the UDP registry has gone through a run of its own operations, cut off at most inside a
   * cleanup; so what holds of its runs holds of it here: each gateway's callbacks alternate, from onNew on.
   */
  lemma RegistryRuns(cs: seq<Choice>)
    ensures var s := Run(INITIAL, cs);
      && Registry.LifecycleAll(s.registry)
      && (!s.job.Cleaning? && !s.job.Unsubscribing? ==> s.registry == Registry.Run(BOTH, s.ops))
      && (s.job.Cleaning? || s.job.Unsubscribing? ==>
            s.registry == Registry.Run(BOTH, s.ops + [Registry.Cleanup(s.job.visits)]))
  {
    hide Run, Created, DownlinksOk, JobOk, Registry.Run;
    Reachable(cs);
    var s := Run(INITIAL, cs);
    SetRun(s);
    Registry.RunKeeps(BOTH, s.ops);
    if s.job.Cleaning? || s.job.Unsubscribing? {
      Registry.CleanupKeeps(BOTH, Registry.Run(BOTH, s.ops), s.job.visits);
    }
  }

  /**
   * Outside the callbacks, between two turns of a cleanup too, a registered gateway has exactly one open
   * downlink stream and any other none; so the open stream is there exactly when the last callback was onNew.
   */
  lemma OneStreamEach(cs: seq<Choice>, mac: Mac)
    ensures var s := Run(INITIAL, cs);
      !InCallback(s.job) ==>
        && |OpenStreams(s, mac)| == (if mac in s.registry.gateways then 1 else 0)
        && |OpenStreams(s, mac)| == |Registry.CallsOf(s.registry.calls, mac)| % 2
  {
    hide Run, Created, JobOk, Joined;
    Reachable(cs);
    RegistryRuns(cs);
    var s := Run(INITIAL, cs);
    assert Registry.Lifecycle(s.registry, mac);
    if !InCallback(s.job) {
      if mac in s.registry.gateways {
        assert Live(s, mac);
        assert OpenStreams(s, mac) == {s.downlink[s.gateways[mac]]} by {
          OnlyDownlink(s, mac);
        }
      } else {
        assert OpenStreams(s, mac) == {};
      }
    }
  }

  lemma OnlyDownlink(s: State, mac: Mac)
    requires Created(s) && DownlinksOk(s) && Live(s, mac)
    ensures OpenStreams(s, mac) == {s.downlink[s.gateways[mac]]}
  {
  }
}
