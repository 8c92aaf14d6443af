/** The gateway registry: one entry per MAC, with a callback on the first and the last sight of it. */
module Registry {
  import opened Wrappers
  import opened Codec

  /** Nanoseconds; gateways not seen for this long are dropped. */
  const MINUTE: int := 60_000_000_000

  /** `addr` stands for the UDP address a PULL_DATA came from. */
  datatype Gateway = Gateway(addr: nat, lastSeen: int, version: Byte)

  /** A callback that returned no error. */
  datatype Call = New(mac: Mac) | Delete(mac: Mac)

  /** Which of the two callbacks are set. */
  datatype Config = Config(onNew: bool, onDelete: bool)

  datatype State = State(gateways: map<Mac, Gateway>, calls: seq<Call>)

  /** One turn of cleanup's loop: the entry, the clock reading, and whether onDelete would succeed. */
  datatype Visit = Visit(mac: Mac, now: int, ok: bool)

  datatype Op = Set(mac: Mac, gateway: Gateway, ok: bool) | Cleanup(visits: seq<Visit>)

  /** The state after `set`, and whether it returned an error. */
  function SetStep(c: Config, s: State, mac: Mac, g: Gateway, ok: bool): (r: (State, bool)) {
    if mac !in s.gateways && c.onNew then
      if ok then (State(s.gateways[mac := g], s.calls + [New(mac)]), false) else (s, true)
    else (s.(gateways := s.gateways[mac := g]), false)
  }

  predicate Stale(g: Gateway, now: int) {
    g.lastSeen < now - MINUTE
  }

  function VisitStep(c: Config, s: State, v: Visit): (r: (State, bool)) {
    if v.mac !in s.gateways || !Stale(s.gateways[v.mac], v.now) then (s, false)
    else if !c.onDelete then (s.(gateways := s.gateways - {v.mac}), false)
    else if v.ok then (State(s.gateways - {v.mac}, s.calls + [Delete(v.mac)]), false)
    else (s, true)
  }

  /** The state after `cleanup`, which stops at the first callback error. */
  function CleanupStep(c: Config, s: State, visits: seq<Visit>): (r: (State, bool))
  {
    if visits == [] then (s, false)
    else
      var (t, failed) := CleanupStep(c, s, visits[..|visits|-1]);
      if failed then (t, true) else VisitStep(c, t, visits[|visits|-1])
  }

  function Step(c: Config, s: State, op: Op): (r: State) {
    match op
    case Set(mac, g, ok) => SetStep(c, s, mac, g, ok).0
    case Cleanup(visits) => CleanupStep(c, s, visits).0
  }

  const EMPTY: State := State(map[], [])

  function Run(c: Config, ops: seq<Op>): (s: State)
  {
    if ops == [] then EMPTY else Step(c, Run(c, ops[..|ops|-1]), ops[|ops|-1])
  }

  // ----- life cycle -----

  function CallsOf(calls: seq<Call>, mac: Mac): (r: seq<Call>)
  {
    if calls == [] then []
    else
      var last := calls[|calls|-1];
      CallsOf(calls[..|calls|-1], mac) + if last.mac == mac then [last] else []
  }

  /** New, Delete, New, Delete, ... */
  ghost predicate Alternating(calls: seq<Call>) {
    forall i :: 0 <= i < |calls| ==> calls[i].New? == (i % 2 == 0)
  }

  /** The calls for `mac` alternate from New on, and `mac` is registered exactly while New leads. */
  ghost predicate Lifecycle(s: State, mac: Mac) {
    Alternating(CallsOf(s.calls, mac)) && (mac in s.gateways <==> |CallsOf(s.calls, mac)| % 2 == 1)
  }

  ghost predicate LifecycleAll(s: State) {
    forall mac: Mac :: Lifecycle(s, mac)
  }

  /** The last call about `mac` was New. */
  ghost predicate Announced(calls: seq<Call>, mac: Mac) {
    var own := CallsOf(calls, mac);
    own != [] && own[|own|-1].New?
  }

  lemma FoundIsAnnounced(s: State, mac: Mac)
    requires LifecycleAll(s)
    ensures mac in s.gateways <==> Announced(s.calls, mac)
  {
    assert Lifecycle(s, mac);
  }

  lemma SetKeeps(c: Config, s: State, mac: Mac, g: Gateway, ok: bool)
    requires c.onNew && LifecycleAll(s)
    ensures LifecycleAll(SetStep(c, s, mac, g, ok).0)
  {
    var t := SetStep(c, s, mac, g, ok).0;
    forall m: Mac ensures Lifecycle(t, m) {
      assert Lifecycle(s, m);
    }
  }

  lemma VisitKeeps(c: Config, s: State, v: Visit)
    requires c.onDelete && LifecycleAll(s)
    ensures LifecycleAll(VisitStep(c, s, v).0)
  {
    var t := VisitStep(c, s, v).0;
    forall m: Mac ensures Lifecycle(t, m) {
      assert Lifecycle(s, m);
    }
  }

  lemma {:induction false} CleanupKeeps(c: Config, s: State, visits: seq<Visit>)
    requires c.onDelete && LifecycleAll(s)
    ensures LifecycleAll(CleanupStep(c, s, visits).0)
  {
    if visits != [] {
      var front := visits[..|visits|-1];
      CleanupKeeps(c, s, front);
      if !CleanupStep(c, s, front).1 {
        VisitKeeps(c, CleanupStep(c, s, front).0, visits[|visits|-1]);
      }
    }
  }

  lemma {:induction false} RunKeeps(c: Config, ops: seq<Op>)
    requires c.onNew && c.onDelete
    ensures LifecycleAll(Run(c, ops))
  {
    if ops != [] {
      RunKeeps(c, ops[..|ops|-1]);
      var s := Run(c, ops[..|ops|-1]);
      match ops[|ops|-1]
      case Set(mac, g, ok) => SetKeeps(c, s, mac, g, ok);
      case Cleanup(visits) => CleanupKeeps(c, s, visits);
    }
  }

  const SOME_MAC: Mac := [1, 2, 3, 4, 5, 6, 7, 8]

  const SEEN: Op := Set(SOME_MAC, Gateway(0, 0, 1), true)

  lemma SeenOnce(c: Config)
    ensures Run(c, [SEEN]) == State(map[SOME_MAC := SEEN.gateway], if c.onNew then [New(SOME_MAC)] else [])
  {
    assert [SEEN][..0] == [] && Run(c, []) == EMPTY;
  }

  /** Without onNew a gateway appears unannounced. */
  lemma AppearsUnannounced(c: Config)
    requires !c.onNew
    ensures !LifecycleAll(Run(c, [SEEN]))
  {
    SeenOnce(c);
    assert CallsOf([], SOME_MAC) == [];
    assert !Lifecycle(Run(c, [SEEN]), SOME_MAC);
  }

  const GONE: Op := Cleanup([Visit(SOME_MAC, MINUTE + 1, true)])

  /** Without onDelete it goes unannounced. */
  lemma GoesUnannounced(c: Config)
    requires c.onNew && !c.onDelete
    ensures !LifecycleAll(Run(c, [SEEN, GONE]))
  {
    hide Run, CallsOf;
    SeenOnce(c);
    var s, t := Run(c, [SEEN]), Run(c, [SEEN, GONE]);
    assert [SEEN, GONE][..1] == [SEEN];
    RunStep(c, [SEEN, GONE]);
    assert GONE.visits[..0] == [] && CleanupStep(c, s, []) == (s, false);
    assert t == VisitStep(c, s, GONE.visits[0]).0;
    assert t.gateways == map[] && t.calls == [New(SOME_MAC)];
    OneCall(New(SOME_MAC));
    assert !Lifecycle(t, SOME_MAC);
  }

  lemma OneCall(call: Call)
    ensures CallsOf([call], call.mac) == [call]
  {
    assert [call][..0] == [] && CallsOf([], call.mac) == [];
  }

  /** Over all runs, whatever the callbacks return, the life cycle holds exactly when both callbacks are set. */
  lemma LifecycleExactly(c: Config)
    ensures (forall ops :: LifecycleAll(Run(c, ops))) <==> c.onNew && c.onDelete
  {
    if c.onNew && c.onDelete {
      forall ops ensures LifecycleAll(Run(c, ops)) {
        RunKeeps(c, ops);
      }
    } else {
      if c.onNew {
        GoesUnannounced(c);
      } else {
        AppearsUnannounced(c);
      }
    }
  }

  // ----- what is found -----

  /** Some turn removes `mac`, registered as `g`: it is reached, finds `g` stale, and no callback stops it. */
  ghost predicate TakesOut(c: Config, s: State, visits: seq<Visit>, mac: Mac, g: Gateway) {
    exists i :: 0 <= i < |visits| && visits[i].mac == mac && !CleanupStep(c, s, visits[..i]).1
      && g.lastSeen < visits[i].now - 60_000_000_000 && (c.onDelete ==> visits[i].ok)
  }

  lemma {:induction false} CleanupTakesOut(c: Config, s: State, visits: seq<Visit>, mac: Mac)
    requires mac in s.gateways
    ensures mac !in CleanupStep(c, s, visits).0.gateways <==> TakesOut(c, s, visits, mac, s.gateways[mac])
  {
    if visits != [] {
      var last := |visits| - 1;
      var front, g := visits[..last], s.gateways[mac];
      CleanupTakesOut(c, s, front, mac);
      CleanupOnlyRemoves(c, s, front);
      assert forall i :: 0 <= i <= last ==> visits[..i] == front[..i];
      assert front[..last] == front;
      if TakesOut(c, s, front, mac, g) {
        var i :| 0 <= i < last && front[i].mac == mac && !CleanupStep(c, s, front[..i]).1
          && g.lastSeen < front[i].now - 60_000_000_000 && (c.onDelete ==> front[i].ok);
        assert visits[i].mac == mac;
      }
    }
  }

  /**
   * The set at `k` succeeds: `mac` is registered already, or onNew does not stop it. It is the last one for
   * `mac`, and no later cleanup takes `mac` out.
   */
  ghost predicate StandsSince(c: Config, ops: seq<Op>, mac: Mac, k: nat) {
    && k < |ops| && ops[k].Set? && ops[k].mac == mac
    && (mac in Run(c, ops[..k]).gateways || !c.onNew || ops[k].ok)
    && forall j :: k < j < |ops| ==>
      match ops[j]
      case Set(m, _, _) => m != mac
      case Cleanup(visits) => !TakesOut(c, Run(c, ops[..j]), visits, mac, ops[k].gateway)
  }

  /** An operation other than a set for `mac` leaves the entry of `mac`, or removes it. */
  lemma OthersLeave(c: Config, s: State, op: Op, mac: Mac)
    requires !(op.Set? && op.mac == mac) && mac in Step(c, s, op).gateways
    ensures mac in s.gateways && Step(c, s, op).gateways[mac] == s.gateways[mac]
  {
    if op.Cleanup? {
      CleanupOnlyRemoves(c, s, op.visits);
    }
  }

  lemma {:induction false} StandingIsFound(c: Config, ops: seq<Op>, mac: Mac, k: nat)
    requires StandsSince(c, ops, mac, k)
    ensures mac in Run(c, ops).gateways && Run(c, ops).gateways[mac] == ops[k].gateway
  {
    hide TakesOut;
    var last := |ops| - 1;
    if k < last {
      hide Run;
      var front := ops[..last];
      assert forall j :: k <= j <= last ==> front[..j] == ops[..j];
      StandingIsFound(c, front, mac, k);
      RunStep(c, ops);
      StaysOrGoes(c, Run(c, front), ops[last], mac);
    }
  }

  /** A registered MAC stays registered, as it is, unless a cleanup takes it out or it is set anew. */
  lemma StaysOrGoes(c: Config, s: State, op: Op, mac: Mac)
    requires mac in s.gateways && !(op.Set? && op.mac == mac)
    ensures mac in Step(c, s, op).gateways <==> op.Set? || !TakesOut(c, s, op.visits, mac, s.gateways[mac])
    ensures mac in Step(c, s, op).gateways ==> Step(c, s, op).gateways[mac] == s.gateways[mac]
  {
    hide TakesOut;
    if op.Cleanup? {
      CleanupTakesOut(c, s, op.visits, mac);
      CleanupOnlyRemoves(c, s, op.visits);
    }
  }

  lemma RunStep(c: Config, ops: seq<Op>)
    requires ops != []
    ensures Run(c, ops) == Step(c, Run(c, ops[..|ops|-1]), ops[|ops|-1])
  {
  }

  lemma {:induction false} FoundStands(c: Config, ops: seq<Op>, mac: Mac)
    requires mac in Run(c, ops).gateways
    ensures exists k: nat :: StandsSince(c, ops, mac, k)
  {
    hide TakesOut;
    var last := |ops| - 1;
    assert ops != [];
    if ops[last].Set? && ops[last].mac == mac {
      assert StandsSince(c, ops, mac, last);
    } else {
      hide Step;
      var front := ops[..last];
      OthersLeave(c, Run(c, front), ops[last], mac);
      FoundStands(c, front, mac);
      var k: nat :| StandsSince(c, front, mac, k);
      StandingIsFound(c, front, mac, k);
      StaysOrGoes(c, Run(c, front), ops[last], mac);
      assert forall j :: 0 <= j <= last ==> front[..j] == ops[..j];
      assert StandsSince(c, ops, mac, k);
    }
  }

  /** A gateway is found exactly when a set for its MAC succeeded and nothing undid it; it is what that set stored. */
  lemma FoundIsLastSet(c: Config, ops: seq<Op>, mac: Mac)
    ensures mac in Run(c, ops).gateways <==> exists k: nat :: StandsSince(c, ops, mac, k)
    ensures forall k: nat :: StandsSince(c, ops, mac, k) ==> Run(c, ops).gateways[mac] == ops[k].gateway
  {
    if mac in Run(c, ops).gateways {
      FoundStands(c, ops, mac);
    }
    forall k: nat | StandsSince(c, ops, mac, k)
      ensures mac in Run(c, ops).gateways && Run(c, ops).gateways[mac] == ops[k].gateway
    {
      StandingIsFound(c, ops, mac, k);
    }
  }

  // ----- cleanup -----

  /**
   * Cleanup never touches a gateway it keeps, removes only gateways last seen more than a minute before some
   * turn's clock reading, and when no callback fails keeps only those seen within a minute of their own turn's. It
   * fails only at such a gateway, when onDelete does.
   */
  lemma {:induction false} CleanupExact(c: Config, s: State, visits: seq<Visit>)
    ensures var (t, failed) := CleanupStep(c, s, visits);
      && (forall m :: m in t.gateways ==> m in s.gateways && t.gateways[m] == s.gateways[m])
      && (forall m :: m in s.gateways && m !in t.gateways ==>
            exists k :: 0 <= k < |visits| && visits[k].mac == m && (c.onDelete ==> visits[k].ok)
              && s.gateways[m].lastSeen < visits[k].now - 60_000_000_000)
      && (!failed ==> forall k :: 0 <= k < |visits| && visits[k].mac in t.gateways ==>
            t.gateways[visits[k].mac].lastSeen >= visits[k].now - 60_000_000_000)
      && (failed ==> c.onDelete && exists k ::
            0 <= k < |visits| && visits[k].mac in t.gateways && !visits[k].ok
            && t.gateways[visits[k].mac].lastSeen < visits[k].now - 60_000_000_000)
  {
    if visits != [] {
      CleanupExact(c, s, visits[..|visits|-1]);
    }
  }

  lemma {:induction false} CleanupOnlyRemoves(c: Config, s: State, visits: seq<Visit>)
    ensures var t := CleanupStep(c, s, visits).0;
      forall m :: m in t.gateways ==> m in s.gateways && t.gateways[m] == s.gateways[m]
  {
    if visits != [] {
      CleanupOnlyRemoves(c, s, visits[..|visits|-1]);
    }
  }

  /** No reading of `clock` is earlier than `start`. */
  ghost predicate NotBefore(start: int, clock: nat -> int) {
    forall k: nat :: start <= clock(k)
  }

  /** The registry of the Go code: a map under a lock, so each method runs alone. */
  class Gateways {
    var gateways: map<Mac, Gateway>
    const config: Config
    /** The successful callback calls so far. */
    ghost var calls: seq<Call>

    constructor (config: Config)
      ensures this.config == config && Value() == EMPTY && Valid()
    {
      this.config, gateways, calls := config, map[], [];
    }

    ghost function Value(): State
      reads this
    {
      State(gateways, calls)
    }

    ghost predicate Valid()
      reads this
    {
      config.onNew && config.onDelete ==> LifecycleAll(Value())
    }

    /** With both callbacks set, a gateway is found exactly while the last callback about it was onNew. */
    method Get(mac: Mac) returns (g: Option<Gateway>)
      requires Valid()
      ensures g.Some? <==> mac in gateways
      ensures g.Some? ==> g.value == gateways[mac]
      ensures config.onNew && config.onDelete ==> (g.Some? <==> Announced(calls, mac))
    {
      if config.onNew && config.onDelete {
        FoundIsAnnounced(Value(), mac);
      }
      g := if mac in gateways then Some(gateways[mac]) else None;
    }

    /** `ok` says whether onNew succeeds, should it be called. */
    method Set(mac: Mac, g: Gateway, ok: bool) returns (failed: bool)
      requires Valid()
      modifies this
      ensures Valid()
      ensures (Value(), failed) == SetStep(config, old(Value()), mac, g, ok)
      ensures failed <==> mac !in old(gateways) && config.onNew && !ok
      ensures gateways == if failed then old(gateways) else old(gateways)[mac := g]
      ensures calls == old(calls) + if mac !in old(gateways) && config.onNew && ok then [New(mac)] else []
    {
      if config.onNew && LifecycleAll(Value()) {
        SetKeeps(config, Value(), mac, g, ok);
      }
      if mac !in gateways && config.onNew {
        if !ok {
          return true;
        }
        calls := calls + [New(mac)];
      }
      gateways := gateways[mac := g];
      failed := false;
    }

    /** `clock` and `ok` answer the successive clock readings and onDelete calls; the map's order is its own. */
    method Cleanup(clock: nat -> int, ok: nat -> bool) returns (failed: bool, ghost visits: seq<Visit>)
      requires Valid()
      modifies this
      ensures Valid()
      ensures (Value(), failed) == CleanupStep(config, old(Value()), visits)
      ensures !failed ==> forall m :: m in old(gateways) <==> exists k :: 0 <= k < |visits| && visits[k].mac == m
      ensures forall k :: 0 <= k < |visits| ==> visits[k].now == clock(k)
      ensures forall m :: m in gateways ==> m in old(gateways) && gateways[m] == old(gateways)[m]
      ensures forall start :: NotBefore(start, clock) && !failed ==>
        forall m :: m in gateways ==> gateways[m].lastSeen >= start - 60_000_000_000
      ensures forall m :: m in old(gateways) && m !in gateways ==>
        exists k :: 0 <= k < |visits| && visits[k].mac == m
          && old(gateways)[m].lastSeen < visits[k].now - 60_000_000_000
      ensures failed ==> config.onDelete && exists k ::
        0 <= k < |visits| && visits[k].mac in gateways && !visits[k].ok
        && gateways[visits[k].mac].lastSeen < visits[k].now - 60_000_000_000
    {
      failed, visits := CleanupLoop(clock, ok);
      CleanupExact(config, old(Value()), visits);
    }

    /** The loop of `cleanup`: every turn reads the clock, and the first failing callback ends it. */
    method CleanupLoop(clock: nat -> int, ok: nat -> bool) returns (failed: bool, ghost visits: seq<Visit>)
      requires Valid()
      modifies this
      ensures Valid()
      ensures (Value(), failed) == CleanupStep(config, old(Value()), visits)
      ensures !failed ==> forall m :: m in old(gateways) <==> exists k :: 0 <= k < |visits| && visits[k].mac == m
      ensures forall k :: 0 <= k < |visits| ==> visits[k].now == clock(k)
    {
      hide LifecycleAll;
      visits := [];
      failed := false;
      var rest := gateways.Keys;
      var turn := 0;
      while rest != {}
        invariant Valid() && rest <= gateways.Keys && turn == |visits|
        invariant (Value(), false) == CleanupStep(config, old(Value()), visits)
        invariant forall m :: m in old(gateways) <==> m in rest || exists k :: 0 <= k < |visits| && visits[k].mac == m
        invariant forall k :: 0 <= k < |visits| ==> visits[k].now == clock(k)
        decreases rest
      {
        var mac :| mac in rest;
        ghost var v := Visit(mac, clock(turn), ok(turn));
        ghost var before := Value();
        assert (visits + [v])[..|visits|] == visits;
        if config.onDelete && LifecycleAll(before) {
          VisitKeeps(config, before, v);
        }
        rest := rest - {mac};
        visits := visits + [v];
        if Stale(gateways[mac], clock(turn)) {
          if config.onDelete {
            if !ok(turn) {
              failed := true;
              return;
            }
            calls := calls + [Delete(mac)];
          }
          gateways := gateways - {mac};
        }
        assert (Value(), false) == VisitStep(config, before, v);
        turn := turn + 1;
      }
    }
  }
}
