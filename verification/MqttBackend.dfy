/**
 * The MQTT back-end against a broker that forgets subscriptions when the connection goes. A failed call
 * changes nothing at the broker. Steps interleave as the read-write lock allows.
 */
module MqttBackend {
  import opened Codec

  // ----- topics -----

  const HEX_DIGITS: string := "0123456789abcdef"

  function HexByte(b: Byte): (s: string)
    ensures |s| == 2
  {
    [HEX_DIGITS[b / 16], HEX_DIGITS[b % 16]]
  }

  /** `hex.EncodeToString`. */
  function Hex(bytes: Bytes): (s: string)
    ensures |s| == 2 * |bytes|
  {
    if bytes == [] then "" else HexByte(bytes[0]) + Hex(bytes[1..])
  }

  /** `gateway/%s/tx`. */
  function Topic(mac: Mac): (t: string) {
    "gateway/" + Hex(mac) + "/tx"
  }

  lemma HexDigitsDiffer(i: nat, j: nat)
    requires i < 16 && j < 16 && HEX_DIGITS[i] == HEX_DIGITS[j]
    ensures i == j
  {
  }

  lemma {:induction false} HexInjective(a: Bytes, b: Bytes)
    requires Hex(a) == Hex(b)
    ensures a == b
  {
    assert |a| == |b|;
    if a != [] {
      assert Hex(a)[..2] == HexByte(a[0]) && Hex(b)[..2] == HexByte(b[0]);
      assert HexByte(a[0])[0] == HexByte(b[0])[0] && HexByte(a[0])[1] == HexByte(b[0])[1];
      HexDigitsDiffer(a[0] / 16, b[0] / 16);
      HexDigitsDiffer(a[0] % 16, b[0] % 16);
      assert Hex(a)[2..] == Hex(a[1..]) && Hex(b)[2..] == Hex(b[1..]);
      HexInjective(a[1..], b[1..]);
    }
  }

  /** The hexadecimal digit of `x`, in lower case. */
  ghost predicate IsHexDigit(c: char, x: nat) {
    if x < 10 then c as int == '0' as int + x else x < 16 && c as int == 'a' as int + x - 10
  }

  lemma HexDigitIs(x: nat)
    requires x < 16
    ensures IsHexDigit(HEX_DIGITS[x], x)
  {
  }

  lemma {:induction false} HexIs(bytes: Bytes, i: nat)
    requires i < |bytes|
    ensures IsHexDigit(Hex(bytes)[2*i], bytes[i] / 16) && IsHexDigit(Hex(bytes)[2*i+1], bytes[i] % 16)
  {
    hide IsHexDigit;
    if i == 0 {
      HexDigitIs(bytes[0] / 16);
      HexDigitIs(bytes[0] % 16);
    } else {
      HexIs(bytes[1..], i - 1);
      assert Hex(bytes)[2..] == Hex(bytes[1..]);
    }
  }

  /** gateway/, two digits for each byte of the MAC, and /tx. */
  lemma TopicIs(mac: Mac)
    ensures |Topic(mac)| == 27 && Topic(mac)[..8] == "gateway/" && Topic(mac)[24..] == "/tx"
    ensures forall i :: 0 <= i < 8 ==>
      IsHexDigit(Topic(mac)[8+2*i], mac[i] / 16) && IsHexDigit(Topic(mac)[9+2*i], mac[i] % 16)
  {
    hide IsHexDigit;
    assert Topic(mac)[8..24] == Hex(mac);
    forall i | 0 <= i < 8
      ensures IsHexDigit(Topic(mac)[8+2*i], mac[i] / 16) && IsHexDigit(Topic(mac)[9+2*i], mac[i] % 16)
    {
      HexIs(mac, i);
      assert Topic(mac)[8+2*i] == Hex(mac)[2*i] && Topic(mac)[9+2*i] == Hex(mac)[2*i+1];
    }
  }

  /** Different gateways never share a topic. */
  lemma TopicInjective(a: Mac, b: Mac)
    ensures Topic(a) == Topic(b) <==> a == b
  {
    if Topic(a) == Topic(b) {
      assert Topic(a)[8..24] == Hex(a) && Topic(b)[8..24] == Hex(b);
      HexInjective(a, b);
    }
  }

  // ----- the machine -----

  /** A (un)subscription under the write lock: before the broker call, or after it succeeded. */
  datatype Writer = NoWriter | SubAsk(mac: Mac) | SubDone(mac: Mac) | UnsubAsk(mac: Mac) | UnsubDone(mac: Mac)

  /** An onConnected goroutine: before the read lock, or in its retry loop. */
  datatype Handler = Waiting | Trying

  datatype State = State(gateways: set<Mac>, topics: set<string>, connected: bool, writer: Writer,
                         handlers: map<nat, Handler>)

  /** `ok` says whether a call the broker could answer succeeds. */
  datatype Choice =
    | Subscribe(mac: Mac)
    | Unsubscribe(mac: Mac)
    | AdvanceWriter(ok: bool)
    | LoseConnection
    | Connect(id: nat)
    | AdvanceHandler(id: nat, ok: bool)

  const INITIAL: State := State({}, {}, false, NoWriter, map[])

  ghost predicate LockFree(s: State) {
    s.writer == NoWriter && forall h :: h in s.handlers ==> s.handlers[h] == Waiting
  }

  function Image(gateways: set<Mac>): (topics: set<string>) {
    set m | m in gateways :: Topic(m)
  }

  function NextWriter(s: State, ok: bool): (r: State) {
    match s.writer
    case NoWriter => s
    case SubAsk(mac) =>
      if s.connected && ok then s.(topics := s.topics + {Topic(mac)}, writer := SubDone(mac))
      else s.(writer := NoWriter)
    case SubDone(mac) => s.(gateways := s.gateways + {mac}, writer := NoWriter)
    case UnsubAsk(mac) =>
      if s.connected && ok then s.(topics := s.topics - {Topic(mac)}, writer := UnsubDone(mac))
      else s.(writer := NoWriter)
    case UnsubDone(mac) => s.(gateways := s.gateways - {mac}, writer := NoWriter)
  }

  /** onConnected returns at once without gateways, and otherwise when one SubscribeMultiple has succeeded. */
  function NextHandler(s: State, id: nat, ok: bool): (r: State)
    requires id in s.handlers
  {
    match s.handlers[id]
    case Waiting =>
      if s.writer != NoWriter then s
      else if |s.gateways| > 0 then s.(handlers := s.handlers[id := Trying])
      else s.(handlers := s.handlers - {id})
    case Trying =>
      if s.connected && ok then s.(topics := s.topics + Image(s.gateways), handlers := s.handlers - {id}) else s
  }

  /** A choice that is not possible changes nothing. */
  ghost function Next(s: State, c: Choice): (r: State) {
    match c
    case Subscribe(mac) => if LockFree(s) then s.(writer := SubAsk(mac)) else s
    case Unsubscribe(mac) => if LockFree(s) then s.(writer := UnsubAsk(mac)) else s
    case AdvanceWriter(ok) => NextWriter(s, ok)
    case LoseConnection => s.(connected := false, topics := {})
    case Connect(id) =>
      if s.connected || id in s.handlers then s else s.(connected := true, handlers := s.handlers[id := Waiting])
    case AdvanceHandler(id, ok) => if id in s.handlers then NextHandler(s, id, ok) else s
  }

  ghost function Run(cs: seq<Choice>): (s: State)
  {
    if cs == [] then INITIAL else Next(Run(cs[..|cs|-1]), cs[|cs|-1])
  }

  // ----- the invariant -----

  /** The topics of the gateways, as they will be once the writer has updated the set. */
  ghost function Wanted(s: State): set<string> {
    match s.writer
    case SubDone(mac) => Image(s.gateways + {mac})
    case UnsubDone(mac) => Image(s.gateways - {mac})
    case _ => Image(s.gateways)
  }

  /** While a handler is still to re-subscribe, topics may be missing; none is ever left over. */
  ghost predicate Inv(s: State) {
    && s.topics <= Wanted(s)
    && (s.connected && s.handlers == map[] ==> s.topics == Wanted(s))
    && ((exists h :: h in s.handlers && s.handlers[h] == Trying) ==> s.writer == NoWriter)
  }

  lemma ImageAdd(gateways: set<Mac>, mac: Mac)
    ensures Image(gateways + {mac}) == Image(gateways) + {Topic(mac)}
  {
  }

  lemma ImageRemove(gateways: set<Mac>, mac: Mac)
    ensures Image(gateways - {mac}) == Image(gateways) - {Topic(mac)}
  {
    forall m | m in gateways && m != mac ensures Topic(m) != Topic(mac) {
      TopicInjective(m, mac);
    }
  }

  lemma WriterKeeps(s: State, ok: bool)
    requires Inv(s)
    ensures Inv(NextWriter(s, ok))
  {
    hide Topic, Image;
    match s.writer
    case SubAsk(mac) => ImageAdd(s.gateways, mac);
    case UnsubAsk(mac) => ImageRemove(s.gateways, mac);
    case _ =>
  }

  lemma HandlerKeeps(s: State, id: nat, ok: bool)
    requires Inv(s) && id in s.handlers
    ensures Inv(NextHandler(s, id, ok))
  {
    if s.handlers[id] == Waiting && s.writer == NoWriter && |s.gateways| == 0 {
      assert s.gateways == {};
    }
  }

  lemma NextKeeps(s: State, c: Choice)
    requires Inv(s)
    ensures Inv(Next(s, c))
  {
    match c
    case AdvanceWriter(ok) => WriterKeeps(s, ok);
    case AdvanceHandler(id, ok) =>
      if id in s.handlers {
        HandlerKeeps(s, id, ok);
      }
    case Connect(id) =>
      hide Topic, Image;
      assert id in Next(s, c).handlers || Next(s, c) == s;
    case _ =>
  }

  lemma {:induction false} Reachable(cs: seq<Choice>)
    ensures Inv(Run(cs))
  {
    hide Next, Inv;
    if cs == [] {
      InitialOk();
    } else {
      Reachable(cs[..|cs|-1]);
      NextKeeps(Run(cs[..|cs|-1]), cs[|cs|-1]);
    }
  }

  lemma InitialOk()
    ensures Inv(INITIAL)
  {
  }

  /**
   * Whenever the back-end is connected and none of its handlers is running, the broker holds exactly the
   * topics of the subscribed gateways, one for each.
   */
  lemma Resubscribed(cs: seq<Choice>)
    ensures var s := Run(cs);
      s.connected && s.writer == NoWriter && s.handlers == map[] ==>
        s.topics == Image(s.gateways) && forall m: Mac :: Topic(m) in s.topics <==> m in s.gateways
  {
    hide Run;
    Reachable(cs);
    var s := Run(cs);
    forall m: Mac ensures Topic(m) in Image(s.gateways) <==> m in s.gateways {
      if Topic(m) in Image(s.gateways) {
        var n :| n in s.gateways && Topic(n) == Topic(m);
        TopicInjective(n, m);
      }
    }
  }
}
