/** lunr.EventEmitter: the handlers of each event, in the order they were added. */
module EventEmitters {
  import opened PlainObjects

  /** The index's own cache-clearing closure, or a function a caller can name. */
  datatype Handler = ClearIdfCache | Listener(id: nat)

  /** `Array.prototype.indexOf`. */
  function IndexOf(hs: seq<Handler>, h: Handler): (i: int)
    ensures -1 <= i < |hs|
    ensures i == -1 <==> h !in hs
    ensures i >= 0 ==> hs[i] == h && h !in hs[..i]
  {
    if hs == [] then -1
    else if hs[0] == h then 0
    else
      var i := IndexOf(hs[1..], h);
      if i == -1 then -1 else i + 1
  }

  /** `splice(i, 1)`: a negative start counts from the end of the array. */
  function SpliceOne(hs: seq<Handler>, i: int): (r: seq<Handler>)
    requires hs != [] && -1 <= i < |hs|
    ensures |r| == |hs| - 1
    ensures i >= 0 ==> hs == r[..i] + [hs[i]] + r[i..]
    ensures i == -1 ==> hs == r + [hs[|hs|-1]]
  {
    var at := if i < 0 then |hs| + i else i;
    hs[..at] + hs[at+1..]
  }

  type Events = map<string, seq<Handler>>

  function HandlersOf(events: Events, name: string): seq<Handler> {
    if name in events then events[name] else []
  }

  /** `h` appended once to the list of each mentioned name, in turn. */
  function Registered(events: Events, names: seq<string>, h: Handler): (r: Events)
    ensures r.Keys == events.Keys + set n | n in names
    ensures forall n :: n in names ==> h in r[n]
    ensures forall n :: n in names && n !in events ==> r[n][0] == h
    ensures forall n :: n in events ==> events[n] <= r[n] && (n !in names ==> r[n] == events[n])
  {
    if names == [] then events
    else
      var last := |names| - 1;
      assert names == names[..last] + [names[last]];
      var m := Registered(events, names[..last], h);
      m[names[last] := HandlersOf(m, names[last]) + [h]]
  }

  /** A name mentioned once gets the handler once, at the end of its list. */
  lemma {:induction false} RegisteredOnce(events: Events, names: seq<string>, h: Handler, k: nat)
    requires k < |names| && forall j :: 0 <= j < |names| && j != k ==> names[j] != names[k]
    ensures Registered(events, names, h)[names[k]] == HandlersOf(events, names[k]) + [h]
  {
    var last := |names| - 1;
    assert names == names[..last] + [names[last]];
    if k < last {
      RegisteredOnce(events, names[..last], h, k);
    } else {
      assert names[k] !in names[..last];
    }
  }

  lemma NothingRegistered(events: Events, h: Handler)
    ensures Registered(events, [], h) == events
  {
  }

  lemma RegisteredStep(events: Events, names: seq<string>, h: Handler, i: nat)
    requires i < |names|
    ensures Registered(events, names[..i+1], h) ==
      var m := Registered(events, names[..i], h);
      m[names[i] := HandlersOf(m, names[i]) + [h]]
  {
    assert names[..i+1][..i] == names[..i];
  }

  /** The names before the first inherited one, whose value is no list and cannot be appended to. */
  function Accepted(names: seq<string>): (r: seq<string>)
    ensures r <= names
    ensures forall n :: n in r ==> !Inherited(n)
    ensures |r| < |names| ==> Inherited(names[|r|])
  {
    if names == [] || Inherited(names[0]) then [] else [names[0]] + Accepted(names[1..])
  }

  class EventEmitter {
    var events: Events

    constructor ()
      ensures events == map[]
    {
      events := map[];
    }

    /** No event is kept with an empty list, and none under an inherited name. */
    ghost predicate Valid()
      reads this
    {
      forall name :: name in events ==> events[name] != [] && !Inherited(name)
    }

    /** Emitting `name` empties the idf cache before any listener runs. */
    ghost predicate ClearsFirst(name: string)
      reads this
    {
      name in events && events[name] != [] && events[name][0] == ClearIdfCache
    }

    /** Throws at the first inherited name, with the names before it done. */
    method AddListener(names: seq<string>, h: Handler) returns (threw: bool)
      requires Valid()
      modifies this
      ensures Valid()
      ensures events == Registered(old(events), Accepted(names), h)
      ensures threw <==> exists n :: n in names && Inherited(n)
    {
      hide Inherited, Registered;
      threw := false;
      assert names[..0] == [] && Registered(events, [], h) == events by {
        NothingRegistered(events, h);
      }
      for i := 0 to |names|
        invariant Valid() && i <= |Accepted(names)|
        invariant events == Registered(old(events), names[..i], h)
      {
        if Inherited(names[i]) {
          assert names[..i] == Accepted(names);
          return true;
        }
        RegisteredStep(old(events), names, h, i);
        events := events[names[i] := HandlersOf(events, names[i]) + [h]];
      }
      assert names[..|names|] == names == Accepted(names);
    }

    /**
     * Removing a function that was never added takes the last handler instead, because its index is -1.
     * So the cache-clearing closure, always first, survives exactly when the function was there or
     * another handler stands behind it. An inherited name is taken for an event, whose handlers cannot be searched.
     */
    method RemoveListener(name: string, id: nat) returns (threw: bool)
      requires Valid()
      modifies this
      ensures Valid()
      ensures HandlersOf(events, name) ==
        if name in old(events) then SpliceOne(old(events)[name], IndexOf(old(events)[name], Listener(id))) else []
      ensures forall n :: n != name ==>
        (n in events <==> n in old(events)) && (n in events ==> events[n] == old(events)[n])
      ensures old(ClearsFirst(name)) ==>
        (ClearsFirst(name) <==> Listener(id) in old(events)[name] || |old(events)[name]| > 1)
      ensures threw <==> Inherited(name)
    {
      threw := Inherited(name);
      if name in events {
        var list := events[name];
        var rest := SpliceOne(list, IndexOf(list, Listener(id)));
        events := events[name := rest];
        if |rest| == 0 {
          events := events - {name};
        }
      }
    }
  }
}
