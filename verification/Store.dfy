/** lunr.Store: the token set of each document, and a count of the documents. */
module Stores {
  import opened Wrappers
  import opened PlainObjects
  import opened SortedSets

  /** What an object inherits besides once a SortedSet has become its prototype. */
  const SORTED_SET_NAMES: set<string> := {
    "length", "elements", "add", "toArray", "map", "forEach", "indexOf", "locationFor", "intersect", "clone", "union",
    "toJSON"
  }

  /** `ref` names a property the store answers to without having stored it. */
  predicate Inherits(hasProto: bool, ref: string) {
    Inherited(ref) || (hasProto && ref in SORTED_SET_NAMES)
  }

  /** The stored refs, the counter, and whether a document was ever stored as the prototype. */
  datatype Count = Count(refs: set<string>, length: int, hasProto: bool)

  datatype Op = Set(ref: string) | Remove(ref: string)

  /** `ref in this.store`. */
  predicate Known(c: Count, ref: string) {
    ref in c.refs || Inherits(c.hasProto, ref)
  }

  function Step(c: Count, op: Op): (r: Count) {
    match op
    case Set(ref) =>
      var length := if Known(c, ref) then c.length else c.length + 1;
      if ref == PROTO then Count(c.refs, length, true) else Count(c.refs + {ref}, length, c.hasProto)
    case Remove(ref) =>
      Count(c.refs - {ref}, if Known(c, ref) then c.length - 1 else c.length, c.hasProto)
  }

  /** The counter is the number of stored refs. */
  predicate Counted(c: Count) {
    c.length == |c.refs|
  }

  /** The operation is on a stored ref or on a name the store does not inherit, or replaces the prototype. */
  predicate Safe(c: Count, op: Op) {
    op.ref in c.refs || !Inherits(c.hasProto, op.ref) || op == Set(PROTO)
  }

  class Store {
    var store: map<string, SortedSet>
    var length: int
    /** The prototype of `store`, where it is not the usual one. */
    var proto: Option<SortedSet>

    constructor ()
      ensures store == map[] && length == 0 && proto == None
      ensures Value() == Count({}, 0, false)
    {
      store, length, proto := map[], 0, None;
    }

    function Value(): Count
      reads this
    {
      Count(store.Keys, length, proto.Some?)
    }

    method Has(ref: string) returns (b: bool)
      ensures b == Known(Value(), ref)
    {
      b := ref in store || Inherits(proto.Some?, ref);
    }

    /** What can be iterated over in `store[ref]`: a stored set, or one found through the prototype. */
    method Get(ref: string) returns (tokens: Option<SortedSet>)
      ensures ref in store ==> tokens == Some(store[ref])
      ensures ref !in store ==> tokens == if ref == PROTO || ref == "elements" then proto else None
    {
      if ref in store {
        return Some(store[ref]);
      }
      tokens := if ref == PROTO || ref == "elements" then proto else None;
    }

    method Set(ref: string, tokens: SortedSet)
      modifies this
      ensures store == if ref == PROTO then old(store) else old(store)[ref := tokens]
      ensures proto == if ref == PROTO then Some(tokens) else old(proto)
      ensures Value() == Step(old(Value()), Op.Set(ref))
    {
      var known := Has(ref);
      if !known {
        length := length + 1;
      }
      if ref == PROTO {
        proto := Some(tokens);
      } else {
        store := store[ref := tokens];
      }
    }

    method Remove(ref: string)
      modifies this`store, this`length
      ensures store == old(store) - {ref}
      ensures Value() == Step(old(Value()), Op.Remove(ref))
    {
      var known := Has(ref);
      if known {
        store := store - {ref};
        length := length - 1;
      }
      assert ref !in old(store) ==> store == old(store);
    }
  }

  // ----- whole runs -----

  /** The count after `ops`, starting from a new store. */
  function Run(ops: seq<Op>): (c: Count)
  {
    if ops == [] then Count({}, 0, false) else Step(Run(ops[..|ops|-1]), ops[|ops|-1])
  }

  /** A right counter stays right over one operation exactly when the operation is safe. */
  lemma StepCounts(c: Count, op: Op)
    requires Counted(c)
    ensures Counted(Step(c, op)) <==> Safe(c, op)
  {
    if op.Remove? && op.ref in c.refs {
      assert c.refs == (c.refs - {op.ref}) + {op.ref};
    }
  }

  ghost predicate AlwaysCounted(ops: seq<Op>) {
    forall k :: 0 <= k <= |ops| ==> Counted(Run(ops[..k]))
  }

  ghost predicate AlwaysSafe(ops: seq<Op>) {
    forall k :: 0 <= k < |ops| ==> Safe(Run(ops[..k]), ops[k])
  }

  lemma PrefixRun(ops: seq<Op>, k: nat)
    requires k < |ops|
    ensures Run(ops[..k+1]) == Step(Run(ops[..k]), ops[k])
  {
    assert ops[..k+1][..k] == ops[..k];
  }

  lemma {:induction false} SafeCounts(ops: seq<Op>, k: nat)
    requires AlwaysSafe(ops) && k <= |ops|
    ensures Counted(Run(ops[..k]))
  {
    if k > 0 {
      SafeCounts(ops, k - 1);
      PrefixRun(ops, k - 1);
      StepCounts(Run(ops[..k-1]), ops[k-1]);
    }
  }

  /**
   * `length` counts the documents all through a run exactly when every operation of the run is safe where
   * it happens: the first one that is not puts the two apart.
   */
  lemma LengthCountsExactly(ops: seq<Op>)
    ensures AlwaysCounted(ops) <==> AlwaysSafe(ops)
  {
    if AlwaysSafe(ops) {
      forall k | 0 <= k <= |ops| ensures Counted(Run(ops[..k])) {
        SafeCounts(ops, k);
      }
    }
    if AlwaysCounted(ops) {
      forall k | 0 <= k < |ops| ensures Safe(Run(ops[..k]), ops[k]) {
        PrefixRun(ops, k);
        assert Counted(Run(ops[..k])) && Counted(Run(ops[..k+1]));
        StepCounts(Run(ops[..k]), ops[k]);
      }
    }
  }

  /** A document called `toString` is stored and not counted. */
  lemma ToStringUncounted()
    ensures !AlwaysCounted([Set("toString")])
  {
    assert [Set("toString")][..1] == [Set("toString")] && [Set("toString")][..0] == [];
    assert Inherited("toString");
    assert Run([Set("toString")]).refs == {"toString"};
  }

  /** Once a token set is the prototype, a document called `add` is not counted either. */
  lemma AddUncounted()
    ensures Run([Set("__proto__"), Set("add")]) == Count({"add"}, 0, true)
  {
    var ops := [Set("__proto__"), Set("add")];
    assert ops[..1] == [Set("__proto__")] && [Set("__proto__")][..0] == [];
    assert Inherited("__proto__") && "add" in SORTED_SET_NAMES;
    assert Run([Set("__proto__")]) == Count({}, 0, true);
  }
}
