/** lunr.Vector: a singly linked list of components, sorted by index, with a cached magnitude. */
module Vectors {
  import opened Wrappers
  import opened VectorLaws

  class Node {
    const entry: Entry
    var next: Node?

    constructor (entry: Entry, next: Node?)
      ensures this.entry == entry && this.next == next
    {
      this.entry := entry;
      this.next := next;
    }
  }

  ghost function EntriesOf(ns: seq<Node>): (s: seq<Entry>)
    ensures |s| == |ns| && forall i :: 0 <= i < |ns| ==> s[i] == ns[i].entry
  {
    seq(|ns|, i requires 0 <= i < |ns| => ns[i].entry)
  }

  class Vector {
    var magnitude: Option<real>
    var list: Node?
    var length: nat
    const sqrt: real -> real
    ghost var nodes: seq<Node>

    /** The nodes in list order; following `next` from `list` visits each once and ends. */
    ghost predicate Linked()
      reads this, nodes
    {
      && list == NodeAt(0)
      && (forall i {:trigger nodes[i].next} :: 0 <= i < |nodes| ==> nodes[i].next == NodeAt(i + 1))
      && (forall i, j :: 0 <= i < j < |nodes| ==> nodes[i] != nodes[j])
    }

    ghost predicate Valid()
      reads this, nodes
    {
      && Linked()
      && length == |nodes|
      && SortedByIdx(Entries())
      && (magnitude.Some? ==> magnitude.value == Norm())
    }

    ghost function NodeAt(i: nat): Node?
      reads this`nodes
    {
      if i < |nodes| then nodes[i] else null
    }

    ghost function Entries(): (s: seq<Entry>)
      reads this`nodes
    {
      EntriesOf(nodes)
    }

    /** The magnitude recomputed from the entries. */
    ghost function Norm(): real
      reads this`nodes
    {
      Apply(sqrt, SumSquares(Entries()))
    }

    constructor (sqrt: real -> real)
      ensures Valid() && Entries() == [] && fresh(nodes) && this.sqrt == sqrt
    {
      this.sqrt := sqrt;
      magnitude := None;
      list := null;
      length := 0;
      nodes := [];
    }

    method Insert(idx: int, val: real) returns (before: nat)
      requires Valid()
      modifies this, nodes
      ensures Valid() && fresh(set n | n in nodes && n !in old(nodes))
      ensures Entries() == InsertEntry(old(Entries()), Entry(idx, val))
      ensures before == old(length) && length == before + 1
    {
      hide SumSquares, InsertEntry, SortedByIdx;
      magnitude := None;
      var e := Entry(idx, val);
      var first := list;
      if first == null || idx < first.entry.idx {
        var n := new Node(e, first);
        before := Attach(0, null, n);
        return;
      }
      var prev, cur := first, first.next;
      ghost var k := 1;
      while cur != null
        invariant 1 <= k <= |nodes| && prev == nodes[k-1] && cur == NodeAt(k)
        invariant forall j :: 0 <= j < k ==> nodes[j].entry.idx <= idx
        decreases |nodes| - k
      {
        if idx < cur.entry.idx {
          break;
        }
        prev, cur := cur, cur.next;
        k := k + 1;
      }
      var n := new Node(e, cur);
      before := Attach(k, prev, n);
    }

    /** Links the fresh node `n` in behind `prev`, or at the head when there is none. */
    method Attach(ghost k: nat, prev: Node?, n: Node) returns (before: nat)
      requires Valid() && magnitude == None
      requires k <= |nodes| && prev == (if k == 0 then null else nodes[k-1])
      requires n !in nodes && n.next == NodeAt(k)
      requires forall j :: 0 <= j < k ==> nodes[j].entry.idx <= n.entry.idx
      requires k < |nodes| ==> n.entry.idx < nodes[k].entry.idx
      modifies this, nodes
      ensures Valid() && nodes == old(nodes[..k] + [n] + nodes[k..])
      ensures Entries() == InsertEntry(old(Entries()), n.entry)
      ensures before == old(length) && length == before + 1
    {
      hide SumSquares, InsertEntry, SortedByIdx;
      ghost var s := Entries();
      if prev == null {
        list := n;
      } else {
        prev.next := n;
      }
      before := length;
      length := length + 1;
      nodes := nodes[..k] + [n] + nodes[k..];
      InsertEntryAt(s, k, n.entry);
      assert Entries() == s[..k] + [n.entry] + s[k..];
      InsertEntrySorted(s, n.entry);
    }

    lemma NormSquared()
      ensures IsSquareRoot(sqrt) ==> Norm() >= 0.0 && Norm() * Norm() == MergeDot(Entries(), Entries())
    {
      hide MergeDot, SumSquares;
      if IsSquareRoot(sqrt) {
        RootOfSquares(Entries(), sqrt);
      }
    }

    /** Returns the cached value when it is truthy, and recomputes it otherwise. */
    method Magnitude() returns (m: real)
      requires Valid()
      modifies this`magnitude
      ensures Valid() && magnitude == Some(m)
      ensures m == Norm()
      ensures IsSquareRoot(sqrt) ==> m >= 0.0 && m * m == MergeDot(Entries(), Entries())
    {
      NormSquared();
      assert SumSquares([]) == 0.0;
      hide SumSquares, SortedByIdx, MergeDot, IsSquareRoot;
      if magnitude.Some? && magnitude.value != 0.0 {
        return magnitude.value;
      }
      var node, sum := list, 0.0;
      ghost var k := 0;
      while node != null
        invariant 0 <= k <= |nodes| && node == NodeAt(k)
        invariant sum == SumSquares(Entries()[..k])
        decreases |nodes| - k
      {
        var val := node.entry.val;
        assert Entries()[..k+1] == Entries()[..k] + [node.entry];
        SumSquaresSnoc(Entries()[..k], node.entry);
        sum := sum + val * val;
        node := node.next;
        k := k + 1;
      }
      assert Entries()[..k] == Entries();
      m := Apply(sqrt, sum);
      magnitude := Some(m);
    }

    method Dot(other: Vector) returns (d: real)
      requires Valid() && other.Valid()
      ensures d == MergeDot(Entries(), other.Entries())
    {
      hide SumSquares, SortedByIdx;
      var e, n := list, other.list;
      d := 0.0;
      ghost var i, j := 0, 0;
      ghost var a, b := Entries(), other.Entries();
      while e != null && n != null
        invariant 0 <= i <= |nodes| && e == NodeAt(i)
        invariant 0 <= j <= |other.nodes| && n == other.NodeAt(j)
        invariant d + MergeDot(a[i..], b[j..]) == MergeDot(a, b)
        decreases |a| - i + |b| - j
      {
        assert a[i..][1..] == a[i+1..] && b[j..][1..] == b[j+1..];
        if e.entry.idx < n.entry.idx {
          e := e.next;
          i := i + 1;
        } else if e.entry.idx > n.entry.idx {
          n := n.next;
          j := j + 1;
        } else {
          d := d + e.entry.val * n.entry.val;
          e, n := e.next, n.next;
          i, j := i + 1, j + 1;
        }
      }
    }

    /** None is the NaN of 0/0; Some is the quotient. */
    method Similarity(other: Vector) returns (score: Option<real>)
      requires Valid() && other.Valid()
      modifies this`magnitude, other`magnitude
      ensures Valid() && other.Valid()
      ensures score == Cosine(Entries(), other.Entries(), Norm(), other.Norm())
      ensures magnitude.Some? && other.magnitude.Some?
      ensures score.Some? <==> magnitude.value * other.magnitude.value != 0.0
      ensures score.Some? ==>
        score.value * (magnitude.value * other.magnitude.value) == MergeDot(Entries(), other.Entries())
      ensures IsSquareRoot(sqrt) && other.sqrt == sqrt ==> IsCosine(Entries(), other.Entries(), score)
    {
      hide SumSquares, SortedByIdx, MergeDot, IsCosine, IsSquareRoot;
      var d := Dot(other);
      var m := Magnitude();
      var n := other.Magnitude();
      score := Quotient(d, m, n);
      CosineTimes(Entries(), other.Entries(), m, n);
      if IsSquareRoot(sqrt) && other.sqrt == sqrt {
        CosineIs(Entries(), other.Entries(), sqrt);
      }
    }
  }
}
