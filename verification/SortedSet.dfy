/** lunr.SortedSet: a set of strings kept as a strictly increasing array. */
module SortedSets {
  import opened Wrappers
  import opened Lex

  /** One pass of `locationFor`'s loop body on the window [lo, hi). */
  function Narrow(s: seq<string>, t: string, lo: nat, hi: nat): (w: (nat, nat))
    requires lo + 1 < hi <= |s|
    ensures lo <= w.0 < w.1 <= hi
  {
    var mid := lo + (hi - lo) / 2;
    assert !(Less(s[mid], t) && Less(t, s[mid])) by {
      if Less(s[mid], t) { Asymmetric(s[mid], t); }
    }
    (if Less(s[mid], t) then mid else lo, if Less(t, s[mid]) then mid else hi)
  }

  /** The window after `n` passes. */
  ghost function Window(s: seq<string>, t: string, n: nat): (w: (nat, nat))
    requires s != []
    ensures w.0 < w.1 <= |s|
  {
    if n == 0 then (0, |s|)
    else
      var w := Window(s, t, n - 1);
      if w.1 - w.0 > 1 then Narrow(s, t, w.0, w.1) else w
  }

  /** `locationFor` stops exactly when some number of passes brings its window down to one slot. */
  ghost predicate LocationForStops(s: seq<string>, t: string) {
    s == [] || exists n :: Window(s, t, n).1 - Window(s, t, n).0 <= 1
  }

  lemma WindowStarts(s: seq<string>, t: string)
    ensures s != [] ==> Window(s, t, 0) == (0, |s|)
    ensures s == [] ==> LocationForStops(s, t)
  {
  }

  lemma WindowPass(s: seq<string>, t: string, n: nat)
    requires s != [] && Window(s, t, n).1 - Window(s, t, n).0 > 1
    ensures var (lo, hi) := Window(s, t, n);
      var mid := lo + (hi - lo) / 2;
      Window(s, t, n + 1) == (if Less(s[mid], t) then mid else lo, if Less(t, s[mid]) then mid else hi)
  {
  }

  lemma WindowStops(s: seq<string>, t: string, n: nat)
    requires s != [] && Window(s, t, n).1 - Window(s, t, n).0 <= 1
    ensures LocationForStops(s, t)
  {
  }

  lemma {:induction false} WindowKeeps(s: seq<string>, t: string, k: nat, n: nat)
    requires Sorted(s) && 0 < k < |s| && s[k] == t
    ensures Window(s, t, n).0 < k < Window(s, t, n).1
  {
    if n > 0 {
      WindowKeeps(s, t, k, n - 1);
      var w := Window(s, t, n - 1);
      var mid := w.0 + (w.1 - w.0) / 2;
      if mid < k { Asymmetric(s[mid], s[k]); }
      if k < mid { Asymmetric(s[k], s[mid]); }
      Irreflexive(t);
    }
  }

  lemma {:induction false} WindowShrinks(s: seq<string>, t: string, n: nat)
    requires Sorted(s) && s != [] && t !in s[1..]
    ensures Window(s, t, n).1 - Window(s, t, n).0 <= if n < |s| then |s| - n else 1
  {
    if n > 0 {
      WindowShrinks(s, t, n - 1);
      var w := Window(s, t, n - 1);
      if w.1 - w.0 > 1 {
        var mid := w.0 + (w.1 - w.0) / 2;
        assert s[mid] == s[1..][mid-1];
        Total(s[mid], t);
      }
    }
  }

  /** The unguarded binary search stops exactly on the sets that do not hold `t` beyond their first slot. */
  lemma LocationForStopsExactly(s: seq<string>, t: string)
    requires Sorted(s) && s != []
    ensures LocationForStops(s, t) <==> t !in s[1..]
  {
    if t in s[1..] {
      var j :| 0 <= j < |s[1..]| && s[1..][j] == t;
      forall n: nat ensures Window(s, t, n).1 - Window(s, t, n).0 > 1 {
        WindowKeeps(s, t, j + 1, n);
      }
    } else {
      WindowShrinks(s, t, |s|);
    }
  }

  /** The search for the second of two strings does not stop. */
  lemma LocationForLoops()
    ensures Sorted(["a", "b"]) && !LocationForStops(["a", "b"], "b")
  {
    assert Less("a", "b");
    LocationForStopsExactly(["a", "b"], "b");
    assert ["a", "b"][1..] == ["b"];
  }

  /** Position `p` splits `s` around `t`. */
  ghost predicate Splits(s: seq<string>, t: string, p: nat) {
    p <= |s| && (p > 0 ==> Less(s[p-1], t)) && (p < |s| ==> Less(t, s[p]))
  }

  class SortedSet {
    var length: nat
    var elements: seq<string>

    ghost predicate Valid()
      reads this
    {
      Sorted(elements) && length == |elements|
    }

    constructor ()
      ensures Valid() && elements == []
    {
      length := 0;
      elements := [];
    }

    /** `elements[i]`, which is undefined off the end of the array. */
    function At(i: nat): (e: Option<string>)
      reads this
    {
      if i < |elements| then Some(elements[i]) else None
    }

    method IndexOf(t: string) returns (r: int)
      requires Sorted(elements)
      ensures -1 <= r < |elements|
      ensures r == -1 <==> t !in elements
      ensures r >= 0 ==> elements[r] == t
    {
      var lo, hi := 0, |elements|;
      var width := hi - lo;
      var mid := lo + width / 2;
      var pivot := At(mid);
      while width > 1
        invariant 0 <= lo <= hi <= |elements| && width == hi - lo && mid == lo + width / 2
        invariant pivot == At(mid)
        invariant elements != [] ==> lo < hi
        invariant t in elements ==> t in elements[lo..hi]
        decreases width
      {
        if pivot.value == t {
          return mid;
        }
        Total(pivot.value, t);
        if Less(pivot.value, t) {
          AbovePrefix(elements, mid, t);
          Asymmetric(pivot.value, t);
          Narrowed(elements, t, lo, mid, hi);
          lo := mid;
        }
        if Less(t, pivot.value) {
          BelowSuffix(elements, mid, t);
          Narrowed(elements, t, lo, mid, hi);
          hi := mid;
        }
        width := hi - lo;
        mid := lo + width / 2;
        pivot := At(mid);
      }
      r := if pivot == Some(t) then mid else -1;
    }

    method LocationFor(t: string) returns (r: Option<nat>)
      requires Sorted(elements)
      requires elements != [] ==> t !in elements[1..]
      ensures LocationForStops(elements, t)
      ensures r == None <==> elements == [] || elements[0] == t
      ensures r.Some? ==> Splits(elements, t, r.value)
    {
      hide Window, LocationForStops, Less;
      var lo, hi := 0, |elements|;
      var width := hi - lo;
      var mid := lo + width / 2;
      var pivot := At(mid);
      ghost var n := 0;
      WindowStarts(elements, t);
      while width > 1
        invariant 0 <= lo <= hi <= |elements| && width == hi - lo && mid == lo + width / 2
        invariant elements != [] ==> (lo, hi) == Window(elements, t, n)
        invariant pivot == At(mid)
        invariant elements != [] ==> lo < hi
        invariant lo > 0 ==> Less(elements[lo], t)
        invariant hi < |elements| ==> Less(t, elements[hi])
        decreases width
      {
        assert elements[mid] == elements[1..][mid-1];
        WindowPass(elements, t, n);
        Total(pivot.value, t);
        if Less(pivot.value, t) {
          Asymmetric(pivot.value, t);
          lo := mid;
        }
        if Less(t, pivot.value) {
          hi := mid;
        }
        width := hi - lo;
        mid := lo + width / 2;
        pivot := At(mid);
        n := n + 1;
      }
      if elements != [] {
        WindowStops(elements, t, n);
      }
      if pivot == None {
        return None;
      }
      Total(pivot.value, t);
      Irreflexive(t);
      if Less(t, pivot.value) {
        if lo > 0 { Asymmetric(t, pivot.value); }
        return Some(mid);
      } else if Less(pivot.value, t) {
        Asymmetric(pivot.value, t);
        return Some(mid + 1);
      } else {
        return None;
      }
    }

    method Add(ts: seq<string>)
      requires Valid()
      modifies this
      ensures Valid()
      ensures Range(elements) == old(Range(elements)) + Range(ts)
    {
      for i := 0 to |ts|
        invariant Sorted(elements)
        invariant Range(elements) == old(Range(elements)) + Range(ts[..i])
      {
        var e := ts[i];
        ghost var before := elements;
        var found := IndexOf(e);
        if found == -1 {
          assert elements != [] ==> elements[0] != e;
          var location := LocationFor(e);
          var at := if location.Some? then location.value else 0;
          InsertSorted(elements, at, e);
          elements := elements[..at] + [e] + elements[at..];
        }
        assert Range(elements) == Range(before) + {e};
        assert ts[..i+1] == ts[..i] + [e];
      }
      assert ts[..|ts|] == ts;
      length := |elements|;
    }

    method ToArray() returns (a: seq<string>)
      ensures a == elements
    {
      a := elements;
    }

    method Clone() returns (c: SortedSet)
      requires Valid()
      ensures fresh(c) && c.Valid() && c.elements == elements
    {
      c := new SortedSet();
      c.elements := elements;
      c.length := |c.elements|;
    }

    method Intersect(other: SortedSet) returns (r: SortedSet)
      requires Valid() && other.Valid()
      ensures fresh(r) && r.Valid()
      ensures Range(r.elements) == Range(elements) * Range(other.elements)
    {
      r := new SortedSet();
      var i, j := 0, 0;
      var a, c := elements, other.elements;
      while i < length && j < other.length
        invariant fresh(r) && r.Valid()
        invariant 0 <= i <= |a| && 0 <= j <= |c|
        invariant Range(a[..i]) !! Range(c[j..]) && Range(a[i..]) !! Range(c[..j])
        invariant Range(r.elements) == Range(a[..i]) * Range(c[..j])
        decreases |a| - i + |c| - j
      {
        ghost var i0, j0 := i, j;
        Total(a[i], c[j]);
        if a[i] != c[j] {
          if Less(a[i], c[j]) {
            Asymmetric(a[i], c[j]);
            BelowSuffix(c, j, a[i]);
            assert c[j..] == [c[j]] + c[j+1..];
            i := i + 1;
          } else if Less(c[j], a[i]) {
            BelowSuffix(a, i, c[j]);
            assert a[i..] == [a[i]] + a[i+1..];
            j := j + 1;
          }
        } else {
          r.Add([a[i]]);
          BelowSuffix(c, j, a[i]);
          BelowSuffix(a, i, c[j]);
          i, j := i + 1, j + 1;
        }
        Advance(a, i0, i);
        Advance(c, j0, j);
      }
      assert a[..i] + a[i..] == a && c[..j] + c[j..] == c;
      assert Range(a) == Range(a[..i]) + Range(a[i..]);
      assert Range(c) == Range(c[..j]) + Range(c[j..]);
    }

    method Union(other: SortedSet) returns (r: SortedSet)
      requires Valid() && other.Valid()
      ensures fresh(r) && r.Valid()
      ensures Range(r.elements) == Range(elements) + Range(other.elements)
    {
      var longer, shorter := other, this;
      if length >= other.length {
        longer, shorter := this, other;
      }
      r := longer.Clone();
      var a := shorter.ToArray();
      r.Add(a);
    }
  }

  /** What one cursor step does to the two halves around it. */
  lemma Advance(s: seq<string>, i: nat, i': nat)
    requires i <= i' <= i + 1 && i' <= |s|
    ensures Range(s[..i']) == Range(s[..i]) + Range(s[i..i'])
    ensures Range(s[i..]) == Range(s[i..i']) + Range(s[i'..])
    ensures i' == i + 1 ==> Range(s[i..i']) == {s[i]}
    ensures i' == i ==> Range(s[i..i']) == {}
  {
    assert s[..i'] == s[..i] + s[i..i'] && s[i..] == s[i..i'] + s[i'..];
    if i' == i + 1 {
      assert s[i..i'] == [s[i]];
    }
  }

  /** An element of the window that is in neither discarded half is in the rest. */
  lemma Narrowed(s: seq<string>, t: string, lo: nat, mid: nat, hi: nat)
    requires Sorted(s) && lo < mid < hi <= |s| && s[mid] != t
    ensures t in s[lo..hi] && t !in s[..mid] ==> t in s[mid..hi]
    ensures t in s[lo..hi] && t !in s[mid+1..] ==> t in s[lo..mid]
  {
    if t in s[lo..hi] {
      var k :| lo <= k < hi && s[k] == t;
      if k < mid { assert s[..mid][k] == t && s[lo..mid][k-lo] == t; }
      if k > mid { assert s[mid+1..][k-mid-1] == t && s[mid..hi][k-mid] == t; }
    }
  }
}
