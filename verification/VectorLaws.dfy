/** The algebra of sparse vectors: sorted entry lists, the merging dot product and its bound. */
module VectorLaws {
  import opened Wrappers

  datatype Entry = Entry(idx: int, val: real)

  ghost predicate SortedByIdx(s: seq<Entry>) {
    forall i, j :: 0 <= i < j < |s| ==> s[i].idx <= s[j].idx
  }

  ghost predicate StrictByIdx(s: seq<Entry>) {
    forall i, j :: 0 <= i < j < |s| ==> s[i].idx < s[j].idx
  }

  ghost predicate DistinctIdx(s: seq<Entry>) {
    forall i, j :: 0 <= i < j < |s| ==> s[i].idx != s[j].idx
  }

  // ----- building -----

  /** Insertion keeps the order; among equal indexes the newest goes last. */
  function InsertEntry(s: seq<Entry>, e: Entry): (r: seq<Entry>)
    ensures |r| == |s| + 1
  {
    if s == [] || e.idx < s[0].idx then [e] + s else [s[0]] + InsertEntry(s[1..], e)
  }

  function InsertAll(s: seq<Entry>, es: seq<Entry>): (r: seq<Entry>)
  {
    if es == [] then s else InsertEntry(InsertAll(s, es[..|es|-1]), es[|es|-1])
  }

  lemma {:induction false} InsertEntryAt(s: seq<Entry>, k: nat, e: Entry)
    requires k <= |s|
    requires forall j :: 0 <= j < k ==> s[j].idx <= e.idx
    requires k < |s| ==> e.idx < s[k].idx
    ensures InsertEntry(s, e) == s[..k] + [e] + s[k..]
  {
    if k > 0 {
      InsertEntryAt(s[1..], k - 1, e);
      assert s[..k] == [s[0]] + s[1..][..k-1];
    }
  }

  lemma {:induction false} InsertEntryBag(s: seq<Entry>, e: Entry)
    ensures multiset(InsertEntry(s, e)) == multiset(s) + multiset{e}
  {
    if s == [] || e.idx < s[0].idx {
    } else {
      InsertEntryBag(s[1..], e);
      assert s == [s[0]] + s[1..];
    }
  }

  lemma {:induction false} InsertEntrySorted(s: seq<Entry>, e: Entry)
    requires SortedByIdx(s)
    ensures SortedByIdx(InsertEntry(s, e))
  {
    if s == [] || e.idx < s[0].idx {
    } else {
      var t := InsertEntry(s[1..], e);
      InsertEntrySorted(s[1..], e);
      InsertEntryBag(s[1..], e);
      forall j | 0 <= j < |t| ensures s[0].idx <= t[j].idx {
        assert t[j] in multiset(s[1..]) + multiset{e};
      }
    }
  }

  lemma {:induction false} InsertAllBag(s: seq<Entry>, es: seq<Entry>)
    ensures multiset(InsertAll(s, es)) == multiset(s) + multiset(es)
  {
    hide InsertEntry;
    if es != [] {
      var front := es[..|es|-1];
      InsertAllBag(s, front);
      InsertEntryBag(InsertAll(s, front), es[|es|-1]);
      assert es == front + [es[|es|-1]];
    }
  }

  lemma {:induction false} InsertAllSorted(s: seq<Entry>, es: seq<Entry>)
    requires SortedByIdx(s)
    ensures SortedByIdx(InsertAll(s, es))
  {
    hide InsertEntry, SortedByIdx;
    if es != [] {
      InsertAllSorted(s, es[..|es|-1]);
      InsertEntrySorted(InsertAll(s, es[..|es|-1]), es[|es|-1]);
    }
  }

  /** Any sequence of insertions leaves a sorted list of exactly the inserted entries. */
  lemma InsertAllKeeps(s: seq<Entry>, es: seq<Entry>)
    requires SortedByIdx(s)
    ensures SortedByIdx(InsertAll(s, es))
    ensures multiset(InsertAll(s, es)) == multiset(s) + multiset(es)
  {
    InsertAllSorted(s, es);
    InsertAllBag(s, es);
  }

  lemma InsertNothing(s: seq<Entry>)
    ensures InsertAll(s, []) == s
  {
  }

  /** Two batches of insertions are one batch. */
  lemma {:induction false} InsertAllTwice(s: seq<Entry>, es: seq<Entry>, fs: seq<Entry>)
    ensures InsertAll(InsertAll(s, es), fs) == InsertAll(s, es + fs)
  {
    if fs == [] {
      assert es + fs == es;
    } else {
      var front := fs[..|fs|-1];
      InsertAllTwice(s, es, front);
      assert (es + fs)[..|es + fs|-1] == es + front;
    }
  }

  /** Strictly increasing insertions append. */
  lemma InsertLast(s: seq<Entry>, e: Entry)
    requires forall j :: 0 <= j < |s| ==> s[j].idx < e.idx
    ensures InsertEntry(s, e) == s + [e]
  {
    InsertEntryAt(s, |s|, e);
    assert s[..|s|] + [e] + s[|s|..] == s + [e];
  }

  lemma DistinctSortedIsStrict(s: seq<Entry>, es: seq<Entry>)
    requires SortedByIdx(s) && multiset(s) == multiset(es) && DistinctIdx(es)
    ensures StrictByIdx(s)
  {
    forall i, j | 0 <= i < j < |s| ensures s[i].idx < s[j].idx {
      if s[i].idx == s[j].idx {
        assert s[i] in multiset(es) && s[j] in multiset(es);
        var p :| 0 <= p < |es| && es[p] == s[i];
        var q :| 0 <= q < |es| && es[q] == s[j];
        assert p == q;
        TwiceCounted(s, i, j);
        OnceCounted(es, p);
        assert false;
      }
    }
  }

  lemma TwiceCounted(s: seq<Entry>, i: nat, j: nat)
    requires i < j < |s| && s[i] == s[j]
    ensures multiset(s)[s[i]] >= 2
  {
    assert s == s[..i] + [s[i]] + s[i+1..j] + [s[j]] + s[j+1..];
  }

  lemma OnceCounted(s: seq<Entry>, p: nat)
    requires p < |s| && DistinctIdx(s)
    ensures multiset(s)[s[p]] == 1
  {
    assert s == s[..p] + [s[p]] + s[p+1..];
    assert s[p] !in s[..p] && s[p] !in s[p+1..];
  }

  lemma TailBag(s: seq<Entry>)
    requires s != []
    ensures multiset(s[1..]) == multiset(s) - multiset{s[0]}
  {
    assert s == [s[0]] + s[1..];
  }

  lemma HeadFirst(a: seq<Entry>, b: seq<Entry>)
    requires StrictByIdx(b) && a != [] && a[0] in b
    ensures b != [] && b[0].idx <= a[0].idx && (b[0].idx == a[0].idx ==> a[0] == b[0])
  {
  }

  lemma {:induction false} SameBagSameList(a: seq<Entry>, b: seq<Entry>)
    requires StrictByIdx(a) && StrictByIdx(b) && multiset(a) == multiset(b)
    ensures a == b
  {
    hide StrictByIdx;
    assert |a| == |multiset(a)| && |b| == |multiset(b)|;
    if a != [] {
      assert a[0] in multiset(b) && b[0] in multiset(a);
      HeadFirst(a, b);
      HeadFirst(b, a);
      TailBag(a);
      TailBag(b);
      TailStrict(a);
      TailStrict(b);
      SameBagSameList(a[1..], b[1..]);
      assert a == [a[0]] + a[1..] && b == [b[0]] + b[1..];
    }
  }

  lemma TailStrict(s: seq<Entry>)
    requires StrictByIdx(s) && s != []
    ensures StrictByIdx(s[1..])
  {
  }

  /** Insertions with distinct indexes give the same vector in every order. */
  lemma InsertionOrderIrrelevant(es: seq<Entry>, fs: seq<Entry>)
    requires DistinctIdx(es) && multiset(es) == multiset(fs)
    ensures InsertAll([], es) == InsertAll([], fs)
  {
    InsertAllKeeps([], es);
    InsertAllKeeps([], fs);
    DistinctSortedIsStrict(InsertAll([], es), es);
    DistinctSortedIsStrict(InsertAll([], fs), es);
    SameBagSameList(InsertAll([], es), InsertAll([], fs));
  }

  /** Insertions at different indexes commute. */
  lemma {:induction false} InsertionsCommute(s: seq<Entry>, a: Entry, b: Entry)
    requires a.idx != b.idx
    ensures InsertEntry(InsertEntry(s, a), b) == InsertEntry(InsertEntry(s, b), a)
  {
    if s != [] && a.idx >= s[0].idx && b.idx >= s[0].idx {
      InsertionsCommute(s[1..], a, b);
      OneDeeper(s, a, b);
      OneDeeper(s, b, a);
    }
  }

  lemma OneDeeper(s: seq<Entry>, a: Entry, b: Entry)
    requires s != [] && a.idx >= s[0].idx && b.idx >= s[0].idx
    ensures InsertEntry(InsertEntry(s, a), b) == [s[0]] + InsertEntry(InsertEntry(s[1..], a), b)
  {
    assert InsertEntry(s, a)[1..] == InsertEntry(s[1..], a);
  }

  /** Among insertions with distinct indexes any one may come last. */
  lemma {:induction false} InsertLater(s: seq<Entry>, es: seq<Entry>, i: nat)
    requires DistinctIdx(es) && i < |es|
    ensures InsertAll(s, es) == InsertEntry(InsertAll(s, es[..i] + es[i+1..]), es[i])
  {
    hide InsertEntry;
    var last := |es| - 1;
    if i == last {
      assert es[..i] + es[i+1..] == es[..last];
    } else {
      var front, rest := es[..last], es[..i] + es[i+1..];
      assert rest[..|rest|-1] == front[..i] + front[i+1..] && rest[|rest|-1] == es[last];
      InsertLater(s, front, i);
      InsertionsCommute(InsertAll(s, front[..i] + front[i+1..]), es[i], es[last]);
    }
  }

  /** Into any list, insertions of the same entries with distinct indexes come to the same in every order. */
  lemma {:induction false} InsertionOrderFree(s: seq<Entry>, es: seq<Entry>, fs: seq<Entry>)
    requires DistinctIdx(es) && DistinctIdx(fs) && forall e :: e in es <==> e in fs
    ensures InsertAll(s, es) == InsertAll(s, fs)
  {
    hide InsertEntry;
    assert fs != [] ==> fs[0] in fs;
    if es != [] {
      var last := |es| - 1;
      assert es[last] in fs;
      var i :| 0 <= i < |fs| && fs[i] == es[last];
      var front, rest := es[..last], fs[..i] + fs[i+1..];
      forall e ensures e in front <==> e in rest {
        WithoutOne(es, last, e);
        WithoutOne(fs, i, e);
        assert es[..last] + es[last+1..] == front;
      }
      InsertionOrderFree(s, front, rest);
      InsertLater(s, fs, i);
    }
  }

  lemma WithoutOne(es: seq<Entry>, i: nat, e: Entry)
    requires DistinctIdx(es) && i < |es|
    ensures e in es[..i] + es[i+1..] <==> e in es && e != es[i]
  {
    if e in es && e != es[i] {
      var k :| 0 <= k < |es| && es[k] == e;
      if k < i { assert es[..i][k] == e; } else { assert es[i+1..][k-i-1] == e; }
    }
  }

  // ----- dot product -----

  /** The two-pointer walk of `Vector.dot` from the heads of both lists. */
  function MergeDot(a: seq<Entry>, b: seq<Entry>): (d: real)
    decreases |a| + |b|
  {
    if a == [] || b == [] then 0.0
    else if a[0].idx < b[0].idx then MergeDot(a[1..], b)
    else if a[0].idx > b[0].idx then MergeDot(a, b[1..])
    else a[0].val * b[0].val + MergeDot(a[1..], b[1..])
  }

  /** The component of a vector along one index. */
  ghost function Component(s: seq<Entry>, idx: int): real
  {
    if s == [] then 0.0 else if s[0].idx == idx then s[0].val else Component(s[1..], idx)
  }

  /** The textbook dot product: every component of `a` times the same component of `b`. */
  ghost function InnerProduct(a: seq<Entry>, b: seq<Entry>): real
  {
    if a == [] then 0.0 else a[0].val * Component(b, a[0].idx) + InnerProduct(a[1..], b)
  }

  lemma {:induction false} NoComponent(s: seq<Entry>, idx: int)
    requires forall j :: 0 <= j < |s| ==> s[j].idx != idx
    ensures Component(s, idx) == 0.0
  {
    if s != [] {
      NoComponent(s[1..], idx);
    }
  }

  /** Dropping the head of `b` changes nothing for entries of `a` above it. */
  lemma {:induction false} DropHead(a: seq<Entry>, b: seq<Entry>)
    requires b != [] && forall j :: 0 <= j < |a| ==> b[0].idx < a[j].idx
    ensures InnerProduct(a, b) == InnerProduct(a, b[1..])
  {
    if a != [] {
      DropHead(a[1..], b);
    }
  }

  /** On vectors with distinct indexes the merge computes the textbook dot product. */
  lemma {:induction false} MergeIsInnerProduct(a: seq<Entry>, b: seq<Entry>)
    requires StrictByIdx(a) && StrictByIdx(b)
    ensures MergeDot(a, b) == InnerProduct(a, b)
    decreases |a| + |b|
  {
    if a == [] {
    } else if b == [] {
      MergeIsInnerProduct(a[1..], b);
    } else if a[0].idx < b[0].idx {
      NoComponent(b, a[0].idx);
      MergeIsInnerProduct(a[1..], b);
    } else if a[0].idx > b[0].idx {
      DropHead(a, b);
      MergeIsInnerProduct(a, b[1..]);
    } else {
      DropHead(a[1..], b);
      MergeIsInnerProduct(a[1..], b[1..]);
    }
  }

  /** The merge is symmetric on every pair of lists, duplicates included. */
  lemma {:induction false} MergeSymmetric(a: seq<Entry>, b: seq<Entry>)
    ensures MergeDot(a, b) == MergeDot(b, a)
    decreases |a| + |b|
  {
    if a != [] && b != [] {
      if a[0].idx < b[0].idx {
        MergeSymmetric(a[1..], b);
      } else if a[0].idx > b[0].idx {
        MergeSymmetric(a, b[1..]);
      } else {
        MergeSymmetric(a[1..], b[1..]);
      }
    }
  }

  /** Whatever order two vectors were filled in, their dot product is the textbook one of the entries. */
  lemma DotOfBuiltVectors(es: seq<Entry>, fs: seq<Entry>, es': seq<Entry>, fs': seq<Entry>)
    requires DistinctIdx(es) && multiset(es) == multiset(es')
    requires DistinctIdx(fs) && multiset(fs) == multiset(fs')
    ensures MergeDot(InsertAll([], es), InsertAll([], fs)) == InnerProduct(InsertAll([], es'), InsertAll([], fs'))
    ensures MergeDot(InsertAll([], es), InsertAll([], fs)) == MergeDot(InsertAll([], fs'), InsertAll([], es'))
  {
    InsertionOrderIrrelevant(es, es');
    InsertionOrderIrrelevant(fs, fs');
    InsertAllKeeps([], es);
    InsertAllKeeps([], fs);
    DistinctSortedIsStrict(InsertAll([], es), es);
    DistinctSortedIsStrict(InsertAll([], fs), fs);
    MergeIsInnerProduct(InsertAll([], es), InsertAll([], fs));
    MergeSymmetric(InsertAll([], es), InsertAll([], fs));
  }

  // ----- magnitude and the score bound -----

  function SumSquares(s: seq<Entry>): (r: real)
    ensures r >= 0.0
  {
    if s == [] then 0.0 else s[0].val * s[0].val + SumSquares(s[1..])
  }

  lemma SumSquaresSnoc(s: seq<Entry>, e: Entry)
    ensures SumSquares(s + [e]) == SumSquares(s) + e.val * e.val
  {
    if s != [] {
      assert (s + [e])[1..] == s[1..] + [e];
      SumSquaresSnoc(s[1..], e);
    }
  }

  lemma SquareGrows(u: real, w: real)
    requires 0.0 <= u < w
    ensures u * u < w * w
  {
    assert w * (w - u) > 0.0;
    assert u * (w - u) >= 0.0;
  }

  /** A square bounds the root: from w*w <= u*u and u >= 0, w <= u. */
  lemma RootBound(w: real, u: real)
    requires u >= 0.0 && w * w <= u * u
    ensures w <= u
  {
    if w > u {
      SquareGrows(u, w);
    }
  }

  lemma SquareNonNegative(x: real)
    ensures x * x >= 0.0
  {
  }

  lemma ProductMonotone(a: real, a': real, b: real)
    requires a <= a' && b >= 0.0
    ensures a * b <= a' * b
  {
  }

  /** `d` is within the Cauchy-Schwarz bound of two sums of squares. */
  ghost predicate Bounded(d: real, p: real, q: real) {
    p >= 0.0 && q >= 0.0 && d * d <= p * q
  }

  lemma ZeroBounded(p: real, q: real)
    requires p >= 0.0 && q >= 0.0
    ensures Bounded(0.0, p, q)
  {
  }

  /** Larger sums of squares only widen the bound. */
  lemma WidenBound(d: real, p: real, q: real, p': real, q': real)
    requires Bounded(d, p, q) && p <= p' && q <= q'
    ensures Bounded(d, p', q')
  {
    ProductMonotone(p, p', q);
    ProductMonotone(q, q', p');
  }

  /** The mixed term of (x*y + d)^2 is covered by the mixed terms of (x*x + p)(y*y + q). */
  lemma CrossTerm(x: real, y: real, d: real, p: real, q: real)
    requires Bounded(d, p, q)
    ensures 2.0*(x*y)*d <= x*x*q + y*y*p
  {
    var s, t, w := x*x*q, y*y*p, 2.0*(x*y)*d;
    assert s + t >= 0.0 by {
      ProductMonotone(0.0, x*x, q);
      ProductMonotone(0.0, y*y, p);
    }
    assert w * w <= (s + t) * (s + t) by {
      var xy2 := (x*y)*(x*y);
      assert w * w == 4.0 * xy2 * (d * d);
      ProductMonotone(d*d, p*q, 4.0*xy2);
      assert 4.0 * xy2 * (p*q) == 4.0 * (s * t);
      SquareNonNegative(s - t);
      assert (s + t)*(s + t) - 4.0*(s*t) == (s - t)*(s - t);
    }
    RootBound(w, s + t);
  }

  /** One matched pair x, y on top of a tail already within the bound. */
  lemma ExtendBound(x: real, y: real, d: real, p: real, q: real, d': real, p': real, q': real)
    requires Bounded(d, p, q)
    requires d' == x*y + d && p' == x*x + p && q' == y*y + q
    ensures Bounded(d', p', q')
  {
    CrossTerm(x, y, d, p, q);
    Expand(x, y, d, p, q);
  }

  lemma Expand(x: real, y: real, d: real, p: real, q: real)
    ensures (x*y + d)*(x*y + d) == (x*x)*(y*y) + 2.0*(x*y)*d + d*d
    ensures (x*x + p)*(y*y + q) == (x*x)*(y*y) + (x*x*q + y*y*p) + p*q
  {
  }

  lemma SumSquaresHead(s: seq<Entry>)
    requires s != []
    ensures SumSquares(s) == s[0].val * s[0].val + SumSquares(s[1..]) >= SumSquares(s[1..])
  {
  }

  /** Cauchy-Schwarz for the merge, on any two lists, sorted or not. */
  lemma {:induction false} ScoreBound(a: seq<Entry>, b: seq<Entry>)
    ensures Bounded(MergeDot(a, b), SumSquares(a), SumSquares(b))
    decreases |a| + |b|
  {
    hide SumSquares, Bounded;
    if a == [] || b == [] {
      ZeroBounded(SumSquares(a), SumSquares(b));
    } else {
      SumSquaresHead(a);
      SumSquaresHead(b);
      if a[0].idx < b[0].idx {
        ScoreBound(a[1..], b);
        WidenBound(MergeDot(a, b), SumSquares(a[1..]), SumSquares(b), SumSquares(a), SumSquares(b));
      } else if a[0].idx > b[0].idx {
        ScoreBound(a, b[1..]);
        WidenBound(MergeDot(a, b), SumSquares(a), SumSquares(b[1..]), SumSquares(a), SumSquares(b));
      } else {
        ScoreBound(a[1..], b[1..]);
        ExtendBound(a[0].val, b[0].val, MergeDot(a[1..], b[1..]), SumSquares(a[1..]), SumSquares(b[1..]),
                    MergeDot(a, b), SumSquares(a), SumSquares(b));
      }
    }
  }

  /** `Vector.similarity` with the two magnitudes given; None where JavaScript divides by zero. */
  function Cosine(a: seq<Entry>, b: seq<Entry>, m: real, n: real): (c: Option<real>)
  {
    Quotient(MergeDot(a, b), m, n)
  }

  /** `d / (m * n)`. */
  function Quotient(d: real, m: real, n: real): (c: Option<real>)
  {
    if m * n == 0.0 then None else Some(d / (m * n))
  }

  /** The one fact about `Math.sqrt` the score needs. */
  ghost predicate IsRootOf(m: real, square: real) {
    m >= 0.0 && m * m == square
  }

  lemma RootOfProduct(m: real, n: real, p: real, q: real)
    requires IsRootOf(m, p) && IsRootOf(n, q)
    ensures IsRootOf(m * n, p * q)
  {
    assert (m * n) * (m * n) == (m * m) * (n * n);
  }

  lemma WithinRoot(d: real, k: real, square: real)
    requires IsRootOf(k, square) && d * d <= square
    ensures -k <= d <= k
  {
    RootBound(d, k);
    assert (-d) * (-d) == d * d;
    RootBound(-d, k);
  }

  ghost predicate IsSquareRoot(sqrt: real -> real) {
    forall x: real :: x >= 0.0 ==> IsRootOf(Apply(sqrt, x), x)
  }

  /** Dividing by the magnitudes gives a number in [-1, 1], and a zero denominator only ever meets a zero dot. */
  lemma SimilarityBound(a: seq<Entry>, b: seq<Entry>, m: real, n: real)
    requires IsRootOf(m, SumSquares(a)) && IsRootOf(n, SumSquares(b))
    ensures Cosine(a, b, m, n).Some? ==> -1.0 <= Cosine(a, b, m, n).value <= 1.0
    ensures Cosine(a, b, m, n).None? ==> MergeDot(a, b) == 0.0
  {
    hide MergeDot, SumSquares;
    var d, k := MergeDot(a, b), m * n;
    ScoreBound(a, b);
    RootOfProduct(m, n, SumSquares(a), SumSquares(b));
    WithinRoot(d, k, SumSquares(a) * SumSquares(b));
    if k != 0.0 {
      QuotientBound(d, k);
    }
  }

  /** The sum of squares is the dot product of a list with itself. */
  lemma {:induction false} DotWithSelf(s: seq<Entry>)
    ensures MergeDot(s, s) == SumSquares(s)
  {
    if s != [] {
      DotWithSelf(s[1..]);
    }
  }

  /** The quotient gives back the dot product. */
  lemma CosineTimes(a: seq<Entry>, b: seq<Entry>, m: real, n: real)
    ensures Cosine(a, b, m, n).Some? <==> m * n != 0.0
    ensures Cosine(a, b, m, n).Some? ==> Cosine(a, b, m, n).value * (m * n) == MergeDot(a, b)
  {
    hide MergeDot;
  }

  /** `c` is the cosine of the angle between two vectors: their dot product over the roots of those with themselves. */
  ghost predicate IsCosine(a: seq<Entry>, b: seq<Entry>, c: Option<real>) {
    exists m: real, n: real :: Roots(a, b, m, n)
      && (c.Some? <==> m * n != 0.0) && (c.Some? ==> c.value * (m * n) == MergeDot(a, b))
  }

  ghost predicate Roots(a: seq<Entry>, b: seq<Entry>, m: real, n: real) {
    m >= 0.0 && n >= 0.0 && m * m == MergeDot(a, a) && n * n == MergeDot(b, b)
  }

  lemma CosineIs(a: seq<Entry>, b: seq<Entry>, sqrt: real -> real)
    requires IsSquareRoot(sqrt)
    ensures IsCosine(a, b, Cosine(a, b, Apply(sqrt, SumSquares(a)), Apply(sqrt, SumSquares(b))))
  {
    hide MergeDot, Cosine, SumSquares;
    var m, n := Apply(sqrt, SumSquares(a)), Apply(sqrt, SumSquares(b));
    RootOfSquares(a, sqrt);
    RootOfSquares(b, sqrt);
    CosineTimes(a, b, m, n);
    assert Roots(a, b, m, n);
  }

  lemma RootOfSquares(s: seq<Entry>, sqrt: real -> real)
    requires IsSquareRoot(sqrt)
    ensures var m := Apply(sqrt, SumSquares(s)); m >= 0.0 && m * m == MergeDot(s, s)
  {
    hide MergeDot, SumSquares;
    DotWithSelf(s);
  }

  /** A vector with a component that is not 0 points its own way. */
  lemma SelfCosine(s: seq<Entry>, c: Option<real>)
    requires IsCosine(s, s, c) && exists k :: 0 <= k < |s| && s[k].val != 0.0
    ensures c == Some(1.0)
  {
    hide MergeDot;
    DotWithSelf(s);
    PositiveSquares(s);
    var m: real, n: real :| Roots(s, s, m, n)
      && (c.Some? <==> m * n != 0.0) && (c.Some? ==> c.value * (m * n) == MergeDot(s, s));
    RootsAgree(m, n);
    Whole(c, m * n, MergeDot(s, s));
  }

  lemma RootsAgree(m: real, n: real)
    requires m >= 0.0 && n >= 0.0 && m * m == n * n
    ensures m * n == m * m
  {
    RootBound(m, n);
    RootBound(n, m);
  }

  lemma Whole(c: Option<real>, k: real, d: real)
    requires k == d > 0.0 && (c.Some? <==> k != 0.0) && (c.Some? ==> c.value * k == d)
    ensures c == Some(1.0)
  {
    var more := c.value - 1.0;
    TimesDiffers(c.value, k);
    hide Times;
    if more > 0.0 {
      TimesPositive(more, k);
    } else if more < 0.0 {
      TimesPositive(-more, k);
    }
  }

  lemma TimesDiffers(v: real, k: real)
    ensures Times(v - 1.0, k) == v * k - k && Times(1.0 - v, k) == k - v * k
  {
  }

  lemma {:induction false} PositiveSquares(s: seq<Entry>)
    requires exists k :: 0 <= k < |s| && s[k].val != 0.0
    ensures SumSquares(s) > 0.0
  {
    hide SumSquares;
    TailSquares(s);
    if s[0].val == 0.0 {
      var k :| 0 <= k < |s| && s[k].val != 0.0;
      assert s[1..][k-1].val != 0.0;
      PositiveSquares(s[1..]);
    }
  }

  function Times(x: real, y: real): real {
    x * y
  }

  lemma TimesPositive(x: real, y: real)
    requires x > 0.0 && y > 0.0
    ensures Times(x, y) > 0.0
  {
  }

  lemma TimesSign(x: real)
    ensures Times(-x, -x) == Times(x, x) >= 0.0
  {
    assert (-x) * (-x) == x * x;
  }

  lemma HeadTimes(s: seq<Entry>)
    requires s != []
    ensures SumSquares(s) == Times(s[0].val, s[0].val) + SumSquares(s[1..])
  {
  }

  lemma TailSquares(s: seq<Entry>)
    requires s != []
    ensures SumSquares(s) >= SumSquares(s[1..]) >= 0.0 && (s[0].val != 0.0 ==> SumSquares(s) > 0.0)
  {
    var x := s[0].val;
    HeadTimes(s);
    hide Times;
    TimesSign(x);
    if x > 0.0 {
      TimesPositive(x, x);
    } else if x < 0.0 {
      TimesPositive(-x, -x);
    }
  }

  lemma QuotientBound(d: real, k: real)
    requires k > 0.0 && -k <= d <= k
    ensures -1.0 <= d / k <= 1.0
  {
    assert d / k <= k / k;
    assert (-k) / k <= d / k;
  }
}
