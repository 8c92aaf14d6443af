/** The order JavaScript's `<` and `>` give strings, and strictly increasing sequences. */
module Lex {
  /** Code-unit lexicographic order: a proper prefix comes first. */
  predicate Less(a: string, b: string) {
    b != "" && (a == "" || a[0] < b[0] || (a[0] == b[0] && Less(a[1..], b[1..])))
  }

  /** `a` and `b` agree up to `k`, where `a` ends first or has the smaller character. */
  ghost predicate LessAt(a: string, b: string, k: nat) {
    && k <= |a| && k < |b| && a[..k] == b[..k]
    && (k < |a| ==> a[k] < b[k])
  }

  lemma SameHead(a: string, b: string, k: nat)
    requires LessAt(a, b, k) && k > 0
    ensures a[0] == b[0] && LessAt(a[1..], b[1..], k - 1)
  {
    assert a[0] == a[..k][0] && b[0] == b[..k][0];
    assert a[1..][..k-1] == a[..k][1..] && b[1..][..k-1] == b[..k][1..];
  }

  /** The order is the usual one. */
  lemma {:induction false} LessIs(a: string, b: string)
    ensures Less(a, b) <==> exists k: nat :: LessAt(a, b, k)
  {
    forall k: nat | LessAt(a, b, k) && k > 0 ensures a[0] == b[0] && LessAt(a[1..], b[1..], k - 1) {
      SameHead(a, b, k);
    }
    if a != "" && b != "" && a[0] == b[0] {
      LessIs(a[1..], b[1..]);
      if Less(a, b) {
        var k: nat :| LessAt(a[1..], b[1..], k);
        assert a[..k+1] == [a[0]] + a[1..][..k] && b[..k+1] == [b[0]] + b[1..][..k];
        assert LessAt(a, b, k + 1);
      }
    } else if Less(a, b) {
      assert LessAt(a, b, 0);
    }
  }

  lemma {:induction false} Irreflexive(a: string)
    ensures !Less(a, a)
  {
    if a != "" {
      Irreflexive(a[1..]);
    }
  }

  lemma {:induction false} Transitive(a: string, b: string, c: string)
    requires Less(a, b) && Less(b, c)
    ensures Less(a, c)
  {
    if a != "" && a[0] == b[0] && b[0] == c[0] {
      Transitive(a[1..], b[1..], c[1..]);
    }
  }

  lemma {:induction false} Asymmetric(a: string, b: string)
    requires Less(a, b)
    ensures !Less(b, a) && a != b
  {
    if Less(b, a) {
      Transitive(a, b, a);
    }
    Irreflexive(a);
  }

  /** Together with Asymmetric: exactly one of the three comparisons holds. */
  lemma {:induction false} Total(a: string, b: string)
    ensures Less(a, b) || a == b || Less(b, a)
  {
    if a != "" && b != "" && a[0] == b[0] {
      Total(a[1..], b[1..]);
      assert a == [a[0]] + a[1..] && b == [b[0]] + b[1..];
    }
  }

  ghost predicate Sorted(s: seq<string>) {
    forall i, j :: 0 <= i < j < |s| ==> Less(s[i], s[j])
  }

  ghost function Range<T>(s: seq<T>): (r: set<T>)
  {
    set x | x in s
  }

  ghost predicate Distinct<T>(s: seq<T>) {
    forall i, j :: 0 <= i < j < |s| ==> s[i] != s[j]
  }

  lemma SortedIsDistinct(s: seq<string>)
    requires Sorted(s)
    ensures Distinct(s)
  {
    forall i, j | 0 <= i < j < |s| ensures s[i] != s[j] {
      Asymmetric(s[i], s[j]);
    }
  }

  /** A string below one element is below every later one. */
  lemma BelowSuffix(s: seq<string>, i: nat, x: string)
    requires Sorted(s) && i < |s| && (Less(x, s[i]) || x == s[i])
    ensures forall m :: i < m < |s| ==> Less(x, s[m])
    ensures x !in s[i+1..]
  {
    forall m | i < m < |s| ensures Less(x, s[m]) && x != s[m] {
      if x != s[i] { Transitive(x, s[i], s[m]); }
      Asymmetric(x, s[m]);
    }
  }

  /** A string above one element is above every earlier one. */
  lemma AbovePrefix(s: seq<string>, i: nat, x: string)
    requires Sorted(s) && i < |s| && (Less(s[i], x) || x == s[i])
    ensures forall m :: 0 <= m < i ==> Less(s[m], x)
    ensures x !in s[..i]
  {
    forall m | 0 <= m < i ensures Less(s[m], x) && x != s[m] {
      if x != s[i] { Transitive(s[m], s[i], x); }
      Asymmetric(s[m], x);
    }
  }

  /** Inserting where everything before is smaller and everything after larger keeps the order. */
  lemma InsertSorted(s: seq<string>, p: nat, x: string)
    requires Sorted(s) && p <= |s|
    requires p > 0 ==> Less(s[p-1], x)
    requires p < |s| ==> Less(x, s[p])
    ensures Sorted(s[..p] + [x] + s[p..])
    ensures Range(s[..p] + [x] + s[p..]) == Range(s) + {x}
  {
    hide Less;
    var r := s[..p] + [x] + s[p..];
    forall i, j | 0 <= i < j < |r| ensures Less(r[i], r[j]) {
      if j == p { AbovePrefix(s, p - 1, x); }
      if i == p { BelowSuffix(s, p, x); }
    }
    assert s == s[..p] + s[p..];
  }

  /** The least element of one sorted sequence is no smaller than that of any sorted sequence it is drawn from. */
  lemma HeadIsLeast(a: seq<string>, b: seq<string>)
    requires Sorted(b) && a != [] && a[0] in Range(b)
    ensures b != [] && !Less(a[0], b[0])
  {
    var k :| 0 <= k < |b| && b[k] == a[0];
    if k == 0 {
      Irreflexive(a[0]);
    } else {
      Asymmetric(b[0], b[k]);
    }
  }

  /** The set of elements determines the sorted array: equal ranges, equal arrays. */
  lemma {:induction false} SortedUnique(a: seq<string>, b: seq<string>)
    requires Sorted(a) && Sorted(b) && Range(a) == Range(b)
    ensures a == b
  {
    if b != [] {
      assert b[0] in Range(b);
    }
    if a != [] {
      HeadIsLeast(a, b);
      HeadIsLeast(b, a);
      Total(a[0], b[0]);
      BelowSuffix(a, 0, a[0]);
      BelowSuffix(b, 0, b[0]);
      assert Range(a[1..]) == Range(a) - {a[0]};
      assert Range(b[1..]) == Range(b) - {b[0]};
      SortedUnique(a[1..], b[1..]);
      assert a == [a[0]] + a[1..] && b == [b[0]] + b[1..];
    }
  }
}
