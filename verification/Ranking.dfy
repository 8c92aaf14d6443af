/** The order in which `search` returns its hits. */
module Ranking {
  import opened Wrappers
  import opened Lex

  /** A ref and its score, which is undefined where the quotient behind it is 0 / 0. */
  datatype Hit = Hit(ref: string, score: Option<real>)

  ghost function Refs(hits: seq<Hit>): (refs: seq<string>)
  {
    seq(|hits|, i requires 0 <= i < |hits| => hits[i].ref)
  }

  /** The comparison puts `a` before `b`; it is neutral on ties and where a score is undefined. */
  predicate Outranks(a: Hit, b: Hit) {
    a.score.Some? && b.score.Some? && a.score.value > b.score.value
  }

  ghost predicate Scored(hits: seq<Hit>) {
    forall k :: 0 <= k < |hits| ==> hits[k].score.Some?
  }

  /** Higher scores first. */
  ghost predicate Descending(hits: seq<Hit>)
    requires Scored(hits)
  {
    forall i, j :: 0 <= i < j < |hits| ==> hits[i].score.value >= hits[j].score.value
  }

  /** `h` before the first hit it outranks. */
  function Placed(hits: seq<Hit>, h: Hit): (r: seq<Hit>)
  {
    if hits == [] || Outranks(h, hits[0]) then [h] + hits else [hits[0]] + Placed(hits[1..], h)
  }

  /** The hits sorted by score, the highest first. */
  function Ranked(hits: seq<Hit>): (r: seq<Hit>)
  {
    if hits == [] then [] else Placed(Ranked(hits[..|hits|-1]), hits[|hits|-1])
  }

  lemma {:induction false} PlacedKeeps(hits: seq<Hit>, h: Hit)
    ensures multiset(Placed(hits, h)) == multiset(hits) + multiset{h}
  {
    if hits != [] {
      assert hits == [hits[0]] + hits[1..];
      if !Outranks(h, hits[0]) {
        PlacedKeeps(hits[1..], h);
      }
    }
  }

  lemma {:induction false} PlacedRefs(hits: seq<Hit>, h: Hit)
    ensures multiset(Refs(Placed(hits, h))) == multiset(Refs(hits)) + multiset{h.ref}
  {
    hide Refs;
    if hits == [] || Outranks(h, hits[0]) {
      RefsCons(h, hits);
    } else {
      assert hits == [hits[0]] + hits[1..];
      RefsCons(hits[0], hits[1..]);
      RefsCons(hits[0], Placed(hits[1..], h));
      PlacedRefs(hits[1..], h);
    }
  }

  lemma RefsCons(h: Hit, hits: seq<Hit>)
    ensures Refs([h] + hits) == [h.ref] + Refs(hits)
  {
  }

  lemma {:induction false} PlacedDescends(hits: seq<Hit>, h: Hit)
    requires Scored(hits) && h.score.Some? && Descending(hits)
    ensures Scored(Placed(hits, h)) && Descending(Placed(hits, h))
  {
    if hits != [] && !Outranks(h, hits[0]) {
      PlacedDescends(hits[1..], h);
      PlacedKeeps(hits[1..], h);
      var r := Placed(hits[1..], h);
      forall k | 0 <= k < |r| ensures hits[0].score.value >= r[k].score.value {
        assert r[k] in multiset(r);
        if r[k] != h {
          assert r[k] in hits[1..];
        }
      }
    }
  }

  /** Sorting loses no hit and adds none, and puts higher scores first if all are defined. */
  lemma {:induction false} RankedIs(hits: seq<Hit>)
    ensures multiset(Ranked(hits)) == multiset(hits)
    ensures multiset(Refs(Ranked(hits))) == multiset(Refs(hits))
    ensures Scored(hits) ==> Scored(Ranked(hits)) && Descending(Ranked(hits))
  {
    if hits != [] {
      hide Placed;
      var k := |hits| - 1;
      assert hits == hits[..k] + [hits[k]];
      assert Refs(hits) == Refs(hits[..k]) + [hits[k].ref];
      RankedIs(hits[..k]);
      PlacedKeeps(Ranked(hits[..k]), hits[k]);
      PlacedRefs(Ranked(hits[..k]), hits[k]);
      if Scored(hits) {
        PlacedDescends(Ranked(hits[..k]), hits[k]);
      }
    }
  }

  /** Whether anything is listed twice can be told from the multiset. */
  lemma {:induction false} DistinctByCount(s: seq<string>)
    ensures Distinct(s) <==> forall x :: x in s ==> multiset(s)[x] == 1
  {
    if s != [] {
      var k := |s| - 1;
      assert s == s[..k] + [s[k]];
      DistinctByCount(s[..k]);
      assert multiset(s) == multiset(s[..k]) + multiset{s[k]};
      if Distinct(s) {
        Apart(s[..k], s[k]);
        assert s[k] !in multiset(s[..k]);
        forall x | x in s ensures multiset(s)[x] == 1 {
          assert x in s[..k] || x == s[k];
        }
      } else if Distinct(s[..k]) {
        assert s[k] in multiset(s[..k]) && multiset(s)[s[k]] > 1;
      } else {
        var x :| x in s[..k] && multiset(s[..k])[x] != 1;
        assert x in multiset(s[..k]) && multiset(s)[x] > 1;
      }
    }
  }

  lemma Apart(s: seq<string>, x: string)
    requires Distinct(s + [x])
    ensures Distinct(s) && x !in s
  {
    var all := s + [x];
    forall i | 0 <= i < |s| ensures s[i] != x {
      assert all[i] != all[|s|];
    }
    forall i, j | 0 <= i < j < |s| ensures s[i] != s[j] {
      assert all[i] != all[j];
    }
  }

  /** Sorting keeps every hit and every ref, and lists none twice. */
  lemma RankedHits(hits: seq<Hit>)
    ensures forall h :: h in Ranked(hits) <==> h in hits
    ensures forall r :: r in Refs(Ranked(hits)) <==> r in Refs(hits)
    ensures Distinct(Refs(hits)) ==> Distinct(Refs(Ranked(hits)))
    ensures (forall h :: h in hits ==> h.score.Some?) ==>
      forall i, j :: 0 <= i < j < |Ranked(hits)| ==>
        && Ranked(hits)[i].score.Some? && Ranked(hits)[j].score.Some?
        && Ranked(hits)[i].score.value >= Ranked(hits)[j].score.value
  {
    hide Ranked, Refs, Distinct;
    RankedIs(hits);
    assert forall h :: h in Ranked(hits) <==> h in multiset(Ranked(hits));
    assert forall r :: r in Refs(Ranked(hits)) <==> r in multiset(Refs(Ranked(hits)));
    DistinctByCount(Refs(hits));
    DistinctByCount(Refs(Ranked(hits)));
  }
}
