/** What the index means, on plain values: documents, postings, frequencies and search answers. */
module IndexLaws {
  import opened Wrappers
  import opened PlainObjects
  import opened Lex
  import opened TokenStores
  import opened TermFrequency

  /** The tokens of each stored document, sorted. */
  type Docs = map<string, seq<string>>

  /** The stored documents after `documentStore.set`. */
  function WithDoc(docs: Docs, ref: string, tokens: seq<string>): (r: Docs) {
    if ref == PROTO then docs else docs[ref := tokens]
  }

  /** The trie and the document store tell the same story. */
  ghost predicate Agree(docs: Docs, postings: Postings) {
    forall t, r :: (t, r) in postings <==> r in docs && t in docs[r]
  }

  /** Every stored token is in the corpus, and none is empty. */
  ghost predicate Covered(docs: Docs, corpus: seq<string>) {
    forall r, t :: r in docs && t in docs[r] ==> t in corpus && t != ""
  }

  lemma CoveredMore(docs: Docs, corpus: seq<string>, corpus': seq<string>, ref: string, tokens: seq<string>)
    requires Covered(docs, corpus) && Range(corpus') == Range(corpus) + Range(tokens) && "" !in tokens
    ensures Covered(WithDoc(docs, ref, tokens), corpus')
  {
    var docs' := WithDoc(docs, ref, tokens);
    forall r, t | r in docs' && t in docs'[r] ensures t in corpus' && t != "" {
      if r == ref && ref != PROTO { assert t in Range(tokens); } else { assert t in Range(corpus); }
      assert t in Range(corpus');
    }
  }

  lemma CoveredLess(docs: Docs, corpus: seq<string>, ref: string)
    requires Covered(docs, corpus)
    ensures Covered(docs - {ref}, corpus)
  {
    var docs' := docs - {ref};
    forall r, t | r in docs' && t in docs'[r] ensures t in corpus && t != "" {
      assert r in docs && t in docs[r];
    }
  }

  /** A posting is filed under the ref it carries. */
  ghost predicate FiledByRef(postings: Postings) {
    forall k :: k in postings ==> postings[k].ref == k.1
  }

  /** The strings that occur in any field. */
  ghost function AllTokens(o: FieldTokens): set<string>
  {
    set name, t | name in o && t in o[name] :: t
  }

  lemma NoTokens()
    ensures AllTokens(map[]) == {}
  {
  }

  lemma MoreTokens(o: FieldTokens, name: string, run: seq<string>)
    requires name in o ==> o[name] == run
    ensures AllTokens(o[name := run]) == AllTokens(o) + Range(run)
  {
    var o' := o[name := run];
    forall t | t in AllTokens(o) ensures t in AllTokens(o') {
      var n :| n in o && t in o[n];
      assert n in o' && t in o'[n];
    }
    forall t | t in run ensures t in AllTokens(o') {
      assert name in o' && t in o'[name];
    }
  }

  // ----- adding and removing a document -----

  /** The postings after the first `n` tokens of a new document have been written. */
  ghost function Posted(m: Postings, ref: string, tokens: seq<string>, n: nat, fields: seq<Field>,
                        o: FieldTokens): Postings
    requires n <= |tokens| && Covers(o, fields)
  {
    if n == 0 then m
    else
      var t := tokens[n-1];
      Put(Posted(m, ref, tokens, n - 1, fields, o), t, Posting(ref, Tf(fields, o, t, |fields|)))
  }

  lemma {:induction false} PostedIs(m: Postings, ref: string, tokens: seq<string>, n: nat, fields: seq<Field>,
                                    o: FieldTokens)
    requires n <= |tokens| && Covers(o, fields) && "" !in tokens && ref != PROTO
    ensures var p := Posted(m, ref, tokens, n, fields, o);
      && (forall t, r :: (t, r) in p <==> (t, r) in m || (r == ref && t in tokens[..n]))
      && (forall t, r :: (t, r) in p && r != ref ==> p[(t, r)] == m[(t, r)])
      && (forall t :: t in tokens[..n] ==> p[(t, ref)] == Posting(ref, Tf(fields, o, t, |fields|)))
      && (FiledByRef(m) ==> FiledByRef(p))
  {
    if n > 0 {
      hide Tf;
      PostedIs(m, ref, tokens, n - 1, fields, o);
      assert tokens[n-1] in tokens;
      assert tokens[..n] == tokens[..n-1] + [tokens[n-1]];
    }
  }

  lemma {:induction false} PostedNothing(m: Postings, tokens: seq<string>, n: nat, fields: seq<Field>, o: FieldTokens)
    requires n <= |tokens| && Covers(o, fields)
    ensures Posted(m, PROTO, tokens, n, fields, o) == m
  {
    if n > 0 {
      PostedNothing(m, tokens, n - 1, fields, o);
    }
  }

  /**
   * Adding a document keeps the agreement exactly when the ref is new or the new version still holds
   * every token of the old one: `add` writes postings and erases none.
   */
  lemma AddAgreesExactly(docs: Docs, m: Postings, ref: string, tokens: seq<string>, fields: seq<Field>, o: FieldTokens)
    requires Agree(docs, m) && Covers(o, fields) && "" !in tokens && PROTO !in docs
    ensures Agree(WithDoc(docs, ref, tokens), Posted(m, ref, tokens, |tokens|, fields, o))
      <==> ref !in docs || Range(docs[ref]) <= Range(tokens)
  {
    hide Posted;
    var docs', p := WithDoc(docs, ref, tokens), Posted(m, ref, tokens, |tokens|, fields, o);
    if ref == PROTO {
      PostedNothing(m, tokens, |tokens|, fields, o);
    } else {
      PostedIs(m, ref, tokens, |tokens|, fields, o);
      assert tokens[..|tokens|] == tokens;
      if ref in docs && !(Range(docs[ref]) <= Range(tokens)) {
        var t :| t in docs[ref] && t !in tokens;
        assert (t, ref) in m;
        assert (t, ref) in p && t !in docs'[ref];
      } else {
        forall t, r ensures (t, r) in p <==> r in docs' && t in docs'[r] {
          assert ref in docs ==> (t in docs[ref] ==> t in Range(docs[ref]));
        }
      }
    }
  }

  /** The frequencies filed for `ref` under `tokens`, added up. */
  ghost function StoredTf(m: Postings, ref: string, tokens: seq<string>): real
    requires forall t :: t in tokens ==> (t, ref) in m
  {
    if tokens == [] then 0.0 else m[(tokens[0], ref)].tf + StoredTf(m, ref, tokens[1..])
  }

  lemma {:induction false} StoredIsTotal(m: Postings, ref: string, tokens: seq<string>, fields: seq<Field>,
                                         o: FieldTokens)
    requires Covers(o, fields)
    requires forall t :: t in tokens ==> (t, ref) in m && m[(t, ref)].tf == Tf(fields, o, t, |fields|)
    ensures StoredTf(m, ref, tokens) == TotalTf(fields, o, tokens, |fields|)
  {
    if tokens != [] {
      StoredIsTotal(m, ref, tokens[1..], fields, o);
    }
  }

  /** What `add` files for a document adds up to the boosts of its non-empty fields. */
  lemma PostedConserves(m: Postings, ref: string, tokens: seq<string>, fields: seq<Field>, o: FieldTokens)
    requires Covers(o, fields) && Sorted(tokens) && Range(tokens) == AllTokens(o) && "" !in tokens && ref != PROTO
    ensures forall t :: t in tokens ==> (t, ref) in Posted(m, ref, tokens, |tokens|, fields, o)
    ensures StoredTf(Posted(m, ref, tokens, |tokens|, fields, o), ref, tokens) == BoostOfNonEmpty(fields, o, |fields|)
  {
    hide Posted, Tf, TotalTf, StoredTf, BoostOfNonEmpty;
    PostedIs(m, ref, tokens, |tokens|, fields, o);
    assert tokens[..|tokens|] == tokens;
    StoredIsTotal(Posted(m, ref, tokens, |tokens|, fields, o), ref, tokens, fields, o);
    SortedIsDistinct(tokens);
    forall k | 0 <= k < |fields| ensures Range(o[fields[k].name]) <= Range(tokens) {
      assert forall t :: t in o[fields[k].name] ==> t in AllTokens(o);
    }
    Conservation(fields, o, tokens, |fields|);
  }

  /** The postings left when those of `ref` under each of `tokens` are gone. */
  ghost function Erased(m: Postings, ref: string, tokens: seq<string>): Postings
  {
    m - set t | t in tokens :: (t, ref)
  }

  lemma ErasedIs(m: Postings, ref: string, tokens: seq<string>)
    ensures forall t, r :: (t, r) in Erased(m, ref, tokens) <==> (t, r) in m && !(r == ref && t in tokens)
    ensures forall k :: k in Erased(m, ref, tokens) ==> Erased(m, ref, tokens)[k] == m[k]
  {
  }

  /** All that follows for the two stores from adding a document. */
  lemma AdditionIs(docs: Docs, m: Postings, ref: string, tokens: seq<string>, fields: seq<Field>, o: FieldTokens)
    requires Agree(docs, m) && PROTO !in docs && Covers(o, fields)
    requires Sorted(tokens) && Range(tokens) == AllTokens(o) && "" !in tokens
    ensures Agree(WithDoc(docs, ref, tokens), Posted(m, ref, tokens, |tokens|, fields, o))
      <==> ref !in docs || Range(docs[ref]) <= Range(tokens)
    ensures ref != PROTO ==>
      (forall t :: t in tokens ==> (t, ref) in Posted(m, ref, tokens, |tokens|, fields, o))
      && StoredTf(Posted(m, ref, tokens, |tokens|, fields, o), ref, tokens) == BoostOfNonEmpty(fields, o, |fields|)
  {
    hide Agree, Sorted, Posted, StoredTf, BoostOfNonEmpty, AllTokens, WithDoc;
    AddAgreesExactly(docs, m, ref, tokens, fields, o);
    if ref != PROTO {
      PostedConserves(m, ref, tokens, fields, o);
    }
  }

  /** A removal that finds nothing stored leaves both stores. */
  lemma Untouched(docs: Docs, m: Postings, mid: Postings, ref: string)
    requires Agree(docs, m)
    requires forall t, r :: (t, r) in mid <==> (t, r) in m && r != ref
    requires forall t, r :: (t, r) in mid ==> mid[(t, r)] == m[(t, r)]
    ensures ref !in docs ==> docs - {ref} == docs && mid == m
  {
    if ref !in docs {
      forall k ensures k in mid <==> k in m {
        assert k == (k.0, k.1);
      }
      forall k | k in mid ensures mid[k] == m[k] {
        assert k == (k.0, k.1);
      }
    }
  }

  /** What a removal followed by an addition comes to. */
  lemma Updated(docs: Docs, m: Postings, mid: Postings, ref: string, tokens: seq<string>, fields: seq<Field>,
                o: FieldTokens)
    requires Agree(docs, m) && PROTO !in docs && Covers(o, fields) && "" !in tokens
    requires forall t, r :: (t, r) in mid <==> (t, r) in m && r != ref
    requires forall t, r :: (t, r) in mid ==> mid[(t, r)] == m[(t, r)]
    ensures WithDoc(docs - {ref}, ref, tokens) == WithDoc(docs, ref, tokens)
    ensures if ref == PROTO then Posted(mid, ref, tokens, |tokens|, fields, o) == m
      else Replaces(m, Posted(mid, ref, tokens, |tokens|, fields, o), ref, tokens, fields, o)
  {
    hide Posted, Replaces, Agree;
    if ref == PROTO {
      Untouched(docs, m, mid, ref);
      PostedNothing(mid, tokens, |tokens|, fields, o);
    } else {
      PostedReplaces(m, mid, ref, tokens, fields, o);
    }
  }

  /** `m'` is `m` with the postings of `ref` exchanged for those of a document with the given tokens. */
  ghost predicate Replaces(m: Postings, m': Postings, ref: string, tokens: seq<string>, fields: seq<Field>,
                           o: FieldTokens)
    requires Covers(o, fields)
  {
    && (forall t, r :: r != ref ==> ((t, r) in m' <==> (t, r) in m))
    && (forall t, r :: (t, r) in m' && r != ref ==> m'[(t, r)] == m[(t, r)])
    && (forall t :: (t, ref) in m' <==> t in tokens)
    && (forall t :: t in tokens ==> m'[(t, ref)] == Posting(ref, Tf(fields, o, t, |fields|)))
  }

  lemma PostedReplaces(m: Postings, mid: Postings, ref: string, tokens: seq<string>, fields: seq<Field>, o: FieldTokens)
    requires Covers(o, fields) && "" !in tokens && ref != PROTO
    requires forall t, r :: (t, r) in mid <==> (t, r) in m && r != ref
    requires forall t, r :: (t, r) in mid ==> mid[(t, r)] == m[(t, r)]
    ensures Replaces(m, Posted(mid, ref, tokens, |tokens|, fields, o), ref, tokens, fields, o)
  {
    hide Posted, Tf;
    PostedIs(mid, ref, tokens, |tokens|, fields, o);
    assert tokens[..|tokens|] == tokens;
  }

  lemma EraseNone(m: Postings, ref: string)
    ensures Erased(m, ref, []) == m
  {
  }

  /** In agreeing stores a ref is filed under its stored tokens and no others. */
  lemma AgreeOn(docs: Docs, m: Postings, ref: string)
    requires Agree(docs, m)
    ensures forall t :: (t, ref) in m <==> ref in docs && t in docs[ref]
  {
  }

  lemma EraseOne(m: Postings, ref: string, tokens: seq<string>, n: nat)
    requires n < |tokens|
    ensures Erased(m, ref, tokens[..n]) - {(tokens[n], ref)} == Erased(m, ref, tokens[..n+1])
  {
    assert tokens[..n+1] == tokens[..n] + [tokens[n]];
    ErasedIs(m, ref, tokens[..n]);
    ErasedIs(m, ref, tokens[..n+1]);
  }

  /** `tokens` are those stored under the ref; when none are, erasing finds nothing. */
  lemma RemoveAgrees(docs: Docs, m: Postings, ref: string, tokens: seq<string>)
    requires Agree(docs, m) && (ref in docs ==> tokens == docs[ref])
    ensures Agree(docs - {ref}, Erased(m, ref, tokens))
    ensures FiledByRef(m) ==> FiledByRef(Erased(m, ref, tokens))
    ensures forall t, r :: (t, r) in Erased(m, ref, tokens) <==> (t, r) in m && r != ref
  {
    ErasedIs(m, ref, tokens);
  }

  // ----- the weight of a token -----

  function IdfValue(log: real -> real, documents: int, holders: nat): (w: real)
  {
    if holders > 0 then 1.0 + Apply(log, documents as real / holders as real) else 1.0
  }

  /** 1 for a token that no document holds, and else 1 more than the logarithm of the documents for each holder. */
  lemma IdfIs(log: real -> real, documents: int, holders: nat, each: real)
    requires each * holders as real == documents as real
    ensures IdfValue(log, documents, holders) == if holders == 0 then 1.0 else 1.0 + log(each)
  {
    if holders > 0 {
      QuotientIs(documents as real, holders as real, each);
    }
  }

  lemma QuotientIs(d: real, h: real, q: real)
    requires h > 0.0 && q * h == d
    ensures d / h == q
  {
    assert (d / h) * h == d;
  }

  /** Where the logarithm increases, a token that fewer documents hold weighs more. */
  lemma RarerWeighsMore(log: real -> real, documents: nat, few: nat, many: nat)
    requires 0 < few < many && documents > 0
    requires forall x, y :: 0.0 < x < y ==> log(x) < log(y)
    ensures IdfValue(log, documents, few) > IdfValue(log, documents, many)
  {
    var d, f, m := documents as real, few as real, many as real;
    FewerEach(d, f, m);
    assert log(d / m) < log(d / f);
  }

  lemma FewerEach(d: real, f: real, m: real)
    requires d > 0.0 && 0.0 < f < m
    ensures 0.0 < d / m < d / f
  {
    var x, y := d / m, d / f;
    assert x * m == d && y * f == d;
    if x >= y {
      Larger(x, y, m, f);
    }
  }

  lemma Larger(x: real, y: real, m: real, f: real)
    requires x >= y > 0.0 && m > f > 0.0
    ensures x * m > y * f
  {
    assert x * m >= y * m;
    assert y * (m - f) > 0.0;
  }

  /** Weights by token. */
  type Weights = map<string, real>

  /** Every cached weight is the one of `n` documents with the postings `m`. */
  ghost predicate Current(cache: Weights, log: real -> real, n: int, m: Postings) {
    forall t :: t in cache ==> cache[t] == IdfValue(log, n, |DocsOf(m, t)|)
  }

  /** No cached weight is that of a token some document holds. */
  ghost predicate Unheld(cache: Weights, m: Postings) {
    forall t :: t in cache ==> |DocsOf(m, t)| == 0
  }

  /** The weight of a held token tells `n` documents from one fewer. */
  ghost predicate Separates(log: real -> real, n: int) {
    forall h: nat :: h > 0 ==> IdfValue(log, n, h) != IdfValue(log, n - 1, h)
  }

  /** As an injective function does; for two documents or more it is enough to be injective on positive numbers. */
  lemma InjectiveSeparates(log: real -> real, n: int)
    requires forall x, y :: x < y && (n >= 2 ==> 0.0 < x) ==> Apply(log, x) != Apply(log, y)
    ensures Separates(log, n)
  {
    forall h: nat | h > 0 ensures IdfValue(log, n, h) != IdfValue(log, n - 1, h) {
      FewerIsLess((n - 1) as real, n as real, h as real);
    }
  }

  lemma FewerIsLess(a: real, b: real, h: real)
    requires a < b && h > 0.0
    ensures a / h < b / h && (0.0 < a ==> 0.0 < a / h)
  {
    assert a / h * h == a && b / h * h == b;
  }

  /** When the count goes down by one and nothing else happens, only the weights of unheld tokens stay right. */
  lemma OneFewer(cache: Weights, log: real -> real, n: int, m: Postings)
    ensures Current(cache, log, n, m) ==>
      && (Unheld(cache, m) ==> Current(cache, log, n - 1, m))
      && (Separates(log, n) ==> (Current(cache, log, n - 1, m) <==> Unheld(cache, m)))
  {
  }

  /** Two documents, one of which holds the cached token: the weight is stale after a removal that throws. */
  lemma StaleWeight(log: real -> real) returns (cache: Weights, m: Postings)
    requires Separates(log, 2)
    ensures Current(cache, log, 2, m) && !Current(cache, log, 1, m)
  {
    m := map[("a", "d") := Posting("d", 1.0)];
    cache := map["a" := IdfValue(log, 2, 1)];
    assert DocsOf(m, "a") == map["d" := Posting("d", 1.0)];
    assert "a" in cache;
  }

  /** A component: frequency times weight. */
  function Scaled(tf: real, idf: real): (v: real)
  {
    tf * idf
  }

  // ----- the vector of a document -----

  /** Where a token stands in the corpus. */
  ghost function Rank(corpus: seq<string>, t: string): (k: nat)
    requires t in corpus
    ensures k < |corpus| && corpus[k] == t
  {
    var k :| 0 <= k < |corpus| && corpus[k] == t;
    k
  }

  lemma RankIs(corpus: seq<string>, t: string, k: nat)
    requires Sorted(corpus) && k < |corpus| && corpus[k] == t
    ensures Rank(corpus, t) == k
  {
    SortedIsDistinct(corpus);
  }

  /** Later tokens stand later in the corpus. */
  lemma RankGrows(corpus: seq<string>, t: string, u: string)
    requires Sorted(corpus) && t in corpus && u in corpus && Less(t, u)
    ensures Rank(corpus, t) < Rank(corpus, u)
  {
    var i, j := Rank(corpus, t), Rank(corpus, u);
    Irreflexive(t);
    if j < i {
      Transitive(t, u, t);
    }
  }

  // ----- search -----

  /** Document `r` holds a token that starts with `prefix`. */
  ghost predicate Holds(docs: Docs, r: string, prefix: string) {
    r in docs && exists t :: t in docs[r] && StartsWith(t, prefix)
  }

  /** The documents a query selects: for every query token, some token of the document starts with it. */
  ghost predicate Selected(docs: Docs, tokens: seq<string>, r: string) {
    tokens != [] && forall k :: 0 <= k < |tokens| ==> Holds(docs, r, tokens[k])
  }

  /** The documents filed under any of `tokens`. */
  ghost function Holders(postings: Postings, tokens: seq<string>): set<string>
  {
    set k | k in postings && k.0 in tokens :: k.1
  }

  lemma HoldersMore(postings: Postings, tokens: seq<string>, t: string)
    ensures Holders(postings, tokens + [t]) == Holders(postings, tokens) + DocsOf(postings, t).Keys
  {
    forall r | r in Holders(postings, tokens + [t]) ensures r in Holders(postings, tokens) + DocsOf(postings, t).Keys {
      var k :| k in postings && k.0 in tokens + [t] && k.1 == r;
      assert k == (k.0, r);
    }
    forall r | r in Holders(postings, tokens) + DocsOf(postings, t).Keys ensures r in Holders(postings, tokens + [t]) {
      if r in DocsOf(postings, t) {
        assert (t, r) in postings;
      }
    }
  }

  lemma HoldersNone(postings: Postings)
    ensures Holders(postings, []) == {}
  {
  }

  /** `xs` lists the tokens that start with `e` and have a document. */
  ghost predicate Expansion(postings: Postings, e: string, xs: seq<string>) {
    && Distinct(xs)
    && forall u :: u in xs <==> e != "" && StartsWith(u, e) && exists r :: (u, r) in postings
  }

  /** The documents filed under the expansion of a prefix are the documents that hold the prefix. */
  lemma HoldersOfExpansion(docs: Docs, postings: Postings, e: string, xs: seq<string>)
    requires Agree(docs, postings) && Expansion(postings, e, xs) && e != ""
    ensures forall r :: r in Holders(postings, xs) <==> Holds(docs, r, e)
  {
    forall r ensures r in Holders(postings, xs) <==> Holds(docs, r, e) {
      if r in Holders(postings, xs) {
        var k :| k in postings && k.0 in xs && k.1 == r;
        assert (k.0, r) in postings;
      }
      if Holds(docs, r, e) {
        var t :| t in docs[r] && StartsWith(t, e);
        assert (t, r) in postings;
      }
    }
  }

  /** When no query token leads anywhere in the trie, no document is selected. */
  lemma NothingSelected(docs: Docs, postings: Postings, tokens: seq<string>)
    requires Agree(docs, postings) && "" !in tokens
    requires forall k, u, r :: 0 <= k < |tokens| && (u, r) in postings ==> !StartsWith(u, tokens[k])
    ensures forall r :: !Selected(docs, tokens, r)
  {
    forall r ensures !Selected(docs, tokens, r) {
      if tokens != [] && r in docs {
        forall t | t in docs[r] ensures !StartsWith(t, tokens[0]) {
          assert (t, r) in postings;
        }
      }
      assert tokens != [] ==> !Holds(docs, r, tokens[0]);
    }
  }

  lemma SelectedAreStored(docs: Docs, tokens: seq<string>)
    ensures forall r :: Selected(docs, tokens, r) ==> r in docs
  {
    forall r | Selected(docs, tokens, r) ensures r in docs {
      assert Holds(docs, r, tokens[0]);
    }
  }

  /** The boosts of all fields, added up. */
  function BoostSum(fields: seq<Field>, n: nat): (b: real)
    requires n <= |fields|
  {
    if n == 0 then 0.0 else BoostSum(fields, n - 1) + fields[n-1].boost
  }

  /** The share of each of `n` query tokens: `1 / n * fields.length * boosts`. */
  function BaseWeight(fields: seq<Field>, n: nat): (b: real)
    requires n > 0
  {
    1.0 / n as real * |fields| as real * BoostSum(fields, |fields|)
  }

  /** The weight a query gives to the expansion `x` of its token `e`. */
  function Weight(e: string, x: string, base: real, idf: real, decay: int -> real): (w: real)
  {
    var longer := |x| - |e|;
    base * idf * (if x != e then Apply(decay, if longer > 3 then longer else 3) else 1.0)
  }

  /** An exact match keeps the whole weight; a longer token a part, by how much longer it is but at least 3. */
  lemma WeightIs(e: string, x: string, base: real, idf: real, decay: int -> real)
    ensures x == e ==> Weight(e, x, base, idf, decay) == base * idf
    ensures x != e && |x| <= |e| + 3 ==> Weight(e, x, base, idf, decay) == base * idf * decay(3)
    ensures x != e && |x| > |e| + 3 ==> Weight(e, x, base, idf, decay) == base * idf * decay(|x| - |e|)
  {
  }

  /** No token that a query token expands to weighs more than the same token asked for exactly. */
  lemma ExactWeighsMost(e: string, x: string, base: real, idf: real, decay: int -> real)
    requires base * idf >= 0.0 && forall d :: d >= 3 ==> 0.0 <= decay(d) <= 1.0
    ensures 0.0 <= Weight(e, x, base, idf, decay) <= Weight(x, x, base, idf, decay)
  {
    var w := base * idf;
    WeightScaled(e, x, base, idf, decay);
    WeightScaled(x, x, base, idf, decay);
    hide Weight, Scaled;
    PartOf(w, 1.0);
    if x != e {
      var d := if |x| > |e| + 3 then |x| - |e| else 3;
      assert 0.0 <= decay(d) <= 1.0;
      PartOf(w, decay(d));
    }
  }

  lemma WeightScaled(e: string, x: string, base: real, idf: real, decay: int -> real)
    ensures Weight(e, x, base, idf, decay)
      == Scaled(base * idf, if x == e then 1.0 else decay(if |x| > |e| + 3 then |x| - |e| else 3))
  {
  }

  lemma PartOf(w: real, part: real)
    requires w >= 0.0 && 0.0 <= part <= 1.0
    ensures 0.0 <= Scaled(w, part) <= w == Scaled(w, 1.0)
  {
    assert w * (1.0 - part) >= 0.0;
  }

  /** The `count` shares of a query add up to the boosts of all fields, times the number of fields. */
  lemma SharesAddUp(fields: seq<Field>, count: nat)
    requires count > 0
    ensures BaseWeight(fields, count) * count as real == |fields| as real * BoostSum(fields, |fields|)
  {
    SharesOf(count as real, |fields| as real, BoostSum(fields, |fields|));
  }

  lemma SharesOf(n: real, f: real, b: real)
    requires n > 0.0
    ensures 1.0 / n * f * b * n == f * b
  {
    var q := 1.0 / n;
    assert q * n == 1.0;
    assert q * f * b * n == q * n * (f * b);
  }

  /** The boosts a query adds up are those a document's frequencies add up to when none of its fields is empty. */
  lemma {:induction false} SameBoosts(fields: seq<Field>, o: FieldTokens, n: nat)
    requires n <= |fields| && Covers(o, fields) && forall k :: 0 <= k < n ==> o[fields[k].name] != []
    ensures BoostSum(fields, n) == BoostOfNonEmpty(fields, o, n)
  {
    if n > 0 {
      SameBoosts(fields, o, n - 1);
    }
  }

  /** The lengths of the lists, added up. */
  function Sizes(plan: seq<seq<string>>): (n: nat)
  {
    if plan == [] then 0 else Sizes(plan[..|plan|-1]) + |plan[|plan|-1]|
  }
}
