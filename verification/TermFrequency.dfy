/** The term frequencies `Index.add` stores, and where their total comes from. */
module TermFrequency {
  import opened Lex

  datatype Field = Field(name: string, boost: real)

  /** The tokens of each field of one document, by field name. */
  type FieldTokens = map<string, seq<string>>

  ghost predicate Covers(o: FieldTokens, fields: seq<Field>) {
    forall k :: 0 <= k < |fields| ==> fields[k].name in o
  }

  /** `filter(t => t === a).length`. */
  function Occurrences(a: string, tokens: seq<string>): (n: nat)
  {
    if tokens == [] then 0
    else Occurrences(a, tokens[..|tokens|-1]) + if tokens[|tokens|-1] == a then 1 else 0
  }

  function Share(i: real, n: real, boost: real): real
    requires n != 0.0
  {
    i / n * boost
  }

  /** The share of the field's tokens that are `a`, weighted; nothing for an empty field. */
  function FieldTf(f: Field, tokens: seq<string>, a: string): (w: real)
  {
    if tokens == [] then 0.0 else Share(Occurrences(a, tokens) as real, |tokens| as real, f.boost)
  }

  lemma {:induction false} OccurrencesPositive(a: string, tokens: seq<string>)
    ensures Occurrences(a, tokens) > 0 <==> a in tokens
    ensures Occurrences(a, tokens) <= |tokens|
  {
    if tokens != [] {
      assert tokens == tokens[..|tokens|-1] + [tokens[|tokens|-1]];
      OccurrencesPositive(a, tokens[..|tokens|-1]);
    }
  }

  lemma {:induction false} OccurrencesAreCount(a: string, tokens: seq<string>)
    ensures Occurrences(a, tokens) == multiset(tokens)[a]
  {
    if tokens != [] {
      assert tokens == tokens[..|tokens|-1] + [tokens[|tokens|-1]];
      OccurrencesAreCount(a, tokens[..|tokens|-1]);
    }
  }

  /** Each of the field's tokens counts for an equal part of the boost. */
  lemma FieldTfIs(f: Field, tokens: seq<string>, a: string)
    ensures FieldTf(f, tokens, a) * |tokens| as real == multiset(tokens)[a] as real * f.boost
  {
    OccurrencesAreCount(a, tokens);
    if tokens != [] {
      ShareTimes(multiset(tokens)[a] as real, |tokens| as real, f.boost);
    }
  }

  lemma ShareTimes(i: real, n: real, boost: real)
    requires n > 0.0
    ensures Share(i, n, boost) * n == i * boost
  {
    var q := i / n;
    assert q * n == i;
    assert q * boost * n == q * n * boost;
  }

  /** A field with a boost, which `field` sees to, counts for exactly the tokens it holds, and for its boost at most. */
  lemma FieldCounts(f: Field, tokens: seq<string>, a: string)
    requires f.boost != 0.0
    ensures FieldTf(f, tokens, a) != 0.0 <==> a in tokens
    ensures f.boost > 0.0 ==> 0.0 <= FieldTf(f, tokens, a) <= f.boost
  {
    hide Share;
    OccurrencesPositive(a, tokens);
    if tokens != [] {
      ShareOfBoost(Occurrences(a, tokens) as real, |tokens| as real, f.boost);
    }
  }

  lemma ShareOfBoost(i: real, n: real, boost: real)
    requires 0.0 <= i <= n && n > 0.0 && boost != 0.0
    ensures Share(i, n, boost) != 0.0 <==> i != 0.0
    ensures boost > 0.0 ==> 0.0 <= Share(i, n, boost) <= boost
  {
    var q := i / n;
    assert q * n == i;
    assert 0.0 <= q <= 1.0;
    Scale(q, boost);
  }

  lemma Scale(q: real, boost: real)
    requires 0.0 <= q <= 1.0 && boost != 0.0
    ensures q * boost != 0.0 <==> q != 0.0
    ensures boost > 0.0 ==> 0.0 <= q * boost <= boost
  {
    if boost > 0.0 {
      assert (1.0 - q) * boost >= 0.0;
    }
  }

  /** The `reduce` over the first `n` fields. */
  function Tf(fields: seq<Field>, o: FieldTokens, a: string, n: nat): (w: real)
    requires n <= |fields| && Covers(o, fields)
  {
    if n == 0 then 0.0 else Tf(fields, o, a, n - 1) + FieldTf(fields[n-1], o[fields[n-1].name], a)
  }

  /** The stored frequencies of `distinct`, over the first `n` fields, added up. */
  ghost function TotalTf(fields: seq<Field>, o: FieldTokens, distinct: seq<string>, n: nat): real
    requires n <= |fields| && Covers(o, fields)
  {
    if distinct == [] then 0.0 else Tf(fields, o, distinct[0], n) + TotalTf(fields, o, distinct[1..], n)
  }

  ghost function TotalFieldTf(f: Field, tokens: seq<string>, distinct: seq<string>): real
  {
    if distinct == [] then 0.0 else FieldTf(f, tokens, distinct[0]) + TotalFieldTf(f, tokens, distinct[1..])
  }

  /** How many of `tokens` the strings of `distinct` account for. */
  ghost function TotalOccurrences(distinct: seq<string>, tokens: seq<string>): nat
  {
    if distinct == [] then 0 else Occurrences(distinct[0], tokens) + TotalOccurrences(distinct[1..], tokens)
  }

  /** The boosts of the fields, among the first `n`, that have any token. */
  ghost function BoostOfNonEmpty(fields: seq<Field>, o: FieldTokens, n: nat): real
    requires n <= |fields| && Covers(o, fields)
  {
    if n == 0 then 0.0
    else BoostOfNonEmpty(fields, o, n - 1) + if o[fields[n-1].name] == [] then 0.0 else fields[n-1].boost
  }

  lemma {:induction false} NoneOfNothing(distinct: seq<string>)
    ensures TotalOccurrences(distinct, []) == 0
  {
    if distinct != [] {
      NoneOfNothing(distinct[1..]);
    }
  }

  /** One more token raises the total by one if it is among the distinct strings, and not otherwise. */
  lemma {:induction false} OneMore(distinct: seq<string>, tokens: seq<string>, x: string)
    requires Distinct(distinct)
    ensures TotalOccurrences(distinct, tokens + [x])
      == TotalOccurrences(distinct, tokens) + if x in distinct then 1 else 0
  {
    if distinct != [] {
      assert (tokens + [x])[..|tokens|] == tokens;
      assert distinct == [distinct[0]] + distinct[1..];
      OneMore(distinct[1..], tokens, x);
    }
  }

  /** Distinct strings that cover the tokens account for each token once: none missed, none twice. */
  lemma {:induction false} EveryTokenOnce(distinct: seq<string>, tokens: seq<string>)
    requires Distinct(distinct) && Range(tokens) <= Range(distinct)
    ensures TotalOccurrences(distinct, tokens) == |tokens|
  {
    if tokens == [] {
      NoneOfNothing(distinct);
    } else {
      var front, x := tokens[..|tokens|-1], tokens[|tokens|-1];
      assert tokens == front + [x];
      assert x in Range(tokens) && Range(front) <= Range(tokens);
      EveryTokenOnce(distinct, front);
      OneMore(distinct, front, x);
    }
  }

  lemma {:induction false} FieldShare(f: Field, tokens: seq<string>, distinct: seq<string>)
    ensures tokens == [] ==> TotalFieldTf(f, tokens, distinct) == 0.0
    ensures tokens != [] ==>
      TotalFieldTf(f, tokens, distinct) == Share(TotalOccurrences(distinct, tokens) as real, |tokens| as real, f.boost)
  {
    hide Share;
    NoShare(|tokens| as real, f.boost);
    if distinct != [] {
      FieldShare(f, tokens, distinct[1..]);
      if tokens != [] {
        AddShares(Occurrences(distinct[0], tokens) as real, TotalOccurrences(distinct[1..], tokens) as real,
                  |tokens| as real, f.boost);
      }
    }
  }

  lemma NoShare(n: real, boost: real)
    ensures n != 0.0 ==> Share(0.0, n, boost) == 0.0
  {
  }

  lemma AddShares(i: real, j: real, n: real, boost: real)
    requires n > 0.0
    ensures Share(i + j, n, boost) == Share(i, n, boost) + Share(j, n, boost)
  {
    assert (i + j) / n == i / n + j / n;
  }

  lemma {:induction false} OneMoreField(fields: seq<Field>, o: FieldTokens, distinct: seq<string>, n: nat)
    requires 0 < n <= |fields| && Covers(o, fields)
    ensures TotalTf(fields, o, distinct, n) ==
      TotalTf(fields, o, distinct, n - 1) + TotalFieldTf(fields[n-1], o[fields[n-1].name], distinct)
  {
    if distinct != [] {
      OneMoreField(fields, o, distinct[1..], n);
    }
  }

  lemma {:induction false} NoFields(fields: seq<Field>, o: FieldTokens, distinct: seq<string>)
    requires Covers(o, fields)
    ensures TotalTf(fields, o, distinct, 0) == 0.0
  {
    if distinct != [] {
      NoFields(fields, o, distinct[1..]);
    }
  }

  /**
   * Conservation: over the distinct tokens of a document the stored frequencies add up to the boosts
   * of its non-empty fields, exactly.
   */
  lemma {:induction false} Conservation(fields: seq<Field>, o: FieldTokens, distinct: seq<string>, n: nat)
    requires n <= |fields| && Covers(o, fields) && Distinct(distinct)
    requires forall k :: 0 <= k < n ==> Range(o[fields[k].name]) <= Range(distinct)
    ensures TotalTf(fields, o, distinct, n) == BoostOfNonEmpty(fields, o, n)
  {
    hide Share;
    if n == 0 {
      NoFields(fields, o, distinct);
    } else {
      var f, tokens := fields[n-1], o[fields[n-1].name];
      Conservation(fields, o, distinct, n - 1);
      OneMoreField(fields, o, distinct, n);
      FieldShare(f, tokens, distinct);
      EveryTokenOnce(distinct, tokens);
      if tokens != [] {
        WholeShare(|tokens| as real, f.boost);
      }
    }
  }

  lemma WholeShare(n: real, boost: real)
    requires n > 0.0
    ensures Share(n, n, boost) == boost
  {
  }
}
