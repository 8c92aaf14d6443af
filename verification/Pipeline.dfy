/** lunr.Pipeline: the chain of functions every token of a field or a query goes through. */
module Pipelines {
  import opened Wrappers

  /** A registered function sees the token, its position and all tokens; None is `undefined`. */
  type PipelineFunction = (string, nat, seq<string>) -> Option<string>

  /** A result that stops the chain and is not kept. */
  predicate Dropped(r: Option<string>) {
    r == None || r == Some("")
  }

  /** The token at `i` after the functions of `stack`, applied until one drops it. */
  function Through(stack: seq<PipelineFunction>, r: string, i: nat, tokens: seq<string>): (out: Option<string>)
  {
    if stack == [] then Some(r)
    else
      var next := stack[0](r, i, tokens);
      if Dropped(next) then next else Through(stack[1..], next.value, i, tokens)
  }

  /** The tokens that come out, in the order of the tokens they come from. */
  function Outcome(stack: seq<PipelineFunction>, tokens: seq<string>, n: nat): (out: seq<string>)
    requires n <= |tokens|
  {
    if n == 0 then []
    else
      var r := Through(stack, tokens[n-1], n - 1, tokens);
      Outcome(stack, tokens, n - 1) + if Dropped(r) then [] else [r.value]
  }

  lemma {:induction false} NeverEmptyToken(stack: seq<PipelineFunction>, tokens: seq<string>, n: nat)
    requires n <= |tokens|
    ensures "" !in Outcome(stack, tokens, n)
    ensures |Outcome(stack, tokens, n)| <= n
  {
    if n > 0 {
      NeverEmptyToken(stack, tokens, n - 1);
    }
  }

  /**
   * `ts` are the stages of the token at `i`: each function takes the stage before it to the next one, and
   * none drops it.
   */
  ghost predicate Chain(stack: seq<PipelineFunction>, i: nat, tokens: seq<string>, ts: seq<string>) {
    && |ts| == |stack| + 1
    && forall k :: 0 <= k < |stack| ==> Kept(stack[k], ts[k], i, tokens, ts[k+1])
  }

  ghost predicate Kept(f: PipelineFunction, before: string, i: nat, tokens: seq<string>, after: string) {
    f(before, i, tokens) == Some(after) && after != ""
  }

  /** The token at `i` comes out as `t`, which is not empty. */
  ghost predicate ComesOut(stack: seq<PipelineFunction>, tokens: seq<string>, i: nat, t: string) {
    && i < |tokens| && t != ""
    && exists ts :: Chain(stack, i, tokens, ts) && ts[0] == tokens[i] && ts[|stack|] == t
  }

  lemma {:induction false} ChainGoesThrough(stack: seq<PipelineFunction>, i: nat, tokens: seq<string>, ts: seq<string>)
    requires Chain(stack, i, tokens, ts)
    ensures Through(stack, ts[0], i, tokens) == Some(ts[|stack|])
  {
    if stack != [] {
      assert Kept(stack[0], ts[0], i, tokens, ts[1]);
      forall k | 0 <= k < |stack[1..]| ensures Kept(stack[1..][k], ts[1..][k], i, tokens, ts[1..][k+1]) {
        assert Kept(stack[k+1], ts[k+1], i, tokens, ts[k+2]);
      }
      ChainGoesThrough(stack[1..], i, tokens, ts[1..]);
    }
  }

  lemma {:induction false} ThroughIsChain(stack: seq<PipelineFunction>, r: string, i: nat, tokens: seq<string>,
                                          t: string) returns (ts: seq<string>)
    requires Through(stack, r, i, tokens) == Some(t) && t != ""
    ensures Chain(stack, i, tokens, ts) && ts[0] == r && ts[|stack|] == t
  {
    if stack == [] {
      ts := [r];
    } else {
      var next := stack[0](r, i, tokens);
      var rest := ThroughIsChain(stack[1..], next.value, i, tokens, t);
      ts := [r] + rest;
      forall k | 0 <= k < |stack| ensures Kept(stack[k], ts[k], i, tokens, ts[k+1]) {
        if k > 0 {
          assert Kept(stack[1..][k-1], rest[k-1], i, tokens, rest[k]);
        }
      }
    }
  }

  lemma ThroughComesOut(stack: seq<PipelineFunction>, tokens: seq<string>, i: nat, t: string)
    requires i < |tokens| && t != ""
    ensures Through(stack, tokens[i], i, tokens) == Some(t) <==> ComesOut(stack, tokens, i, t)
  {
    hide Kept, Through;
    if Through(stack, tokens[i], i, tokens) == Some(t) {
      var ts := ThroughIsChain(stack, tokens[i], i, tokens, t);
    }
    if ComesOut(stack, tokens, i, t) {
      var ts :| Chain(stack, i, tokens, ts) && ts[0] == tokens[i] && ts[|stack|] == t;
      ChainGoesThrough(stack, i, tokens, ts);
    }
  }

  /** What a run yields is exactly what some position of the input is taken to by all functions in turn. */
  lemma {:induction false} OutcomeMembers(stack: seq<PipelineFunction>, tokens: seq<string>, n: nat, t: string)
    requires n <= |tokens|
    ensures t in Outcome(stack, tokens, n) <==> exists i :: 0 <= i < n && ComesOut(stack, tokens, i, t)
  {
    hide Through, Chain;
    if n > 0 {
      OutcomeMembers(stack, tokens, n - 1, t);
      if t != "" {
        ThroughComesOut(stack, tokens, n - 1, t);
      }
    }
  }

  /** `out` lists, for the positions `from` in increasing order, what they come out as, and no other comes out. */
  ghost predicate Yields(stack: seq<PipelineFunction>, tokens: seq<string>, n: nat, out: seq<string>, from: seq<nat>) {
    && |from| == |out|
    && (forall k :: 0 <= k < |from| ==> from[k] < n && ComesOut(stack, tokens, from[k], out[k]))
    && (forall j, k :: 0 <= j < k < |from| ==> from[j] < from[k])
    && (forall i, t :: 0 <= i < n && ComesOut(stack, tokens, i, t) ==> i in from)
  }

  lemma {:induction false} OutcomeYields(stack: seq<PipelineFunction>, tokens: seq<string>, n: nat)
    returns (from: seq<nat>)
    requires n <= |tokens|
    ensures Yields(stack, tokens, n, Outcome(stack, tokens, n), from)
  {
    hide Through, ComesOut;
    if n == 0 {
      from := [];
    } else {
      var i := n - 1;
      var before := OutcomeYields(stack, tokens, i);
      var r := Through(stack, tokens[i], i, tokens);
      OnlyNonEmpty(stack, tokens, i);
      if Dropped(r) {
        from := before;
        forall t | ComesOut(stack, tokens, i, t) ensures false {
          ThroughComesOut(stack, tokens, i, t);
        }
      } else {
        from := before + [i];
        ThroughComesOut(stack, tokens, i, r.value);
        OneMoreYield(stack, tokens, i, Outcome(stack, tokens, i), before, r.value);
      }
    }
  }

  lemma OneMoreYield(stack: seq<PipelineFunction>, tokens: seq<string>, i: nat, out: seq<string>, from: seq<nat>,
                     t: string)
    requires Yields(stack, tokens, i, out, from) && ComesOut(stack, tokens, i, t)
    ensures Yields(stack, tokens, i + 1, out + [t], from + [i])
  {
    hide ComesOut;
    forall j, u | 0 <= j <= i && ComesOut(stack, tokens, j, u) ensures j in from + [i] {
      if j < i {
        assert j in from;
      }
    }
  }

  lemma OnlyNonEmpty(stack: seq<PipelineFunction>, tokens: seq<string>, i: nat)
    ensures forall t :: ComesOut(stack, tokens, i, t) ==> t != ""
  {
  }

  class Pipeline {
    var stack: seq<PipelineFunction>

    constructor ()
      ensures stack == []
    {
      stack := [];
    }

    method Add(f: PipelineFunction)
      modifies this
      ensures stack == old(stack) + [f]
    {
      stack := stack + [f];
    }

    method Run(tokens: seq<string>) returns (out: seq<string>)
      ensures out == Outcome(stack, tokens, |tokens|)
      ensures "" !in out && exists from :: Yields(stack, tokens, |tokens|, out, from)
    {
      out := [];
      for i := 0 to |tokens|
        invariant out == Outcome(stack, tokens, i)
      {
        var r := Some(tokens[i]);
        var s := 0;
        while s < |stack|
          invariant 0 <= s <= |stack| && r.Some?
          invariant Through(stack, tokens[i], i, tokens) == Through(stack[s..], r.value, i, tokens)
        {
          r := stack[s](r.value, i, tokens);
          if Dropped(r) {
            break;
          }
          assert stack[s..][1..] == stack[s+1..];
          s := s + 1;
        }
        if !Dropped(r) {
          out := out + [r.value];
        }
      }
      NeverEmptyToken(stack, tokens, |tokens|);
      var from := OutcomeYields(stack, tokens, |tokens|);
    }
  }
}
