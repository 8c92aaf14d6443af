/** lunr.TokenStore: a character trie whose nodes carry the documents that hold the spelled token. */
module TokenStores {
  import opened Wrappers
  import opened PlainObjects
  import opened Lex

  datatype Posting = Posting(ref: string, tf: real)

  /** The simple store the trie stands for: one posting per (token, ref), the last one written. */
  type Postings = map<(string, string), Posting>

  /** The part of the simple store that belongs to one token, keyed by ref. */
  ghost function DocsOf(m: Postings, t: string): (d: map<string, Posting>)
    ensures forall r :: r in d <==> (t, r) in m
    ensures forall r :: r in d ==> d[r] == m[(t, r)]
  {
    assert forall r :: (t, r) in m ==> (t, r).0 == t;
    var refs := set k | k in m && k.0 == t :: k.1;
    map r | r in refs && (t, r) in m :: m[(t, r)]
  }

  /**
   * The simple store after `add`. Nothing is ever read back of the empty token, or of a ref that only
   * replaces the prototype of a node's documents.
   */
  function Put(m: Postings, t: string, e: Posting): (r: Postings) {
    if t == "" || e.ref == PROTO then m else m[(t, e.ref) := e]
  }

  lemma DocsOfAdd(m: Postings, t: string, e: Posting)
    requires t != ""
    ensures DocsOf(Put(m, t, e), t) == if e.ref == PROTO then DocsOf(m, t) else DocsOf(m, t)[e.ref := e]
  {
  }

  lemma DocsOfRemove(m: Postings, t: string, ref: string)
    ensures DocsOf(m - {(t, ref)}, t) == DocsOf(m, t) - {ref}
  {
  }

  /** A call of `add` or `remove`. */
  datatype Write = Added(t: string, e: Posting) | Removed(t: string, ref: string)

  /** The simple store after a sequence of calls. */
  ghost function Replay(ws: seq<Write>): Postings
  {
    if ws == [] then map[]
    else
      match ws[|ws|-1]
      case Added(t, e) => Put(Replay(ws[..|ws|-1]), t, e)
      case Removed(t, ref) => Replay(ws[..|ws|-1]) - {(t, ref)}
  }

  /** What the latest call about (t, ref) says of it. */
  function LastWrite(ws: seq<Write>, t: string, ref: string): (p: Option<Posting>)
  {
    if ws == [] then None
    else
      match ws[|ws|-1]
      case Added(u, e) => if u == t && e.ref == ref then Some(e) else LastWrite(ws[..|ws|-1], t, ref)
      case Removed(u, r) => if u == t && r == ref then None else LastWrite(ws[..|ws|-1], t, ref)
  }

  /** Over any history, a pair is in the store exactly when its latest call was an add, with the posting it brought. */
  lemma {:induction false} LastWriteWins(ws: seq<Write>, t: string, ref: string)
    ensures (t, ref) in Replay(ws) <==> t != "" && ref != PROTO && LastWrite(ws, t, ref).Some?
    ensures (t, ref) in Replay(ws) ==> LastWrite(ws, t, ref) == Some(Replay(ws)[(t, ref)])
  {
    if ws != [] {
      LastWriteWins(ws[..|ws|-1], t, ref);
    }
  }

  /** The two stores differ at most in the documents of `t`. */
  ghost predicate SameBut(m: Postings, m': Postings, t: string) {
    && (forall u, r :: u != t ==> ((u, r) in m <==> (u, r) in m'))
    && (forall u, r :: u != t && (u, r) in m ==> m[(u, r)] == m'[(u, r)])
  }

  lemma PutElsewhere(m: Postings, t: string, e: Posting)
    ensures SameBut(Put(m, t, e), m, t)
  {
  }

  /** `u` spells on from `t`. */
  predicate StartsWith(u: string, t: string) {
    t <= u
  }

  function Snoc(p: string, c: char): string {
    p + [c]
  }

  ghost function Front(p: string): string
    requires p != ""
  {
    p[..|p|-1]
  }

  ghost function Last(p: string): char
    requires p != ""
  {
    p[|p|-1]
  }

  lemma SnocParts(p: string, c: char)
    ensures Snoc(p, c) != "" && Front(Snoc(p, c)) == p && Last(Snoc(p, c)) == c
  {
  }

  lemma TakeSnoc(t: string, n: nat)
    requires n < |t|
    ensures t[..n+1] == Snoc(t[..n], t[n])
  {
  }

  class Node {
    var docs: map<string, Posting>
    var children: map<char, Node>

    constructor ()
      ensures docs == map[] && children == map[]
    {
      docs, children := map[], map[];
    }
  }

  class TokenStore {
    const root: Node
    var length: nat
    /** The documents under the root's empty key, which no walk follows. */
    var nameless: map<string, Posting>
    /** Every node of the trie under the string that leads to it. */
    ghost var nodes: map<string, Node>
    ghost var repr: set<Node>
    ghost var postings: Postings

    /** `nodes` is exactly the trie below `root`, and no node is shared. */
    ghost predicate IsTrie()
      reads this`nodes, this`repr, repr
    {
      && (forall p :: p in nodes ==> nodes[p] in repr)
      && "" in nodes && nodes[""] == root
      && (forall p, c {:trigger c in nodes[p].children} :: p in nodes && c in nodes[p].children ==>
            Snoc(p, c) in nodes && nodes[Snoc(p, c)] == nodes[p].children[c])
      && (forall p {:trigger Front(p)} :: p in nodes && p != "" ==>
            Front(p) in nodes && Last(p) in nodes[Front(p)].children)
      && (forall p, q :: p in nodes && q in nodes && p != q ==> nodes[p] != nodes[q])
    }

    ghost predicate Valid()
      reads this`nodes, this`repr, this`postings, repr
    {
      && IsTrie()
      && (forall t, r :: (t, r) in postings ==> t != "" && t in nodes && r in nodes[t].docs)
      && (forall t, r {:trigger nodes[t].docs[r]} {:trigger r in nodes[t].docs} :: t in nodes && r in nodes[t].docs ==>
            (t, r) in postings && postings[(t, r)] == nodes[t].docs[r])
    }

    constructor ()
      ensures Valid() && fresh(repr) && postings == map[] && length == 0
    {
      root := new Node();
      length := 0;
      nameless := map[];
      postings := map[];
      new;
      nodes, repr := map["" := root], {root};
      assert forall p :: p in nodes ==> p == "";
    }

    /** Some token with a document starts with `t`. */
    ghost predicate HasDocs(t: string)
      reads this`postings
    {
      exists r :: (t, r) in postings
    }

    lemma {:induction false} PrefixClosed(t: string, n: nat)
      requires IsTrie() && t in nodes && n <= |t|
      ensures t[..n] in nodes
      ensures n < |t| ==> t[n] in nodes[t[..n]].children
      decreases |t| - n
    {
      if n < |t| {
        PrefixClosed(t, n + 1);
        TakeSnoc(t, n);
        SnocParts(t[..n], t[n]);
      } else {
        assert t[..n] == t;
      }
    }

    lemma TrieRoot()
      requires Valid()
      ensures IsTrie() && "" in nodes && nodes[""] == root
      ensures forall p :: p in nodes ==> nodes[p] in repr
    {
    }

    /** One step of a walk along `t`: it lands on the next prefix, or `t` is not in the trie at all. */
    lemma WalkStep(t: string, i: nat)
      requires IsTrie() && i < |t| && t[..i] in nodes
      ensures t[i] in nodes[t[..i]].children ==> t[..i+1] in nodes && nodes[t[..i+1]] == nodes[t[..i]].children[t[i]]
      ensures t[i] !in nodes[t[..i]].children ==> t !in nodes
    {
      TakeSnoc(t, i);
      if t in nodes {
        PrefixClosed(t, i);
      }
    }

    lemma NodeDocs(t: string)
      requires Valid() && t != ""
      ensures DocsOf(postings, t) == if t in nodes then nodes[t].docs else map[]
    {
    }

    method Add(t: string, e: Posting)
      requires Valid()
      modifies this, repr
      ensures Valid() && fresh(repr - old(repr))
      ensures postings == Put(old(postings), t, e)
      ensures length == old(length) + 1
    {
      if t == "" {
        if e.ref != PROTO {
          nameless := nameless[e.ref := e];
        }
        length := length + 1;
      } else {
        assert "" + t == t;
        AddBelow(t, e, root, "");
      }
    }

    /** The recursive form of `add`, standing at node `n`, which spells `path`. */
    method AddBelow(t: string, e: Posting, n: Node, ghost path: string)
      requires Valid() && t != "" && path in nodes && nodes[path] == n && n in repr
      modifies this, repr
      ensures Valid() && fresh(repr - old(repr))
      ensures postings == Put(old(postings), path + t, e)
      ensures length == old(length) + 1
      decreases |t|
    {
      hide Valid, IsTrie, DocsOf, Put;
      var key, rest := t[0], t[1..];
      var child := Descend(n, path, key);
      ghost var at := Snoc(path, key);
      assert path + t == at + rest;
      if |rest| == 0 {
        assert path + t == at;
        NodeDocs(at);
        DocsOfAdd(postings, at, e);
        PutElsewhere(postings, at, e);
        SetDocs(child, at, if e.ref == PROTO then child.docs else child.docs[e.ref := e], Put(postings, at, e));
        length := length + 1;
      } else {
        AddBelow(rest, e, child, at);
      }
    }

    /** `o in n || (n[o] = {docs: {}})`, and then `n[o]`. */
    method Descend(n: Node, ghost path: string, key: char) returns (child: Node)
      requires Valid() && path in nodes && nodes[path] == n && n in repr
      modifies this`nodes, this`repr, n`children
      ensures Valid() && fresh(repr - old(repr)) && old(repr) <= repr
      ensures Snoc(path, key) in nodes && nodes[Snoc(path, key)] == child && child in repr
    {
      if key !in n.children {
        ghost var at := Snoc(path, key);
        SnocParts(path, key);
        assert at !in nodes;
        child := new Node();
        n.children := n.children[key := child];
        nodes, repr := nodes[at := child], repr + {child};
        forall p, c | p in nodes && c in nodes[p].children
          ensures Snoc(p, c) in nodes && nodes[Snoc(p, c)] == nodes[p].children[c]
        {
          SnocParts(p, c);
        }
      }
      child := n.children[key];
    }

    method Has(t: string) returns (b: bool)
      requires Valid()
      ensures b <==> t != "" && t in nodes
      ensures (exists u :: HasDocs(u) && StartsWith(u, t) && t != "") ==> b
    {
      var n := GetNode(t);
      b := n.Some?;
      if t != "" && exists u :: HasDocs(u) && StartsWith(u, t) {
        var u :| HasDocs(u) && StartsWith(u, t);
        PrefixClosed(u, |t|);
        assert u[..|t|] == t;
      }
    }

    /** None is the empty object the source returns when the walk falls off the trie. */
    method GetNode(t: string) returns (n: Option<Node>)
      requires Valid()
      ensures n.Some? <==> t != "" && t in nodes
      ensures n.Some? ==> n.value == nodes[t]
    {
      if t == "" {
        return None;
      }
      assert t[..0] == "";
      var e := root;
      for i := 0 to |t|
        invariant t[..i] in nodes && e == nodes[t[..i]]
      {
        WalkStep(t, i);
        if t[i] !in e.children {
          return None;
        }
        e := e.children[t[i]];
      }
      assert t[..|t|] == t;
      return Some(e);
    }

    method Get(t: string) returns (docs: map<string, Posting>)
      requires Valid()
      ensures docs == DocsOf(postings, t)
    {
      var n := GetNode(t);
      docs := if n.Some? then n.value.docs else map[];
    }

    method Count(t: string) returns (c: nat)
      requires Valid()
      ensures c == |DocsOf(postings, t)|
    {
      var docs := Get(t);
      c := |docs|;
    }

    method Remove(t: string, ref: string)
      requires Valid()
      modifies repr, this`postings
      ensures Valid() && length == old(length)
      ensures postings == old(postings) - {(t, ref)}
    {
      hide Valid, IsTrie;
      TrieRoot();
      if t == "" {
        Absent(t, ref);
        return;
      }
      var n := root;
      assert t[..0] == "";
      for i := 0 to |t|
        invariant t[..i] in nodes && n == nodes[t[..i]]
        modifies {}
      {
        WalkStep(t, i);
        if t[i] !in n.children {
          Absent(t, ref);
          return;
        }
        n := n.children[t[i]];
      }
      assert t[..|t|] == t;
      NodeDocs(t);
      DocsOfRemove(postings, t, ref);
      hide DocsOf;
      SetDocs(n, t, n.docs - {ref}, postings - {(t, ref)});
    }

    lemma Absent(t: string, ref: string)
      requires Valid() && (t == "" || t !in nodes)
      ensures postings - {(t, ref)} == postings
    {
      assert (t, ref) !in postings;
    }

    /** Replaces one node's documents; `m` is the simple store with the same replacement made. */
    method SetDocs(n: Node, ghost t: string, docs: map<string, Posting>, ghost m: Postings)
      requires Valid() && t != "" && t in nodes && nodes[t] == n
      requires DocsOf(m, t) == docs
      requires SameBut(m, postings, t)
      modifies n`docs, this`postings
      ensures Valid() && postings == m
    {
      n.docs := docs;
      postings := m;
    }

    /** The nodes at or below `t`; each step down the trie leaves `t` itself behind. */
    ghost function Below(t: string): set<string>
      reads this`nodes
    {
      set p | p in nodes && StartsWith(p, t)
    }

    /**
     * Appends to `e` every token at or below `t` that still has a document, each once.
     * The recursive calls push into the same list, so what they return may be dropped.
     */
    method Expand(t: string, e: seq<string>) returns (out: seq<string>, ghost added: seq<string>)
      requires Valid()
      ensures out == e + added && Distinct(added)
      ensures forall u :: u in added <==> t != "" && HasDocs(u) && StartsWith(u, t)
      ensures e == [] ==> Distinct(out) && forall u :: u in out <==> t != "" && HasDocs(u) && StartsWith(u, t)
      decreases Below(t)
    {
      hide Valid, IsTrie, Distinct, StartsWith, Snoc, Through, HasDocs;
      TrieRoot();
      out, added := e, [];
      EmptyDistinct(t);
      var node := GetNode(t);
      if node == None {
        NothingBelow(t);
        assert e + added == e;
        return;
      }
      var n := node.value;
      NodeDocs(t);
      if |n.docs| > 0 {
        out, added := e + [t], [t];
      }
      Documented(t);
      ThroughNone(t);
      var keys := n.children.Keys;
      ghost var done: set<char> := {};
      while keys != {}
        invariant keys <= n.children.Keys && done == n.children.Keys - keys
        invariant out == e + added && Distinct(added)
        invariant forall u :: u in added <==> HasDocs(u) && Through(u, t, done)
      {
        var c :| c in keys;
        Deeper(t, c);
        ghost var more;
        out, more := Expand(Snoc(t, c), out);
        ThroughMore(t, done, c);
        DistinctConcat(added, more);
        added := added + more;
        keys, done := keys - {c}, done + {c};
      }
      assert done == nodes[t].children.Keys;
      forall u | HasDocs(u) && StartsWith(u, t) ensures Through(u, t, done) {
        AllBelow(u, t);
      }
      assert e == [] ==> out == added;
    }

    lemma NothingBelow(t: string)
      requires Valid() && (t == "" || t !in nodes)
      ensures t != "" ==> forall u :: !(HasDocs(u) && StartsWith(u, t))
    {
      forall u | t != "" && HasDocs(u) && StartsWith(u, t) ensures false {
        AllBelow(u, t);
      }
    }

    lemma AllBelow(u: string, t: string)
      requires Valid() && HasDocs(u) && StartsWith(u, t)
      ensures t in nodes && Through(u, t, nodes[t].children.Keys)
    {
      PrefixClosed(u, |t|);
      assert u[..|t|] == t;
    }

    lemma Documented(t: string)
      requires Valid() && t != "" && t in nodes
      ensures HasDocs(t) <==> |nodes[t].docs| > 0
    {
      if |nodes[t].docs| > 0 {
        var r :| r in nodes[t].docs;
      }
    }

    lemma Deeper(t: string, c: char)
      requires Valid() && t in nodes && c in nodes[t].children
      ensures Below(Snoc(t, c)) < Below(t)
    {
      assert t in Below(t) && t !in Below(Snoc(t, c));
    }
  }

  /** `u` is `t`, or goes on from it with one of the characters in `cs`. */
  ghost predicate Through(u: string, t: string, cs: set<char>) {
    StartsWith(u, t) && (u == t || u[|t|] in cs)
  }

  lemma ThroughNone(t: string)
    ensures forall u :: Through(u, t, {}) <==> u == t
    ensures forall u, cs :: Through(u, t, cs) ==> StartsWith(u, t)
  {
  }

  lemma ThroughMore(t: string, cs: set<char>, c: char)
    ensures forall u :: Through(u, t, cs + {c}) <==> Through(u, t, cs) || StartsWith(u, Snoc(t, c))
    ensures c !in cs ==> forall u :: !(Through(u, t, cs) && StartsWith(u, Snoc(t, c)))
    ensures Snoc(t, c) != ""
  {
    forall u | StartsWith(u, t) && u != t ensures StartsWith(u, Snoc(t, c)) <==> u[|t|] == c {
      if u[|t|] == c {
        assert u[..|t|+1] == Snoc(t, c);
      }
    }
  }

  lemma EmptyDistinct<T>(x: T)
    ensures Distinct<T>([]) && Distinct([x])
  {
  }

  lemma DistinctConcat<T>(a: seq<T>, b: seq<T>)
    requires Distinct(a) && Distinct(b) && forall x :: x in a ==> x !in b
    ensures Distinct(a + b)
  {
    forall i, j | 0 <= i < |a| && 0 <= j < |b| ensures a[i] != b[j] {
      assert a[i] in a && b[j] in b;
    }
  }
}
