/** lunr.Index: documents in, ranked refs out. */
module Indexes {
  import opened Wrappers
  import opened PlainObjects
  import opened Lex
  import opened SortedSets
  import opened VectorLaws
  import opened Vectors
  import opened TokenStores
  import opened Stores
  import opened EventEmitters
  import opened Pipelines
  import opened TermFrequency
  import opened IndexLaws
  import opened Ranking

  datatype Document = Document(ref: string, texts: map<string, string>)

  const EVENTS: seq<string> := ["add", "remove", "update"]

  class Index {
    var fields: seq<Field>
    const pipeline: Pipeline
    const documentStore: Store
    const tokenStore: TokenStore
    const corpusTokens: SortedSet
    const eventEmitter: EventEmitter
    var idfCache: Weights

    /** `lunr.tokenizer`, `Math.log`, `Math.sqrt`, and `1 / Math.log(d)` for d of at least 3. */
    const tokenizer: string -> seq<string>
    const log: real -> real
    const sqrt: real -> real
    const decay: int -> real

    /** The token arrays of the document store, and the objects that hold them. */
    ghost var docs: Docs
    ghost var tokenSets: set<SortedSet>

    ghost predicate Stored()
      reads this`docs, this`tokenSets, documentStore, tokenSets
    {
      && documentStore.store.Keys == docs.Keys && PROTO !in docs
      && (forall r :: r in docs ==>
            && documentStore.store[r] in tokenSets
            && documentStore.store[r].Valid()
            && documentStore.store[r].elements == docs[r])
      && (documentStore.proto.Some? ==> documentStore.proto.value in tokenSets && documentStore.proto.value.Valid())
    }

    /** The parts are well formed and fit together; only the agreement of the two stores is left open. */
    ghost predicate WellFormed()
      reads this`docs, this`tokenSets, documentStore, tokenSets, corpusTokens, eventEmitter
      reads tokenStore, tokenStore.repr
    {
      && Stored()
      && corpusTokens !in tokenSets && corpusTokens.Valid()
      && tokenStore.Valid()
      && Covered(docs, corpusTokens.elements)
      && FiledByRef(tokenStore.postings)
      && eventEmitter.Valid()
    }

    /** Every event the index raises empties the idf cache first. */
    ghost predicate Clears()
      reads eventEmitter
    {
      forall k :: 0 <= k < |EVENTS| ==> eventEmitter.ClearsFirst(EVENTS[k])
    }

    /** The two stores agree besides; what is left open is the cache. */
    ghost predicate Sound()
      reads this`docs, this`tokenSets, documentStore, tokenSets, corpusTokens, eventEmitter
      reads tokenStore, tokenStore.repr
    {
      WellFormed() && Agree(docs, tokenStore.postings)
    }

    /** The weight `idf` would compute from scratch. */
    ghost function IdfOf(t: string): real
      reads documentStore`length, tokenStore`postings
    {
      IdfValue(log, documentStore.length, |DocsOf(tokenStore.postings, t)|)
    }

    /** No cached weight is stale. */
    ghost predicate Coherent()
      reads this`idfCache, documentStore`length, tokenStore`postings
    {
      Current(idfCache, log, documentStore.length, tokenStore.postings)
    }

    /** The cache a query starts from; one without a stale weight does what an empty one does. */
    ghost function Supply(): Weights
      reads this`idfCache, documentStore`length, tokenStore`postings
    {
      if Coherent() then map[] else idfCache
    }

    lemma SupplyServes()
      ensures Serves(Supply()) && (Coherent() ==> Supply() == map[])
    {
      CoherentServes();
    }

    /** The weight of `t` when `cache` is what has been cached. */
    ghost function Served(cache: Weights, t: string): real
      reads documentStore`length, tokenStore`postings
    {
      if t in cache then cache[t] else IdfOf(t)
    }

    /** The cache serves the weights it would serve if it were `cache`. */
    ghost predicate Serves(cache: Weights)
      reads this`idfCache, documentStore`length, tokenStore`postings
    {
      forall t :: Served(idfCache, t) == Served(cache, t)
    }

    /** A cache without a stale weight serves what an empty one would. */
    lemma CoherentServes()
      ensures Coherent() <==> Serves(map[])
    {
      if Serves(map[]) {
        forall t | t in idfCache ensures idfCache[t] == IdfOf(t) {
          assert Served(idfCache, t) == Served(map[], t);
        }
      }
    }

    ghost predicate Valid()
      reads this`docs, this`tokenSets, this`idfCache, documentStore, tokenSets, corpusTokens, eventEmitter
      reads tokenStore, tokenStore.repr
    {
      Sound() && Clears() && Coherent()
    }

    constructor (tokenizer: string -> seq<string>, log: real -> real, sqrt: real -> real, decay: int -> real)
      ensures Valid() && docs == map[] && fields == []
      ensures fresh(documentStore) && fresh(tokenStore) && fresh(tokenStore.repr) && fresh(corpusTokens)
      ensures fresh(eventEmitter) && fresh(pipeline)
    {
      hide Valid, TokenStore.Valid, SortedSet.Valid;
      this.tokenizer, this.log, this.sqrt, this.decay := tokenizer, log, sqrt, decay;
      fields := [];
      pipeline := new Pipeline();
      documentStore := new Store();
      tokenStore := new TokenStore();
      corpusTokens := new SortedSet();
      eventEmitter := new EventEmitter();
      idfCache := map[];
      docs, tokenSets := map[], {};
      new;
      AddOwnListener();
      EmptyIsValid();
    }

    lemma EmptyIsValid()
      requires docs == map[] && tokenSets == {} && idfCache == map[]
      requires documentStore.store == map[] && documentStore.proto == None
      requires corpusTokens.Valid() && eventEmitter.Valid() && Clears()
      requires tokenStore.Valid() && tokenStore.postings == map[]
      ensures Valid()
    {
      hide TokenStore.Valid, SortedSet.Valid;
    }

    method AddOwnListener()
      requires eventEmitter.Valid() && eventEmitter.events == map[]
      modifies eventEmitter
      ensures eventEmitter.Valid() && Clears()
    {
      hide Registered;
      EventsAreOwn();
      var _ := eventEmitter.AddListener(EVENTS, ClearIdfCache);
      assert forall k :: 0 <= k < |EVENTS| ==> EVENTS[k] in EVENTS;
    }

    static lemma EventsAreOwn()
      ensures Accepted(EVENTS) == EVENTS
      ensures forall k :: 0 <= k < |EVENTS| ==> !Inherited(EVENTS[k])
    {
      hide Inherited;
      forall k | 0 <= k < |EVENTS| ensures !Inherited(EVENTS[k]) {
        assert |EVENTS[k]| <= 6;
        if Inherited(EVENTS[k]) {
          InheritedAreLong(EVENTS[k]);
        }
      }
    }

    // ----- events -----

    /** Throws on inherited names. */
    method On(names: seq<string>, id: nat) returns (threw: bool)
      requires WellFormed()
      modifies eventEmitter
      ensures WellFormed() && (old(Clears()) ==> Clears()) && (old(Valid()) ==> Valid())
      ensures eventEmitter.events == Registered(old(eventEmitter.events), Accepted(names), Listener(id))
      ensures threw <==> exists n :: n in names && Inherited(n)
    {
      hide Registered, Stored, Inherited, Accepted;
      threw := eventEmitter.AddListener(names, Listener(id));
    }

    /** Keeps the cache rule exactly when `id` listens to `name` or some other handler stands behind the index's own. */
    method Off(name: string, id: nat) returns (threw: bool)
      requires WellFormed()
      modifies eventEmitter
      ensures WellFormed() && (old(Sound()) ==> Sound())
      ensures old(Clears()) ==> (Clears() <==>
        (name in EVENTS ==> Listener(id) in old(eventEmitter.events)[name] || |old(eventEmitter.events)[name]| > 1))
      ensures HandlersOf(eventEmitter.events, name) == if name in old(eventEmitter.events)
        then SpliceOne(old(eventEmitter.events)[name], IndexOf(old(eventEmitter.events)[name], Listener(id))) else []
      ensures forall n :: n != name ==> HandlersOf(eventEmitter.events, n) == HandlersOf(old(eventEmitter.events), n)
      ensures threw <==> Inherited(name)
    {
      hide Stored, Inherited;
      assert forall k :: 0 <= k < |EVENTS| ==> EVENTS[k] in EVENTS;
      assert Clears() && name in EVENTS ==> eventEmitter.ClearsFirst(name);
      threw := eventEmitter.RemoveListener(name, id);
    }

    /** Calls every handler of the event once, in the order they were added; throws on other inherited names. */
    method Emit(name: string) returns (threw: bool, called: seq<Handler>)
      modifies this`idfCache
      ensures threw <==> name !in eventEmitter.events && Inherited(name)
      ensures called == if name in eventEmitter.events then eventEmitter.events[name] else []
      ensures eventEmitter.ClearsFirst(name) ==> idfCache == map[]
      ensures idfCache == map[] || idfCache == old(idfCache)
    {
      threw := name !in eventEmitter.events && Inherited(name);
      called := [];
      if name in eventEmitter.events {
        var handlers := eventEmitter.events[name];
        for i := 0 to |handlers|
          invariant called == handlers[..i]
          invariant idfCache == map[] || idfCache == old(idfCache)
          invariant i > 0 && handlers[0] == ClearIdfCache ==> idfCache == map[]
        {
          if handlers[i] == ClearIdfCache {
            idfCache := map[];
          }
          called := called + [handlers[i]];
        }
      }
    }

    /** Raising one of the index's own events. */
    method Raise(k: nat) returns (called: seq<Handler>)
      requires k < |EVENTS|
      modifies this`idfCache
      ensures called == HandlersOf(eventEmitter.events, EVENTS[k])
      ensures Clears() ==> Coherent()
      ensures idfCache == map[] || idfCache == old(idfCache)
    {
      var threw;
      threw, called := Emit(EVENTS[k]);
    }

    // ----- analysis of a document -----

    /** `e.boost || 1`: a boost is never zero. */
    method AddField(name: string, boost: Option<real>)
      modifies this`fields
      ensures |fields| == |old(fields)| + 1 && old(fields) <= fields && fields[|fields|-1].name == name
      ensures fields[|fields|-1].boost != 0.0
      ensures boost != Some(0.0) ==> fields[|fields|-1].boost == if boost.Some? then boost.value else 1.0
      ensures boost == Some(0.0) ==> fields[|fields|-1].boost == 1.0
    {
      var b := if boost.Some? && boost.value != 0.0 then boost.value else 1.0;
      fields := fields + [Field(name, b)];
    }

    /** The tokens one text gives; an absent text gives none. */
    function Analysed(text: Option<string>): (tokens: seq<string>)
      reads pipeline
    {
      var raw := if text.Some? then tokenizer(text.value) else [];
      Outcome(pipeline.stack, raw, |raw|)
    }

    function TextOf(doc: Document, name: string): Option<string> {
      if name in doc.texts then Some(doc.texts[name]) else None
    }

    /** The tokens of the first `n` fields, by name. */
    ghost function FieldTokensOf(doc: Document, n: nat): (o: FieldTokens)
      requires n <= |fields|
      reads this`fields, pipeline
      ensures forall k :: 0 <= k < n ==> fields[k].name in o
      ensures forall name :: name in o ==> o[name] == Analysed(TextOf(doc, name))
    {
      if n == 0 then map[]
      else FieldTokensOf(doc, n - 1)[fields[n-1].name := Analysed(TextOf(doc, fields[n-1].name))]
    }

    /** The strings that occur in any of the fields. */
    ghost function TokensOf(doc: Document): set<string>
      reads this`fields, pipeline
    {
      AllTokens(FieldTokensOf(doc, |fields|))
    }

    /** Some token of `text` comes out of the pipeline as `t`. */
    ghost predicate Gives(text: string, t: string)
      reads pipeline
    {
      exists i :: ComesOut(pipeline.stack, tokenizer(text), i, t)
    }

    /** Some field of the document gives `t`; a field it lacks gives nothing. */
    ghost predicate InSomeField(doc: Document, t: string)
      reads this`fields, pipeline
    {
      exists k :: 0 <= k < |fields| && fields[k].name in doc.texts && Gives(doc.texts[fields[k].name], t)
    }

    lemma AnalysedIs(text: string)
      ensures Analysed(None) == []
      ensures forall t :: t in Analysed(Some(text)) <==> Gives(text, t)
    {
      hide ComesOut, Outcome;
      NothingComesOut();
      var raw := tokenizer(text);
      forall t ensures t in Analysed(Some(text)) <==> Gives(text, t) {
        OutcomeMembers(pipeline.stack, raw, |raw|, t);
        OnlyPositions(raw, t);
      }
    }

    lemma NothingComesOut()
      ensures Outcome(pipeline.stack, [], 0) == []
    {
    }

    lemma OnlyPositions(raw: seq<string>, t: string)
      ensures forall i: nat :: ComesOut(pipeline.stack, raw, i, t) ==> i < |raw|
    {
    }

    lemma TokensAre(doc: Document)
      ensures forall t :: t in TokensOf(doc) <==> InSomeField(doc, t)
    {
      hide Analysed, Gives;
      var o := FieldTokensOf(doc, |fields|);
      assert o.Keys == set k | 0 <= k < |fields| :: fields[k].name by {
        FieldNames(doc, |fields|);
      }
      forall t ensures t in TokensOf(doc) <==> InSomeField(doc, t) {
        if t in TokensOf(doc) {
          var name :| name in o && t in o[name];
          FieldGives(doc, name, t);
        }
        if InSomeField(doc, t) {
          var k :| 0 <= k < |fields| && fields[k].name in doc.texts && Gives(doc.texts[fields[k].name], t);
          FieldGives(doc, fields[k].name, t);
          assert t in o[fields[k].name];
        }
      }
    }

    lemma {:induction false} FieldNames(doc: Document, n: nat)
      requires n <= |fields|
      ensures FieldTokensOf(doc, n).Keys == set k | 0 <= k < n :: fields[k].name
    {
      hide Analysed;
      if n > 0 {
        FieldNames(doc, n - 1);
      }
    }

    lemma FieldGives(doc: Document, name: string, t: string)
      ensures t in Analysed(TextOf(doc, name)) <==> name in doc.texts && Gives(doc.texts[name], t)
    {
      hide Gives, Analysed;
      if name in doc.texts {
        AnalysedIs(doc.texts[name]);
      } else {
        AnalysedIs("");
      }
    }

    lemma FieldTokensStep(doc: Document, n: nat)
      requires n <= |fields|
      ensures FieldTokensOf(doc, n) == if n == 0 then map[]
        else FieldTokensOf(doc, n - 1)[fields[n-1].name := Analysed(TextOf(doc, fields[n-1].name))]
    {
    }

    method Analyse(text: Option<string>) returns (tokens: seq<string>)
      ensures tokens == Analysed(text) && "" !in tokens
      ensures text.Some? ==>
        exists from :: Yields(pipeline.stack, tokenizer(text.value), |tokenizer(text.value)|, tokens, from)
    {
      var raw := if text.Some? then tokenizer(text.value) else [];
      tokens := pipeline.Run(raw);
    }

    /** The first loop of `add`. */
    method AnalyseFields(doc: Document) returns (o: FieldTokens, tokens: SortedSet)
      ensures o == FieldTokensOf(doc, |fields|)
      ensures fresh(tokens) && tokens.Valid() && Range(tokens.elements) == TokensOf(doc)
      ensures Sorted(tokens.elements) && "" !in tokens.elements
      ensures forall t :: t in tokens.elements <==> InSomeField(doc, t)
    {
      TokensAre(doc);
      hide InSomeField;
      hide AllTokens, Analysed, Sorted, FieldTokensOf;
      o := map[];
      FieldTokensStep(doc, 0);
      NoTokens();
      tokens := new SortedSet();
      for i := 0 to |fields|
        invariant o == FieldTokensOf(doc, i)
        invariant fresh(tokens) && tokens.Valid()
        invariant Range(tokens.elements) == AllTokens(o)
        invariant "" !in Range(tokens.elements)
      {
        var f := fields[i];
        ghost var before := o;
        var run := Analyse(TextOf(doc, f.name));
        o := o[f.name := run];
        tokens.Add(run);
        FieldTokensStep(doc, i + 1);
        MoreTokens(before, f.name, run);
      }
    }

    // ----- add, remove, update -----

    /** `documentStore.set` and `corpusTokens.add`. */
    method File(ref: string, tokens: SortedSet)
      requires WellFormed()
      requires tokens.Valid() && tokens !in tokenSets && tokens != corpusTokens && "" !in tokens.elements
      modifies this`docs, this`tokenSets, documentStore, corpusTokens
      ensures WellFormed()
      ensures docs == WithDoc(old(docs), ref, tokens.elements) && tokenSets == old(tokenSets) + {tokens}
      ensures documentStore.Value() == Stores.Step(old(documentStore.Value()), Op.Set(ref))
      ensures Range(corpusTokens.elements) == old(Range(corpusTokens.elements)) + Range(tokens.elements)
    {
      hide TokenStore.Valid, Sorted, FiledByRef, Covered, EventEmitter.Valid, Stored, WithDoc, Stores.Step;
      ghost var corpus := corpusTokens.elements;
      Keep(ref, tokens);
      var all := tokens.ToArray();
      corpusTokens.Add(all);
      CoveredMore(old(docs), corpus, corpusTokens.elements, ref, tokens.elements);
    }

    /** `documentStore.set`. */
    method Keep(ref: string, tokens: SortedSet)
      requires Stored() && tokens.Valid()
      modifies this`docs, this`tokenSets, documentStore
      ensures Stored()
      ensures docs == WithDoc(old(docs), ref, tokens.elements) && tokenSets == old(tokenSets) + {tokens}
      ensures documentStore.Value() == Stores.Step(old(documentStore.Value()), Op.Set(ref))
    {
      hide SortedSet.Valid, Sorted, Stores.Step;
      documentStore.Set(ref, tokens);
      docs, tokenSets := WithDoc(docs, ref, tokens.elements), tokenSets + {tokens};
    }

    /** The `reduce` that computes one frequency. */
    method Frequency(o: FieldTokens, a: string) returns (c: real)
      requires Covers(o, fields)
      ensures c == Tf(fields, o, a, |fields|)
    {
      c := 0.0;
      for i := 0 to |fields|
        invariant c == Tf(fields, o, a, i)
      {
        var f := fields[i];
        var n := |o[f.name]|;
        if n != 0 {
          c := c + FieldTf(f, o[f.name], a);
        }
      }
    }

    /** The last loop of `add`. */
    method Post(ref: string, tokens: SortedSet, o: FieldTokens)
      requires WellFormed() && tokens.Valid() && "" !in tokens.elements && Covers(o, fields)
      modifies tokenStore, tokenStore.repr
      ensures WellFormed() && fresh(tokenStore.repr - old(tokenStore.repr))
      ensures tokenStore.postings
        == Posted(old(tokenStore.postings), ref, tokens.elements, |tokens.elements|, fields, o)
    {
      hide TokenStore.Valid, Sorted, Tf, Stored, Covered, EventEmitter.Valid;
      for s := 0 to tokens.length
        invariant tokenStore.Valid() && fresh(tokenStore.repr - old(tokenStore.repr))
        invariant tokenStore.postings == Posted(old(tokenStore.postings), ref, tokens.elements, s, fields, o)
      {
        var a := tokens.elements[s];
        var c := Frequency(o, a);
        tokenStore.Add(a, Posting(ref, c));
      }
      if ref == PROTO {
        PostedNothing(old(tokenStore.postings), tokens.elements, tokens.length, fields, o);
      } else {
        PostedIs(old(tokenStore.postings), ref, tokens.elements, tokens.length, fields, o);
      }
    }

    method Add(doc: Document, emit: bool) returns (ghost tokens: seq<string>, called: seq<Handler>)
      requires Sound()
      modifies this`docs, this`tokenSets, this`idfCache, documentStore, corpusTokens, tokenStore, tokenStore.repr
      ensures WellFormed() && (old(Clears()) ==> Clears())
      ensures fresh(tokenStore.repr - old(tokenStore.repr)) && fresh(tokenSets - old(tokenSets))
      ensures Sorted(tokens) && Range(tokens) == TokensOf(doc) && "" !in tokens
      ensures forall t :: t in tokens <==> InSomeField(doc, t)
      ensures Range(corpusTokens.elements) == old(Range(corpusTokens.elements)) + TokensOf(doc)
      ensures docs == WithDoc(old(docs), doc.ref, tokens)
      ensures docs == if doc.ref == "__proto__" then old(docs) else old(docs)[doc.ref := tokens]
      ensures documentStore.Value() == Stores.Step(old(documentStore.Value()), Op.Set(doc.ref))
      ensures tokenStore.postings
        == Posted(old(tokenStore.postings), doc.ref, tokens, |tokens|, fields, FieldTokensOf(doc, |fields|))
      ensures Agree(docs, tokenStore.postings) <==> doc.ref !in old(docs) || Range(old(docs)[doc.ref]) <= TokensOf(doc)
      ensures doc.ref != PROTO ==>
        (forall t :: t in tokens ==> (t, doc.ref) in tokenStore.postings)
        && StoredTf(tokenStore.postings, doc.ref, tokens)
          == BoostOfNonEmpty(fields, FieldTokensOf(doc, |fields|), |fields|)
      ensures emit && Clears() ==> Coherent()
      ensures !emit ==> idfCache == old(idfCache)
      ensures called == if emit then HandlersOf(eventEmitter.events, "add") else []
    {
      called := [];
      hide InSomeField;
      hide WellFormed, Posted, Agree, Sorted, FieldTokensOf, AllTokens, StoredTf, BoostOfNonEmpty, WithDoc, Stores.Step;
      hide Clears, Coherent;
      var o, tokenSet := AnalyseFields(doc);
      tokens := tokenSet.elements;
      Enter(doc.ref, tokenSet, o);
      if emit {
        called := Raise(0);
      }
    }

    /** The analysed document goes into both stores. */
    method Enter(ref: string, tokenSet: SortedSet, o: FieldTokens)
      requires Sound() && Covers(o, fields)
      requires tokenSet.Valid() && tokenSet !in tokenSets && tokenSet != corpusTokens
      requires Range(tokenSet.elements) == AllTokens(o) && "" !in tokenSet.elements
      modifies this`docs, this`tokenSets, documentStore, corpusTokens, tokenStore, tokenStore.repr
      ensures WellFormed() && fresh(tokenStore.repr - old(tokenStore.repr))
      ensures Range(corpusTokens.elements) == old(Range(corpusTokens.elements)) + Range(tokenSet.elements)
      ensures tokenSet.elements == old(tokenSet.elements) && tokenSets == old(tokenSets) + {tokenSet}
      ensures docs == WithDoc(old(docs), ref, tokenSet.elements)
      ensures docs == if ref == "__proto__" then old(docs) else old(docs)[ref := tokenSet.elements]
      ensures documentStore.Value() == Stores.Step(old(documentStore.Value()), Op.Set(ref))
      ensures tokenStore.postings
        == Posted(old(tokenStore.postings), ref, tokenSet.elements, |tokenSet.elements|, fields, o)
      ensures Agree(docs, tokenStore.postings) <==> ref !in old(docs) || Range(old(docs)[ref]) <= AllTokens(o)
      ensures ref != PROTO ==>
        (forall t :: t in tokenSet.elements ==> (t, ref) in tokenStore.postings)
        && StoredTf(tokenStore.postings, ref, tokenSet.elements) == BoostOfNonEmpty(fields, o, |fields|)
    {
      hide WellFormed, Posted, Agree, Sorted, AllTokens, StoredTf, BoostOfNonEmpty, WithDoc, Stores.Step;
      NoProto();
      WithDocIs(docs, ref);
      File(ref, tokenSet);
      Post(ref, tokenSet, o);
      AdditionIs(old(docs), old(tokenStore.postings), ref, tokenSet.elements, fields, o);
    }

    /** Where a removal from among `n` documents has thrown: the cache is stale if it has a weight of any held token. */
    ghost predicate StaleUnlessUnheld(n: int)
      reads this`idfCache, documentStore`length, tokenStore`postings
    {
      && (Unheld(idfCache, tokenStore.postings) ==> Coherent())
      && (Separates(log, n) ==> (Coherent() <==> Unheld(idfCache, tokenStore.postings)))
    }

    static lemma WithDocIs(docs: Docs, ref: string)
      ensures forall tokens ::
        WithDoc(docs, ref, tokens) == if ref == "__proto__" then docs else docs[ref := tokens]
    {
    }

    /** What a removal throws on: an inherited value that cannot be iterated over. */
    predicate Throws(ref: string)
      reads documentStore
    {
      && ref !in documentStore.store
      && Inherits(documentStore.proto.Some?, ref)
      && !(documentStore.proto.Some? && (ref == PROTO || ref == "elements"))
    }

    /**
     * Removes what is stored under the document's ref. An inherited name is taken for a stored ref: the
     * count goes down, and then the call mostly throws, before any event, which leaves stale weights behind
     * exactly when the cache has a weight of a token that some document holds.
     */
    method Remove(doc: Document, emit: bool) returns (threw: bool, called: seq<Handler>)
      requires Sound()
      modifies this`docs, this`idfCache, documentStore, tokenStore`postings, tokenStore.repr
      ensures Sound() && (old(Clears()) ==> Clears()) && tokenStore.repr == old(tokenStore.repr)
      ensures docs == old(docs) - {doc.ref}
      ensures documentStore.Value() == Stores.Step(old(documentStore.Value()), Op.Remove(doc.ref))
      ensures forall t, r :: (t, r) in tokenStore.postings <==> (t, r) in old(tokenStore.postings) && r != doc.ref
      ensures forall t, r :: (t, r) in tokenStore.postings ==>
        tokenStore.postings[(t, r)] == old(tokenStore.postings)[(t, r)]
      ensures threw <==> old(Throws(doc.ref))
      ensures !threw && emit && Clears() && old(Coherent()) ==> Coherent()
      ensures threw || !emit ==> idfCache == old(idfCache)
      ensures threw && old(Coherent()) ==> StaleUnlessUnheld(old(documentStore.length))
      ensures called == if emit && !threw && old(Known(documentStore.Value(), doc.ref))
        then HandlersOf(eventEmitter.events, "remove") else []
    {
      called := [];
      hide WellFormed, Agree, Sorted, IdfOf, Inherits, Stores.Step, Clears, Current, Throws, StaleUnlessUnheld, Unheld;
      threw := false;
      var ref := doc.ref;
      AgreeOn(docs, tokenStore.postings, ref);
      var known := Knows(ref);
      if known {
        var tokens := Fetch(ref);
        ThrowLowers(ref);
        assert tokens == None <==> old(Throws(ref));
        Unfile(ref);
        RemoveAgrees(old(docs), old(tokenStore.postings), ref, if tokens.Some? then tokens.value.elements else []);
        if tokens == None {
          EraseNone(tokenStore.postings, ref);
          ThrownStale(old(documentStore.length));
          return true, [];
        }
        Unpost(ref, tokens.value);
        ErasedIs(old(tokenStore.postings), ref, tokens.value.elements);
        if emit {
          called := Raise(1);
        }
      } else {
        Unknown(ref);
      }
    }

    /** `documentStore.has`. */
    method Knows(ref: string) returns (b: bool)
      requires WellFormed()
      ensures b <==> ref in docs || Inherits(documentStore.proto.Some?, ref)
      ensures b == Known(documentStore.Value(), ref)
    {
      b := documentStore.Has(ref);
    }

    /** `documentStore.get`, as far as it can be iterated over. */
    method Fetch(ref: string) returns (tokens: Option<SortedSet>)
      requires WellFormed() && (ref in docs || Inherits(documentStore.proto.Some?, ref))
      ensures tokens == None <==> Throws(ref)
      ensures tokens.Some? ==> tokens.value.Valid()
      ensures ref in docs ==> tokens.Some? && tokens.value.elements == docs[ref]
    {
      tokens := documentStore.Get(ref);
    }

    lemma ThrownStale(n: int)
      requires documentStore.length == n - 1
      ensures Current(idfCache, log, n, tokenStore.postings) ==> StaleUnlessUnheld(n)
    {
      OneFewer(idfCache, log, n, tokenStore.postings);
    }

    lemma ThrowLowers(ref: string)
      ensures Throws(ref) ==> Stores.Step(documentStore.Value(), Op.Remove(ref)).length == documentStore.length - 1
    {
    }

    lemma Unknown(ref: string)
      requires WellFormed() && ref !in docs && !Inherits(documentStore.proto.Some?, ref)
      ensures docs == docs - {ref} && !Throws(ref)
      ensures documentStore.Value() == Stores.Step(documentStore.Value(), Op.Remove(ref))
    {
    }

    lemma NoProto()
      requires WellFormed()
      ensures PROTO !in docs
      ensures forall r :: Throws(r) ==> r !in docs
    {
    }

    /** The removal inside an update: without an event, and where it throws without an effect on the documents. */
    method Withdraw(doc: Document) returns (threw: bool)
      requires Sound()
      modifies this`docs, this`idfCache, documentStore, tokenStore`postings, tokenStore.repr
      ensures Sound() && (old(Clears()) ==> Clears()) && tokenStore.repr == old(tokenStore.repr) && PROTO !in old(docs)
      ensures docs == old(docs) - {doc.ref}
      ensures documentStore.Value() == Stores.Step(old(documentStore.Value()), Op.Remove(doc.ref))
      ensures forall t, r :: (t, r) in tokenStore.postings <==> (t, r) in old(tokenStore.postings) && r != doc.ref
      ensures forall t, r :: (t, r) in tokenStore.postings ==>
        tokenStore.postings[(t, r)] == old(tokenStore.postings)[(t, r)]
      ensures threw <==> old(Throws(doc.ref))
      ensures threw ==> docs == old(docs) && tokenStore.postings == old(tokenStore.postings)
      ensures idfCache == old(idfCache)
      ensures threw && old(Coherent()) ==> StaleUnlessUnheld(old(documentStore.length))
    {
      hide WellFormed, Agree, Stores.Step, Clears;
      NoProto();
      var called;
      threw, called := Remove(doc, false);
      Untouched(old(docs), old(tokenStore.postings), tokenStore.postings, doc.ref);
    }

    /** A removal and an addition without events of their own; what the removal throws goes through. */
    method Update(doc: Document, emit: bool)
      returns (threw: bool, ghost tokens: seq<string>, called: seq<Handler>)
      requires Sound()
      modifies this`docs, this`tokenSets, this`idfCache, documentStore, corpusTokens, tokenStore, tokenStore.repr
      ensures Sound() && (old(Clears()) ==> Clears())
      ensures !threw && emit && Clears() ==> Coherent()
      ensures threw || !emit ==> idfCache == old(idfCache)
      ensures threw && old(Coherent()) ==> StaleUnlessUnheld(old(documentStore.length))
      ensures fresh(tokenStore.repr - old(tokenStore.repr)) && fresh(tokenSets - old(tokenSets))
      ensures threw <==> old(Throws(doc.ref))
      ensures threw ==>
        && docs == old(docs) && tokenStore.postings == old(tokenStore.postings)
        && documentStore.Value() == Stores.Step(old(documentStore.Value()), Op.Remove(doc.ref))
      ensures !threw ==>
        && Sorted(tokens) && Range(tokens) == TokensOf(doc) && docs == WithDoc(old(docs), doc.ref, tokens)
        && (forall t :: t in tokens <==> InSomeField(doc, t))
        && documentStore.Value()
          == Stores.Step(Stores.Step(old(documentStore.Value()), Op.Remove(doc.ref)), Op.Set(doc.ref))
        && if doc.ref == PROTO then tokenStore.postings == old(tokenStore.postings)
          else Replaces(old(tokenStore.postings), tokenStore.postings, doc.ref, tokens,
                        fields, FieldTokensOf(doc, |fields|))
      ensures called == if emit && !threw then HandlersOf(eventEmitter.events, "update") else []
    {
      hide InSomeField, WellFormed, Agree, Sorted, FieldTokensOf, TokensOf, Replaces, Stores.Step, Inherits, Throws;
      hide WithDoc, Clears, Coherent;
      tokens, called := [], [];
      threw := Withdraw(doc);
      if threw {
        return;
      }
      tokens := Reinstate(doc, old(docs), old(tokenStore.postings));
      if emit {
        called := Raise(2);
      }
    }

    /** The addition inside an update, to what the removal has left of `was` and `m`. */
    method Reinstate(doc: Document, ghost was: Docs, ghost m: Postings) returns (ghost tokens: seq<string>)
      requires Sound() && Agree(was, m) && PROTO !in was && docs == was - {doc.ref}
      requires forall t, r :: (t, r) in tokenStore.postings <==> (t, r) in m && r != doc.ref
      requires forall t, r :: (t, r) in tokenStore.postings ==> tokenStore.postings[(t, r)] == m[(t, r)]
      modifies this`docs, this`tokenSets, this`idfCache, documentStore, corpusTokens, tokenStore, tokenStore.repr
      ensures Sound() && (old(Clears()) ==> Clears()) && idfCache == old(idfCache)
      ensures fresh(tokenStore.repr - old(tokenStore.repr)) && fresh(tokenSets - old(tokenSets))
      ensures Sorted(tokens) && Range(tokens) == TokensOf(doc) && docs == WithDoc(was, doc.ref, tokens)
      ensures forall t :: t in tokens <==> InSomeField(doc, t)
      ensures documentStore.Value() == Stores.Step(old(documentStore.Value()), Op.Set(doc.ref))
      ensures if doc.ref == PROTO then tokenStore.postings == m
        else Replaces(m, tokenStore.postings, doc.ref, tokens, fields, FieldTokensOf(doc, |fields|))
    {
      hide InSomeField, WellFormed, Posted, Agree, Sorted, FieldTokensOf, TokensOf, StoredTf, BoostOfNonEmpty;
      hide Replaces, Stores.Step, Throws, WithDoc, Clears, Coherent;
      ghost var mid := tokenStore.postings;
      var called;
      tokens, called := Add(doc, false);
      Updated(was, m, mid, doc.ref, tokens, fields, FieldTokensOf(doc, |fields|));
    }

    method Unfile(ref: string)
      requires WellFormed()
      modifies this`docs, documentStore
      ensures WellFormed() && docs == old(docs) - {ref} && documentStore.proto == old(documentStore.proto)
      ensures documentStore.Value() == Stores.Step(old(documentStore.Value()), Op.Remove(ref))
    {
      hide Stored, TokenStore.Valid, FiledByRef, EventEmitter.Valid, SortedSet.Valid, Covered, Stores.Step;
      CoveredLess(docs, corpusTokens.elements, ref);
      Drop(ref);
    }

    /** `documentStore.remove`. */
    method Drop(ref: string)
      requires Stored()
      modifies this`docs, documentStore
      ensures Stored() && docs == old(docs) - {ref} && documentStore.proto == old(documentStore.proto)
      ensures documentStore.Value() == Stores.Step(old(documentStore.Value()), Op.Remove(ref))
    {
      hide SortedSet.Valid, Sorted, Stores.Step;
      documentStore.Remove(ref);
      docs := docs - {ref};
    }

    method Unpost(ref: string, tokens: SortedSet)
      requires WellFormed() && tokens.Valid()
      modifies tokenStore`postings, tokenStore.repr
      ensures WellFormed()
      ensures tokenStore.postings == Erased(old(tokenStore.postings), ref, tokens.elements)
    {
      hide TokenStore.Valid, Sorted, Stored, Covered, EventEmitter.Valid, Erased;
      ghost var m := tokenStore.postings;
      EraseNone(m, ref);
      assert tokens.elements[..0] == [];
      for s := 0 to |tokens.elements|
        invariant tokenStore.Valid()
        invariant tokenStore.postings == Erased(m, ref, tokens.elements[..s])
      {
        tokenStore.Remove(tokens.elements[s], ref);
        EraseOne(m, ref, tokens.elements, s);
      }
      assert tokens.elements[..|tokens.elements|] == tokens.elements;
      ErasedIs(m, ref, tokens.elements);
    }

    // ----- weights and vectors -----

    /** Serves a cached weight, or computes and caches it. */
    method Idf(t: string, ghost cache: Weights) returns (w: real)
      requires WellFormed() && Serves(cache)
      modifies this`idfCache
      ensures Serves(cache) && w == Served(cache, t)
      ensures old(Coherent()) ==> Coherent() && w == IdfOf(t)
      ensures t in old(idfCache) ==> w == old(idfCache)[t]
      ensures t !in old(idfCache) || old(Coherent()) ==>
        var n := |DocsOf(tokenStore.postings, t)|;
        w == if n == 0 then 1.0 else 1.0 + log(documentStore.length as real / n as real)
      ensures idfCache == old(idfCache)[t := w]
    {
      hide WellFormed, DocsOf;
      if t in idfCache {
        return idfCache[t];
      }
      var n := Holding(t);
      w := IdfValue(log, documentStore.length, n);
      idfCache := idfCache[t := w];
    }

    /** `tokenStore.count`. */
    method Holding(t: string) returns (n: nat)
      requires WellFormed()
      ensures n == |DocsOf(tokenStore.postings, t)|
    {
      n := tokenStore.Count(t);
    }

    /** The component a stored document has along one of its tokens. */
    ghost function DocEntry(cache: Weights, ref: string, t: string): Entry
      requires t in corpusTokens.elements && (t, ref) in tokenStore.postings
      reads this`docs, documentStore`length, tokenStore`postings, corpusTokens
    {
      Entry(Rank(corpusTokens.elements, t), Scaled(tokenStore.postings[(t, ref)].tf, Served(cache, t)))
    }

    /** Every token of a stored document has its place in the corpus and its posting. */
    ghost predicate Indexed(ref: string)
      reads this`docs, documentStore`length, tokenStore`postings, corpusTokens
    {
      ref in docs && Sorted(docs[ref]) && Sorted(corpusTokens.elements)
      && forall t :: t in docs[ref] ==> t in corpusTokens.elements && (t, ref) in tokenStore.postings
    }

    lemma IsIndexed(cache: Weights, ref: string)
      requires Sound() && ref in docs
      ensures Indexed(ref) && DocEntries(cache, ref, 0) == []
    {
    }

    ghost function DocEntries(cache: Weights, ref: string, n: nat): (s: seq<Entry>)
      requires Indexed(ref) && n <= |docs[ref]|
      reads this`docs, documentStore`length, tokenStore`postings, corpusTokens
      ensures |s| == n && forall k :: 0 <= k < n ==> s[k] == DocEntry(cache, ref, docs[ref][k])
    {
      if n == 0 then [] else DocEntries(cache, ref, n - 1) + [DocEntry(cache, ref, docs[ref][n-1])]
    }

    /** A document's components come out in strictly increasing corpus order. */
    lemma DocEntriesIncrease(cache: Weights, ref: string)
      requires Indexed(ref)
      ensures StrictByIdx(DocEntries(cache, ref, |docs[ref]|))
    {
      var els := docs[ref];
      forall i, j | 0 <= i < j < |els| ensures DocEntry(cache, ref, els[i]).idx < DocEntry(cache, ref, els[j]).idx {
        RankGrows(corpusTokens.elements, els[i], els[j]);
      }
    }

    /** For each token of the document, `s` has frequency times weight at the token's place in the corpus. */
    ghost predicate IsVectorOf(cache: Weights, ref: string, s: seq<Entry>)
      reads this`docs, documentStore`length, tokenStore`postings, corpusTokens
    {
      && ref in docs && |s| == |docs[ref]|
      && forall k :: 0 <= k < |s| ==>
        var t, e := docs[ref][k], s[k];
        && 0 <= e.idx < |corpusTokens.elements| && corpusTokens.elements[e.idx] == t
        && (t, ref) in tokenStore.postings && e.val == tokenStore.postings[(t, ref)].tf * Served(cache, t)
    }

    lemma DocEntriesAre(cache: Weights, ref: string)
      requires Indexed(ref)
      ensures IsVectorOf(cache, ref, DocEntries(cache, ref, |docs[ref]|))
    {
      hide Served;
    }

    method DocumentVector(ref: string, ghost cache: Weights) returns (v: Vector)
      requires Sound() && Serves(cache) && ref in docs
      modifies this`idfCache
      ensures Serves(cache) && fresh(v) && v.Valid() && fresh(v.nodes) && v.sqrt == sqrt
      ensures Indexed(ref) && v.Entries() == DocEntries(cache, ref, |docs[ref]|) && StrictByIdx(v.Entries())
      ensures IsVectorOf(cache, ref, v.Entries())
    {
      hide WellFormed, Agree, Serves, Indexed, StrictByIdx, Served, InsertEntry, DocEntry, DocEntries;
      hide Vector.Valid, Vector.Entries, Sorted, Throws, Inherits, IsVectorOf;
      IsIndexed(cache, ref);
      DocEntriesIncrease(cache, ref);
      DocEntriesAre(cache, ref);
      var found := Fetch(ref);
      var n := found.value;
      v := new Vector(sqrt);
      for r := 0 to n.length
        invariant n.elements == docs[ref]
        invariant fresh(v) && v.Valid() && fresh(v.nodes) && v.sqrt == sqrt
        invariant Serves(cache)
        invariant v.Entries() == DocEntries(cache, ref, r)
      {
        var rank, value := ComponentOf(ref, n.elements[r], cache);
        InsertNext(cache, ref, r);
        var _ := v.Insert(rank, value);
      }
    }

    /** One pass of `documentVector`'s loop, up to the insertion. */
    method ComponentOf(ref: string, s: string, ghost cache: Weights) returns (rank: int, value: real)
      requires WellFormed() && Serves(cache) && Indexed(ref) && s in docs[ref]
      modifies this`idfCache
      ensures Serves(cache) && Entry(rank, value) == DocEntry(cache, ref, s)
    {
      hide WellFormed, Serves, Served, Coherent, Current, Sorted;
      var postings := PostingsOf(s);
      var tf := postings[ref].tf;
      var idf := Idf(s, cache);
      rank := corpusTokens.IndexOf(s);
      RankIs(corpusTokens.elements, s, rank);
      value := Scaled(tf, idf);
    }

    /** `tokenStore.get`. */
    method PostingsOf(t: string) returns (d: map<string, Posting>)
      requires WellFormed()
      ensures d == DocsOf(tokenStore.postings, t)
    {
      d := tokenStore.Get(t);
    }

    lemma InsertNext(cache: Weights, ref: string, r: nat)
      requires Indexed(ref) && r < |docs[ref]|
      ensures InsertEntry(DocEntries(cache, ref, r), DocEntry(cache, ref, docs[ref][r]))
        == DocEntries(cache, ref, r + 1)
    {
      DocEntriesIncrease(cache, ref);
      var all, s := DocEntries(cache, ref, |docs[ref]|), DocEntries(cache, ref, r);
      forall j | 0 <= j < r ensures s[j].idx < all[r].idx {
        assert s[j] == all[j];
      }
      InsertLast(s, all[r]);
    }

    // ----- search -----

    /** The refs of the postings of `t`, gathered one key at a time. */
    method RefsUnder(t: string) returns (u: SortedSet)
      requires WellFormed()
      ensures fresh(u) && u.Valid() && Range(u.elements) == DocsOf(tokenStore.postings, t).Keys
    {
      hide WellFormed, DocsOf, Sorted;
      var h := PostingsOf(t);
      KeysAreRefs(t, h);
      u := new SortedSet();
      var keys := h.Keys;
      while keys != {}
        invariant keys <= h.Keys
        invariant fresh(u) && u.Valid() && Range(u.elements) == h.Keys - keys
      {
        var key :| key in keys;
        u.Add([h[key].ref]);
        keys := keys - {key};
      }
    }

    lemma KeysAreRefs(t: string, h: map<string, Posting>)
      requires WellFormed() && h == DocsOf(tokenStore.postings, t)
      ensures forall r :: r in h ==> h[r].ref == r
    {
    }

    /** The component the query gets for the expansion `x` of `e`, one of `count` query tokens. */
    ghost function QueryEntry(cache: Weights, e: string, count: nat, x: string): Entry
      requires count > 0 && x in corpusTokens.elements
      reads this`fields, documentStore`length, tokenStore`postings, corpusTokens
    {
      Entry(Rank(corpusTokens.elements, x), Weight(e, x, BaseWeight(fields, count), Served(cache, x), decay))
    }

    ghost function QueryEntries(cache: Weights, e: string, count: nat, xs: seq<string>, n: nat): (s: seq<Entry>)
      requires count > 0 && n <= |xs| && forall x :: x in xs ==> x in corpusTokens.elements
      reads this`fields, documentStore`length, tokenStore`postings, corpusTokens
    {
      if n == 0 then [] else QueryEntries(cache, e, count, xs, n - 1) + [QueryEntry(cache, e, count, xs[n-1])]
    }

    /** Documented tokens are in the corpus. */
    lemma ExpansionInCorpus(e: string, xs: seq<string>)
      requires Sound() && Expansion(tokenStore.postings, e, xs)
      ensures forall x :: x in xs ==> x in corpusTokens.elements
    {
    }

    /** `tokenStore.expand`. */
    method Expand(e: string) returns (xs: seq<string>)
      requires Sound()
      ensures Expansion(tokenStore.postings, e, xs)
      ensures forall x :: x in xs ==> x in corpusTokens.elements
    {
      ghost var added;
      xs, added := tokenStore.Expand(e, []);
      assert xs == added;
      ExpansionInCorpus(e, xs);
    }

    /** The `reduce` over the expansions of one query token. */
    method SearchToken(e: string, count: nat, query: Vector, ghost cache: Weights)
      returns (found: SortedSet, ghost xs: seq<string>)
      requires Sound() && Serves(cache) && query.Valid() && count > 0
      modifies this`idfCache, query, query.nodes
      ensures Serves(cache) && query.Valid() && fresh(set n | n in query.nodes && n !in old(query.nodes))
      ensures Expansion(tokenStore.postings, e, xs) && forall x :: x in xs ==> x in corpusTokens.elements
      ensures query.Entries() == InsertAll(old(query.Entries()), QueryEntries(cache, e, count, xs, |xs|))
      ensures fresh(found) && found.Valid() && Range(found.elements) == Holders(tokenStore.postings, xs)
    {
      hide WellFormed, Agree, Clears, Serves, Expansion, Holders, InsertEntry, InsertAll, Vector.Valid, DocsOf;
      hide QueryEntry, QueryEntries;
      NoQueryEntry(cache, query.Entries(), e, count);
      var expanded := Expand(e);
      xs := expanded;
      found := new SortedSet();
      HoldersNone(tokenStore.postings);
      assert xs[..0] == [];
      for i := 0 to |expanded|
        invariant Serves(cache) && query.Valid() && fresh(set n | n in query.nodes && n !in old(query.nodes))
        invariant query.Entries() == InsertAll(old(query.Entries()), QueryEntries(cache, e, count, xs, i))
        invariant fresh(found) && found.Valid() && Range(found.elements) == Holders(tokenStore.postings, xs[..i])
      {
        found := SearchExpansion(e, count, expanded[i], query, found, cache);
        assert xs[..i+1] == xs[..i] + [xs[i]];
        HoldersMore(tokenStore.postings, xs[..i], xs[i]);
        NextQueryEntry(cache, old(query.Entries()), e, count, xs, i);
      }
      assert xs[..|xs|] == xs;
    }

    lemma NoQueryEntry(cache: Weights, s: seq<Entry>, e: string, count: nat)
      requires count > 0
      ensures forall xs :: (forall x :: x in xs ==> x in corpusTokens.elements) ==>
        InsertAll(s, QueryEntries(cache, e, count, xs, 0)) == s
    {
    }

    lemma NextQueryEntry(cache: Weights, s: seq<Entry>, e: string, count: nat, xs: seq<string>, i: nat)
      requires count > 0 && i < |xs| && forall x :: x in xs ==> x in corpusTokens.elements
      ensures InsertAll(s, QueryEntries(cache, e, count, xs, i + 1))
        == InsertEntry(InsertAll(s, QueryEntries(cache, e, count, xs, i)), QueryEntry(cache, e, count, xs[i]))
    {
      var es := QueryEntries(cache, e, count, xs, i + 1);
      assert es[..|es|-1] == QueryEntries(cache, e, count, xs, i);
    }

    /** One pass of the `reduce`: the component goes into the query, the refs into the result. */
    method SearchExpansion(e: string, count: nat, x: string, query: Vector, found: SortedSet, ghost cache: Weights)
      returns (more: SortedSet)
      requires WellFormed() && Serves(cache) && query.Valid() && found.Valid()
      requires count > 0 && x in corpusTokens.elements
      modifies this`idfCache, query, query.nodes
      ensures Serves(cache) && query.Valid() && fresh(set n | n in query.nodes && n !in old(query.nodes))
      ensures query.Entries() == InsertEntry(old(query.Entries()), QueryEntry(cache, e, count, x))
      ensures fresh(more) && more.Valid()
      ensures Range(more.elements) == Range(found.elements) + DocsOf(tokenStore.postings, x).Keys
    {
      hide WellFormed, Serves, Served, DocsOf, InsertEntry, Vector.Valid, QueryEntry;
      var rank, value := QueryComponent(e, count, x, cache);
      if rank > -1 {
        var _ := query.Insert(rank, value);
      }
      var u := RefsUnder(x);
      more := found.Union(u);
    }

    method QueryComponent(e: string, count: nat, x: string, ghost cache: Weights) returns (rank: int, value: real)
      requires WellFormed() && Serves(cache) && x in corpusTokens.elements && count > 0
      modifies this`idfCache
      ensures Serves(cache) && Entry(rank, value) == QueryEntry(cache, e, count, x) && rank > -1
    {
      rank := RankOf(x);
      var idf := Idf(x, cache);
      value := Weight(e, x, BaseWeight(fields, count), idf, decay);
    }

    /** `corpusTokens.indexOf`. */
    method RankOf(x: string) returns (rank: int)
      requires WellFormed() && x in corpusTokens.elements
      ensures rank == Rank(corpusTokens.elements, x)
    {
      rank := corpusTokens.IndexOf(x);
      RankIs(corpusTokens.elements, x, rank);
    }

    /** `tokenStore.has`: false only when no posted token starts with `t`. */
    method KnowsToken(t: string) returns (b: bool)
      requires WellFormed() && t != ""
      ensures !b ==> forall u, r :: (u, r) in tokenStore.postings ==> !StartsWith(u, t)
    {
      b := tokenStore.Has(t);
      assert forall u, r :: (u, r) in tokenStore.postings ==> tokenStore.HasDocs(u);
    }

    /** `tokens.some(has)`. */
    method AnyKnown(tokens: seq<string>) returns (b: bool)
      requires Sound() && "" !in tokens
      ensures b ==> tokens != []
      ensures !b ==> forall r :: !Selected(docs, tokens, r)
    {
      hide WellFormed, StartsWith, Selected;
      for k := 0 to |tokens|
        invariant forall j, u, r :: 0 <= j < k && (u, r) in tokenStore.postings ==> !StartsWith(u, tokens[j])
      {
        var has := KnowsToken(tokens[k]);
        if has {
          return true;
        }
      }
      NothingSelected(docs, tokenStore.postings, tokens);
      b := false;
    }

    /** `lists.reduce((t, e) => t.intersect(e))`. */
    method IntersectAll(lists: seq<SortedSet>) returns (a: SortedSet)
      requires lists != [] && forall k :: 0 <= k < |lists| ==> lists[k].Valid()
      ensures a.Valid()
      ensures forall r :: r in a.elements <==> forall k :: 0 <= k < |lists| ==> r in Range(lists[k].elements)
    {
      hide Sorted;
      a := lists[0];
      for i := 1 to |lists|
        invariant a.Valid()
        invariant forall r :: r in Range(a.elements) <==> forall k :: 0 <= k < i ==> r in Range(lists[k].elements)
      {
        a := a.Intersect(lists[i]);
      }
      assert forall r :: r in Range(a.elements) <==> r in a.elements;
    }

    /** The expansions of every query token, in turn. */
    ghost predicate Planned(tokens: seq<string>, plan: seq<seq<string>>)
      reads tokenStore`postings, corpusTokens
    {
      |plan| <= |tokens| && forall k :: 0 <= k < |plan| ==>
        Expansion(tokenStore.postings, tokens[k], plan[k]) && forall x :: x in plan[k] ==> x in corpusTokens.elements
    }

    /** All components a query inserts, in order. */
    ghost function PlanEntries(cache: Weights, tokens: seq<string>, plan: seq<seq<string>>): (s: seq<Entry>)
      requires Planned(tokens, plan)
      reads this`fields, documentStore`length, tokenStore`postings, corpusTokens
    {
      if plan == [] then []
      else
        var k := |plan| - 1;
        PlanEntries(cache, tokens, plan[..k]) + QueryEntries(cache, tokens[k], |tokens|, plan[k], |plan[k]|)
    }

    /** The query vector they make. */
    ghost function QueryVector(cache: Weights, tokens: seq<string>, plan: seq<seq<string>>): (s: seq<Entry>)
      requires Planned(tokens, plan)
      reads this`fields, documentStore`length, tokenStore`postings, corpusTokens
    {
      InsertAll([], PlanEntries(cache, tokens, plan))
    }

    lemma {:induction false} QueryEntriesAt(cache: Weights, e: string, count: nat, xs: seq<string>, n: nat)
      requires count > 0 && n <= |xs| && forall x :: x in xs ==> x in corpusTokens.elements
      ensures var s := QueryEntries(cache, e, count, xs, n);
        |s| == n && forall k :: 0 <= k < n ==> s[k] == QueryEntry(cache, e, count, xs[k])
    {
      hide QueryEntry;
      if n > 0 {
        QueryEntriesAt(cache, e, count, xs, n - 1);
      }
    }

    /** The component that the expansion `x` of query token `k` brings: its place, and its share of the query. */
    ghost predicate IsComponent(cache: Weights, tokens: seq<string>, k: nat, x: string, q: Entry)
      reads this`fields, documentStore`length, tokenStore`postings, corpusTokens
    {
      && k < |tokens| && 0 <= q.idx < |corpusTokens.elements| && corpusTokens.elements[q.idx] == x
      && var longer := |x| - |tokens[k]|;
        q.val == BaseWeight(fields, |tokens|) * Served(cache, x)
          * if x == tokens[k] then 1.0 else if longer > 3 then decay(longer) else decay(3)
    }

    /** A query inserts a component for each expansion of each of its tokens, and nothing else. */
    lemma {:induction false} PlanEntriesAre(cache: Weights, tokens: seq<string>, plan: seq<seq<string>>)
      requires Planned(tokens, plan)
      ensures |PlanEntries(cache, tokens, plan)| == Sizes(plan)
      ensures forall q :: q in PlanEntries(cache, tokens, plan) ==>
        exists k, x :: 0 <= k < |plan| && x in plan[k] && IsComponent(cache, tokens, k, x, q)
      ensures forall k, x :: 0 <= k < |plan| && x in plan[k] ==>
        exists q :: q in PlanEntries(cache, tokens, plan) && IsComponent(cache, tokens, k, x, q)
    {
      hide IsComponent, QueryEntry, QueryEntries, Expansion;
      if plan != [] {
        var j := |plan| - 1;
        PlanEntriesAre(cache, tokens, plan[..j]);
        TokenEntriesAre(cache, tokens, j, plan[j]);
      }
    }

    lemma TokenEntriesAre(cache: Weights, tokens: seq<string>, k: nat, xs: seq<string>)
      requires k < |tokens| && forall x :: x in xs ==> x in corpusTokens.elements
      ensures var es := QueryEntries(cache, tokens[k], |tokens|, xs, |xs|);
        && |es| == |xs|
        && (forall q :: q in es ==> exists x :: x in xs && IsComponent(cache, tokens, k, x, q))
        && (forall x :: x in xs ==> exists q :: q in es && IsComponent(cache, tokens, k, x, q))
    {
      hide IsComponent, QueryEntry;
      var es := QueryEntries(cache, tokens[k], |tokens|, xs, |xs|);
      QueryEntriesAt(cache, tokens[k], |tokens|, xs, |xs|);
      forall i | 0 <= i < |xs| ensures xs[i] in xs && es[i] in es && IsComponent(cache, tokens, k, xs[i], es[i]) {
        QueryEntryIs(cache, tokens, k, xs[i]);
      }
    }

    lemma QueryEntryIs(cache: Weights, tokens: seq<string>, k: nat, x: string)
      requires k < |tokens| && x in corpusTokens.elements
      ensures IsComponent(cache, tokens, k, x, QueryEntry(cache, tokens[k], |tokens|, x))
    {
      hide BaseWeight, Served;
    }

    /** Different tokens have different places in the corpus. */
    lemma QueryEntriesDistinct(cache: Weights, e: string, count: nat, xs: seq<string>)
      requires count > 0 && Distinct(xs) && forall x :: x in xs ==> x in corpusTokens.elements
      ensures DistinctIdx(QueryEntries(cache, e, count, xs, |xs|))
    {
      QueryEntriesAt(cache, e, count, xs, |xs|);
    }

    lemma QueryEntriesWithin(cache: Weights, e: string, count: nat, xs: seq<string>, ys: seq<string>)
      requires count > 0 && (forall x :: x in xs ==> x in corpusTokens.elements)
      requires (forall y :: y in ys ==> y in corpusTokens.elements) && forall x :: x in xs ==> x in ys
      ensures forall q :: q in QueryEntries(cache, e, count, xs, |xs|) ==> q in QueryEntries(cache, e, count, ys, |ys|)
    {
      hide QueryEntry;
      QueryEntriesAt(cache, e, count, xs, |xs|);
      QueryEntriesAt(cache, e, count, ys, |ys|);
      var qs := QueryEntries(cache, e, count, ys, |ys|);
      forall k | 0 <= k < |xs| ensures QueryEntry(cache, e, count, xs[k]) in qs {
        assert xs[k] in ys;
        var j :| 0 <= j < |ys| && ys[j] == xs[k];
        assert qs[j] == QueryEntry(cache, e, count, xs[k]);
      }
    }

    /** In whatever order each query token's expansions come, the query vector is the same. */
    lemma {:induction false} PlansAgree(cache: Weights, tokens: seq<string>, p: seq<seq<string>>, q: seq<seq<string>>)
      requires Planned(tokens, p) && Planned(tokens, q) && |p| == |q|
      ensures QueryVector(cache, tokens, p) == QueryVector(cache, tokens, q)
    {
      hide InsertAll, QueryEntries;
      if p != [] {
        var k := |p| - 1;
        var a, b := p[..k], q[..k];
        assert p == a + [p[k]] && q == b + [q[k]];
        PlansAgree(cache, tokens, a, b);
        NextPlan(cache, tokens, a, p[k]);
        NextPlan(cache, tokens, b, q[k]);
        OneTokenAgrees(cache, QueryVector(cache, tokens, a), tokens[k], |tokens|, p[k], q[k]);
      }
    }

    lemma OneTokenAgrees(cache: Weights, s: seq<Entry>, e: string, count: nat, xs: seq<string>, ys: seq<string>)
      requires count > 0 && Expansion(tokenStore.postings, e, xs) && Expansion(tokenStore.postings, e, ys)
      requires forall x :: x in xs || x in ys ==> x in corpusTokens.elements
      ensures InsertAll(s, QueryEntries(cache, e, count, xs, |xs|))
        == InsertAll(s, QueryEntries(cache, e, count, ys, |ys|))
    {
      hide QueryEntries, InsertAll;
      QueryEntriesDistinct(cache, e, count, xs);
      QueryEntriesDistinct(cache, e, count, ys);
      QueryEntriesWithin(cache, e, count, xs, ys);
      QueryEntriesWithin(cache, e, count, ys, xs);
      InsertionOrderFree(s, QueryEntries(cache, e, count, xs, |xs|), QueryEntries(cache, e, count, ys, |ys|));
    }

    lemma NextPlan(cache: Weights, tokens: seq<string>, plan: seq<seq<string>>, xs: seq<string>)
      requires Planned(tokens, plan + [xs]) && Planned(tokens, plan)
      ensures QueryVector(cache, tokens, plan + [xs])
        == InsertAll(QueryVector(cache, tokens, plan), QueryEntries(cache, tokens[|plan|], |tokens|, xs, |xs|))
    {
      assert (plan + [xs])[..|plan|] == plan;
      InsertAllTwice([], PlanEntries(cache, tokens, plan), QueryEntries(cache, tokens[|plan|], |tokens|, xs, |xs|));
    }

    /** The loop over the query tokens. */
    method SearchTokens(tokens: seq<string>, query: Vector, ghost cache: Weights)
      returns (lists: seq<SortedSet>, ghost plan: seq<seq<string>>)
      requires Sound() && Serves(cache) && query.Valid() && query.Entries() == []
      modifies this`idfCache, query, query.nodes
      ensures Serves(cache) && query.Valid() && fresh(set n | n in query.nodes && n !in old(query.nodes))
      ensures |plan| == |tokens| && Planned(tokens, plan)
      ensures query.Entries() == QueryVector(cache, tokens, plan)
      ensures |lists| == |tokens| && forall k :: 0 <= k < |lists| ==>
        lists[k].Valid() && Range(lists[k].elements) == Holders(tokenStore.postings, plan[k])
    {
      hide WellFormed, Agree, Clears, Serves, Expansion, Holders, InsertEntry, InsertAll, Vector.Valid, DocsOf;
      hide QueryEntries, Sorted;
      lists, plan := [], [];
      InsertNothing([]);
      for k := 0 to |tokens|
        invariant Serves(cache) && query.Valid() && fresh(set n | n in query.nodes && n !in old(query.nodes))
        invariant |plan| == k && Planned(tokens, plan)
        invariant query.Entries() == QueryVector(cache, tokens, plan)
        invariant |lists| == k && forall j :: 0 <= j < k ==>
          lists[j].Valid() && Range(lists[j].elements) == Holders(tokenStore.postings, plan[j])
      {
        var found, xs := SearchToken(tokens[k], |tokens|, query, cache);
        NextPlan(cache, tokens, plan, xs);
        lists, plan := lists + [found], plan + [xs];
      }
    }

    /** The similarity of a stored document to a query with the given components. */
    ghost function ScoreOf(cache: Weights, ref: string, query: seq<Entry>): Option<real>
      requires Indexed(ref)
      reads this`docs, documentStore`length, tokenStore`postings, corpusTokens
    {
      var doc := DocEntries(cache, ref, |docs[ref]|);
      Cosine(query, doc, Apply(sqrt, SumSquares(query)), Apply(sqrt, SumSquares(doc)))
    }

    /**
     * The score of `h` is its document's similarity to the query, and where the square root is one, the cosine
     * of the angle between the two vectors.
     */
    ghost predicate IsHit(cache: Weights, query: seq<Entry>, h: Hit)
      reads this`docs, documentStore`length, tokenStore`postings, corpusTokens
    {
      && Indexed(h.ref) && h.score == ScoreOf(cache, h.ref, query)
      && (IsSquareRoot(sqrt) ==> IsCosine(query, DocEntries(cache, h.ref, |docs[h.ref]|), h.score))
    }

    lemma ScoreIsCosine(cache: Weights, ref: string, query: seq<Entry>)
      requires Indexed(ref) && IsSquareRoot(sqrt)
      ensures IsCosine(query, DocEntries(cache, ref, |docs[ref]|), ScoreOf(cache, ref, query))
    {
      hide DocEntries, IsCosine, Cosine, SumSquares;
      CosineIs(query, DocEntries(cache, ref, |docs[ref]|), sqrt);
    }

    /** One hit. */
    method Score(ref: string, query: Vector, ghost cache: Weights) returns (hit: Hit)
      requires Sound() && Serves(cache) && ref in docs && query.Valid() && query.sqrt == sqrt
      modifies this`idfCache, query`magnitude
      ensures Serves(cache) && query.Valid()
      ensures hit.ref == ref && IsHit(cache, query.Entries(), hit)
      ensures IsSquareRoot(sqrt) && hit.score.Some? ==> -1.0 <= hit.score.value <= 1.0
    {
      hide WellFormed, Agree, Clears, Serves, Indexed, DocEntries, SumSquares, Cosine, Vector.Valid, StrictByIdx;
      var v := DocumentVector(ref, cache);
      var score := query.Similarity(v);
      hit := Hit(ref, score);
      if IsSquareRoot(sqrt) {
        SimilarityBound(query.Entries(), v.Entries(), query.Norm(), v.Norm());
        ScoreIsCosine(cache, ref, query.Entries());
      }
    }

    /**
     * The refs of the result are exactly the selected documents, each once; every score is the similarity
     * of the document to the query vector, and lies in [-1, 1] whenever it is defined. Higher scores come
     * first if all are defined; where one is not, the comparison fixes no order.
     */
    method Search(q: string) returns (hits: seq<Hit>, ghost plan: seq<seq<string>>)
      requires Sound()
      modifies this`idfCache
      ensures Sound() && (old(Valid()) ==> Valid())
      ensures Distinct(Refs(hits))
      ensures (forall h :: h in hits ==> h.score.Some?) ==>
        forall i, j :: 0 <= i < j < |hits| ==>
          hits[i].score.Some? && hits[j].score.Some? && hits[i].score.value >= hits[j].score.value
      ensures forall r :: r in Refs(hits) <==> Selected(docs, Analysed(Some(q)), r)
      ensures forall r :: r in Refs(hits) <==> Answers(q, r)
      ensures Planned(Analysed(Some(q)), plan) && (hits != [] ==> |plan| == |Analysed(Some(q))|)
      ensures forall h, p :: h in hits && Planned(Analysed(Some(q)), p) && |p| == |Analysed(Some(q))| ==>
        IsHit(old(Supply()), QueryVector(old(Supply()), Analysed(Some(q)), p), h)
      ensures IsSquareRoot(sqrt) ==> forall h :: h in hits && h.score.Some? ==> -1.0 <= h.score.value <= 1.0
    {
      SelectedIs(q);
      hide WellFormed, Agree, Coherent, Serves, Indexed, Selected, Analysed, Planned, Supply, QueryVector;
      hide IsSquareRoot, Refs, Answers, IsHit;
      hits, plan := [], [];
      NoHits();
      NoPlan(Analysed(Some(q)));
      ghost var cache := Supply();
      SupplyServes();
      var tokens := Analyse(Some(q));
      var known := AnyKnown(tokens);
      if known {
        hits, plan := Answer(tokens, cache);
        forall p | Planned(tokens, p) && |p| == |tokens|
          ensures QueryVector(cache, tokens, p) == QueryVector(cache, tokens, plan)
        {
          PlansAgree(cache, tokens, p, plan);
        }
      }
      SupplyStays(cache);
    }

    /** The query gives a token, and for each that it gives, the document holds one that starts with it. */
    ghost predicate Answers(q: string, r: string)
      reads this`docs, pipeline
    {
      && r in docs && (exists e :: Gives(q, e))
      && forall e :: Gives(q, e) ==> exists u :: u in docs[r] && e <= u
    }

    lemma SelectedIs(q: string)
      ensures forall r :: Selected(docs, Analysed(Some(q)), r) <==> Answers(q, r)
    {
      hide Analysed, Gives;
      var tokens := Analysed(Some(q));
      AnalysedIs(q);
      assert tokens != [] ==> tokens[0] in tokens;
      forall r ensures Selected(docs, tokens, r) <==> Answers(q, r) {
        if Selected(docs, tokens, r) {
          assert Holds(docs, r, tokens[0]);
          forall e | Gives(q, e) ensures exists u :: u in docs[r] && e <= u {
            var k :| 0 <= k < |tokens| && tokens[k] == e;
            assert Holds(docs, r, tokens[k]);
          }
        }
        if Answers(q, r) {
          forall k | 0 <= k < |tokens| ensures Holds(docs, r, tokens[k]) {
            assert Gives(q, tokens[k]);
            var u :| u in docs[r] && tokens[k] <= u;
            assert StartsWith(u, tokens[k]);
          }
        }
      }
    }

    lemma NoPlan(tokens: seq<string>)
      ensures Planned(tokens, [])
    {
    }

    /** What is served does not go stale. */
    lemma SupplyStays(cache: Weights)
      requires Serves(cache)
      ensures cache == map[] ==> Coherent()
    {
      CoherentServes();
    }

    /** The search proper, for tokens that lead somewhere. */
    method Answer(tokens: seq<string>, ghost cache: Weights) returns (hits: seq<Hit>, ghost plan: seq<seq<string>>)
      requires Sound() && Serves(cache) && tokens != [] && "" !in tokens
      modifies this`idfCache
      ensures Serves(cache)
      ensures Distinct(Refs(hits))
      ensures (forall h :: h in hits ==> h.score.Some?) ==>
        forall i, j :: 0 <= i < j < |hits| ==>
          hits[i].score.Some? && hits[j].score.Some? && hits[i].score.value >= hits[j].score.value
      ensures forall r :: r in Refs(hits) <==> Selected(docs, tokens, r)
      ensures Planned(tokens, plan) && |plan| == |tokens|
      ensures forall h :: h in hits ==> IsHit(cache, QueryVector(cache, tokens, plan), h)
      ensures IsSquareRoot(sqrt) ==> forall h :: h in hits && h.score.Some? ==> -1.0 <= h.score.value <= 1.0
    {
      hide WellFormed, Agree, Serves, Indexed, Selected, Holders, Expansion, Sorted, Vector.Valid, InsertAll;
      hide PlanEntries, IsHit, IsSquareRoot, Refs, Ranked;
      var query := new Vector(sqrt);
      var lists;
      lists, plan := SearchTokens(tokens, query, cache);
      var refs := CommonRefs(tokens, lists, plan);
      hits := Scores(refs, query, cache);
      RankedHits(hits);
      hits := Ranked(hits);
    }

    /** The `map` over the common refs. */
    method Scores(refs: seq<string>, query: Vector, ghost cache: Weights) returns (hits: seq<Hit>)
      requires Sound() && Serves(cache) && query.Valid() && query.sqrt == sqrt
      requires forall r :: r in refs ==> r in docs
      modifies this`idfCache, query`magnitude
      ensures Serves(cache) && Refs(hits) == refs
      ensures forall h :: h in hits ==> IsHit(cache, old(query.Entries()), h)
      ensures IsSquareRoot(sqrt) ==> forall h :: h in hits && h.score.Some? ==> -1.0 <= h.score.value <= 1.0
    {
      hide WellFormed, Agree, Clears, Serves, IsHit, Vector.Valid, IsSquareRoot, Refs;
      ghost var entries := query.Entries();
      hits := [];
      NoHits();
      for i := 0 to |refs|
        invariant Serves(cache) && query.Valid() && query.Entries() == entries
        invariant Refs(hits) == refs[..i]
        invariant forall h :: h in hits ==> IsHit(cache, entries, h)
        invariant IsSquareRoot(sqrt) ==> forall h :: h in hits && h.score.Some? ==> -1.0 <= h.score.value <= 1.0
      {
        var hit := Score(refs[i], query, cache);
        assert refs[..i+1] == refs[..i] + [refs[i]];
        MoreRefs(hits, hit);
        hits := hits + [hit];
      }
      assert refs[..|refs|] == refs;
    }

    lemma NoHits()
      ensures Refs([]) == []
    {
    }

    lemma MoreRefs(hits: seq<Hit>, hit: Hit)
      ensures Refs(hits + [hit]) == Refs(hits) + [hit.ref]
    {
    }

    /** The refs every list holds are the selected documents. */
    method CommonRefs(tokens: seq<string>, lists: seq<SortedSet>, ghost plan: seq<seq<string>>)
      returns (refs: seq<string>)
      requires Sound() && tokens != [] && "" !in tokens
      requires |plan| == |tokens| && Planned(tokens, plan)
      requires |lists| == |tokens| && forall k :: 0 <= k < |lists| ==>
        lists[k].Valid() && Range(lists[k].elements) == Holders(tokenStore.postings, plan[k])
      ensures Distinct(refs)
      ensures forall r :: r in refs <==> Selected(docs, tokens, r)
      ensures forall r :: r in refs ==> r in docs
    {
      hide WellFormed, Agree, Clears, Holders, Holds, Expansion, Sorted;
      var a := IntersectAll(lists);
      forall k | 0 <= k < |tokens|
        ensures forall r :: r in Range(lists[k].elements) <==> Holds(docs, r, tokens[k])
      {
        HoldersOfExpansion(docs, tokenStore.postings, tokens[k], plan[k]);
      }
      refs := a.elements;
      SortedIsDistinct(refs);
      SelectedAreStored(docs, tokens);
    }
  }
}
