# Verification of the gateway bridge and of its documentation's search index

Two components are modelled and proved, each in the form its source has.

**The search index** is lunr 0.6.0, bundled on the single line of `docs/material/assets/javascripts/application.js`;
members are named after the functions they model. `SortedSet`, `Vector` and its nodes, the `TokenStore` trie, `Store`,
`Pipeline`, `EventEmitter` and `Index` are classes that change in place. Each is proved against plain values: a
sorted array against a set, a linked list against a list of entries, a trie against a map from (token, ref) pairs, the whole
index against the token sets of its documents. Numbers are reals. `Math.log`, `Math.sqrt`, `1 / Math.log(d)`, the
tokenizer and the pipeline functions are parameters; only two results assume anything of them: the score bound that the
square root is one, and the one about a removal that throws that the logarithm tells two counts apart.

**The bridge** is the Go code between Semtech UDP gateways and a network back-end. The codec, the data-rate conversions, the
registry and the handlers follow PROTOCOL.TXT of packet_forwarder (sections 3 and 5). What runs concurrently is a
transition function on states and a schedule is a sequence of choices, so a statement about `Run` holds under every interleaving
and every outcome of the calls the choices stand for. JSON bodies, base64 and
the printing of IPs are parameters.

## What does not hold, and exactly when it does

- `Store` looks refs up with `in`, which also finds inherited names, `__proto__` among them, so `length` stops counting
  documents with the first operation on a name such as `toString` that is not stored; setting `__proto__` stores nothing and
  counts nothing, but makes the store inherit the names of a token set (`Stores.LengthCountsExactly`, over every ref).
- For a name that is only inherited, `Index.remove` and `Index.update` lower the count and then throw, unless what the store
  inherits under it can be iterated over (`Indexes.Index.Remove`, by `Throws`). `on` and `off` throw on every inherited event
  name, `addListener` after the names before it (`EventEmitters.EventEmitter.AddListener`).
- A removal that throws has lowered the count and raised no event: `remove` of a document called `toString`, say, on an index
  without one. If no cached weight was stale before, none is after it exactly when the cache has no weight of a token that
  some document holds (`Indexes.Index.Remove`, `Indexes.Index.Update`, by `IndexLaws.OneFewer`).
- `removeListener` removes the last handler when the function was never added, because `splice(-1, 1)` does. On
  a plain index that is the handler that empties the idf cache (`Indexes.Index.Off`).
- `locationFor` never returns when its argument is in the array beyond the first slot (`SortedSets.LocationForStopsExactly`).
  `add` guards it with `indexOf`.
- `Index.add` on a stored ref erases none of the old postings (`IndexLaws.AddAgreesExactly`).
- The registry calls onNew and onDelete in turn only if both are set (`Registry.LifecycleExactly`).
- A gateway's registered address reaches its status report exactly when its IP is the datagram's own: the lookup's error is
  tested the wrong way round (`Backends.Backend.HandleStat`).
- A rate with a sign, a zero bit rate, or a bit rate of 33 bits or more does not survive the trip through DatR
  (`DataRates.RoundTripExactly`); a PULL_RESP of protocol version 1 does not keep its token (`Codec.PullRespRoundTrip`).

## Model

| member | source | states |
|---|---|---|
| Lex.Transitive | docs/material/assets/javascripts/application.js:1 | JavaScript's `<` on strings is transitive |
| Lex.Asymmetric | docs/material/assets/javascripts/application.js:1 | ... and never holds both ways or between equal strings |
| Lex.Total | docs/material/assets/javascripts/application.js:1 | ... and holds one way between any two different strings, so the order is total |
| Lex.LessIs | docs/material/assets/javascripts/application.js:1 | ... namely exactly when they agree up to a place where the first ends or has the smaller character |
| Lex.SortedUnique | docs/material/assets/javascripts/application.js:1 | a strictly increasing array is determined by its set of elements, so the set-valued contracts below fix the arrays |
| SortedSets.LocationForStopsExactly | docs/material/assets/javascripts/application.js:1 | `SortedSet.locationFor`'s loop ends exactly on the arrays that do not hold the string beyond their first slot; elsewhere it never does |
| SortedSets.LocationForLoops | docs/material/assets/javascripts/application.js:1 | ... for instance not on the second of two strings |
| SortedSets.SortedSet.IndexOf | docs/material/assets/javascripts/application.js:1 | `indexOf` ends, and finds a string exactly when it is present |
| SortedSets.SortedSet.LocationFor | docs/material/assets/javascripts/application.js:1 | `locationFor`, on the arrays where it ends, does so in the passes the previous rows speak of, and gives the one place that keeps the order, and undefined exactly on an empty array or a first element equal to the string |
| SortedSets.SortedSet.Add | docs/material/assets/javascripts/application.js:1 | `add` keeps the array strictly increasing and `length` in step, and adds exactly the given strings |
| SortedSets.SortedSet.Intersect | docs/material/assets/javascripts/application.js:1 | `intersect` returns the sorted array of the set intersection |
| SortedSets.SortedSet.Union | docs/material/assets/javascripts/application.js:1 | `union` returns the sorted array of the set union, whichever operand is longer |
| VectorLaws.InsertAllKeeps | docs/material/assets/javascripts/application.js:1 | any sequence of `Vector.insert` leaves a list sorted by index that holds exactly the inserted multiset |
| VectorLaws.InsertionOrderIrrelevant | docs/material/assets/javascripts/application.js:1 | insertions with distinct indexes give the same vector in every order |
| VectorLaws.InsertionOrderFree | docs/material/assets/javascripts/application.js:1 | ... and so do further insertions with distinct indexes into any vector |
| VectorLaws.MergeIsInnerProduct | docs/material/assets/javascripts/application.js:1 | on distinct indexes the merge of `Vector.dot` is the sum over shared indexes of the products |
| VectorLaws.MergeSymmetric | docs/material/assets/javascripts/application.js:1 | `dot` is symmetric on all lists, duplicates included |
| VectorLaws.DotOfBuiltVectors | docs/material/assets/javascripts/application.js:1 | the dot product of two built vectors is the textbook one and does not depend on either insertion order or on the order of the operands |
| VectorLaws.ScoreBound | docs/material/assets/javascripts/application.js:1 | Cauchy-Schwarz for the merge on any two lists: dot squared is at most the product of the two sums of squares |
| VectorLaws.SimilarityBound | docs/material/assets/javascripts/application.js:1 | `similarity` lies in [-1, 1] whenever it is defined, and where it is not the dot product is 0, so it is NaN and never infinite |
| VectorLaws.DotWithSelf | docs/material/assets/javascripts/application.js:1 | the sum of squares behind `magnitude` is the dot product of the list with itself |
| VectorLaws.CosineIs | docs/material/assets/javascripts/application.js:1 | where the square root is one, `similarity` is the cosine: times the roots of the two dot products with themselves it gives the dot product, and it is undefined exactly when that factor is 0 |
| VectorLaws.SelfCosine | docs/material/assets/javascripts/application.js:1 | a vector with a component other than 0 has similarity 1 with itself |
| Vectors.Vector.Insert | docs/material/assets/javascripts/application.js:1 | `insert` on the linked nodes: the list stays acyclic and sorted, the entries are the old ones with the new one put in, the length grows by one and is returned as it was, no stale magnitude survives |
| Vectors.Vector.Attach | docs/material/assets/javascripts/application.js:1 | the last step of `insert`: one node is linked in at its place and nothing else moves |
| Vectors.Vector.Magnitude | docs/material/assets/javascripts/application.js:1 | the returned and cached magnitude is the root of the sum of squares of the present entries: its square is their dot product with themselves, where the square root is one |
| Vectors.Vector.Dot | docs/material/assets/javascripts/application.js:1 | the two-pointer loop over the nodes computes the merge dot product |
| Vectors.Vector.Similarity | docs/material/assets/javascripts/application.js:1 | `similarity` times the two cached magnitudes is the dot product, and it is undefined exactly when their product is 0; it is the cosine where the square root is one |
| TokenStores.LastWriteWins | docs/material/assets/javascripts/application.js:1 | over any history of `TokenStore.add` and `remove`, the plain (token, ref) map holds a pair exactly when the latest call about it was an add; the empty token and the ref `__proto__` are never held |
| TokenStores.TokenStore.Add | docs/material/assets/javascripts/application.js:1 | `TokenStore.add` keeps the trie a tree and updates the plain map at one pair, or at none for the empty token and the ref `__proto__`; `length` counts calls |
| TokenStores.TokenStore.AddBelow | docs/material/assets/javascripts/application.js:1 | the recursive calls of `add`: below any node, the rest of the token leads to the same update |
| TokenStores.TokenStore.GetNode | docs/material/assets/javascripts/application.js:1 | `getNode` walks to the node of the token exactly when the trie has one |
| TokenStores.TokenStore.Remove | docs/material/assets/javascripts/application.js:1 | `remove` takes exactly one pair out of the plain map, whatever path exists, and leaves `length` |
| TokenStores.TokenStore.Has | docs/material/assets/javascripts/application.js:1 | `has` answers whether the path exists, which it does whenever a token with a document starts with it |
| TokenStores.TokenStore.Get | docs/material/assets/javascripts/application.js:1 | `get` returns the plain map's postings of the token |
| TokenStores.TokenStore.Count | docs/material/assets/javascripts/application.js:1 | `count` is the number of documents the plain map has for the token |
| TokenStores.TokenStore.Expand | docs/material/assets/javascripts/application.js:1 | `expand` lists, each once, exactly the tokens that start with a non-empty prefix and still have a document, empty nodes notwithstanding |
| Stores.Store.Set | docs/material/assets/javascripts/application.js:1 | `Store.set`: what is stored, the prototype that `__proto__` replaces, and the counter, over every ref |
| Stores.Store.Remove | docs/material/assets/javascripts/application.js:1 | `Store.remove`, likewise: the counter goes down for every name that `in` finds, stored or inherited |
| Stores.StepCounts | docs/material/assets/javascripts/application.js:1 | one `set` or `remove` keeps a right counter right exactly when it is safe in the sense of the next row |
| Stores.LengthCountsExactly | docs/material/assets/javascripts/application.js:1 | all through a run `Store.length` is the number of refs exactly when every operation, where it happens, is on a stored ref or on a name the store does not inherit then, or sets `__proto__` |
| Stores.ToStringUncounted | docs/material/assets/javascripts/application.js:1 | ... for instance not after setting `toString` in a new store |
| Stores.AddUncounted | docs/material/assets/javascripts/application.js:1 | ... nor after setting `add` once a token set has become the prototype |
| Pipelines.NeverEmptyToken | docs/material/assets/javascripts/application.js:1 | `Pipeline.run` never yields the empty token, whatever the functions do |
| Pipelines.OutcomeMembers | docs/material/assets/javascripts/application.js:1 | `Pipeline.run` yields a token exactly when it is not empty and some input position is taken to it by all functions in turn, none of which drops it |
| Pipelines.OutcomeYields | docs/material/assets/javascripts/application.js:1 | ... each position yielding once, in the order of the positions |
| Pipelines.Pipeline.Run | docs/material/assets/javascripts/application.js:1 | the two nested loops of `run` yield exactly these, in that order |
| EventEmitters.EventEmitter.AddListener | docs/material/assets/javascripts/application.js:1 | `addListener` appends the handler to each named event's list, and throws at the first inherited name with the names before it done |
| EventEmitters.RegisteredOnce | docs/material/assets/javascripts/application.js:1 | ... once, at its end, for a name mentioned once |
| EventEmitters.EventEmitter.RemoveListener | docs/material/assets/javascripts/application.js:1 | `removeListener` takes out the function's first occurrence, or the last handler if it was never added; the cache-clearing handler survives exactly when the function was there or another handler follows; it throws exactly on inherited names |
| TermFrequency.EveryTokenOnce | docs/material/assets/javascripts/application.js:1 | a document's distinct tokens account for each token of a field once |
| TermFrequency.FieldCounts | docs/material/assets/javascripts/application.js:1 | a field whose boost is not 0, as `field` sees to, adds to a token's frequency exactly when it holds the token, and at most its boost |
| TermFrequency.FieldTfIs | docs/material/assets/javascripts/application.js:1 | each token of a field counts for an equal part of the field's boost |
| TermFrequency.Conservation | docs/material/assets/javascripts/application.js:1 | over the distinct tokens the term frequencies add up exactly to the boosts of the non-empty fields |
| IndexLaws.AddAgreesExactly | docs/material/assets/javascripts/application.js:1 | adding a document keeps trie and document store in agreement exactly when its ref is new or its new tokens include the old |
| IndexLaws.PostedIs | docs/material/assets/javascripts/application.js:1 | `add` files exactly one posting for each of the document's tokens, with its ref and its frequency, and leaves the others |
| IndexLaws.RemoveAgrees | docs/material/assets/javascripts/application.js:1 | removing a document keeps the agreement |
| IndexLaws.PostedConserves | docs/material/assets/javascripts/application.js:1 | the frequencies `Index.add` files for a document add up to the boosts of its non-empty fields |
| IndexLaws.HoldersOfExpansion | docs/material/assets/javascripts/application.js:1 | in agreeing stores the documents filed under a prefix's expansion are those that hold a token starting with it |
| IndexLaws.NothingSelected | docs/material/assets/javascripts/application.js:1 | when no query token leads to a posted token no document is selected, so the early exit never changes the answer |
| IndexLaws.OneFewer | docs/material/assets/javascripts/application.js:1 | when the document count falls by one and nothing else changes, a cache without stale weights stays so exactly when it holds no weight of a token that some document holds, if the logarithm tells the two counts apart |
| IndexLaws.InjectiveSeparates | docs/material/assets/javascripts/application.js:1 | ... as one that is injective on positive numbers does for two documents or more |
| IndexLaws.StaleWeight | docs/material/assets/javascripts/application.js:1 | ... for instance not with two documents, one of which holds the cached token |
| IndexLaws.IdfIs | docs/material/assets/javascripts/application.js:1 | the weight of a token is 1 without holders, and else 1 more than the logarithm of the documents for each holder |
| IndexLaws.RarerWeighsMore | docs/material/assets/javascripts/application.js:1 | under an increasing logarithm a token with fewer holders weighs more |
| IndexLaws.WeightIs | docs/material/assets/javascripts/application.js:1 | an expansion equal to the query token keeps its whole weight, any other is scaled by `1 / Math.log` of how much longer it is, at least 3 |
| IndexLaws.ExactWeighsMost | docs/material/assets/javascripts/application.js:1 | ... so no expansion weighs more than an exact match of the same token |
| IndexLaws.SharesAddUp | docs/material/assets/javascripts/application.js:1 | the shares of the query tokens add up to the boosts of all fields times their number |
| IndexLaws.SameBoosts | docs/material/assets/javascripts/application.js:1 | ... which are the boosts a document's frequencies add up to when none of its fields is empty |
| Indexes.Index.constructor | docs/material/assets/javascripts/application.js:1 | a new index is consistent, with the cache-clearing handler first on all three events |
| Indexes.Index.Emit | docs/material/assets/javascripts/application.js:1 | raising an event calls its handlers in the order they were added, throws exactly on inherited names without handlers, and leaves an empty idf cache when the index's own handler comes first |
| Indexes.Index.On | docs/material/assets/javascripts/application.js:1 | `on` appends a listener and keeps every invariant, the cache rule included; it throws exactly on inherited names |
| Indexes.Index.Off | docs/material/assets/javascripts/application.js:1 | `off` keeps the cache rule exactly when the function listens to the event or some other handler does; it throws exactly on inherited names |
| Indexes.Index.AnalyseFields | docs/material/assets/javascripts/application.js:1 | the first loop of `add`: the tokens of each field, and the sorted set of all of them, none empty |
| Indexes.Index.AnalysedIs | docs/material/assets/javascripts/application.js:1 | a text's tokens are those the tokenizer gives for it, as they come out of the pipeline; a missing text has none |
| Indexes.Index.TokensAre | docs/material/assets/javascripts/application.js:1 | a document's tokens are those of the texts of its fields |
| Indexes.Index.File | docs/material/assets/javascripts/application.js:1 | `documentStore.set` and `corpusTokens.add` keep count, aliasing and corpus in order |
| Indexes.Index.Post | docs/material/assets/javascripts/application.js:1 | the last loop of `add` files one posting per token |
| Indexes.Index.Add | docs/material/assets/javascripts/application.js:1 | `Index.add` on any ref: new documents, postings and token arrays in full, from the texts of its fields, or none of them for `__proto__`; agreement exactly as above; term frequencies conserved; with the emit flag on the handlers of `add` are called, and with the cache rule in force no cached idf is stale |
| Indexes.Index.Remove | docs/material/assets/javascripts/application.js:1 | `Index.remove` on any ref erases exactly the document and its postings, does nothing for an unknown ref, and keeps the stores in agreement; with the emit flag on it leaves no stale idf unless it throws, which it does exactly on inherited values that cannot be iterated over; then the count is already lowered and the cache, if it was fresh, stays so exactly as in `OneFewer`; the handlers of `remove` are called exactly when it got to the end of a known ref |
| Indexes.Index.Unpost | docs/material/assets/javascripts/application.js:1 | the loop of `remove` takes out the postings of the document under each of its tokens |
| Indexes.Index.Update | docs/material/assets/javascripts/application.js:1 | `Index.update` exchanges the document's postings for the new ones, touches no other, and leaves a fresh cache although its inner add and remove raise no event; where its removal throws, documents and postings stay as they were and the cache is as after that removal; only the handlers of `update` are called |
| Indexes.Index.Idf | docs/material/assets/javascripts/application.js:1 | a weight comes from the cache or else is computed from the documents and holders of the token, and is cached; a cache without stale weights stays so; whatever the cache, serving a weight changes none that is served later |
| Indexes.Index.DocEntriesIncrease | docs/material/assets/javascripts/application.js:1 | a document's tokens have strictly increasing places in the corpus |
| Indexes.Index.DocEntriesAre | docs/material/assets/javascripts/application.js:1 | a document's components are frequency times weight at the tokens' places |
| Indexes.Index.DocumentVector | docs/material/assets/javascripts/application.js:1 | `documentVector` reads no missing entry and builds, by strictly increasing insertions, the vector whose component at each token's place in the corpus is tf times idf |
| Indexes.Index.RefsUnder | docs/material/assets/javascripts/application.js:1 | the refs gathered from one token's postings are the documents filed under it |
| Indexes.Index.SearchToken | docs/material/assets/javascripts/application.js:1 | one query token inserts a component for each of its expansions and collects exactly the documents filed under them |
| Indexes.Index.SearchTokens | docs/material/assets/javascripts/application.js:1 | the loop over the query tokens: one list of documents per token, and the query vector in full |
| Indexes.Index.PlanEntriesAre | docs/material/assets/javascripts/application.js:1 | a query vector is made of one component for each expansion of each of its tokens, of its weight, scaled down for a longer token, times the share of one query token |
| Indexes.Index.PlansAgree | docs/material/assets/javascripts/application.js:1 | the query vector does not depend on the order in which the trie enumerates the expansions of each token |
| Indexes.Index.IntersectAll | docs/material/assets/javascripts/application.js:1 | the final `reduce` keeps what every list holds |
| Indexes.Index.CommonRefs | docs/material/assets/javascripts/application.js:1 | ... which are the selected documents, each once |
| Indexes.Index.Score | docs/material/assets/javascripts/application.js:1 | a hit's score is the similarity of its document vector to the query vector, the cosine where the square root is one, within [-1, 1] when defined |
| Indexes.Index.ScoreIsCosine | docs/material/assets/javascripts/application.js:1 | ... the cosine of the query components and the document's |
| Indexes.Index.AnyKnown | docs/material/assets/javascripts/application.js:1 | `some(has)` is false only when no document is selected |
| Indexes.Index.SelectedIs | docs/material/assets/javascripts/application.js:1 | the selected documents are those that, for every token the pipeline makes of the query and at least one, hold a token starting with it |
| Ranking.RankedHits | docs/material/assets/javascripts/application.js:1 | sorting by score keeps every hit once, and puts higher scores first when all are defined |
| Indexes.Index.Search | docs/material/assets/javascripts/application.js:1 | `search`, whatever is in the idf cache, returns, each once, exactly the stored documents that hold, for every token the tokenizer and the pipeline make of the query and for at least one, a token starting with it; each score is the similarity to the query vector, a cosine, under the weights the cache serves, the right ones when none is stale, and lies in [-1, 1] when defined; higher scores come first when all are defined |
| Codec.AckExact | gateway/structs.go:102-124 | PUSH_ACK and PULL_ACK decode from exactly the images of their encoding on supported versions |
| Codec.PullDataExact | gateway/structs.go:135-162 | PULL_DATA, likewise |
| Codec.PushDataExact | gateway/structs.go:73-92 | PUSH_DATA accepts exactly a supported header, a MAC and a non-empty body that decodes |
| Codec.PullRespExact | gateway/structs.go:223-237 | PULL_RESP accepts exactly a supported header, with any token, and a non-empty body that decodes |
| Codec.TxAckExact | gateway/structs.go:269-289 | TX_ACK, a supported header, a MAC and nothing or a body that decodes |
| Codec.PushDataRoundTrip | gateway/structs.go:57-92 | PUSH_DATA survives the round trip exactly on supported versions, given a JSON body that does, into any receiver |
| Codec.PullRespRoundTrip | gateway/structs.go:205-237 | PULL_RESP, where the token survives exactly when the version is not 1 or the token is 0 |
| Codec.TxAckRoundTrip | gateway/structs.go:249-289 | TX_ACK, with a missing payload told from a present one by length: it comes back missing exactly in a receiver that holds none |
| Codec.OneType | gateway/structs.go:430-440 | no datagram is accepted by two decoders, whatever the receivers hold, and the one that accepts it is the one GetPacketType names |
| Codec.AcceptedVersions | gateway/structs.go:40-45 | the accepted protocol versions are 1 and 2 |
| Codec.AckBytes | gateway/structs.go:102-108 | PUSH_ACK and PULL_ACK are version, little-endian token and 1 or 4 |
| Codec.PullDataBytes | gateway/structs.go:135-142 | PULL_DATA is version, token, 2 and the MAC |
| Codec.PushDataBytes | gateway/structs.go:57-70 | PUSH_DATA is version, token, 0, the MAC and the JSON body |
| Codec.PullRespBytes | gateway/structs.go:205-220 | PULL_RESP is version, token, 3 and the JSON body, with a zero token in version 1 |
| Codec.TxAckBytes | gateway/structs.go:249-266 | TX_ACK is version, token, 5, the MAC and the JSON body if there is one |
| Codec.AcksRefused | gateway/structs.go:111-162 | which datagrams are refused as an acknowledgement or PULL_DATA, and with which error |
| Codec.BodiesRefused | gateway/structs.go:73-289 | ... and as a packet with a body |
| Codec.AcksEcho | gateway/backend.go:262-310 | the acknowledgement of a datagram is its own first three bytes and the identifier |
| Packets.AckPacket.UnmarshalBinary | gateway/structs.go:111-124 | assigns the fields of exactly what decodes, and nothing on error |
| Packets.AckPacket.MarshalBinary | gateway/structs.go:102-108 | fills the four-byte buffer with the encoding |
| Packets.PullDataPacket.MarshalBinary | gateway/structs.go:135-142 | fills the buffer with the encoding |
| Packets.PullDataPacket.UnmarshalBinary | gateway/structs.go:145-162 | assigns fields and MAC loop of exactly what decodes, and nothing on error |
| Packets.PushDataPacket.MarshalBinary | gateway/structs.go:57-70 | appends MAC and JSON body to the header, or reports that the body does not encode |
| Packets.PushDataPacket.UnmarshalBinary | gateway/structs.go:73-92 | as above; a bad body is reported after the header fields are assigned, and leaves the payload as far as `json.Unmarshal` got |
| Packets.PullRespPacket.MarshalBinary | gateway/structs.go:205-220 | fills the buffer with the encoding, token only beyond version 1 |
| Packets.PullRespPacket.UnmarshalBinary | gateway/structs.go:223-237 | as for PUSH_DATA |
| Packets.TxAckPacket.MarshalBinary | gateway/structs.go:249-266 | appends a body only when there is a payload |
| Packets.TxAckPacket.UnmarshalBinary | gateway/structs.go:269-289 | as above; a body goes into a new payload even when it turns out bad, and without one the receiver's payload stays |
| DataRates.ParseDecimal | gateway/backend.go:471-491 | a printed natural number parses back exactly when it is in range |
| DataRates.FindPrinted | gateway/backend.go:506-511 | the identifier printed for a LoRa rate is matched again, with the same digits, exactly when neither number is negative |
| DataRates.UnmarshalQuoted | gateway/structs.go:367-375 | a quoted identifier is read back into the LoRa field |
| DataRates.IdentifierIs | gateway/backend.go:506-511 | a LoRa rate becomes SF, the spreading factor, BW, the bandwidth, and nothing else |
| DataRates.JsonIs | gateway/structs.go:359-364 | its JSON text has one quote on each side, and a bit rate is its decimal text |
| DataRates.SF7BW125 | gateway/structs.go:359-375 | ... for instance SF7BW125 |
| DataRates.FindLoRaIs | gateway/backend.go:471-480 | the first identifier anywhere in the text is found, and nothing exactly where there is none |
| DataRates.UnmarshalIs | gateway/structs.go:367-375 | a number in range is read as the bit rate, and any other text, without the quotes around it, as the identifier |
| DataRates.RoundTripExactly | gateway/backend.go:471-516 | over all 64-bit rates, DatR, JSON text, DatR and back returns the same rate exactly for LoRa rates with non-negative factor and bandwidth and FSK rates with a bit rate in 1..2^32-1, other fields 0 |
| DataRates.RatesLost | gateway/backend.go:471-516 | ... for instance not an FSK rate of 0 nor a LoRa rate with factor -7 |
| Registry.LifecycleExactly | gateway/backend.go:52-79 | over all runs with arbitrarily failing callbacks, successful onNew and onDelete calls alternate from onNew on and a MAC is registered exactly while onNew leads: exactly when both callbacks are set |
| Registry.AppearsUnannounced | gateway/backend.go:52-63 | ... without onNew, one set is enough to break it |
| Registry.GoesUnannounced | gateway/backend.go:65-79 | ... without onDelete, one set and one cleanup are |
| Registry.CleanupExact | gateway/backend.go:65-79 | cleanup alters no entry it keeps, removes only entries last seen more than 60,000,000,000 ns before their turn, if no callback fails keeps only the others, and fails only at an entry it would have removed |
| Registry.Gateways.Set | gateway/backend.go:52-63 | `set` is the transition of the life-cycle theorem: it fails exactly when onNew does on a new MAC, and else stores the gateway |
| Registry.Gateways.Cleanup | gateway/backend.go:65-79 | `cleanup`, in any map order, is the transition of the life-cycle theorem, removes only gateways last seen more than a minute before their turn, and keeps no such one when no callback fails |
| Registry.FoundIsLastSet | gateway/backend.go:42-63 | `get` finds a gateway exactly when a set for its MAC succeeded, none came after it and no later cleanup reached it, found it stale and was not stopped by a callback; and what it finds is what that set stored |
| Conversions.GoodCountIsLongest | gateway/backend.go:316-321 | the published entries are the longest prefix that is good |
| Conversions.GoodIs | gateway/backend.go:339-360 | an entry is good exactly when its rate and its base64 data can be read and its CRC status is 1 |
| Conversions.NewRxPacketIs | gateway/backend.go:410-439 | an entry becomes a packet exactly when that packet has all its fields from the entry |
| Conversions.NewTXPKDescribes | gateway/backend.go:443-469 | a TXPK has all its fields from the packet; without an override, polarity is inverted exactly for LoRa |
| Conversions.PublishedAre | gateway/backend.go:410-439 | the published packets are the conversions of the entries before the first that cannot be read or whose CRC status is not 1, field by field, with the datagram's MAC |
| Handlers.Reachable | gateway/backend.go:239-360 | the invariant of every state reachable under any interleaving of handlers, senders and cleanup |
| Handlers.DispatchIs | gateway/backend.go:239-260 | a datagram goes to the handler of the packet it decodes as, and any other is an error |
| Handlers.PushAccounting | gateway/backend.go:292-324 | each decodable PUSH_DATA queues one PUSH_ACK with its own first three bytes to its source, then publishes its status report if it has one, then the conversions of its longest good prefix |
| Handlers.PullAccounting | gateway/backend.go:262-290 | a PULL_ACK is queued exactly when the handler ends without error, and only after its own set for that MAC |
| Handlers.OtherwiseNothing | gateway/backend.go:239-260 | any other datagram queues and publishes nothing |
| Handlers.NothingDropped | gateway/backend.go:216-237 | whatever is on the send channel has four bytes and version 1 or 2, so sendPackets drops nothing |
| Handlers.DownlinkRouting | gateway/backend.go:170-194 | a sender queues nothing or one PULL_RESP, to the address of the gateway that was registered for its MAC, by the last successful set, at the very step at which it looked; its bytes start with that gateway's version, a zero token and 3, and carry a TXPK that says what the packet says |
| Handlers.DownlinkBytes | gateway/backend.go:176-193 | ... whichever gateway it is |
| Backends.Backend.HandlePacket | gateway/backend.go:239-260 | one handler run alone sends, publishes and registers exactly what the interleaving theorems say of a finished thread |
| Backends.Backend.HandlePullData | gateway/backend.go:262-290 | acknowledges exactly when the registry took the gateway |
| Backends.Backend.HandlePushData | gateway/backend.go:292-324 | acknowledges every decodable datagram, publishes its status report if it has one, and fails exactly when an entry is left unpublished |
| Backends.Backend.HandleStat | gateway/backend.go:326-337 | a status report is published with the IP of its datagram alone, so with the registered one exactly when that is the same |
| Backends.Backend.AddIp | gateway/ip.go:9-22 | an IP is added once |
| Backends.Backend.HandleRxPacket | gateway/backend.go:339-360 | publishes the conversion of an entry exactly when it converts and its CRC status is 1 |
| Backends.Backend.HandleRxPackets | gateway/backend.go:316-324 | publishes the longest good prefix, in order |
| Backends.Backend.SendPackets | gateway/backend.go:216-237 | writes the channel in order without the datagrams that have no packet type, up to the first write that fails, hence all of it when all have one and none fails |
| Backends.SendableIs | gateway/backend.go:216-224 | a datagram is let through exactly when it has four bytes and starts with version 1 or 2, as often as it is queued |
| Backends.Backend.Send | gateway/backend.go:170-194 | queues one PULL_RESP with the gateway's own version for a registered gateway and nothing otherwise |
| TtnBackend.CreatedOnce | backend/thethingsnetwork/backend.go:77-128 | double-checked creation under any schedule: one object per MAC ever; every caller, either publisher or the callback, holds the object that the map has for its MAC then and ever after |
| TtnBackend.InvKeeps | backend/thethingsnetwork/backend.go:265-324 | each step of publishers, registry and callbacks keeps creation, registry and streams in order |
| TtnBackend.RegistryRuns | gateway/backend.go:52-79 | with the callbacks running step by step inside `set` and `cleanup`, the registry is at every moment what a run of its operations makes it, so every gateway's callbacks alternate from onNew on |
| TtnBackend.OneStreamEach | cmd/lora-gateway-bridge/main.go:85-91 | with the callbacks wired to the registry, outside the callbacks a registered MAC has exactly one open downlink stream and any other none, that is, one exactly when its last callback was onNew |
| MqttBackend.TopicInjective | backend/mqttpubsub/backend.go:62 | different MACs have different topics |
| MqttBackend.TopicIs | backend/mqttpubsub/backend.go:62 | a topic is gateway/, the MAC in lower-case hexadecimal, and /tx |
| MqttBackend.NextKeeps | backend/mqttpubsub/backend.go:58-84 | no step leaves a topic over, nor one missing unless a handler is still to re-subscribe |
| MqttBackend.Resubscribed | backend/mqttpubsub/backend.go:120-140 | whenever connected with no handler running, the broker holds exactly the topics of the subscribed gateways |

## Left out

- Indexes.Index.Search: where two scores are equal or one is undefined, the engine's sort may order the hits otherwise than the insertion sort here; the contract fixes their order only by defined scores.
- IndexLaws.InjectiveSeparates: of zero or of a negative number `Math.log` gives no real number; here the parameter gives any, and a caller says of it whether it tells two such counts apart.
- Indexes.Index.Emit: listeners other than the index's own have no effect on the index in the model.
- Lex.Total: strings are sequences of Dafny characters, so surrogate code units are not ordered separately.
- TtnBackend.InvKeeps: the back-end is a transition function on values and not a class, because its methods interleave; each step is one critical section.
- MqttBackend.NextKeeps: a transition function on values for the same reason; the retry loop may go on as long as calls fail, and a failed call changes nothing at the broker.
- Handlers.Reachable: the channels are unbuffered in the source; here a send is one step and its history is kept. Cleanup is one step for each deletion, with no condition on age, which allows more than the source does.
- Registry.Gateways.Cleanup: clock readings and callback outcomes are parameters; freshness is stated for readings that are never earlier than the start.
- DataRates.RoundTripExactly: receivers of `UnmarshalJSON` are values, returned with the one field it assigns changed.
- Serialisation of the index (`toJSON`, `load`), `after`, `before` and `reset` of the pipeline, and `use`: copies and list edits.
- The Porter stemmer, the trimmer, the stop-word list and the tokenizer's own rules: pipeline functions and tokenizer are arbitrary here.
- The rest of `application.js` (FastClick, page layout, the search box) and `modernizr.js`: user interface.
- What a gateway says in a status report (`newGatewayStatsPacket`, `convertStatsPacket`): field copying. `StatSent` in the interleaving model stands for the whole of `handleStat`.
- Times and the floating-point frequency and SNR of received packets; the rate limiter; configuration, account server and discovery; sockets, gRPC and MQTT client internals; logging and shutdown.
