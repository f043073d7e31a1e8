# RAG chat server: corpus sync and request handling

This project models the core of `rag-app/server.mjs` in Dafny. That file is
a retrieval-augmented chat server. It fetches records from a Strapi content
API and normalises each one into a LangChain `Document`. It keeps one
document per `documentId`, splits the documents into chunks and keeps them
in a Milvus vector collection. Each `/chat` request is answered from that
collection.

Modules:

- `JsText`: JavaScript's `String.prototype.trim` (the ECMAScript whitespace
  and line-terminator set) and `Array.prototype.join`.
- `Normalizer`: `processDocument`, the record normaliser.
- `Dedupe`: the `Map`-by-`documentId` block. `Unique` specifies it, and the
  method `Dedupe.Dedupe` runs the `Map` loop.
- `Batching`: the `BATCH_SIZE = 100` batch plan of the insertion loop.
- `Remote`: the outcomes of the external calls (content fetch, Milvus
  attach, create, delete and add) as data supplied by the caller.
- `Sync`: `getMilvusStore` and `updateMilvusData` as transitions
  `InitStep` and `SyncStep` over the module-level state: the cached handle
  `milvusStore`, the fingerprint `lastDataHash` and the collection contents.
- `Chat`: the `/chat` validation and history mapping, the answer step of
  `handleQuery` and the projection of the retrieved documents into `context`.
- `Server`: class `RagServer`, which holds the module-level variables as
  fields. Its methods are proved to make exactly the `Sync` transitions.

## Model

| member | source | states |
|---|---|---|
| Normalizer.ProcessDocument | rag-app/server.mjs:70-95 | null when the record is null, `Content` is missing or `Title` is falsy. Otherwise the pageContent is the non-empty pieces joined with "\n\n", and the metadata is exactly source "milvus_content" with the record's id, Title and documentId. A returned pageContent is non-empty and starts and ends with non-whitespace |
| Normalizer.ProcessDocumentSomeIff | rag-app/server.mjs:71-86 | a document comes back if and only if the record has `Content` and a truthy `Title` and at least one block contributes text |
| Normalizer.BlockText | rag-app/server.mjs:74-82 | a block gives text if and only if its type is "paragraph" and it has children. Non-empty text has no leading or trailing whitespace |
| Normalizer.KeepTruthy | rag-app/server.mjs:83 | `filter(Boolean)`: every kept piece is non-empty and came from the input |
| Normalizer.KeepTruthyAppend | rag-app/server.mjs:83 | filtering distributes over concatenation |
| Normalizer.KeepTruthyEmpty | rag-app/server.mjs:83 | the filter is empty if and only if no element is a non-empty string |
| Normalizer.Pieces | rag-app/server.mjs:73-83 | every piece is non-empty and has no leading or trailing whitespace |
| Normalizer.PiecesAppend | rag-app/server.mjs:73-83 | the pieces of concatenated blocks are the concatenated pieces |
| Normalizer.PiecesNonEmpty | rag-app/server.mjs:73-84 | there are pieces if and only if some block contributes text |
| Normalizer.NonContributingBlockIgnored | rag-app/server.mjs:81-83 | inserting a non-paragraph or childless block anywhere leaves the result of the normaliser unchanged |
| Normalizer.JoinEmptyIff | rag-app/server.mjs:84-86 | the joined text is empty if and only if there are no pieces, so the emptiness check rejects exactly the records without text |
| Normalizer.SingleParagraph | rag-app/server.mjs:70-95 | a titled record with one paragraph of one non-blank span becomes one document whose pageContent is that span trimmed |
| JsText.Trim | rag-app/server.mjs:79 | the result is the input with the longest leading and trailing runs of whitespace removed. It is empty exactly when the input is all whitespace |
| JsText.TrimIdempotent | rag-app/server.mjs:79 | trimming twice is trimming once |
| JsText.Join | rag-app/server.mjs:78 | joining nothing gives "" and joining one piece gives that piece |
| JsText.JoinCons | rag-app/server.mjs:78 | a piece before a non-empty list joins as the piece, the separator, then the rest joined |
| JsText.JoinAppend | rag-app/server.mjs:84 | joining two non-empty lists puts exactly one separator between their joins, so every two neighbouring pieces are separated by the separator |
| JsText.JoinEnds | rag-app/server.mjs:84 | the first piece is a prefix of the joined text and the last piece a suffix |
| Dedupe.Compact | rag-app/server.mjs:131 | `filter(Boolean)` keeps exactly the non-null documents. One element gives its document, or nothing for null |
| Dedupe.CompactAppend | rag-app/server.mjs:131 | the filter keeps fetch order: it distributes over concatenation |
| Dedupe.KeysInOrder | rag-app/server.mjs:129-134 | the `Map`'s key order: each key once, exactly the keys present |
| Dedupe.KeysInOrderFirstAppearance | rag-app/server.mjs:129-134 | a key whose first occurrence comes earlier sits earlier in the key order |
| Dedupe.LastWith | rag-app/server.mjs:132 | the last document with a key exists exactly when some document has that key, and it is one of the documents and has that key |
| Dedupe.Unique | rag-app/server.mjs:129-134 | one document per key, in first-appearance key order, each being the last document with that key |
| Dedupe.UniqueKeysDistinct | rag-app/server.mjs:129-134 | after dedupe each documentId appears at most once |
| Dedupe.Dedupe | rag-app/server.mjs:129-134 | the loop filling the `Map` with `set` in fetch order gives exactly `Unique` |
| Dedupe.UniqueKeepsEveryKey | rag-app/server.mjs:129-134 | no key of a non-null document is lost |
| Dedupe.LastWithIsLast | rag-app/server.mjs:132 | the surviving document is the last one with its key, and no later document has that key |
| Dedupe.UniqueLastWins | rag-app/server.mjs:132-134 | the surviving document for each key is the last one in fetch order |
| Dedupe.LaterDuplicateWins | rag-app/server.mjs:132 | of two documents with the same key, the later one is the one kept |
| Seqs.Flatten | rag-app/server.mjs:139 | `flat()` of no arrays is empty. Its concatenation behaviour is `FlattenAppend` |
| Seqs.FlattenAppend | rag-app/server.mjs:139 | `flat()` distributes over concatenation |
| Batching.Batches | rag-app/server.mjs:199-200 | every batch is non-empty and holds at most 100 chunks |
| Batching.BatchesFlatten | rag-app/server.mjs:199-203 | the batches concatenated give the chunk list back |
| Batching.BatchesCount | rag-app/server.mjs:202 | there are ceil(n / 100) batches |
| Batching.BatchAt | rag-app/server.mjs:199-200 | batch k is `slice(k*100, k*100 + 100)` |
| Batching.BatchesPrefix | rag-app/server.mjs:199-203 | the first k batches are the first k*100 chunks |
| Batching.FullBatches | rag-app/server.mjs:200 | every batch but the last is full |
| Remote.Fingerprint | rag-app/server.mjs:172 | the fingerprint carries the serialised response it was taken of |
| Remote.FingerprintInjective | rag-app/server.mjs:172 | two fingerprints are equal exactly when the serialised responses are. This holds by construction, because the fingerprint is modelled as a wrapper of the serialised text, so the lemma documents the modelling choice rather than proving anything about base64 |
| Sync.NormaliseAll | rag-app/server.mjs:180 | one entry per record, in order, each being `ProcessDocument` of that record |
| Sync.SplitAll | rag-app/server.mjs:191-193 | splitting no documents gives no chunks |
| Sync.SplitAllAppend | rag-app/server.mjs:191-193 | each document is split on its own and the chunks are concatenated in document order |
| Sync.Corpus | rag-app/server.mjs:180-193 | the chunks are those of the deduplicated non-null normalised records. Its properties come from `NormaliseAll`, `Compact`, `Unique` and `SplitAll` |
| Sync.AddBatches | rag-app/server.mjs:199-203 | the loop passes if and only if there is no failure or the failing call would come after the last batch. A failure at batch k rethrows that call's error with exactly the first k batches added |
| Sync.InitStep | rag-app/server.mjs:98-163 | a cached handle is returned with no effect. A successful attach caches a handle and leaves the fingerprint alone. On any failure the handle stays null and nothing changes. A change to the fingerprint or the index happens only through the bootstrap, which stores the corpus and records the fingerprint. Which call outcomes produce which result is `InitStepOutcomes` |
| Sync.InitStepOutcomes | rag-app/server.mjs:103-162 | with no cached handle and a failed attach, initialisation succeeds if and only if the fetch returns an array and the create succeeds. Success caches `Created`, records the fingerprint and holds the corpus. A failed fetch, a non-array body or a failed create is rethrown with nothing changed |
| Sync.SyncStep | rag-app/server.mjs:166-212 | an unchanged fingerprint returns false and changes nothing. True means the index is exactly the corpus and the fingerprint is recorded. On any error the fingerprint is unchanged, and the index is either unchanged or a prefix of whole batches. The handle is never changed. Which call outcomes produce which result is `SyncStepOutcomes` |
| Sync.SyncStepOutcomes | rag-app/server.mjs:166-211 | a failed fetch is rethrown with nothing changed. With a changed fingerprint, the result is true if and only if the body is an array, a handle is cached, the delete succeeds and no batch fails. A non-array body, a missing handle or a failed delete is rethrown with nothing changed. A failing batch is rethrown with the batches before it left in the collection |
| Sync.SyncTwiceIsNoop | rag-app/server.mjs:172-205 | a sync that succeeded, run again on the same fetch, returns false and writes nothing |
| Sync.BootstrapThenSyncIsNoop | rag-app/server.mjs:156-176 | after a bootstrap, a sync of unchanged content is a no-op |
| Sync.AttachThenSyncRebuilds | rag-app/server.mjs:107-207 | after an attach no fingerprint is known, so the first sync rebuilds the index |
| Sync.InitFailureIsRetried | rag-app/server.mjs:98-162 | a failed initialisation leaves no handle, so the next call tries again from the start |
| Sync.SyncFailureIsRetried | rag-app/server.mjs:173-211 | a failed sync does not record the fingerprint, so the next sync of the same content rebuilds again |
| Chat.ValidateInput | rag-app/server.mjs:290-295 | rejected if and only if the input is absent or all whitespace. An accepted question is passed on untrimmed. A non-string input throws |
| Chat.ToMessages | rag-app/server.mjs:298-302 | the mapping of history entries, with its meaning stated by `ToMessagesMeaning` |
| Chat.ToMessagesMeaning | rag-app/server.mjs:298-302 | throws if and only if some entry is null. Otherwise there is one message per entry, in order, with the same content, and a message is human exactly when the role is "user" |
| Chat.ToMessagesAppend | rag-app/server.mjs:298-302 | the history maps entry by entry over a concatenation |
| Chat.FormatHistory | rag-app/server.mjs:297-303 | a non-array history becomes no messages. An array is mapped entry by entry |
| Chat.HitDocs | rag-app/server.mjs:271 | the retrieved documents, in rank order |
| Chat.ContextOf | rag-app/server.mjs:274-281 | one context entry per hit, in order, with the hit's content, title, id and documentId |
| Chat.ContextOfAppend | rag-app/server.mjs:276-281 | the projection distributes over concatenation |
| Chat.Answer | rag-app/server.mjs:223-282 | succeeds if and only if both the search with k = 3 and the chain succeed. It then answers with the chain's output and the context of the hits |
| Chat.InternalError | rag-app/server.mjs:307-314 | status 500, with a generic message in production and the error's message otherwise |
| Chat.ReplyOf | rag-app/server.mjs:305-314 | a successful query is a 200 with its body. A failed one is a 500 |
| Server.RagServer.constructor | rag-app/server.mjs:67-68 | no handle and no fingerprint at startup, over whatever the collection already holds |
| Server.RagServer.PrepareChunks | rag-app/server.mjs:180-193 | normalise, drop nulls, dedupe and split: the chunks are exactly `Corpus` |
| Server.RagServer.GetMilvusStore | rag-app/server.mjs:98-163 | the fields change exactly as `InitStep` says, and the result is `InitStep`'s |
| Server.RagServer.AddInBatches | rag-app/server.mjs:199-203 | the counting loop appends exactly what `AddBatches` says and stops where it says |
| Server.RagServer.UpdateMilvusData | rag-app/server.mjs:166-212 | the fields change exactly as `SyncStep` says, and the result is `SyncStep`'s |
| Server.RagServer.Rebuild | rag-app/server.mjs:196-207 | the collection ends up as `AddBatches` leaves it. The fingerprint is recorded, with result true, only when every batch went in. Otherwise the batch's error is returned and the fingerprint is unchanged |
| Server.RagServer.HandleQuery | rag-app/server.mjs:214-283 | an initialisation error is the result. Otherwise the sync runs with its error swallowed, and the answer comes from the collection as the sync left it |
| Server.RagServer.HandleChat | rag-app/server.mjs:286-316 | bad input gets a 400 before any state is touched. A thrown validation or history error gets a 500 with nothing touched. Otherwise the reply is the query's result, or a 500 for its error |

## Left out

- The text splitter (`RecursiveCharacterTextSplitter`) is a library call. It is the opaque parameter `split`, and nothing is claimed about chunk sizes or overlap.
- Network, embedding and model calls (axios, the Milvus client, OpenAI, `createStuffDocumentsChain`) are not modelled. Each is an outcome or a function supplied by the caller (`InitEnv`, `SyncEnv`, `Searcher`, `Llm`). The system prompt text and the prompt rendering are not modelled.
- `Milvus.fromDocuments` and `delete({})` that fail are taken to leave the collection unchanged. Any partial remote effect of such a call is not modelled.
- The fingerprint `base64(JSON.stringify(data))` is the serialised text wrapped in `Digest`. JSON serialisation itself is not modelled, so the serialisation is part of the fetched response.
- Concurrent requests racing on `milvusStore` and `lastDataHash` are not modelled. The model has a single sequential caller.
- `/health`, Express, CORS, dotenv, `app.listen` and console logging are plumbing and are left out, as is the React client `rag-app/src/ChatbotUI.js`.
- Records whose `Content` is truthy but not an array, blocks that are null, child spans that are null, and history entries that are not objects are left out: their runtime type errors are not modelled. A span is always an object whose `text` is a string or missing, and other JSON values in `text` are not modelled.
- `Title` and `documentId` are strings or missing, and other JSON values are not modelled. A `documentId` of `null` and a missing `documentId` are different keys of the JavaScript `Map`, but both are the key `None` here, so records that differ only in that respect are merged.
- A successful `Milvus.fromDocuments` is taken to leave the collection holding exactly the chunks. This is right when the failed attach means there was no collection to keep.
- An `addDocuments` call that throws is taken to add nothing of its batch. A partially inserted batch is not modelled.
- Server.RagServer.HandleChat: a missing request body is not modelled, because the JSON body parser always supplies an object.
- The exact wording of V8's `TypeError` messages is a representative string, not a specification.
- Chat.Answer does not model the search's ranking or scores beyond passing the hits through in order.
