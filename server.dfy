/**
 * The server's module-level state and the operations that read and write
 * it: `getMilvusStore`, `updateMilvusData` with its batch loop,
 * `handleQuery` and the `/chat` handler.
 */
module Server {
  import opened Wrappers
  import opened Seqs
  import opened Normalizer
  import opened Dedupe
  import opened Batching
  import opened Remote
  import opened Sync
  import opened Chat

  class RagServer {
    /** The text splitter the server was configured with. */
    const split: Splitter
    /** `milvusStore`: the cached store handle, `null` until initialised. */
    var milvusStore: Option<StoreHandle>
    /** `lastDataHash`: the fingerprint of the last fully indexed fetch. */
    var lastDataHash: Option<Digest>
    /** The contents of the vector collection the handle refers to. */
    var index: seq<Document>

    /** The state the sync specification speaks about. */
    function Current(): State
      reads this
    {
      State(milvusStore, lastDataHash, index)
    }

    /** A freshly started process over a collection holding `existing`. */
    constructor (split: Splitter, existing: seq<Document>)
      ensures this.split == split
      ensures Current() == State(None, None, existing)
    {
      this.split := split;
      milvusStore := None;
      lastDataHash := None;
      index := existing;
    }

    /**
     * Normalise, filter out nulls, dedupe by `documentId` and split: the
     * `allSplitDocs` of both the bootstrap and the sync.
     */
    method PrepareChunks(records: seq<RawRecord>) returns (chunks: seq<Document>)
      ensures chunks == Corpus(records, split)
    {
      var processed := NormaliseAll(records);
      var docs := Dedupe.Dedupe(Compact(processed));
      chunks := SplitAll(docs, split);
    }

    /** `getMilvusStore`. */
    method GetMilvusStore(env: InitEnv) returns (r: Result<StoreHandle, Failure>)
      modifies this
      ensures (Current(), r) == InitStep(old(Current()), env, split)
    {
      if milvusStore.Some? {
        return Ok(milvusStore.value);
      }
      if env.attach.Pass? {
        milvusStore := Some(Attached);
        return Ok(Attached);
      }
      if env.fetch.FetchFailed? {
        return Err(env.fetch.error);
      }
      var response := env.fetch.response;
      if response.data.None? {
        return Err(DATA_NOT_ARRAY);
      }
      var chunks := PrepareChunks(response.data.value);
      if env.create.Fail? {
        return Err(env.create.error);
      }
      index := chunks;
      milvusStore := Some(Created);
      lastDataHash := Some(Fingerprint(response.json));
      return Ok(Created);
    }

    /**
     * The batch loop of `updateMilvusData`: `addDocuments` on
     * `chunks.slice(i, i + BATCH_SIZE)` for `i = 0, BATCH_SIZE, ...`,
     * stopping at the call that throws.
     */
    method AddInBatches(chunks: seq<Document>, failure: Option<BatchFailure>) returns (r: Outcome<Failure>)
      modifies this`index
      ensures (r, index) == (AddBatches(chunks, failure).0, old(index) + AddBatches(chunks, failure).1)
    {
      BatchesCount(chunks);
      var i := 0;
      ghost var done := 0;
      while i < |chunks|
        invariant i == done * BATCH_SIZE && done <= |Batches(chunks)|
        invariant done < |Batches(chunks)| <==> i < |chunks|
        invariant index == old(index) + chunks[..Min(i, |chunks|)]
        invariant failure.Some? ==> failure.value.batch >= done
      {
        var batch := chunks[i..Min(i + BATCH_SIZE, |chunks|)];
        if failure.Some? && failure.value.batch == i / BATCH_SIZE {
          BatchesPrefix(chunks, done);
          return Fail(failure.value.error);
        }
        assert chunks[..Min(i + BATCH_SIZE, |chunks|)] == chunks[..Min(i, |chunks|)] + batch;
        index := index + batch;
        i := i + BATCH_SIZE;
        done := done + 1;
      }
      assert chunks[..Min(i, |chunks|)] == chunks;
      BatchesFlatten(chunks);
      return Pass;
    }

    /** `updateMilvusData`. */
    method UpdateMilvusData(env: SyncEnv) returns (r: Result<bool, Failure>)
      modifies this
      ensures (Current(), r) == SyncStep(old(Current()), env, split)
    {
      if env.fetch.FetchFailed? {
        return Err(env.fetch.error);
      }
      var response := env.fetch.response;
      var currentHash := Fingerprint(response.json);
      if Some(currentHash) == lastDataHash {
        return Ok(false);
      }
      if response.data.None? {
        return Err(DATA_NOT_ARRAY);
      }
      var chunks := PrepareChunks(response.data.value);
      if milvusStore.None? {
        return Err(STORE_IS_NULL);
      }
      if env.delete.Fail? {
        return Err(env.delete.error);
      }
      SyncStepRebuild(Current(), env, split);
      r := Rebuild(chunks, env.addFailure, currentHash);
    }

    /**
     * The tail of `updateMilvusData` once every guard has passed:
     * `delete({})`, the batch loop, and recording the fingerprint only when
     * every batch went in.
     */
    method Rebuild(chunks: seq<Document>, failure: Option<BatchFailure>, currentHash: Digest)
      returns (r: Result<bool, Failure>)
      modifies this`index, this`lastDataHash
      ensures index == AddBatches(chunks, failure).1
      ensures AddBatches(chunks, failure).0.Fail? ==>
        r == Err(AddBatches(chunks, failure).0.error) && lastDataHash == old(lastDataHash)
      ensures AddBatches(chunks, failure).0.Pass? ==> r == Ok(true) && lastDataHash == Some(currentHash)
    {
      index := [];
      var added := AddInBatches(chunks, failure);
      assert index == AddBatches(chunks, failure).1;
      if added.Fail? {
        return Err(added.error);
      }
      lastDataHash := Some(currentHash);
      return Ok(true);
    }

    /**
     * `handleQuery`: initialise (an error here is the result), sync with
     * every error swallowed, then answer from the collection as the sync
     * left it.
     */
    method HandleQuery(history: seq<Message>, input: string, init: InitEnv, sync: SyncEnv,
                       search: Searcher, llm: Llm) returns (r: Result<QueryResponse, Failure>)
      modifies this
      ensures var (s1, h) := InitStep(old(Current()), init, split);
        h.Err? ==> r == Err(h.error) && Current() == s1
      ensures var (s1, h) := InitStep(old(Current()), init, split);
        h.Ok? ==> Current() == SyncStep(s1, sync, split).0 && r == Answer(index, history, input, search, llm)
    {
      var store := GetMilvusStore(init);
      if store.Err? {
        return Err(store.error);
      }
      var _ := UpdateMilvusData(sync);
      r := Answer(index, history, input, search, llm);
    }

    /**
     * The `/chat` handler. An empty or whitespace-only question is answered
     * with 400 before any other work; every thrown error becomes a 500.
     */
    method HandleChat(request: ChatRequest, production: bool, init: InitEnv, sync: SyncEnv,
                      search: Searcher, llm: Llm) returns (reply: Reply)
      modifies this
      ensures ValidateInput(request.input).Rejected? ==> reply == INVALID_INPUT && unchanged(this)
      ensures ValidateInput(request.input).Throws? ==>
        reply == InternalError(ValidateInput(request.input).error, production) && unchanged(this)
      ensures ValidateInput(request.input).Accepted? && FormatHistory(request.chatHistory).Err? ==>
        reply == InternalError(FormatHistory(request.chatHistory).error, production) && unchanged(this)
      ensures ValidateInput(request.input).Accepted? && FormatHistory(request.chatHistory).Ok? ==>
        var question := ValidateInput(request.input).question;
        var history := FormatHistory(request.chatHistory).value;
        var (s1, h) := InitStep(old(Current()), init, split);
        && (h.Err? ==> reply == InternalError(h.error, production) && Current() == s1)
        && (h.Ok? ==>
              && Current() == SyncStep(s1, sync, split).0
              && reply == ReplyOf(Answer(index, history, question, search, llm), production))
    {
      match ValidateInput(request.input)
      case Rejected => return INVALID_INPUT;
      case Throws(e) => return InternalError(e, production);
      case Accepted(question) =>
        match FormatHistory(request.chatHistory)
        case Err(e) => return InternalError(e, production);
        case Ok(history) =>
          var response := HandleQuery(history, question, init, sync, search, llm);
          return ReplyOf(response, production);
    }
  }
}
