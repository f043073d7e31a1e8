/**
 * The corpus sync as a state machine over the module-level state of the
 * server: the cached store handle `milvusStore`, the fingerprint of the
 * last indexed fetch `lastDataHash`, and the contents of the vector
 * collection. `InitStep` is `getMilvusStore`, `SyncStep` is
 * `updateMilvusData`; the methods of `Server.RagServer` are proved to make
 * exactly these transitions.
 */
module Sync {
  import opened Wrappers
  import opened Seqs
  import opened Normalizer
  import opened Dedupe
  import opened Batching
  import opened Remote

  /** The cached handle, recording which path of `getMilvusStore` made it. */
  datatype StoreHandle = Attached | Created

  datatype State = State(milvusStore: Option<StoreHandle>, lastDataHash: Option<Digest>,
                         index: seq<Document>)

  /** `RecursiveCharacterTextSplitter.splitDocuments([doc])`, left opaque. */
  type Splitter = Document -> seq<Document>

  /** `response.data.data.map(processDocument)`. */
  function NormaliseAll(records: seq<RawRecord>): (r: seq<Option<Document>>)
    ensures |r| == |records|
    ensures forall i :: 0 <= i < |records| ==> r[i] == ProcessDocument(records[i])
  {
    seq(|records|, i requires 0 <= i < |records| => ProcessDocument(records[i]))
  }

  /** `docs.map(doc => splitter.splitDocuments([doc]))` followed by `.flat()`. */
  function SplitAll(docs: seq<Document>, split: Splitter): (r: seq<Document>)
    ensures docs == [] ==> r == []
  {
    Flatten(seq(|docs|, i requires 0 <= i < |docs| => split(docs[i])))
  }

  /**
   * Each document is split on its own and the chunks are concatenated in
   * document order: splitting a concatenation concatenates the splits, and
   * one document gives exactly its own chunks.
   */
  lemma SplitAllAppend(a: seq<Document>, b: seq<Document>, split: Splitter)
    ensures SplitAll(a + b, split) == SplitAll(a, split) + SplitAll(b, split)
    ensures |a| == 1 ==> SplitAll(a, split) == split(a[0])
  {
    var sa := seq(|a|, i requires 0 <= i < |a| => split(a[i]));
    var sb := seq(|b|, i requires 0 <= i < |b| => split(b[i]));
    assert seq(|a + b|, i requires 0 <= i < |a + b| => split((a + b)[i])) == sa + sb;
    FlattenAppend(sa, sb);
    if |a| == 1 {
      assert Flatten(sa) == sa[0] + Flatten(sa[1..]);
    }
  }

  /** `allSplitDocs`: the chunks of the deduplicated normalised records. */
  function Corpus(records: seq<RawRecord>, split: Splitter): seq<Document> {
    SplitAll(Unique(Compact(NormaliseAll(records))), split)
  }

  /**
   * The batch loop: the outcome of the `addDocuments` calls and the chunks
   * they appended. A call that throws stops the loop after the batches
   * before it were added.
   */
  function AddBatches(chunks: seq<Document>, failure: Option<BatchFailure>): (r: (Outcome<Failure>, seq<Document>))
    ensures r.0.Pass? <==> failure.None? || failure.value.batch >= |Batches(chunks)|
    ensures r.0.Pass? ==> r.1 == chunks
    ensures r.0.Fail? ==>
      r == (Fail(failure.value.error), Flatten(Batches(chunks)[..failure.value.batch]))
    ensures r.0.Fail? ==> exists k :: 0 <= k < |Batches(chunks)| && r.1 == Flatten(Batches(chunks)[..k])
  {
    if failure.Some? && failure.value.batch < |Batches(chunks)| then
      (Fail(failure.value.error), Flatten(Batches(chunks)[..failure.value.batch]))
    else
      BatchesFlatten(chunks);
      (Pass, chunks)
  }

  /**
   * `getMilvusStore`. A cached handle is returned with no other effect. An
   * attach to the existing collection caches a handle and leaves the
   * fingerprint alone. Otherwise the bootstrap fetches, normalises, dedupes
   * and splits, creates the collection from the chunks and only then
   * records the fingerprint. Any failure of the bootstrap leaves the state
   * as it was, with no handle cached.
   */
  function InitStep(s: State, env: InitEnv, split: Splitter): (r: (State, Result<StoreHandle, Failure>))
    ensures s.milvusStore.Some? ==> r == (s, Ok(s.milvusStore.value))
    ensures s.milvusStore.None? && env.attach.Pass? ==>
      r == (s.(milvusStore := Some(Attached)), Ok(Attached))
    ensures r.1.Err? ==> r.0 == s && s.milvusStore.None?
    ensures r.1.Ok? ==> r.0.milvusStore == Some(r.1.value)
    ensures r.0.lastDataHash != s.lastDataHash || r.0.index != s.index ==>
      && r.1 == Ok(Created) && env.fetch.Fetched? && env.fetch.response.data.Some?
      && r.0.lastDataHash == Some(Fingerprint(env.fetch.response.json))
      && r.0.index == Corpus(env.fetch.response.data.value, split)
  {
    if s.milvusStore.Some? then (s, Ok(s.milvusStore.value))
    else if env.attach.Pass? then (s.(milvusStore := Some(Attached)), Ok(Attached))
    else match env.fetch
      case FetchFailed(e) => (s, Err(e))
      case Fetched(response) =>
        if response.data.None? then (s, Err(DATA_NOT_ARRAY))
        else if env.create.Fail? then (s, Err(env.create.error))
        else
          (State(Some(Created), Some(Fingerprint(response.json)), Corpus(response.data.value, split)),
           Ok(Created))
  }

  /**
   * `updateMilvusData`. When the fetched fingerprint equals the recorded
   * one, nothing changes and the result is `false`. Otherwise the index is
   * emptied and refilled batch by batch, and only when every batch went in
   * is the new fingerprint recorded and `true` returned. The handle is
   * never changed, and on any error the fingerprint is left as it was.
   */
  function SyncStep(s: State, env: SyncEnv, split: Splitter): (r: (State, Result<bool, Failure>))
    ensures r.0.milvusStore == s.milvusStore
    ensures env.fetch.Fetched? && s.lastDataHash == Some(Fingerprint(env.fetch.response.json)) ==>
      r == (s, Ok(false))
    ensures r.1 == Ok(false) ==> r.0 == s
    ensures r.1 == Ok(true) ==>
      && env.fetch.Fetched? && env.fetch.response.data.Some?
      && s.lastDataHash != Some(Fingerprint(env.fetch.response.json))
      && r.0.lastDataHash == Some(Fingerprint(env.fetch.response.json))
      && r.0.index == Corpus(env.fetch.response.data.value, split)
    ensures r.1.Err? ==> r.0.lastDataHash == s.lastDataHash
    ensures r.1.Err? && r.0.index != s.index ==>
      && env.fetch.Fetched? && env.fetch.response.data.Some?
      && var chunks := Corpus(env.fetch.response.data.value, split);
         exists k :: 0 <= k < |Batches(chunks)| && r.0.index == Flatten(Batches(chunks)[..k])
  {
    match env.fetch
    case FetchFailed(e) => (s, Err(e))
    case Fetched(response) =>
      var currentHash := Fingerprint(response.json);
      if Some(currentHash) == s.lastDataHash then (s, Ok(false))
      else if response.data.None? then (s, Err(DATA_NOT_ARRAY))
      else if s.milvusStore.None? then (s, Err(STORE_IS_NULL))
      else if env.delete.Fail? then (s, Err(env.delete.error))
      else
        var chunks := Corpus(response.data.value, split);
        var (outcome, added) := AddBatches(chunks, env.addFailure);
        match outcome
        case Fail(e) => (s.(index := added), Err(e))
        case Pass => (s.(index := chunks, lastDataHash := Some(currentHash)), Ok(true))
  }

  /**
   * The outcomes of an initialisation with no cached handle whose attach
   * fails: it succeeds exactly when the fetch returns an array and the
   * create succeeds, and then caches `Created`, records the fingerprint and
   * holds the corpus; a failed fetch, a non-array body or a failed create
   * is rethrown with nothing changed.
   */
  lemma InitStepOutcomes(s: State, env: InitEnv, split: Splitter)
    requires s.milvusStore.None? && env.attach.Fail?
    ensures InitStep(s, env, split).1.Ok? <==>
      env.fetch.Fetched? && env.fetch.response.data.Some? && env.create.Pass?
    ensures env.fetch.FetchFailed? ==> InitStep(s, env, split) == (s, Err(env.fetch.error))
    ensures env.fetch.Fetched? && env.fetch.response.data.None? ==>
      InitStep(s, env, split) == (s, Err(DATA_NOT_ARRAY))
    ensures env.fetch.Fetched? && env.fetch.response.data.Some? && env.create.Fail? ==>
      InitStep(s, env, split) == (s, Err(env.create.error))
    ensures InitStep(s, env, split).1.Ok? ==>
      InitStep(s, env, split) ==
        (State(Some(Created), Some(Fingerprint(env.fetch.response.json)),
               Corpus(env.fetch.response.data.value, split)), Ok(Created))
  {
    var r := InitStep(s, env, split);
    if env.fetch.FetchFailed? {
      assert r == (s, Err(env.fetch.error));
    } else if env.fetch.response.data.None? {
      assert r == (s, Err(DATA_NOT_ARRAY));
    } else if env.create.Fail? {
      assert r == (s, Err(env.create.error));
    } else {
      var response := env.fetch.response;
      assert r == (State(Some(Created), Some(Fingerprint(response.json)),
                         Corpus(response.data.value, split)), Ok(Created));
    }
  }

  /**
   * The outcomes of a sync. A failed fetch is rethrown with nothing
   * changed. With a changed fingerprint, the result is `true` exactly when
   * the body is an array, a handle is cached, the delete succeeds and no
   * batch fails; a non-array body, a missing handle and a failed delete are
   * rethrown with nothing changed; a failing batch is rethrown, leaving the
   * batches before it in the collection.
   */
  lemma SyncStepOutcomes(s: State, env: SyncEnv, split: Splitter)
    ensures env.fetch.FetchFailed? ==> SyncStep(s, env, split) == (s, Err(env.fetch.error))
    ensures env.fetch.Fetched? && s.lastDataHash != Some(Fingerprint(env.fetch.response.json)) ==>
      var response := env.fetch.response;
      && (SyncStep(s, env, split).1 == Ok(true) <==>
            && response.data.Some? && s.milvusStore.Some? && env.delete.Pass?
            && (env.addFailure.None? ||
                env.addFailure.value.batch >= |Batches(Corpus(response.data.value, split))|))
      && (response.data.None? ==> SyncStep(s, env, split) == (s, Err(DATA_NOT_ARRAY)))
      && (response.data.Some? && s.milvusStore.None? ==>
            SyncStep(s, env, split) == (s, Err(STORE_IS_NULL)))
      && (response.data.Some? && s.milvusStore.Some? && env.delete.Fail? ==>
            SyncStep(s, env, split) == (s, Err(env.delete.error)))
    ensures env.fetch.Fetched? && s.lastDataHash != Some(Fingerprint(env.fetch.response.json)) &&
            env.fetch.response.data.Some? && s.milvusStore.Some? && env.delete.Pass? &&
            env.addFailure.Some? ==>
      var chunks := Corpus(env.fetch.response.data.value, split);
      var k := env.addFailure.value.batch;
      k < |Batches(chunks)| ==>
        SyncStep(s, env, split) == (s.(index := Flatten(Batches(chunks)[..k])), Err(env.addFailure.value.error))
  {
  }

  /** The rebuild branch of `SyncStep`, once every guard before it has passed. */
  lemma SyncStepRebuild(s: State, env: SyncEnv, split: Splitter)
    requires env.fetch.Fetched? && env.fetch.response.data.Some?
    requires s.lastDataHash != Some(Fingerprint(env.fetch.response.json))
    requires s.milvusStore.Some? && env.delete.Pass?
    ensures var added := AddBatches(Corpus(env.fetch.response.data.value, split), env.addFailure);
      SyncStep(s, env, split) ==
        if added.0.Fail? then (s.(index := added.1), Err(added.0.error))
        else (s.(index := added.1, lastDataHash := Some(Fingerprint(env.fetch.response.json))), Ok(true))
  {
  }

  /**
   * A sync that succeeded (changed or not) records the fetched fingerprint,
   * so a second sync over the same fetch returns `false` and writes nothing.
   */
  lemma SyncTwiceIsNoop(s: State, first: SyncEnv, second: SyncEnv, split: Splitter)
    requires SyncStep(s, first, split).1.Ok?
    requires second.fetch == first.fetch
    ensures var s1 := SyncStep(s, first, split).0;
      SyncStep(s1, second, split) == (s1, Ok(false))
  {
    var s1 := SyncStep(s, first, split).0;
    assert s1.lastDataHash == Some(Fingerprint(first.fetch.response.json));
  }

  /**
   * After a bootstrap, a sync over an unchanged content API returns `false`
   * and writes nothing.
   */
  lemma BootstrapThenSyncIsNoop(s: State, init: InitEnv, env: SyncEnv, split: Splitter)
    requires s.milvusStore.None? && init.attach.Fail? && init.create.Pass?
    requires init.fetch.Fetched? && init.fetch.response.data.Some?
    requires env.fetch == init.fetch
    ensures var s1 := InitStep(s, init, split).0;
      SyncStep(s1, env, split) == (s1, Ok(false))
  {
  }

  /**
   * An attach records no fingerprint, so the first sync of a fresh process
   * that attached always rebuilds the whole index when its calls succeed.
   */
  lemma AttachThenSyncRebuilds(s: State, init: InitEnv, env: SyncEnv, split: Splitter)
    requires s.milvusStore.None? && s.lastDataHash.None? && init.attach.Pass?
    requires env.fetch.Fetched? && env.fetch.response.data.Some?
    requires env.delete.Pass? && env.addFailure.None?
    ensures var s1 := InitStep(s, init, split).0;
      SyncStep(s1, env, split) ==
        (State(Some(Attached), Some(Fingerprint(env.fetch.response.json)),
               Corpus(env.fetch.response.data.value, split)), Ok(true))
  {
  }

  /**
   * A failed initialisation leaves nothing cached: the next call attempts
   * the whole initialisation again, as if the failed one never happened.
   */
  lemma InitFailureIsRetried(s: State, failed: InitEnv, next: InitEnv, split: Splitter)
    requires InitStep(s, failed, split).1.Err?
    ensures InitStep(InitStep(s, failed, split).0, next, split) == InitStep(s, next, split)
  {
  }

  /**
   * A failed sync does not record the fingerprint, so a later sync of the
   * same content is not skipped: it performs the full rebuild again.
   */
  lemma SyncFailureIsRetried(s: State, failed: SyncEnv, retry: SyncEnv, split: Splitter)
    requires failed.fetch.Fetched? && failed.fetch.response.data.Some? && retry.fetch == failed.fetch
    requires s.milvusStore.Some? && retry.delete.Pass? && retry.addFailure.None?
    ensures SyncStep(s, failed, split).1.Err? ==>
      SyncStep(SyncStep(s, failed, split).0, retry, split).1 == Ok(true)
  {
    var r := SyncStep(s, failed, split);
    if r.1.Err? {
      assert r.0.lastDataHash == s.lastDataHash && r.0.milvusStore == s.milvusStore;
      SyncStepRebuild(r.0, retry, split);
    }
  }
}
