/**
 * What the sync pipeline receives from the services it calls: the content
 * API's response, the vector store's success or failure, and the thrown
 * errors. Each external call is represented by its outcome, supplied by the
 * caller of the model.
 */
module Remote {
  import opened Wrappers
  import opened Normalizer

  /** A thrown error: a runtime `TypeError`, or an error from a service. */
  datatype Failure = TypeError(message: string) | ServiceError(message: string)

  /** `response.data.data.map(...)` when `data` is not an array. */
  const DATA_NOT_ARRAY := TypeError("response.data.data.map is not a function")

  /** `milvusStore.delete({})` while no store handle is cached. */
  const STORE_IS_NULL := TypeError("Cannot read properties of null (reading 'delete')")

  /**
   * The corpus fingerprint `Buffer.from(JSON.stringify(data)).toString('base64')`.
   * Base64 of the UTF-8 bytes is injective, so two fingerprints are equal
   * exactly when the serialised responses are; the model keeps the
   * serialised text itself.
   */
  datatype Digest = Base64Of(json: string)

  function Fingerprint(json: string): (d: Digest)
    ensures d.json == json
  {
    Base64Of(json)
  }

  /** Equal fingerprints mean equal serialised responses, and conversely. */
  lemma FingerprintInjective(a: string, b: string)
    ensures Fingerprint(a) == Fingerprint(b) <==> a == b
  {
  }

  /**
   * The body of the content API's response: its JSON serialisation and its
   * `data` field, which is `None` when it is not an array.
   */
  datatype Response = Response(json: string, data: Option<seq<RawRecord>>)

  /** The outcome of `axios.get` on the content API. */
  datatype Fetch = FetchFailed(error: Failure) | Fetched(response: Response)

  /**
   * The outcomes of the external calls `getMilvusStore` may make:
   * `Milvus.fromExistingCollection`, the content fetch and `Milvus.fromDocuments`.
   */
  datatype InitEnv = InitEnv(attach: Outcome<Failure>, fetch: Fetch, create: Outcome<Failure>)

  /** The `addDocuments` call, counted from 0, that throws `error`. */
  datatype BatchFailure = BatchFailure(batch: nat, error: Failure)

  /**
   * The outcomes of the external calls `updateMilvusData` may make: the
   * content fetch, `milvusStore.delete({})` and the `addDocuments` calls.
   */
  datatype SyncEnv = SyncEnv(fetch: Fetch, delete: Outcome<Failure>, addFailure: Option<BatchFailure>)
}
