/**
 * The request glue of the `/chat` endpoint and of `handleQuery`: input
 * validation, the mapping of the chat history onto LangChain messages, the
 * answer step after retrieval, and the projection of the retrieved
 * documents into the response's `context`.
 */
module Chat {
  import opened Wrappers
  import opened JsText
  import opened Normalizer
  import opened Remote

  /** `CONFIG.TOP_K`: how many documents the similarity search is asked for. */
  const TOP_K: nat := 3

  /** The request's `input`: absent or `null`, a string, or any other JSON value. */
  datatype InputValue = Absent | Str(text: string) | NonString

  /** What the `!input?.trim()` guard does with an input. */
  datatype InputCheck = Accepted(question: string) | Rejected | Throws(error: Failure)

  /** `input?.trim` on a number, boolean, array or object is not callable. */
  const INPUT_NOT_STRING := TypeError("input?.trim is not a function")

  /**
   * The `!input?.trim()` guard. An absent input or one that is all
   * whitespace is rejected; any other string is accepted as it is, not
   * trimmed; a non-string input makes the call throw.
   */
  function ValidateInput(input: InputValue): (r: InputCheck)
    ensures r.Rejected? <==> input.Absent? || (input.Str? && AllTrimmable(input.text))
    ensures r.Accepted? <==> input.Str? && !AllTrimmable(input.text)
    ensures r.Accepted? ==> r.question == input.text
    ensures r.Throws? <==> input.NonString?
  {
    match input
    case Absent => Rejected
    case NonString => Throws(INPUT_NOT_STRING)
    case Str(text) => if Trim(text) == "" then Rejected else Accepted(text)
  }

  /** One entry of the request's `chatHistory` array: `null` or `{role, content}`. */
  datatype HistoryEntry = NullEntry | Entry(role: Option<string>, content: string)

  /** The request's `chatHistory`: an array of entries, or any other value. */
  datatype HistoryValue = NotArray | Entries(entries: seq<HistoryEntry>)

  /** A LangChain chat message. */
  datatype Message = Human(content: string) | Ai(content: string)

  /** `msg.role` on a `null` entry. */
  const ENTRY_IS_NULL := TypeError("Cannot read properties of null (reading 'role')")

  /** One entry's message: "user" is the human side, every other role the AI side. */
  function MessageOf(role: Option<string>, content: string): Message {
    if role == Some("user") then Human(content) else Ai(content)
  }

  /** `chatHistory.map(...)`, throwing at the first `null` entry. */
  function ToMessages(entries: seq<HistoryEntry>): Result<seq<Message>, Failure> {
    if entries == [] then Ok([])
    else
      match entries[0]
      case NullEntry => Err(ENTRY_IS_NULL)
      case Entry(role, content) =>
        match ToMessages(entries[1..])
        case Err(e) => Err(e)
        case Ok(rest) => Ok([MessageOf(role, content)] + rest)
  }

  /**
   * The mapping throws exactly when some entry is `null`; otherwise it
   * gives one message per entry, in order, keeping the content and making
   * a human message exactly of the entries whose role is "user".
   */
  lemma {:induction false} ToMessagesMeaning(entries: seq<HistoryEntry>)
    ensures ToMessages(entries).Err? <==> exists i :: 0 <= i < |entries| && entries[i].NullEntry?
    ensures ToMessages(entries).Err? ==> ToMessages(entries).error == ENTRY_IS_NULL
    ensures ToMessages(entries).Ok? ==>
      var r := ToMessages(entries).value;
      |r| == |entries| && forall i :: 0 <= i < |entries| ==>
        && entries[i].Entry?
        && r[i].content == entries[i].content
        && (r[i].Human? <==> entries[i].role == Some("user"))
  {
    if entries != [] {
      ToMessagesMeaning(entries[1..]);
      assert forall i :: 1 <= i < |entries| ==> entries[i] == entries[1..][i - 1];
    }
  }

  /**
   * The history maps entry by entry: mapping a concatenation is
   * concatenating the mappings, and it throws exactly when either part does.
   */
  lemma {:induction false} ToMessagesAppend(a: seq<HistoryEntry>, b: seq<HistoryEntry>)
    ensures ToMessages(a + b).Ok? <==> ToMessages(a).Ok? && ToMessages(b).Ok?
    ensures ToMessages(a + b).Ok? ==> ToMessages(a + b).value == ToMessages(a).value + ToMessages(b).value
  {
    if a == [] {
      assert a + b == b;
    } else {
      assert (a + b)[0] == a[0];
      assert (a + b)[1..] == a[1..] + b;
      ToMessagesAppend(a[1..], b);
    }
  }

  /** `Array.isArray(chatHistory) ? chatHistory.map(...) : []`. */
  function FormatHistory(h: HistoryValue): (r: Result<seq<Message>, Failure>)
    ensures h.NotArray? ==> r == Ok([])
    ensures h.Entries? ==> r == ToMessages(h.entries)
  {
    match h
    case NotArray => Ok([])
    case Entries(entries) => ToMessages(entries)
  }

  /** One `[doc, score]` pair of `similaritySearchWithScore`. */
  datatype Hit = Hit(doc: Document, score: real)

  /** One element of the response's `context`. */
  datatype ContextEntry = ContextEntry(content: string, title: string, id: Option<int>,
                                       documentId: Option<string>)

  /** The `/chat` response body. */
  datatype QueryResponse = QueryResponse(answer: string, context: seq<ContextEntry>)

  /** `similaritySearchWithScore(input, k)` over the given collection contents. */
  type Searcher = (seq<Document>, string, nat) -> Result<seq<Hit>, Failure>

  /** The stuff-documents chain: history, question and retrieved documents to an answer. */
  type Llm = (seq<Message>, string, seq<Document>) -> Result<string, Failure>

  /** The documents of the hits, in rank order: `results.map(([doc]) => doc)`. */
  function HitDocs(hits: seq<Hit>): (r: seq<Document>)
    ensures |r| == |hits| && forall i :: 0 <= i < |hits| ==> r[i] == hits[i].doc
  {
    seq(|hits|, i requires 0 <= i < |hits| => hits[i].doc)
  }

  /**
   * The response's `context`: one entry per hit, in rank order, carrying
   * the hit's text and its title, id and documentId metadata.
   */
  function ContextOf(hits: seq<Hit>): (r: seq<ContextEntry>)
    ensures |r| == |hits|
    ensures forall i :: 0 <= i < |hits| ==>
      && r[i].content == hits[i].doc.pageContent
      && r[i].title == hits[i].doc.metadata.title
      && r[i].id == hits[i].doc.metadata.id
      && r[i].documentId == hits[i].doc.metadata.documentId
  {
    if hits == [] then []
    else
      var d := hits[0].doc;
      [ContextEntry(d.pageContent, d.metadata.title, d.metadata.id, d.metadata.documentId)]
        + ContextOf(hits[1..])
  }

  /** The context of a list of hits is the context of its parts. */
  lemma {:induction false} ContextOfAppend(a: seq<Hit>, b: seq<Hit>)
    ensures ContextOf(a + b) == ContextOf(a) + ContextOf(b)
  {
    if a == [] {
      assert a + b == b;
    } else {
      assert (a + b)[0] == a[0];
      assert (a + b)[1..] == a[1..] + b;
      ContextOfAppend(a[1..], b);
    }
  }

  /**
   * The part of `handleQuery` after the sync: search the collection for the
   * question with `TOP_K`, hand history, question and retrieved documents
   * to the model, and return its answer with the retrieved context. A
   * failure of either call is the result.
   */
  function Answer(index: seq<Document>, history: seq<Message>, input: string,
                  search: Searcher, llm: Llm): (r: Result<QueryResponse, Failure>)
    ensures r.Ok? <==> search(index, input, TOP_K).Ok? &&
                       llm(history, input, HitDocs(search(index, input, TOP_K).value)).Ok?
    ensures r.Ok? ==> var hits := search(index, input, TOP_K).value;
      r.value == QueryResponse(llm(history, input, HitDocs(hits)).value, ContextOf(hits))
  {
    match search(index, input, TOP_K)
    case Err(e) => Err(e)
    case Ok(hits) =>
      match llm(history, input, HitDocs(hits))
      case Err(e) => Err(e)
      case Ok(answer) => Ok(QueryResponse(answer, ContextOf(hits)))
  }

  /** The request body of `/chat`. */
  datatype ChatRequest = ChatRequest(chatHistory: HistoryValue, input: InputValue)

  /** The three responses of `/chat`: 200 with the answer, 400, or 500. */
  datatype Reply =
    | Answered(response: QueryResponse)
    | BadRequest(error: string, message: string)
    | ServerError(error: string, message: string)

  function StatusCode(reply: Reply): nat {
    match reply
    case Answered(_) => 200
    case BadRequest(_, _) => 400
    case ServerError(_, _) => 500
  }

  /** The 400 body for an empty question. */
  const INVALID_INPUT := BadRequest("Invalid input", "No input provided")

  /**
   * The 500 body: a generic message in production, the error's own message
   * otherwise.
   */
  function InternalError(e: Failure, production: bool): (r: Reply)
    ensures StatusCode(r) == 500
    ensures r.message == (if production then "An unexpected error occurred" else e.message)
  {
    ServerError("Internal server error",
                if production then "An unexpected error occurred" else e.message)
  }

  /** The reply for the outcome of `handleQuery`: 200 with its body, or a 500. */
  function ReplyOf(r: Result<QueryResponse, Failure>, production: bool): (reply: Reply)
    ensures r.Ok? <==> StatusCode(reply) == 200
    ensures r.Ok? ==> reply == Answered(r.value)
    ensures r.Err? ==> reply == InternalError(r.error, production)
  {
    match r
    case Ok(response) => Answered(response)
    case Err(e) => InternalError(e, production)
  }
}
