/**
 * What the question handler receives and what it exchanges with the
 * services it calls: the submitted form, the vector store's match metadata,
 * the requests it sends and the outcomes it gets back. A service is modelled
 * by what it answers, never by how: the vector store's ranking, the
 * embedding values and the language model's text are inputs here.
 */
module Collaborators {
  import opened Wrappers

  type Bytes = seq<bv8>

  /** The `image` file part of the form: its client-side file name and its bytes. */
  datatype Upload = Upload(filename: string, content: Bytes)

  /** A POST to /preguntar: each field is `None` when the form does not carry it. */
  datatype Form = Form(
    texto: Option<string>,
    examen: Option<string>,
    seccion: Option<string>,
    pregunta: Option<string>,
    image: Option<Upload>)

  /** The metadata of one vector-store match; a key the record lacks is `None`. */
  datatype Metadata = Metadata(text: Option<string>, answer: Option<string>)

  /** What a vector-store query gives: its matches in rank order, or an exception. */
  datatype QueryResult = QueryRaised | Matches(matches: seq<Metadata>)

  /** The metadata filter of the exact lookup. */
  datatype ExactFilter = ExactFilter(exam: int, section: string, question: int)

  /** A metadata-filtered query: `index.query(top_k, include_metadata=True, filter)`. */
  datatype ExactQuery = ExactQuery(topK: nat, filter: ExactFilter)

  datatype EmbeddingInput = TextInput(text: string) | ImageInput(content: Bytes)

  /** The two embedding models the handler chooses between. */
  datatype EmbeddingModel = ImageEmbedding | TextEmbedding {
    function Name(): string {
      match this
      case ImageEmbedding => "image-embedding-001"
      case TextEmbedding => "text-embedding-3-small"
    }
  }

  /** `client.embeddings.create(model, input)`. */
  datatype EmbeddingRequest = EmbeddingRequest(model: EmbeddingModel, input: EmbeddingInput)

  /** The first embedding vector of the reply, or an exception (also when the reply has none). */
  datatype EmbedResult = EmbedRaised | Embedded(vector: seq<real>)

  /** A nearest-neighbour query: `index.query(vector, top_k, include_metadata=True)`. */
  datatype VectorQuery = VectorQuery(vector: seq<real>, topK: nat)

  /**
   * The GET of https://es.wikipedia.org/api/rest_v1/page/random/summary: an
   * exception, or the JSON reply's `extract` key (`None` if absent).
   */
  datatype FetchResult = FetchRaised | Fetched(extract: Option<string>)

  /** The chat model that formats the snippets. */
  datatype ChatModel = Gpt4oMini {
    function Name(): string { "gpt-4o-mini" }
  }

  /**
   * `client.chat.completions.create` with one system and one user message.
   * The request is recorded by the snippets it lists; the exact text of its
   * system message is `Router.SystemMessage`.
   */
  datatype ChatRequest = ChatRequest(model: ChatModel, snippets: seq<string>)

  /** The first choice's message content, or the text of the exception raised. */
  datatype ChatResult = ChatRaised(error: string) | Replied(content: string)

  /** One call the handler makes to a service, in the order it makes them. */
  datatype Call =
    | ExactCall(exact: ExactQuery)
    | EmbedCall(embedding: EmbeddingRequest)
    | VectorCall(nearest: VectorQuery)
    | FetchCall(timeoutSeconds: nat)
    | ChatCall(chat: ChatRequest)

  /** The services as the handler sees them: each maps a request to its outcome. */
  datatype Services = Services(
    exactQuery: ExactQuery -> QueryResult,
    embed: EmbeddingRequest -> EmbedResult,
    vectorQuery: VectorQuery -> QueryResult,
    randomSummary: FetchResult,
    chat: ChatRequest -> ChatResult)
}
