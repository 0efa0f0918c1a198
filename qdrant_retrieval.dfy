/**
 * The passage retriever: embeds a query once, asks the vector store for the
 * `k` nearest points of one collection with their payloads, and reshapes each
 * hit's payload into a flat record, one per hit, in the store's order.
 */
module QdrantRetrieval {
  import opened Wrappers

  /** The vector the embedding provider returns; the core never looks inside it. */
  type Embedding

  /** The payload stored with a point. Keys may be missing; values are text. */
  type Payload = map<string, string>

  /** One hit of a vector-store search, reduced to what the retriever reads. */
  datatype ScoredPoint = ScoredPoint(payload: Payload)

  /** The arguments of one vector-store search call. */
  datatype SearchRequest = SearchRequest(
    collectionName: string,
    queryVector: Embedding,
    limit: int,
    withPayload: bool)

  /** One formatted search result; each field is `None` when its payload key is missing. */
  datatype Passage = Passage(
    document: Option<string>,
    section: Option<string>,
    docUrl: Option<string>,
    text: Option<string>)

  /** The embedding provider: (input text, model name) to vector. */
  type EmbeddingService = (string, string) -> Embedding

  /** The vector-store client's search call. */
  type VectorStore = SearchRequest -> seq<ScoredPoint>

  /** Number of results asked for when the constructor is not given `k`. */
  const DefaultK: int := 3

  /** The embedding model used for every query. */
  const DefaultEmbeddingModel: string := "text-embedding-3-small"

  /** `payload.get(key)`: the value under `key`, or `None` when the key is missing. */
  function Get(payload: Payload, key: string): Option<string> {
    if key in payload then Some(payload[key]) else None
  }

  /**
   * The record made from one hit: `title` is renamed to `document`, the other
   * three keys keep their names, and a missing key gives `None`.
   */
  function FormatHit(hit: ScoredPoint): (p: Passage)
    ensures p.document.Some? <==> "title" in hit.payload
    ensures p.section.Some? <==> "section" in hit.payload
    ensures p.docUrl.Some? <==> "doc_url" in hit.payload
    ensures p.text.Some? <==> "text" in hit.payload
    ensures "title" in hit.payload ==> p.document.value == hit.payload["title"]
    ensures "section" in hit.payload ==> p.section.value == hit.payload["section"]
    ensures "doc_url" in hit.payload ==> p.docUrl.value == hit.payload["doc_url"]
    ensures "text" in hit.payload ==> p.text.value == hit.payload["text"]
  {
    Passage(
      Get(hit.payload, "title"),
      Get(hit.payload, "section"),
      Get(hit.payload, "doc_url"),
      Get(hit.payload, "text"))
  }

  /** Every hit formatted, none dropped, in the order of the hits. */
  function FormatHits(hits: seq<ScoredPoint>): seq<Passage> {
    seq(|hits|, i requires 0 <= i < |hits| => FormatHit(hits[i]))
  }

  class QdrantRetriever {
    /** The collection every search is issued against. */
    const collectionName: string
    /** The vector-store connection. */
    const client: VectorStore
    /** The embedding provider. */
    const embeddings: EmbeddingService
    /** The number of results each search asks for. */
    const k: int

    constructor (collectionName: string, client: VectorStore, embeddings: EmbeddingService, k: int := DefaultK)
      ensures this.collectionName == collectionName && this.client == client
      ensures this.embeddings == embeddings && this.k == k
    {
      this.collectionName := collectionName;
      this.client := client;
      this.embeddings := embeddings;
      this.k := k;
    }

    /** The embedding of `query` under `model`, as the provider returns it. */
    method GetOpenAIEmbedding(query: string, model: string := DefaultEmbeddingModel) returns (embedding: Embedding)
      ensures embedding == embeddings(query, model)
    {
      embedding := embeddings(query, model);
    }

    /** The search call a query leads to. */
    function Request(query: string): SearchRequest {
      SearchRequest(collectionName, embeddings(query, DefaultEmbeddingModel), k, true)
    }

    /** What a search for `query` returns; `SearchMedicalGuidelines` computes it with a loop. */
    function Search(query: string): seq<Passage> {
      FormatHits(client(Request(query)))
    }

    /**
     * One search: the query is embedded with the default model, the store is
     * asked for `k` points of `collectionName` with payloads, and the result
     * has exactly one record per hit, in the hits' order.
     */
    method SearchMedicalGuidelines(query: string) returns (results: seq<Passage>)
      ensures var hits := client(SearchRequest(collectionName, embeddings(query, DefaultEmbeddingModel), k, true));
        |results| == |hits| &&
        forall i :: 0 <= i < |hits| ==> results[i] == FormatHit(hits[i])
    {
      var queryVector := GetOpenAIEmbedding(query);
      var searchResults := client(SearchRequest(collectionName, queryVector, k, true));
      results := [];
      for i := 0 to |searchResults|
        invariant |results| == i
        invariant forall j :: 0 <= j < i ==> results[j] == FormatHit(searchResults[j])
      {
        var resultData := FormatHit(searchResults[i]);
        results := results + [resultData];
      }
    }
  }
}
