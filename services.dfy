/** The external collaborators of the pipeline, reduced to their inputs and
    outcomes: the TF-IDF/cosine scorer, the Firecrawl scraper, the Mistral chat
    and embedding endpoints, `json.loads`, and the Supabase table client. Each
    is a total function that either succeeds with a payload or fails with the
    error text the source would receive. */
module Services {

  import opened Wrappers
  import opened PyValue

  /** A successful chat completion: the text of the first choice and the model
      that produced it. */
  datatype ChatReply = ChatReply(response: string, model: string)

  datatype Providers = Providers(
    /** TF-IDF vectorisation of two texts (unigrams and bigrams, at most 1000
        features) followed by their cosine similarity; `None` when the
        vectoriser raises, for instance on an empty vocabulary. */
    tfidfCosine: (string, string) -> Option<real>,
    /** Whether `FIRECRAWL_API_KEY` is set. */
    firecrawlKeySet: bool,
    /** `AsyncFirecrawlApp.scrape_url(url, ...)`: the response object, or the
        text of the exception it raised. */
    scrapeUrl: Value -> Outcome<Value>,
    /** Reading the markdown out of a Firecrawl response object (its
        `markdown` attribute, its `dict()["markdown"]`, or its `str()`), or the
        text of the exception raised while doing so. */
    markdownOf: Value -> Outcome<Value>,
    /** `MistralService.preprocess_content` on the article-analysis prompt
        built from the scraped markdown (its first 8000 characters) and the
        article's known fields: the text of the reply, or the error. */
    analyseArticle: (Value, Fields) -> Outcome<string>,
    /** `MistralService.preprocess_content` on the extraction prompt built
        for chunk `i` (0-based) of `n` chunks to process. */
    extractChunk: (string, nat, nat) -> Outcome<ChatReply>,
    /** `json.loads`: the decoded value, or the text of the decode error. */
    parseJson: string -> Outcome<Value>,
    /** `MistralService.get_embeddings(texts)`: the vectors of the returned
        items, in order, or the error. */
    embed: seq<Value> -> Outcome<seq<seq<real>>>,
    /** `client.table(t).insert(rows).execute()`: the response's `data`
        (`None` when absent), or the text of the exception. */
    insertRows: seq<Fields> -> Outcome<Option<seq<Value>>>,
    /** `client.table(t).upsert(rows, on_conflict="source_url").execute()`. */
    upsertRows: seq<Fields> -> Outcome<Option<seq<Value>>>
  )
}
