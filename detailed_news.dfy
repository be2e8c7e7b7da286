/** `app/services/detailed_news_service.py`: one of four batches of the
    merged news is taken article by article through fetching, markdown
    extraction, structured extraction and embedding, and the enriched
    articles are upserted into the article table. */
module DetailedNews {

  import opened Wrappers
  import opened Text
  import opened PyValue
  import opened Services
  import opened NewsMerger
  import opened Supabase

  // ---------------------------------------------------------------------
  // Batch arithmetic

  /** The number of batches the merged list is cut into. */
  const BatchCount: nat := 4

  /** Batch numbers the service accepts. */
  predicate ValidBatch(b: int) {
    1 <= b <= 4
  }

  /** `articles_per_batch`: the ceiling of a quarter of the articles. */
  function ArticlesPerBatch(total: nat): (per: nat)
    ensures 4 * per >= total
    ensures total > 0 ==> per > 0
    ensures per == 0 || 4 * (per - 1) < total
  {
    (total + 3) / 4
  }

  /** `start_idx` */
  function BatchStart(total: nat, b: int): nat
    requires ValidBatch(b)
  {
    (b - 1) * ArticlesPerBatch(total)
  }

  /** `end_idx`: one past the batch's last article, never past the list. */
  function BatchEnd(total: nat, b: int): nat
    requires ValidBatch(b)
  {
    var stop := BatchStart(total, b) + ArticlesPerBatch(total);
    if stop < total then stop else total
  }

  /** `all_articles[start_idx:end_idx]`: a Python slice, empty when the
      start is not below the end. */
  function BatchSlice<T>(xs: seq<T>, b: int): seq<T>
    requires ValidBatch(b)
  {
    var start := BatchStart(|xs|, b);
    var end := BatchEnd(|xs|, b);
    if start < end then xs[start..end] else []
  }

  /** `min(k * per, total)`: where batch `k` stops when it is clipped to the list. */
  function Boundary(total: nat, k: nat): nat {
    var stop := k * ArticlesPerBatch(total);
    if stop < total then stop else total
  }

  /** A batch is the stretch of the list between two consecutive boundaries. */
  lemma BatchBetweenBoundaries<T>(xs: seq<T>, b: int)
    requires ValidBatch(b)
    ensures Boundary(|xs|, b - 1) <= Boundary(|xs|, b)
    ensures BatchSlice(xs, b) == xs[Boundary(|xs|, b - 1)..Boundary(|xs|, b)]
  {
    var per := ArticlesPerBatch(|xs|);
    assert b * per == (b - 1) * per + per;
  }

  /** The four batches, in order, are the whole list: every article is in
      exactly one batch and no article is reordered. */
  lemma BatchesPartition<T>(xs: seq<T>)
    ensures BatchSlice(xs, 1) + BatchSlice(xs, 2) + BatchSlice(xs, 3) + BatchSlice(xs, 4) == xs
  {
    var n := |xs|;
    BatchEdges(n);
    BatchBetweenBoundaries(xs, 1);
    BatchBetweenBoundaries(xs, 2);
    BatchBetweenBoundaries(xs, 3);
    BatchBetweenBoundaries(xs, 4);
    var b1, b2, b3 := Boundary(n, 1), Boundary(n, 2), Boundary(n, 3);
    var s1, s2, s3, s4 := BatchSlice(xs, 1), BatchSlice(xs, 2), BatchSlice(xs, 3), BatchSlice(xs, 4);
    assert s1 == xs[..b1];
    assert s1 + s2 == xs[..b2] by {
      assert xs[..b1] + xs[b1..b2] == xs[..b2];
    }
    assert s1 + s2 + s3 == xs[..b3] by {
      assert xs[..b2] + xs[b2..b3] == xs[..b3];
    }
    assert s1 + s2 + s3 + s4 == xs by {
      assert xs[..b3] + xs[b3..] == xs;
    }
  }

  /** The first boundary is the start of the list and the last its end. */
  lemma BatchEdges(n: nat)
    ensures Boundary(n, 0) == 0 && Boundary(n, 4) == n
    ensures Boundary(n, 1) <= Boundary(n, 2) <= Boundary(n, 3) <= n
  {
    var per := ArticlesPerBatch(n);
    assert 4 * per >= n;
    assert 1 * per <= 2 * per <= 3 * per;
  }

  /** Batches never overlap: every index of an earlier batch comes before
      every index of a later one. */
  lemma BatchesDisjoint(total: nat, b: int, c: int)
    requires ValidBatch(b) && ValidBatch(c) && b < c
    ensures BatchEnd(total, b) <= BatchStart(total, c)
  {
    var per := ArticlesPerBatch(total);
    assert BatchStart(total, c) == (c - 1) * per >= b * per == BatchStart(total, b) + per;
  }

  /** No batch holds more than `articles_per_batch` articles, and a batch is
      empty exactly when its start is at or past the end of the list. */
  lemma BatchSize<T>(xs: seq<T>, b: int)
    requires ValidBatch(b)
    ensures |BatchSlice(xs, b)| <= ArticlesPerBatch(|xs|)
    ensures BatchSlice(xs, b) == [] <==> BatchStart(|xs|, b) >= |xs|
  {
  }

  /** Ten articles split into batches of 3, 3, 3 and 1. */
  lemma TenArticles<T>(xs: seq<T>)
    requires |xs| == 10
    ensures ArticlesPerBatch(10) == 3
    ensures BatchSlice(xs, 1) == xs[0..3] && BatchSlice(xs, 2) == xs[3..6]
    ensures BatchSlice(xs, 3) == xs[6..9] && BatchSlice(xs, 4) == xs[9..10]
  {
  }

  /** Five articles give batches of two, so the fourth batch starts at index
      6 and is empty. */
  lemma FiveArticlesLastBatchEmpty<T>(xs: seq<T>)
    requires |xs| == 5
    ensures BatchStart(5, 4) == 6 && BatchEnd(5, 4) == 5
    ensures BatchSlice(xs, 4) == []
  {
  }

  // ---------------------------------------------------------------------
  // One article

  /** The URL an article is fetched from: its `url`, or its `source_url`
      when that is falsy. */
  function ArticleUrl(article: Fields): Value {
    Or(Get(article, "url", Null), Get(article, "source_url", Null))
  }

  /** `scrape_article_content`: fails without a request when no Firecrawl
      key is configured; otherwise the scraper's response or error. */
  function ScrapeArticleContent(url: Value, p: Providers): (r: Outcome<Value>)
    ensures !p.firecrawlKeySet ==> r == Err("FIRECRAWL_API_KEY not set")
    ensures p.firecrawlKeySet ==> r == p.scrapeUrl(url)
  {
    if !p.firecrawlKeySet then Err("FIRECRAWL_API_KEY not set") else p.scrapeUrl(url)
  }

  /** The prefix of `error` that `process_article_with_mistral` gives an
      exception it catches. */
  const ArticleError: string := "Error processing article: "

  /** `process_article_with_mistral`: the decoded reply with the original
      title, summary and chunk label added, or the error it reports. The
      prompt slices the markdown to 8000 characters and the log line slices
      the title to 50; either slice raising is caught. */
  function ProcessArticleWithMistral(markdown: Value, article: Fields, p: Providers): Outcome<Fields> {
    match SlicePrefix(markdown, 8000)
    case Err(e) => Err(ArticleError + e)
    case Ok(excerpt) =>
      match SlicePrefix(Get(article, "title", Str("N/A")), 50)
      case Err(e) => Err(ArticleError + e)
      case Ok(_) =>
        match p.analyseArticle(excerpt, article)
        case Err(e) => Err("Mistral processing failed: " + e)
        case Ok(response) =>
          match p.parseJson(response)
          case Err(e) => Err("Failed to parse Mistral response: " + e)
          case Ok(data) =>
            if !data.Dict? then Err(ArticleError + ItemAssignmentError(data))
            else Ok(data.fields["original_title" := Get(article, "title", Null)]
                               ["original_summary" := Get(article, "summary", Null)]
                               ["chunk_source" := Get(article, "chunk_source", Str("unknown"))])
  }

  /** The structured extraction succeeds exactly when the model replies with
      a JSON object; the result is that object with the original title,
      summary and chunk label (default "unknown") added and nothing else
      changed. A reply that is not JSON is reported as a parse failure. */
  lemma MistralOutcomes(markdown: Value, article: Fields, p: Providers)
    ensures var r := ProcessArticleWithMistral(markdown, article, p);
      && (r.Ok? <==>
           && (markdown.Str? || markdown.List?)
           && (Get(article, "title", Str("N/A")).Str? || Get(article, "title", Str("N/A")).List?)
           && p.analyseArticle(SlicePrefix(markdown, 8000).value, article).Ok?
           && p.parseJson(p.analyseArticle(SlicePrefix(markdown, 8000).value, article).value).Ok?
           && p.parseJson(p.analyseArticle(SlicePrefix(markdown, 8000).value, article).value).value.Dict?)
      && (r.Ok? ==>
           var data := p.parseJson(p.analyseArticle(SlicePrefix(markdown, 8000).value, article).value).value.fields;
           && r.value.Keys == data.Keys + {"original_title", "original_summary", "chunk_source"}
           && r.value["original_title"] == Get(article, "title", Null)
           && r.value["original_summary"] == Get(article, "summary", Null)
           && r.value["chunk_source"] == Get(article, "chunk_source", Str("unknown"))
           && forall k :: k in data && k !in {"original_title", "original_summary", "chunk_source"} ==> r.value[k] == data[k])
      && ((markdown.Str? || markdown.List?) && Get(article, "title", Str("N/A")).Str?
          && p.analyseArticle(SlicePrefix(markdown, 8000).value, article).Ok?
          && p.parseJson(p.analyseArticle(SlicePrefix(markdown, 8000).value, article).value).Err? ==>
           r == Err("Failed to parse Mistral response: " + p.parseJson(p.analyseArticle(SlicePrefix(markdown, 8000).value, article).value).error))
  {
  }

  /** The text `generate_article_embedding` embeds: title and summary, or
      when that is blank the first 1000 characters of `full_text`, or the
      `TypeError` that slicing a `full_text` of another type raises. */
  function EmbeddingInput(data: Fields): (r: Outcome<Value>)
    ensures TitleSummaryText(data) != "" ==> r == Ok(Str(TitleSummaryText(data)))
    ensures TitleSummaryText(data) == "" && Get(data, "full_text", Str("")).Str? ==>
      var fullText := Get(data, "full_text", Str("")).s;
      r == Ok(Str(if |fullText| <= 1000 then fullText else fullText[..1000]))
    ensures TitleSummaryText(data) == "" && Get(data, "full_text", Str("")).List? ==>
      var items := Get(data, "full_text", Str("")).items;
      r == Ok(List(if |items| <= 1000 then items else items[..1000]))
    ensures TitleSummaryText(data) == "" && !Get(data, "full_text", Str("")).Str? && !Get(data, "full_text", Str("")).List? ==>
      r.Err?
  {
    var text := TitleSummaryText(data);
    if text != "" then Ok(Str(text)) else SlicePrefix(Get(data, "full_text", Str("")), 1000)
  }

  /** Whether the embedding call succeeds with at least one vector. */
  predicate EmbeddingSucceeds(data: Fields, embed: seq<Value> -> Outcome<seq<seq<real>>>) {
    && EmbeddingInput(data).Ok?
    && embed([EmbeddingInput(data).value]).Ok?
    && embed([EmbeddingInput(data).value]).value != []
  }

  /** `generate_article_embedding`: the article data with the first vector,
      the model name and the dimension added when the call succeeds, and
      the data as it was otherwise. */
  function GenerateArticleEmbedding(data: Fields, embed: seq<Value> -> Outcome<seq<seq<real>>>): Fields {
    match EmbeddingInput(data)
    case Err(_) => data
    case Ok(text) =>
      match embed([text])
      case Err(_) => data
      case Ok(vectors) =>
        if vectors == [] then data
        else data["embedding" := FloatList(vectors[0])]
                 ["embedding_model" := Str("mistral-embed")]
                 ["embedding_dimension" := Int(|vectors[0]|)]
  }

  /** A failed embedding leaves the article as it was; a successful one adds
      exactly the vector, the model name and the vector's length. */
  lemma EmbeddingFacts(data: Fields, embed: seq<Value> -> Outcome<seq<seq<real>>>)
    ensures !EmbeddingSucceeds(data, embed) ==> GenerateArticleEmbedding(data, embed) == data
    ensures EmbeddingSucceeds(data, embed) ==>
      var r := GenerateArticleEmbedding(data, embed);
      var vector := embed([EmbeddingInput(data).value]).value[0];
      && r.Keys == data.Keys + {"embedding", "embedding_model", "embedding_dimension"}
      && r["embedding"] == FloatList(vector)
      && r["embedding_model"] == Str("mistral-embed")
      && r["embedding_dimension"] == Int(|vector|)
      && forall k :: k in data && k !in {"embedding", "embedding_model", "embedding_dimension"} ==> r[k] == data[k]
  {
  }

  /** How the loop leaves one article: enriched, or counted as failed with
      the message appended to `errors`. */
  datatype ArticleOutcome = Completed(article: Fields) | Failed(error: string)

  /** `f"Article {n}: "` */
  function ArticleLabel(n: nat): string {
    "Article " + NatToString(n) + ": "
  }

  /** One iteration for the article numbered `n` in the whole list, before
      the processing metadata is added. `Err` is the exception that the log
      line's `title[:60]` raises, which ends the whole batch. */
  function ArticleStep(article: Fields, n: nat, p: Providers): Outcome<ArticleOutcome> {
    match SlicePrefix(Get(article, "title", Str("N/A")), 60)
    case Err(e) => Err(e)
    case Ok(_) =>
      var url := ArticleUrl(article);
      if !Truthy(url) then Ok(Failed(ArticleLabel(n) + "No URL found"))
      else match ScrapeArticleContent(url, p)
        case Err(e) => Ok(Failed(ArticleLabel(n) + "Scraping failed - " + e))
        case Ok(content) =>
          match p.markdownOf(content)
          case Err(e) => Ok(Failed(ArticleLabel(n) + "Markdown extraction failed - " + e))
          case Ok(markdown) =>
            match ProcessArticleWithMistral(markdown, article, p)
            case Err(e) => Ok(Failed(ArticleLabel(n) + "Mistral processing failed - " + e))
            case Ok(data) => Ok(Completed(GenerateArticleEmbedding(data, p.embed)))
  }

  /** The stages before embedding, in order, all succeed. */
  predicate StagesSucceed(article: Fields, p: Providers) {
    && Truthy(ArticleUrl(article))
    && ScrapeArticleContent(ArticleUrl(article), p).Ok?
    && p.markdownOf(ScrapeArticleContent(ArticleUrl(article), p).value).Ok?
    && ProcessArticleWithMistral(p.markdownOf(ScrapeArticleContent(ArticleUrl(article), p).value).value, article, p).Ok?
  }

  /** An article with a printable title is completed exactly when every
      stage before embedding succeeds, whatever the embedding does; an
      article without a URL fails before anything is fetched, with the
      message naming its number. */
  lemma ArticleStepOutcomes(article: Fields, n: nat, p: Providers)
    ensures ArticleStep(article, n, p).Err? <==> SlicePrefix(Get(article, "title", Str("N/A")), 60).Err?
    ensures ArticleStep(article, n, p).Ok? ==>
      (ArticleStep(article, n, p).value.Completed? <==> StagesSucceed(article, p))
    ensures ArticleStep(article, n, p).Ok? && StagesSucceed(article, p) ==>
      var markdown := p.markdownOf(ScrapeArticleContent(ArticleUrl(article), p).value).value;
      ArticleStep(article, n, p).value.article
        == GenerateArticleEmbedding(ProcessArticleWithMistral(markdown, article, p).value, p.embed)
    ensures ArticleStep(article, n, p).Ok? && !Truthy(ArticleUrl(article)) ==>
      ArticleStep(article, n, p) == Ok(Failed(ArticleLabel(n) + "No URL found"))
  {
  }

  /** The processing metadata stamped on a completed article. */
  function Finalized(data: Fields, b: int, n: nat, stamp: string): Fields {
    data["processing_timestamp" := Str(stamp)]
        ["processing_status" := Str("completed")]
        ["batch_number" := Int(b)]
        ["global_article_number" := Int(n)]
  }

  // ---------------------------------------------------------------------
  // The batch loop

  /** `detailed_articles` and the `successful`, `failed` and `errors`
      entries of `processing_stats`. */
  datatype Tally = Tally(articles: seq<Fields>, successful: nat, failed: nat, errors: seq<string>)

  /** The loop state after the first `k` articles of a batch that starts at
      index `start` of the whole list, when `step` is the iteration, or the
      exception that ended it. */
  function RunArticles(batch: seq<Fields>, k: nat, start: nat, b: int, now: nat -> string, step: (Fields, nat) -> Outcome<ArticleOutcome>): Outcome<Tally>
    requires k <= |batch|
  {
    if k == 0 then Ok(Tally([], 0, 0, []))
    else match RunArticles(batch, k - 1, start, b, now, step)
      case Err(e) => Err(e)
      case Ok(t) =>
        var n := start + k;
        match step(batch[k - 1], n)
        case Err(e) => Err(e)
        case Ok(Failed(message)) => Ok(t.(failed := t.failed + 1, errors := t.errors + [message]))
        case Ok(Completed(data)) => Ok(t.(articles := t.articles + [Finalized(data, b, n, now(n))], successful := t.successful + 1))
  }

  /** `global_article_number` of a stamped article. */
  function GlobalNumber(article: Fields): int {
    if "global_article_number" in article && article["global_article_number"].Int? then article["global_article_number"].i else 0
  }

  /** A completed article as the loop appends it: marked completed in batch
      `b`, with a global number in `lo .. hi`. */
  predicate Stamped(article: Fields, b: int, lo: int, hi: int) {
    && "processing_status" in article && article["processing_status"] == Str("completed")
    && "batch_number" in article && article["batch_number"] == Int(b)
    && lo <= GlobalNumber(article) <= hi
  }

  /** Global numbers increase strictly along the list. */
  predicate NumbersIncrease(articles: seq<Fields>) {
    forall i, j :: 0 <= i < j < |articles| ==> GlobalNumber(articles[i]) < GlobalNumber(articles[j])
  }

  /** Every article is counted once, as successful or as failed with one
      error message, and only completed articles are kept. */
  lemma {:induction false} RunArticlesCounts(batch: seq<Fields>, k: nat, start: nat, b: int, now: nat -> string, step: (Fields, nat) -> Outcome<ArticleOutcome>)
    requires k <= |batch|
    ensures RunArticles(batch, k, start, b, now, step).Ok? ==>
      var t := RunArticles(batch, k, start, b, now, step).value;
      && t.successful + t.failed == k
      && |t.errors| == t.failed
      && |t.articles| == t.successful
  {
    if k > 0 {
      RunArticlesCounts(batch, k - 1, start, b, now, step);
    }
  }

  /** The kept articles are stamped as completed in batch `b`, and their
      global numbers increase strictly and stay within `start + 1 .. start + k`. */
  lemma {:induction false} RunArticlesStamps(batch: seq<Fields>, k: nat, start: nat, b: int, now: nat -> string, step: (Fields, nat) -> Outcome<ArticleOutcome>)
    requires k <= |batch|
    ensures RunArticles(batch, k, start, b, now, step).Ok? ==>
      var t := RunArticles(batch, k, start, b, now, step).value;
      && (forall j :: 0 <= j < |t.articles| ==> Stamped(t.articles[j], b, start + 1, start + k))
      && NumbersIncrease(t.articles)
  {
    if k > 0 {
      RunArticlesStamps(batch, k - 1, start, b, now, step);
      var r := RunArticles(batch, k, start, b, now, step);
      if r.Ok? {
        var t := RunArticles(batch, k - 1, start, b, now, step).value;
        var out := step(batch[k - 1], start + k);
        if out.value.Completed? {
          var last := Finalized(out.value.article, b, start + k, now(start + k));
          assert GlobalNumber(last) == start + k;
          assert r.value.articles == t.articles + [last];
          forall j | 0 <= j < |t.articles| ensures Stamped(t.articles[j], b, start + 1, start + k) {
          }
        }
      }
    }
  }

  /** What the iteration did with the article numbered `n` in the whole
      list, for a batch starting at index `start`. */
  function StepAt(batch: seq<Fields>, start: nat, n: nat, step: (Fields, nat) -> Outcome<ArticleOutcome>): Outcome<ArticleOutcome>
    requires start < n <= start + |batch|
  {
    step(batch[n - start - 1], n)
  }

  /** The article numbered `n` was completed. */
  predicate CompletedAt(batch: seq<Fields>, start: nat, n: nat, step: (Fields, nat) -> Outcome<ArticleOutcome>)
    requires start < n <= start + |batch|
  {
    StepAt(batch, start, n, step).Ok? && StepAt(batch, start, n, step).value.Completed?
  }

  /** `entry` is the completed result for the article it is numbered
      with, `n` with `start < n <= hi`, stamped with the clock reading for
      `n`. */
  predicate EntryOf(batch: seq<Fields>, start: nat, hi: nat, b: int, now: nat -> string,
                    step: (Fields, nat) -> Outcome<ArticleOutcome>, entry: Fields)
    requires hi <= start + |batch|
  {
    var n := GlobalNumber(entry);
    && start < n <= hi
    && CompletedAt(batch, start, n, step)
    && entry == Finalized(StepAt(batch, start, n, step).value.article, b, n, now(n))
  }

  lemma {:induction false} RunArticlesEntriesFrom(batch: seq<Fields>, k: nat, start: nat, b: int, now: nat -> string, step: (Fields, nat) -> Outcome<ArticleOutcome>)
    requires k <= |batch|
    ensures RunArticles(batch, k, start, b, now, step).Ok? ==>
      var t := RunArticles(batch, k, start, b, now, step).value;
      forall j :: 0 <= j < |t.articles| ==> EntryOf(batch, start, start + k, b, now, step, t.articles[j])
  {
    if k > 0 {
      RunArticlesEntriesFrom(batch, k - 1, start, b, now, step);
      var r := RunArticles(batch, k, start, b, now, step);
      if r.Ok? {
        assert RunArticles(batch, k - 1, start, b, now, step).Ok?;
        var t := RunArticles(batch, k - 1, start, b, now, step).value;
        var out := StepAt(batch, start, start + k, step);
        assert out == step(batch[k - 1], start + k);
        var tail := if out.value.Completed? then [Finalized(out.value.article, b, start + k, now(start + k))] else [];
        assert r.value.articles == t.articles + tail;
        forall j | 0 <= j < |r.value.articles|
          ensures EntryOf(batch, start, start + k, b, now, step, r.value.articles[j])
        {
          if j < |t.articles| {
            assert r.value.articles[j] == t.articles[j];
            assert EntryOf(batch, start, start + k - 1, b, now, step, t.articles[j]);
          } else {
            assert GlobalNumber(r.value.articles[j]) == start + k;
          }
        }
      }
    }
  }

  /** Every article among numbers `start + 1 .. hi` that was completed has
      an entry in `entries`. */
  predicate CoversCompleted(batch: seq<Fields>, start: nat, hi: nat, step: (Fields, nat) -> Outcome<ArticleOutcome>, entries: seq<Fields>)
    requires hi <= start + |batch|
  {
    forall n :: start < n <= hi && CompletedAt(batch, start, n, step) ==>
      exists j :: 0 <= j < |entries| && GlobalNumber(entries[j]) == n
  }

  lemma {:induction false} RunArticlesEntriesCover(batch: seq<Fields>, k: nat, start: nat, b: int, now: nat -> string, step: (Fields, nat) -> Outcome<ArticleOutcome>)
    requires k <= |batch|
    ensures RunArticles(batch, k, start, b, now, step).Ok? ==>
      CoversCompleted(batch, start, start + k, step, RunArticles(batch, k, start, b, now, step).value.articles)
  {
    if k > 0 {
      RunArticlesEntriesCover(batch, k - 1, start, b, now, step);
      var r := RunArticles(batch, k, start, b, now, step);
      if r.Ok? {
        assert RunArticles(batch, k - 1, start, b, now, step).Ok?;
        var t := RunArticles(batch, k - 1, start, b, now, step).value;
        var out := StepAt(batch, start, start + k, step);
        assert out == step(batch[k - 1], start + k);
        var tail := if out.value.Completed? then [Finalized(out.value.article, b, start + k, now(start + k))] else [];
        assert r.value.articles == t.articles + tail;
        forall n: int | start < n <= start + k && CompletedAt(batch, start, n, step)
          ensures exists j :: 0 <= j < |r.value.articles| && GlobalNumber(r.value.articles[j]) == n
        {
          if n == start + k {
            assert out.value.Completed?;
            assert r.value.articles[|t.articles|] == tail[0];
            assert GlobalNumber(r.value.articles[|t.articles|]) == n;
          } else {
            assert CoversCompleted(batch, start, start + k - 1, step, t.articles);
            var j :| 0 <= j < |t.articles| && GlobalNumber(t.articles[j]) == n;
            assert r.value.articles[j] == t.articles[j];
          }
        }
        assert CoversCompleted(batch, start, start + k, step, r.value.articles);
      }
    }
  }

  /** Each kept entry numbered `n` is the completed result for the article
      numbered `n`, stamped with the clock reading for `n`; and every
      completed article among the first `k` has an entry. */
  lemma RunArticlesEntries(batch: seq<Fields>, k: nat, start: nat, b: int, now: nat -> string, step: (Fields, nat) -> Outcome<ArticleOutcome>)
    requires k <= |batch|
    ensures RunArticles(batch, k, start, b, now, step).Ok? ==>
      var t := RunArticles(batch, k, start, b, now, step).value;
      && (forall j :: 0 <= j < |t.articles| ==>
            var n := GlobalNumber(t.articles[j]);
            && start < n <= start + k
            && CompletedAt(batch, start, n, step)
            && t.articles[j] == Finalized(StepAt(batch, start, n, step).value.article, b, n, now(n)))
      && (forall n :: start < n <= start + k && CompletedAt(batch, start, n, step) ==>
            exists j :: 0 <= j < |t.articles| && GlobalNumber(t.articles[j]) == n)
  {
    RunArticlesEntriesFrom(batch, k, start, b, now, step);
    RunArticlesEntriesCover(batch, k, start, b, now, step);
  }

  /** Once the loop has raised, it stays raised with the same error. */
  lemma {:induction false} RunArticlesErrStays(batch: seq<Fields>, i: nat, k: nat, start: nat, b: int, now: nat -> string, step: (Fields, nat) -> Outcome<ArticleOutcome>)
    requires i <= k <= |batch|
    requires RunArticles(batch, i, start, b, now, step).Err?
    ensures RunArticles(batch, k, start, b, now, step) == RunArticles(batch, i, start, b, now, step)
    decreases k - i
  {
    if i < k {
      RunArticlesErrStays(batch, i, k - 1, start, b, now, step);
    }
  }

  /** The iteration of the batch loop for the given collaborators. */
  function Steps(p: Providers): (Fields, nat) -> Outcome<ArticleOutcome> {
    (article: Fields, n: nat) => ArticleStep(article, n, p)
  }

  /** The `for i, article in enumerate(batch_articles)` loop; `step` is the
      body of one iteration, which the batch entry point supplies as
      `Steps(p)`. */
  method ProcessArticles(batch: seq<Fields>, start: nat, b: int, now: nat -> string, step: (Fields, nat) -> Outcome<ArticleOutcome>) returns (r: Outcome<Tally>)
    ensures r == RunArticles(batch, |batch|, start, b, now, step)
  {
    var detailed: seq<Fields> := [];
    var successful, failed := 0, 0;
    var errors: seq<string> := [];
    var i := 0;
    while i < |batch|
      invariant 0 <= i <= |batch|
      invariant RunArticles(batch, i, start, b, now, step) == Ok(Tally(detailed, successful, failed, errors))
      decreases |batch| - i
    {
      var n := start + i + 1;
      var outcome := step(batch[i], n);
      if outcome.Err? {
        assert RunArticles(batch, i + 1, start, b, now, step) == Err(outcome.error);
        RunArticlesErrStays(batch, i + 1, |batch|, start, b, now, step);
        return Err(outcome.error);
      }
      if outcome.value.Failed? {
        failed := failed + 1;
        errors := errors + [outcome.value.error];
      } else {
        detailed := detailed + [Finalized(outcome.value.article, b, n, now(n))];
        successful := successful + 1;
      }
      i := i + 1;
    }
    r := Ok(Tally(detailed, successful, failed, errors));
  }

  // ---------------------------------------------------------------------
  // process_merged_news_batch

  /** The successful result of `process_merged_news_batch`: the batch
      boundaries, the enriched articles, the processing statistics, the
      upsert result and the success rate as a percentage. */
  datatype BatchReport = BatchReport(
    batchNumber: int,
    batchSize: nat,
    articlesPerBatch: nat,
    startIndex: nat,
    endIndex: nat,
    totalAvailable: nat,
    tally: Tally,
    upload: Outcome<Upload>,
    successRate: real)

  /** `successful / len(batch_articles) * 100`, before it is formatted. */
  function SuccessRate(successful: nat, total: nat): real
    requires total > 0
  {
    (successful as real) / (total as real) * 100.0
  }

  /** `f"Error processing batch {batch_number}: {e}"` */
  function BatchError(b: int, e: string): string {
    "Error processing batch " + IntToString(b) + ": " + e
  }

  /** The part of `process_merged_news_batch(b)` after the merge, for the
      merged article list `all`, the clock reading `now(n)` taken when
      article `n` completes, the configured embedding
      dimension `dim` and the collaborators `p`. */
  function BatchOfArticles(all: seq<Fields>, b: int, now: nat -> string, dim: int, p: Providers): Outcome<BatchReport>
    requires ValidBatch(b)
  {
    if all == [] then Err("No articles found to process")
    else
      var batch := BatchSlice(all, b);
      var start := BatchStart(|all|, b);
      match RunArticles(batch, |batch|, start, b, now, Steps(p))
      case Err(e) => Err(BatchError(b, e))
      case Ok(t) =>
        if batch == [] then Err(BatchError(b, "division by zero"))
        else Ok(BatchReport(b, |batch|, ArticlesPerBatch(|all|), start, BatchEnd(|all|, b), |all|, t,
                            Upserted(t.articles, dim, p.upsertRows),
                            SuccessRate(t.successful, |batch|)))
  }

  /** What `process_merged_news_batch(b)` returns for the given news files. */
  function ProcessBatch(b: int, dailystarFile: Option<Fields>, prothomaloFile: Option<Fields>,
                        now: nat -> string, dim: int, p: Providers): Outcome<BatchReport>
  {
    if !ValidBatch(b) then Err("Batch number must be 1, 2, 3, or 4")
    else match Merge(dailystarFile, prothomaloFile, p.tfidfCosine)
      case Err(_) => Err("Failed to merge news sources")
      case Ok(merged) => BatchOfArticles(merged.newsArticles, b, now, dim, p)
  }

  /** A batch number other than 1 to 4 is refused before anything else, and
      a failed merge is reported as such. */
  lemma ProcessBatchRefusals(b: int, dailystarFile: Option<Fields>, prothomaloFile: Option<Fields>,
                             now: nat -> string, dim: int, p: Providers)
    ensures !ValidBatch(b) ==> ProcessBatch(b, dailystarFile, prothomaloFile, now, dim, p) == Err("Batch number must be 1, 2, 3, or 4")
    ensures ValidBatch(b) && Merge(dailystarFile, prothomaloFile, p.tfidfCosine).Err? ==>
      ProcessBatch(b, dailystarFile, prothomaloFile, now, dim, p) == Err("Failed to merge news sources")
  {
  }

  /** A batch whose start is at or past the end of a non-empty list ends in
      the division error; a successful batch reports its own slice of the
      list, counts every article once, keeps only completed articles,
      numbered in order within the batch's range, and reports a success rate
      between 0 and 100. */
  lemma BatchOfArticlesOutcomes(all: seq<Fields>, b: int, now: nat -> string, dim: int, p: Providers)
    requires ValidBatch(b)
    ensures all != [] && BatchStart(|all|, b) >= |all| ==>
      BatchOfArticles(all, b, now, dim, p) == Err(BatchError(b, "division by zero"))
    ensures BatchOfArticles(all, b, now, dim, p).Ok? ==>
      var r := BatchOfArticles(all, b, now, dim, p).value;
      && r.batchSize == |BatchSlice(all, b)| >= 1
      && r.batchSize <= r.articlesPerBatch
      && r.startIndex + r.batchSize == r.endIndex <= r.totalAvailable == |all|
      && r.tally.successful + r.tally.failed == r.batchSize
      && |r.tally.errors| == r.tally.failed
      && |r.tally.articles| == r.tally.successful
      && (forall j :: 0 <= j < |r.tally.articles| ==> Stamped(r.tally.articles[j], b, r.startIndex + 1, r.endIndex))
      && NumbersIncrease(r.tally.articles)
      && r.upload == Upserted(r.tally.articles, dim, p.upsertRows)
      && r.successRate == SuccessRate(r.tally.successful, r.batchSize)
      && 0.0 <= r.successRate <= 100.0
  {
    var batch := BatchSlice(all, b);
    var start := BatchStart(|all|, b);
    BatchSize(all, b);
    RunArticlesCounts(batch, |batch|, start, b, now, Steps(p));
    RunArticlesStamps(batch, |batch|, start, b, now, Steps(p));
    var run := RunArticles(batch, |batch|, start, b, now, Steps(p));
    if all != [] && run.Ok? && batch != [] {
      RateBounds(run.value.successful, |batch|);
    }
  }

  /** The loop runs to the end exactly when no iteration raises; an article
      that fails is counted and the loop goes on. */
  lemma {:induction false} RunArticlesOk(batch: seq<Fields>, k: nat, start: nat, b: int, now: nat -> string, step: (Fields, nat) -> Outcome<ArticleOutcome>)
    requires k <= |batch|
    ensures RunArticles(batch, k, start, b, now, step).Ok? <==> forall i :: 0 <= i < k ==> step(batch[i], start + i + 1).Ok?
  {
    if k > 0 {
      RunArticlesOk(batch, k - 1, start, b, now, step);
    }
  }

  /** A batch is reported as a success exactly when the list is non-empty,
      its slice is non-empty and every title in the slice can be sliced for
      the progress line, however the articles themselves fare: failed
      fetches, extractions and embeddings never fail the batch. */
  lemma BatchOfArticlesOk(all: seq<Fields>, b: int, now: nat -> string, dim: int, p: Providers)
    requires ValidBatch(b)
    ensures BatchOfArticles(all, b, now, dim, p).Ok? <==>
      && all != []
      && BatchSlice(all, b) != []
      && forall i :: 0 <= i < |BatchSlice(all, b)| ==> SlicePrefix(Get(BatchSlice(all, b)[i], "title", Str("N/A")), 60).Ok?
  {
    var batch := BatchSlice(all, b);
    var start := BatchStart(|all|, b);
    RunArticlesOk(batch, |batch|, start, b, now, Steps(p));
    forall i | 0 <= i < |batch|
      ensures Steps(p)(batch[i], start + i + 1).Ok? <==> SlicePrefix(Get(batch[i], "title", Str("N/A")), 60).Ok?
    {
      ArticleStepOutcomes(batch[i], start + i + 1, p);
    }
  }

  /** Every entry is numbered `n` with `lo < n <= hi`, and is what `step`
      completed for article `n` of `all` (1-based), stamped for batch `b`
      at `now(n)`. */
  predicate EntriesFrom(all: seq<Fields>, entries: seq<Fields>, lo: nat, hi: nat, b: int, now: nat -> string,
                        step: (Fields, nat) -> Outcome<ArticleOutcome>)
  {
    forall j :: 0 <= j < |entries| ==>
      var n := GlobalNumber(entries[j]);
      && lo < n <= hi && n <= |all|
      && step(all[n - 1], n).Ok? && step(all[n - 1], n).value.Completed?
      && entries[j] == Finalized(step(all[n - 1], n).value.article, b, n, now(n))
  }

  /** For a batch that is the slice `all[lo..hi]`, the kept entry numbered
      `n` is what the iteration made of `all[n - 1]`. */
  lemma SliceEntries(all: seq<Fields>, lo: nat, hi: nat, b: int, now: nat -> string, step: (Fields, nat) -> Outcome<ArticleOutcome>)
    requires lo <= hi <= |all|
    ensures RunArticles(all[lo..hi], hi - lo, lo, b, now, step).Ok? ==>
      var t := RunArticles(all[lo..hi], hi - lo, lo, b, now, step).value;
      forall j :: 0 <= j < |t.articles| ==>
        var n := GlobalNumber(t.articles[j]);
        && lo < n <= hi && n <= |all|
        && step(all[n - 1], n).Ok? && step(all[n - 1], n).value.Completed?
        && t.articles[j] == Finalized(step(all[n - 1], n).value.article, b, n, now(n))
  {
    var batch := all[lo..hi];
    RunArticlesEntries(batch, hi - lo, lo, b, now, step);
    forall n | lo < n <= hi ensures StepAt(batch, lo, n, step) == step(all[n - 1], n) {
      assert batch[n - lo - 1] == all[n - 1];
    }
  }

  /** `SliceEntries`, stated with `EntriesFrom`. */
  lemma SliceEntriesFrom(all: seq<Fields>, lo: nat, hi: nat, b: int, now: nat -> string, step: (Fields, nat) -> Outcome<ArticleOutcome>)
    requires lo <= hi <= |all|
    ensures RunArticles(all[lo..hi], hi - lo, lo, b, now, step).Ok? ==>
      EntriesFrom(all, RunArticles(all[lo..hi], hi - lo, lo, b, now, step).value.articles, lo, hi, b, now, step)
  {
    SliceEntries(all, lo, hi, b, now, step);
    assert RunArticles(all[lo..hi], hi - lo, lo, b, now, step).Ok? ==>
      var t := RunArticles(all[lo..hi], hi - lo, lo, b, now, step).value;
      EntriesFrom(all, t.articles, lo, hi, b, now, step);
  }

  /** The entry of a successful batch numbered `n` is what the iteration
      made of article `n` of the whole list (1-based, as
      `global_article_number` counts), stamped for batch `b` at `now(n)`;
      `Steps(p)` is `ArticleStep` with the providers `p`. */
  lemma BatchEntries(all: seq<Fields>, b: int, now: nat -> string, dim: int, p: Providers)
    requires ValidBatch(b)
    ensures BatchOfArticles(all, b, now, dim, p).Ok? ==>
      var r := BatchOfArticles(all, b, now, dim, p).value;
      EntriesFrom(all, r.tally.articles, r.startIndex, r.endIndex, b, now, Steps(p))
  {
    var outcome := BatchOfArticles(all, b, now, dim, p);
    BatchTally(all, b, now, dim, p);
    if outcome.Ok? {
      var start, end := BatchStart(|all|, b), BatchEnd(|all|, b);
      SliceEntriesFrom(all, start, end, b, now, Steps(p));
      var t := RunArticles(all[start..end], end - start, start, b, now, Steps(p)).value;
      assert EntriesFrom(all, t.articles, start, end, b, now, Steps(p));
      assert outcome.value.tally.articles == t.articles;
    }
  }

  /** A successful batch reports, as its range and tally, the iteration over
      the slice between its start and its end. */
  lemma BatchTally(all: seq<Fields>, b: int, now: nat -> string, dim: int, p: Providers)
    requires ValidBatch(b)
    ensures BatchOfArticles(all, b, now, dim, p).Ok? ==>
      var start, end := BatchStart(|all|, b), BatchEnd(|all|, b);
      var r := BatchOfArticles(all, b, now, dim, p).value;
      && start < end <= |all|
      && r.startIndex == start && r.endIndex == end
      && RunArticles(all[start..end], end - start, start, b, now, Steps(p)).Ok?
      && r.tally == RunArticles(all[start..end], end - start, start, b, now, Steps(p)).value
  {
    var start, end := BatchStart(|all|, b), BatchEnd(|all|, b);
    if all != [] && start < end {
      assert BatchSlice(all, b) == all[start..end];
    }
  }

  /** A count out of a non-zero total, as a percentage, is between 0 and 100
      and is the count's share of the total. */
  lemma RateBounds(part: nat, whole: nat)
    requires 0 < whole && part <= whole
    ensures 0.0 <= SuccessRate(part, whole) <= 100.0
    ensures SuccessRate(part, whole) * (whole as real) == 100.0 * (part as real)
  {
    assert (part as real) / (whole as real) <= 1.0;
  }

  /** The part of `process_merged_news_batch` after the merge. */
  method ProcessBatchArticles(all: seq<Fields>, b: int, now: nat -> string, dim: int, p: Providers) returns (r: Outcome<BatchReport>)
    requires ValidBatch(b)
    ensures r == BatchOfArticles(all, b, now, dim, p)
  {
    if all == [] {
      return Err("No articles found to process");
    }
    var per := ArticlesPerBatch(|all|);
    var start := (b - 1) * per;
    var end := if start + per < |all| then start + per else |all|;
    var batch := if start < end then all[start..end] else [];
    assert batch == BatchSlice(all, b) && start == BatchStart(|all|, b) && end == BatchEnd(|all|, b);
    var run := ProcessArticles(batch, start, b, now, Steps(p));
    if run.Err? {
      return Err(BatchError(b, run.error));
    }
    var upload := UpsertArticles(run.value.articles, dim, p.upsertRows);
    if batch == [] {
      return Err(BatchError(b, "division by zero"));
    }
    r := Ok(BatchReport(b, |batch|, per, start, end, |all|, run.value, upload,
                        SuccessRate(run.value.successful, |batch|)));
  }

  /** `process_merged_news_batch` */
  method ProcessMergedNewsBatch(b: int, dailystarFile: Option<Fields>, prothomaloFile: Option<Fields>,
                                now: nat -> string, dim: int, p: Providers) returns (r: Outcome<BatchReport>)
    ensures r == ProcessBatch(b, dailystarFile, prothomaloFile, now, dim, p)
  {
    if !ValidBatch(b) {
      return Err("Batch number must be 1, 2, 3, or 4");
    }
    var merged := MergeNewsSources(dailystarFile, prothomaloFile, p.tfidfCosine);
    if merged.Err? {
      return Err("Failed to merge news sources");
    }
    r := ProcessBatchArticles(merged.value.newsArticles, b, now, dim, p);
  }
}
