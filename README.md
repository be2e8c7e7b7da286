# khoborfreshb news pipeline — a Dafny model

This project models the deterministic core of the khoborfreshb news pipeline.
The pipeline scrapes two Bangladeshi news sites (Daily Star and Prothom Alo),
merges and de-duplicates their article lists, enriches one batch of the merged
list article by article, and stores the result as rows in a Supabase table.
The model covers four services:

- **News merger** (`news_merger.dfy`, module `NewsMerger`).
  - Merging concatenates the Daily Star articles and then the Prothom Alo
    articles, each tagged with its `source_file` and `source_name`.
  - Every pair `(i, j)` with `i < j` whose texts score at least 0.85 is
    reported, in lexicographic order.
  - Every index that is the second member of a pair is dropped; the survivors
    keep their order.
  - The deduplication statistics and the name of the merged file are computed.
  - The TF-IDF/cosine scorer is an oracle. Its wrapper
    `calculate_text_similarity` gives 0 for a blank text or a scorer failure.
- **Detailed news** (`detailed_news.dfy`, module `DetailedNews`).
  - A batch number is checked, then the ceiling-of-a-quarter partition picks
    that batch's slice of the merged list.
  - The per-article loop stops an article at its first failing stage: no URL,
    scrape, markdown extraction, or Mistral analysis. It counts
    `successful`/`failed`, records the error texts and stamps each completed
    article.
  - A failed embedding keeps the article.
  - The completed articles are upserted and a success rate is computed.
- **Supabase rows** (`supabase.dfy`, module `Supabase`).
  - The keyword, integer, timestamp and embedding coercers.
  - `normalize_article_for_db`, which returns `None` when a required field is
    falsy.
  - The row-building loops and empty checks of `insert_articles` and
    `upsert_articles`.
- **Preprocessing** (`preprocessing.dfy`, module `Preprocessing`).
  - The greedy line-based markdown chunker.
  - Recovery of JSON text from a fenced reply.
  - The defaults filled into every extracted article.
  - The chunk loop of `preprocess_data`, its chunk count and its errors.
  - Positional attachment of embeddings.

Supporting modules:

- `Wrappers`: `Option`, and `Outcome`, a success value or an error text.
- `Text`: the Python string operations the services use, namely `strip`,
  `lstrip`, `strip(chars)`, `split`, `find`, `int(str)`, `float(str)` and
  `str(int)`.
- `PyValue`: a `Value` datatype for the JSON-like Python objects that flow
  through the services (None, bool, int, float, str, list, dict, datetime),
  with Python truthiness, `dict.get`, `or`, `int()`/`float()` conversion,
  slicing, and the texts of the `TypeError`s the code can raise.
- `Services`: the external collaborators as function-valued fields of one
  `Providers` value. These are the scorer, the Firecrawl scraper, the
  markdown read-out of a scrape response, the two Mistral chat uses, Mistral
  embeddings, `json.loads` and the Supabase insert and upsert calls. Each
  succeeds with a payload or fails with the text of its exception.

Every loop of the core is a method proved equal to a specification function
(`ensures r == F(inputs)`). The properties of `F` are proved as lemmas. An
article dict is a `map<string, Value>`. Every dict the services change in
place was freshly decoded or built, so no other reference can observe the
change. The model therefore works on map values, and each in-place update is
a map update.

A Python exception that escapes to a service's outer `except` becomes the
`Err` branch, carrying the text the service reports. Where the code and its
documentation disagree, the model follows the code:

- An empty batch slice (for example five articles, batch 4) still runs the
  loop and the upload. It then fails on the division in `success_rate` and
  returns `Error processing batch 4: division by zero`.
- The one-second pause follows only a completed article.
- One article whose `title` is `null` or a number fails the whole batch,
  not just that article. `article.get('title', 'N/A')[:60]` in the progress
  line (app/services/detailed_news_service.py:254) raises outside the
  per-article checks, and the outer handler
  (app/services/detailed_news_service.py:377-381) reports the batch as
  failed. So it is not only a missing input that fails a batch.

## Model

| member | source | states |
|---|---|---|
| Text.StripCharsFacts | app/utils/preprocessing.py:247 | `s.strip(chars)` is a contiguous piece of `s` that neither starts nor ends with a stripped character |
| Text.StripCharsSurrounded | app/utils/preprocessing.py:247 | stripping removes exactly the surrounding runs of stripped characters when the middle holds none |
| Text.BlankIffAllWhitespace | app/utils/preprocessing.py:123 | `s.strip()` is empty exactly when every character of `s` is whitespace |
| Text.StripIdempotent | app/services/news_merger_service.py:52-53 | stripping an already stripped text changes nothing, so the blank test sees the compared text itself |
| Text.Find | app/utils/preprocessing.py:238-241 | `find` returns the first occurrence at or after `start`, or -1 when there is none |
| Text.JoinSplit | app/utils/preprocessing.py:112 | joining the parts of `s.split(sep)` with `sep` gives back `s` |
| Text.SplitJoin | app/services/supabase_service.py:42 | splitting a join of separator-free parts gives back the parts |
| Text.ParseIntRoundTrip | app/services/supabase_service.py:50 | `int(str(n)) == n` for every integer |
| Text.ParseFloatOfIntString | app/services/supabase_service.py:67 | `float(str(n)) == n` for every integer, with floats as exact reals (see Left out) |
| PyValue.Or | app/services/supabase_service.py:83 | `a or b` is `a` when `a` is truthy and `b` otherwise, and is truthy exactly when one of them is |
| PyValue.Truncate | app/services/supabase_service.py:50 | `int()` of a float truncates toward zero |
| PyValue.ConversionsOfRenderedInt | app/services/supabase_service.py:46-72 | `int()` and `float()` of the text of an integer give that integer back, with floats as exact reals (see Left out) |
| PyValue.Elements | app/services/supabase_service.py:67 | iterating a list gives its items; iterating a string gives, in order, the one-character string of each character; an empty dict gives nothing and a non-empty dict is outside the model; every other value is not iterable |
| PyValue.SlicePrefix | app/services/detailed_news_service.py:254 | `v[:n]` succeeds exactly on strings and lists and gives the prefix of length `min(n, len(v))`; any other value raises |
| NewsMerger.TextSimilarity | app/services/news_merger_service.py:49-66 | the similarity is 0 when either text is blank or the scorer fails, and is otherwise the scorer's value |
| NewsMerger.RowPairsMembers | app/services/news_merger_service.py:75-89 | after the inner loop for `i`, the row holds exactly the qualifying pairs `(i, j)` with `j` below the bound, ordered by `j` |
| NewsMerger.AllPairsMembers | app/services/news_merger_service.py:74-89 | after `rows` outer iterations, a pair is listed exactly when it is a qualifying pair `i < j < n` (carrying its score, which reaches the threshold) with `i < rows` |
| NewsMerger.AllPairsOrdered | app/services/news_merger_service.py:74-89 | the pairs come out in strict lexicographic `(i, j)` order |
| NewsMerger.DuplicatePairsCharacterised | app/services/news_merger_service.py:68-91 | `find_duplicates` returns exactly the pairs `i < j` whose texts reach the threshold, in lexicographic order |
| NewsMerger.RowDuplicates | app/services/news_merger_service.py:75-89 | the inner loop appends the pairs `(i, j)` whose similarity reaches the threshold, in order of `j` |
| NewsMerger.TextDuplicates | app/services/news_merger_service.py:74-91 | the nested loops yield the concatenation of all rows |
| NewsMerger.FindDuplicates | app/services/news_merger_service.py:68-91 | the result lists exactly the qualifying pairs with `0 <= i < j < len(articles)`, in lexicographic order |
| NewsMerger.RemovedIndicesMembers | app/services/news_merger_service.py:137-141 | an index is marked for removal exactly when it is the second member of some pair; there are at most as many as pairs |
| NewsMerger.CollectRemoved | app/services/news_merger_service.py:137-141 | the loop over the pairs collects exactly the second members |
| NewsMerger.KeptIndicesFacts | app/services/news_merger_service.py:143-147 | the kept indices are exactly the unremoved indices below `n`, strictly increasing, and their count is `n` minus the removed indices below `n` |
| NewsMerger.SurvivorsAreKept | app/services/news_merger_service.py:143-147 | survivor `k` is the article at the `k`-th kept index |
| NewsMerger.SurvivorsCharacterised | app/services/news_merger_service.py:143-147 | the survivors are the unremoved articles in their original order, and there are as many as kept indices |
| NewsMerger.RemovedIffEarlierDuplicate | app/services/news_merger_service.py:136-147 | article `j` is dropped exactly when some earlier article scores at least the threshold against it |
| NewsMerger.FirstArticleSurvives | app/services/news_merger_service.py:136-147 | a non-empty merged list keeps its first article, first |
| NewsMerger.ChainKeepsOnlyFirst | app/services/news_merger_service.py:136-147 | three articles that all match the first collapse to the first alone |
| NewsMerger.TagAllFacts | app/services/news_merger_service.py:108-112 | tagging succeeds exactly when every item is a dict, and then tags every article in order |
| NewsMerger.TagAllStopsAt | app/services/news_merger_service.py:109-111 | the first non-dict item raises the item-assignment `TypeError` |
| NewsMerger.TagArticles | app/services/news_merger_service.py:107-113 | the tagging loop over `news_articles`, as specified by `TagSource` |
| NewsMerger.TaggedList | app/services/news_merger_service.py:109-112 | tagging a list of dicts keeps its length |
| NewsMerger.TagSourceTags | app/services/news_merger_service.py:105-126 | every tagged article carries the given `source_file` and `source_name` |
| NewsMerger.LoadSource | app/services/news_merger_service.py:105-126 | the per-source block, as specified by `SourceArticles`: a missing or empty file, or one without `news_articles`, contributes nothing, and otherwise its articles are tagged or the tagging error is raised |
| NewsMerger.Deduplicate | app/services/news_merger_service.py:135-170 | finding the pairs, collecting the removed indices and building the survivors give the merged result `Deduplicated` |
| NewsMerger.MergeNewsSources | app/services/news_merger_service.py:93-186 | `merge_news_sources` as specified by `Merge` |
| NewsMerger.MergeOutcomes | app/services/news_merger_service.py:95-186 | the merge fails with "No news files found" exactly when no Daily Star file exists, reports a tagging error as "Error merging news: …", fails with "No articles found" exactly when both sources contribute nothing, and succeeds otherwise |
| NewsMerger.BothSourcesMerged | app/services/news_merger_service.py:101-129 | with both files loaded, the merged list is all Daily Star articles in order, then all Prothom Alo articles, and both sources are listed |
| NewsMerger.DeduplicatedFacts | app/services/news_merger_service.py:152-182 | `original_count` is the merged length; `final_count` is that minus the removed indices and at least that minus `duplicates_found`; the threshold is 0.85; the first article survives; survivors come from the input; the file name encodes the counts |
| NewsMerger.MergedArticlesTagged | app/services/news_merger_service.py:105-126 | every merged article is tagged as Daily Star or as Prothom Alo |
| Supabase.CoerceKeywords | app/services/supabase_service.py:36-44 | None gives None; a list gives one keyword per element, the `str()` of that element; a string gives None or a non-empty list; any other value gives None |
| Supabase.NonBlankIndicesMembers | app/services/supabase_service.py:42 | the positions the comprehension keeps are exactly those of pieces that are not blank once trimmed |
| Supabase.NonBlankIndicesIncreasing | app/services/supabase_service.py:42 | the kept positions are in increasing order |
| Supabase.KeptPartsAt | app/services/supabase_service.py:42 | keyword `m` is the trimmed piece at the `m`-th kept position, one keyword per kept position |
| Supabase.KeptPartsEmpty | app/services/supabase_service.py:42-43 | nothing is kept exactly when every piece is blank once trimmed |
| Supabase.KeywordsNoneIffBlank | app/services/supabase_service.py:41-43 | a string gives None exactly when every one of its comma-separated pieces is blank once trimmed |
| Supabase.KeywordsOfPieces | app/services/supabase_service.py:41-43 | otherwise a string gives its trimmed non-blank comma-separated pieces, in their original order, each such piece once |
| Supabase.KeywordsOfSpacedList | app/services/supabase_service.py:41-43 | `" a , b,,"` gives `["a", "b"]` |
| Supabase.KeptPartsClean | app/services/supabase_service.py:42 | the trimmed, non-empty comma-split parts are clean keywords, and there are no more of them than parts |
| Supabase.KeptPartsOfClean | app/services/supabase_service.py:42 | trimming and filtering clean keywords leaves them unchanged |
| Supabase.KeywordsFromStringClean | app/services/supabase_service.py:41-43 | keywords taken from a string are trimmed, non-empty and comma-free |
| Supabase.KeywordsRoundTrip | app/services/supabase_service.py:41-43 | coercing `",".join(ks)` of clean keywords gives `ks` back, or None when `ks` is empty |
| Supabase.CoerceInt | app/services/supabase_service.py:46-52 | None, lists, dicts and datetimes give None; ints are kept; bools give 0 or 1; a float is truncated toward zero; a blank string gives None |
| Supabase.CoerceIntRejectsNonNumeral | app/services/supabase_service.py:46-52 | a string whose trimmed text holds a character that is neither a digit nor a leading sign fails to convert and gives None |
| Supabase.CoerceIntOfRendered | app/services/supabase_service.py:46-52 | the text of an integer coerces to that integer |
| Supabase.CoerceTimestamp | app/services/supabase_service.py:54-61 | a falsy value (the empty string among them) gives None, a non-empty string is kept, a datetime gives its ISO form, anything else gives None, and a result is never empty |
| Supabase.FloatsOf | app/services/supabase_service.py:66-67 | the float conversion of a list succeeds exactly when every element converts, element by element |
| Supabase.CoerceEmbedding | app/services/supabase_service.py:63-72 | a vector comes back exactly when the input is truthy and iterable, every element converts with `float()` and there are `dim` of them, and it is then the converted elements in order |
| Supabase.CoerceEmbeddingOfFloats | app/services/supabase_service.py:63-72 | a list of floats is accepted exactly when it is non-empty and has the required dimension |
| Supabase.CoerceEmbeddingRejectsBadElement | app/services/supabase_service.py:66-72 | one element that does not convert rejects the whole embedding |
| Supabase.NormalizeArticleAbsent | app/services/supabase_service.py:81-85 | normalisation gives None exactly when `title`, `full_text`, or both `source_url` and `url`, are falsy |
| Supabase.NormalizeArticleColumns | app/services/supabase_service.py:87-109 | a row has the fourteen columns, plus `embedding` exactly when the embedding coerces |
| Supabase.BaseFieldsColumns | app/services/supabase_service.py:87-103 | the row literal has exactly the fourteen columns |
| Supabase.RowFieldsValues | app/services/supabase_service.py:87-103 | the dict holds the row's title, full text, source URL and source name under their column names |
| Supabase.RowFieldsOptionalValues | app/services/supabase_service.py:90-102 | the dict holds the row's summary, category, sentiment, location, named entities, thumbnail URL and language as given, and its coerced importance level, keywords and timestamp |
| Supabase.NormalizeArticleValues | app/services/supabase_service.py:81-109 | a produced row is the dict of the article's record: `title` and `full_text` copied and truthy; `source_url` the article's `source_url` when truthy and its `url` otherwise; `source_name` falling back to `original_source_name`; summary, category, sentiment, location, named entities, thumbnail URL and language as `get` returns them; importance level, keywords and date coerced; and the coerced embedding |
| Supabase.NormalizeArticleEmbedding | app/services/supabase_service.py:105-109 | a coerced embedding is stored with the required dimension |
| Supabase.NormalizedRowsConcat | app/services/supabase_service.py:113-117 | building rows distributes over concatenation of the input |
| Supabase.NormalizedRowsFacts | app/services/supabase_service.py:113-118 | there are no more rows than articles; there are none exactly when every article normalises to None; every row is the normalisation of some article |
| Supabase.BuildRows | app/services/supabase_service.py:133-137 | the append loop keeps the non-None normalised rows in input order |
| Supabase.InsertArticles | app/services/supabase_service.py:111-129 | no rows give "No valid rows to insert"; a client error is passed on; otherwise the count is the length of the returned data, or 0 without data |
| Supabase.UpsertArticles | app/services/supabase_service.py:131-154 | no rows give "No valid rows to upsert"; a client error is passed on; otherwise the count is the number of rows, between 1 and the number of articles |
| DetailedNews.ArticlesPerBatch | app/services/detailed_news_service.py:217-220 | `(n + 3) // 4` is the least `per` with `4 * per >= n`, and it is positive for a non-empty list |
| DetailedNews.BatchBetweenBoundaries | app/services/detailed_news_service.py:223-227 | batch `b` is the slice between the boundaries `b - 1` and `b`, each capped at `n` |
| DetailedNews.BatchesPartition | app/services/detailed_news_service.py:217-227 | the four batches, concatenated in order, are exactly the whole list |
| DetailedNews.BatchEdges | app/services/detailed_news_service.py:217-227 | the batch boundaries start at 0, end at the list length and never decrease |
| DetailedNews.BatchesDisjoint | app/services/detailed_news_service.py:223-224 | an earlier batch ends at or before a later one starts |
| DetailedNews.BatchSize | app/services/detailed_news_service.py:223-227 | a batch holds at most `per` articles and is empty exactly when its start is at or past the end |
| DetailedNews.TenArticles | app/services/detailed_news_service.py:217-227 | ten articles split 3, 3, 3, 1 |
| DetailedNews.FiveArticlesLastBatchEmpty | app/services/detailed_news_service.py:217-227 | with five articles, batch 4 starts at 6, ends at 5 and is empty |
| DetailedNews.MistralOutcomes | app/services/detailed_news_service.py:63-131 | the analysis succeeds exactly when the markdown and the title can be sliced, the chat call succeeds and its reply decodes to a dict; the result is that dict with `original_title`, `original_summary` and `chunk_source` (default "unknown") set and every other key kept; a decode error gives "Failed to parse Mistral response: …" |
| DetailedNews.EmbeddingInput | app/services/detailed_news_service.py:147-157 | the embedding text is the stripped "title summary" when that is non-empty; otherwise it is the first 1000 characters of a string `full_text` or the first 1000 items of a list one, and any other `full_text` raises |
| DetailedNews.EmbeddingFacts | app/services/detailed_news_service.py:145-185 | a failed embedding leaves the article unchanged; a successful one adds the vector, `embedding_model = "mistral-embed"` and its dimension, and keeps every other field |
| DetailedNews.ArticleStepOutcomes | app/services/detailed_news_service.py:249-330 | an article ends the batch only when its title cannot be sliced; it completes exactly when every stage succeeds, and then it is the embedded Mistral result; without a URL it fails with "Article n: No URL found" |
| DetailedNews.RunArticlesOk | app/services/detailed_news_service.py:249-330 | the loop runs to the end exactly when no iteration raises; failed articles do not stop it |
| DetailedNews.RunArticlesCounts | app/services/detailed_news_service.py:249-330 | after `k` articles, `successful + failed == k`, one error per failure and one article per success |
| DetailedNews.RunArticlesStamps | app/services/detailed_news_service.py:249-330 | every completed article carries status "completed", the batch number and a global number in `[start + 1, start + k]`, and the numbers strictly increase along the list |
| DetailedNews.RunArticlesEntries | app/services/detailed_news_service.py:249-330 | the entry numbered `n` is the completed result of article `n`, stamped with status, batch, number and the clock reading `now(n)`; every completed article has an entry |
| DetailedNews.RunArticlesErrStays | app/services/detailed_news_service.py:249-254 | once an article raises, the rest of the batch is not processed |
| DetailedNews.ProcessArticles | app/services/detailed_news_service.py:249-335 | the article loop, as specified by `RunArticles` |
| DetailedNews.ProcessBatchRefusals | app/services/detailed_news_service.py:197-209 | a batch number outside 1..4 fails with "Batch number must be 1, 2, 3, or 4" before anything else; a failed merge gives "Failed to merge news sources" |
| DetailedNews.BatchOfArticlesOk | app/services/detailed_news_service.py:214-381 | a batch succeeds exactly when the merged list and its slice are non-empty and every title in the slice can be sliced, whatever happens to each article's fetch, extraction and embedding |
| DetailedNews.BatchOfArticlesOutcomes | app/services/detailed_news_service.py:214-381 | an empty slice fails with the division error; a success reports the slice bounds, the loop's counts and stamps, the upsert of exactly the completed articles, and the rate `SuccessRate(successful, len(batch))`, between 0 and 100 |
| DetailedNews.BatchTally | app/services/detailed_news_service.py:223-330 | a successful batch reports as its range and tally the loop over `all[start..end]` |
| DetailedNews.BatchEntries | app/services/detailed_news_service.py:214-381 | entry `n` of a successful batch lies in the batch's range and is the completed, stamped result of article `n` of the merged list |
| DetailedNews.RateBounds | app/services/detailed_news_service.py:372 | the success rate of `part <= whole` is `100 * part / whole` and lies between 0 and 100 |
| DetailedNews.ProcessBatchArticles | app/services/detailed_news_service.py:214-381 | partition, loop, upsert and report, as specified by `BatchOfArticles` |
| DetailedNews.ProcessMergedNewsBatch | app/services/detailed_news_service.py:187-381 | `process_merged_news_batch`, as specified by `ProcessBatch` |
| Preprocessing.GroupPartitions | app/utils/preprocessing.py:112-124 | the closed chunks followed by the open one are the split lines, none dropped, split or reordered |
| Preprocessing.GroupShape | app/utils/preprocessing.py:114-124 | every closed run of lines is non-empty and fits the size or is one line; so is the open run |
| Preprocessing.GroupGreedy | app/utils/preprocessing.py:116-118 | a chunk is closed only when the next line would push it past the size |
| Preprocessing.SplitMarkdownIntoChunks | app/utils/preprocessing.py:92-126 | the chunker loop, as specified by `Chunks` |
| Preprocessing.ChunkRunsCoverMarkdown | app/utils/preprocessing.py:112-124 | joining the lines of all chunks with newlines gives back the markdown |
| Preprocessing.StrippedRunBound | app/utils/preprocessing.py:116-124 | a stripped chunk is within the size or holds no newline |
| Preprocessing.ChunksBounded | app/utils/preprocessing.py:105-124 | every chunk of long content is stripped, and every chunk fits the size or is a single line |
| Preprocessing.BlankLineHasNoChunks | app/utils/preprocessing.py:122-124 | a long, blank, single-line text gives no chunks |
| Preprocessing.PlainReplyUnchanged | app/utils/preprocessing.py:232-235 | a reply that does not open with a fence once its leading whitespace is dropped is decoded as it is |
| Preprocessing.BacktickFreeReplyUnchanged | app/utils/preprocessing.py:232-235 | a reply without backticks is decoded as it is |
| Preprocessing.TaggedFenceUnwrapped | app/utils/preprocessing.py:236-244 | a `json`-tagged fenced block yields its stripped body, whatever whitespace precedes it and whatever follows the closing fence |
| Preprocessing.UnclosedFenceUnwrapped | app/utils/preprocessing.py:236-244 | a `json`-tagged block without a closing fence yields the stripped rest of the reply |
| Preprocessing.BareFenceUnwrapped | app/utils/preprocessing.py:245-247 | an untagged fenced block yields its body |
| Preprocessing.WithDefaultsKeys | app/utils/preprocessing.py:257-275 | filling adds exactly `chunk_source`, `url`, `title`, `summary` and `category`, plus `source_url` when the article takes the page URL |
| Preprocessing.WithDefaultsFacts | app/utils/preprocessing.py:257-275 | `chunk_source` is "chunk_{i+1}"; a missing `url` becomes None; `source_url` is the page URL when `url` is falsy and the page URL is not; missing fields get their defaults |
| Preprocessing.WithDefaultsKeepsOthers | app/utils/preprocessing.py:257-275 | every other field is left as it was |
| Preprocessing.DefaultedArticlesFacts | app/utils/preprocessing.py:257-277 | the defaults loop succeeds exactly when every item is a dict, and then fills each one in order |
| Preprocessing.ApplyDefaults | app/utils/preprocessing.py:257-277 | the defaults loop, as specified by `DefaultedArticles` |
| Preprocessing.DefaultedArticlesNone | app/utils/preprocessing.py:257-259 | a single non-dict item discards the whole chunk |
| Preprocessing.ChunkArticlesFilled | app/utils/preprocessing.py:226-281 | every article a chunk contributes has the filled keys and that chunk's label |
| Preprocessing.RunChunksFacts | app/utils/preprocessing.py:186-294 | no more chunks are counted than were tried; no counted chunk means no articles; every article carries the filled keys and the label of a chunk that was tried |
| Preprocessing.ExtractArticles | app/utils/preprocessing.py:226-288 | parsing a reply and filling in its articles, as specified by `ChunkArticles` |
| Preprocessing.ProcessChunks | app/utils/preprocessing.py:182-294 | the chunk loop, as specified by `RunChunks` |
| Preprocessing.EmbeddingTexts | app/utils/preprocessing.py:56-62 | text `k` is the stripped "title summary" of article `k`, one per article |
| Preprocessing.CollectEmbeddingTexts | app/utils/preprocessing.py:57-62 | the loop gathering the texts, as specified by `EmbeddingTexts` |
| Preprocessing.WithEmbeddingsFacts | app/utils/preprocessing.py:53-89 | article `k` keeps its other fields and gets vector `k` and "mistral-embed" when the call succeeded with enough vectors, and None for both otherwise |
| Preprocessing.GenerateEmbeddingsForArticles | app/utils/preprocessing.py:41-89 | the text and attachment loops, as specified by `WithEmbeddings` |
| Preprocessing.PreprocessRefusals | app/utils/preprocessing.py:143-179 | falsy markdown gives "No markdown content found in scraped data" (and only it does); an int, float, bool or datetime gives the `len()` error; a list or dict longer than 3000 gives the `split` error; no chunk to process gives "No chunks available to process", for a string exactly when `min(max_chunks, len(chunks))` is 0 and for a short list or dict exactly when `max_chunks` is 0; a short dict with `max_chunks > 0` fails slicing its preview |
| Preprocessing.PreprocessSuccess | app/utils/preprocessing.py:143-336 | success comes only from a string, a list, or a dict no iteration slices; it reports `len(markdown)`, one chunk for a list or dict, no more than `max(max_chunks, 0)` and no more than the total chunks processed, chunk size 3000 and a non-empty model name, and every article has the filled and embedding keys |
| Preprocessing.PreprocessData | app/utils/preprocessing.py:129-343 | `preprocess_data`, as specified by `Preprocess` |

## Left out

- File I/O is left out: `load_latest_news_files`, `load_news_data`, writing the merged, batch and preprocessed files, and `save_news_json`. The loaded files are inputs (`Option<Fields>`: None for no file; an unreadable file reads as an empty dict, as `load_news_data` returns `{}`). A Prothom Alo file without a Daily Star file cannot arise, because file discovery returns no file at all then. The saved file name is computed; writing it is not. A loaded file whose top-level JSON value is not an object (a list or a string) is not modelled: the loaded data is a dict or nothing. The service writes its news files as objects.
- The clock is a parameter `now: nat -> string`: the completed article with global number `n` is stamped `now(n)`, one reading per article as `datetime.now()` is called once per article. The merger's `np.datetime64("now")` stamp is left out with the rest of the merged file's layout. `asyncio.sleep` and `print` are left out.
- The `hasattr` probing of the Firecrawl response is the `markdownOf` collaborator.
- Prompt construction is left out. The chat calls take the pieces the prompt is built from.
- The chat reply's `response` is a string in the model. A reply whose content is not a string (for example `None`) is not fence-stripped in the source and raises inside the same `try` (at the `json_text[:200]` preview or in `json.loads`); the model folds it into a decode failure of `parseJson`, which has the same outcome: the chunk contributes no articles and its model name is still recorded.
- DetailedNews.MistralOutcomes: a chat reply that is not a string gives a different error text in the source. `json.loads(None)` raises `TypeError`, not `JSONDecodeError`, so the outer handler of `process_article_with_mistral` reports "Error processing article: the JSON object must be str, bytes or bytearray, not NoneType", and that text reaches the batch's `errors` list. The model's reply is a string, so it can only report "Failed to parse Mistral response: …" for a reply that does not decode. The article is counted as failed either way.
- `EMBEDDING_DIM` and the Supabase URL, key and table name come from the environment. The dimension is a parameter, with 1536 as the named default; the client and table are the insert and upsert collaborators.
- `str()` of floats, lists and dicts is rendered as a placeholder text, not Python's representation. It matters only inside error texts and in `f"{title} {summary}"` of non-string fields.
- `float()` of a string is modelled for decimal numerals with an optional sign. Exponents, `inf` and `nan` are not modelled, and underscores between digits (`float("1_0") == 10.0`) and non-ASCII decimal digits, which Python accepts, give None.
- Python floats are modelled as exact real numbers: there is no rounding to a 64-bit double, no overflow, and no `inf` or `nan`. So `float(10**400)`, which raises `OverflowError` in Python and makes `_coerce_embedding` give None, converts in the model, and an integer beyond 2**53 converts without rounding.
- Text.ParseFloatOfIntString: `float(str(n)) == n` is proved over exact reals. In Python it holds only for |n| <= 2**53; beyond that the result is rounded to the nearest double (`float("9007199254740993") == 9007199254740992.0`), and a numeral too large for a double gives `inf`.
- PyValue.ConversionsOfRenderedInt: the `float()` half holds over exact reals only, for the reason given in the line above; the `int()` half is exact in Python too.
- Preprocessing.Preprocess: the error results' `original_data` payload (the scraped dict, the content length, or `str(data)`) and the success result's `processing_summary` text are not modelled; the result carries the error text, or the articles and the counts the summary is made from.
- Dict key order is not modelled, because maps are unordered. This affects iterating a non-empty dict as `news_articles`, which the model treats as a failure that discards the chunk or the source. In Python such an iteration yields string keys, which then fail on item assignment just the same.
- The slicing error for a dict is `TypeError: unhashable type: 'slice'`, the behaviour of Python before 3.12. From Python 3.12 on, slices are hashable and the lookup raises `KeyError` instead, whose text is `slice(None, n, None)`.
- `source_name.title()` in the preprocessed result's `source` label is left out, together with the rest of the saved file's layout.
- Preprocessing.PreprocessData: a list or dict chunk enters the prompt as its `str()`, which is the placeholder text described above rather than Python's representation.
- Preprocessing.PreprocessData: scraped data with a callable `dict` attribute (a Pydantic model) is converted with `data.dict()`; the model has no such objects, so its data is a dict or is wrapped as `{"content": str(data)}`.
- Supabase.CoerceEmbedding: a non-empty dict is treated as not iterable, so it gives None; Python iterates its keys, so a dict such as `{"0.5": 1}` of the required dimension gives `[0.5]`.
- Text.ParseInt: `int()` of a string is modelled for ASCII digits with an optional sign and surrounding whitespace; underscores between digits and non-ASCII decimal digits, which Python also accepts, give None. The limit of 4300 digits that recent Python versions put on `int()` of a string (a `ValueError` beyond it) is not modelled: any length converts.
- DetailedNews.ProcessBatchArticles: the success rate is the real number `100 * successful / len(batch)`, not its `"{:.1f}%"` text.
- NewsMerger.FindDuplicates: the service rebuilds each article's text for every pair it takes part in. The model builds it once per article; the text depends on the article alone, so the pairs are the same.
- NewsMerger.TextSimilarity: the TF-IDF vectoriser and cosine similarity are an oracle, so the model proves nothing about the score's range.
- The upload-time URL and title deduplication behind the upload endpoint has no implementation in the service code, so it is not part of this model. The FastAPI endpoints are not part of it either.
