/** `NewsMergerService`: merges the latest Daily Star and Prothom Alo article
    lists, finds near-duplicate pairs by comparing every pair of articles,
    drops every article that is the later member of some pair, and reports
    deduplication statistics. */
module NewsMerger {

  import opened Wrappers
  import opened Text
  import opened PyValue

  /** `self.similarity_threshold` */
  const SimilarityThreshold: real := 0.85

  /** `self.data_dir` */
  const DataDir: string := "data"

  /** `(i, j, similarity)`, an element of what `find_duplicates` returns. */
  datatype DuplicatePair = DuplicatePair(i: nat, j: nat, score: real)

  /** The `deduplication_stats` block of the merged file. */
  datatype DedupStats = DedupStats(
    originalCount: nat,
    duplicatesFound: nat,
    finalCount: nat,
    similarityThreshold: real)

  /** A successful merge: `merged_data` and `saved_file`. The response's
      `total_articles` is `|newsArticles|`, and its `deduplication_summary`
      repeats `originalCount`, `duplicatesFound` and `finalCount`. */
  datatype MergedNews = MergedNews(
    newsArticles: seq<Fields>,
    sourcesLoaded: seq<string>,
    stats: DedupStats,
    savedFile: string)

  // ---------------------------------------------------------------------
  // Similarity

  /** `calculate_text_similarity`: zero when either text is blank or when the
      TF-IDF scorer raises, the scorer's value otherwise. */
  function TextSimilarity(cosine: (string, string) -> Option<real>, text1: string, text2: string): (s: real)
    ensures IsBlank(text1) || IsBlank(text2) ==> s == 0.0
    ensures cosine(text1, text2).None? ==> s == 0.0
    ensures s == 0.0 || cosine(text1, text2) == Some(s)
  {
    if IsBlank(text1) || IsBlank(text2) then 0.0
    else
      match cosine(text1, text2)
      case Some(x) => x
      case None => 0.0
  }

  function PairScore(articles: seq<Fields>, cosine: (string, string) -> Option<real>, i: nat, j: nat): real
    requires i < |articles| && j < |articles|
  {
    TextSimilarity(cosine, TitleSummaryText(articles[i]), TitleSummaryText(articles[j]))
  }

  // ---------------------------------------------------------------------
  // find_duplicates

  /** The score of every pair of positions, as `find_duplicates` computes it;
      positions outside the list score zero. */
  function ScoreOf(articles: seq<Fields>, cosine: (string, string) -> Option<real>): (nat, nat) -> real {
    TextScore(CompareTexts(articles), cosine)
  }

  /** The compared text of every article, position by position. */
  function CompareTexts(articles: seq<Fields>): seq<string> {
    seq(|articles|, k requires 0 <= k < |articles| => TitleSummaryText(articles[k]))
  }

  /** The similarity of every pair of positions of `texts`. */
  function TextScore(texts: seq<string>, cosine: (string, string) -> Option<real>): (nat, nat) -> real {
    (i: nat, j: nat) => if i < |texts| && j < |texts| then TextSimilarity(cosine, texts[i], texts[j]) else 0.0
  }

  /** The score of a pair is the similarity of the two articles' texts. */
  lemma ScoreOfPair(articles: seq<Fields>, cosine: (string, string) -> Option<real>, i: nat, j: nat)
    requires i < |articles| && j < |articles|
    ensures ScoreOf(articles, cosine)(i, j) == PairScore(articles, cosine, i, j)
  {
  }

  /** `p` is a pair that `find_duplicates` must report, for `n` articles
      scored by `score`. */
  predicate IsDuplicate(score: (nat, nat) -> real, threshold: real, n: nat, p: DuplicatePair) {
    p.i < p.j < n && p.score == score(p.i, p.j) && p.score >= threshold
  }

  /** The pairs `(i, k)` with `i < k < upTo` that reach the threshold, in
      order of `k`: what the inner loop has appended once `j == upTo`. */
  function RowPairs(score: (nat, nat) -> real, threshold: real, i: nat, upTo: nat): seq<DuplicatePair>
    decreases upTo
  {
    if upTo <= i + 1 then []
    else
      var s := score(i, upTo - 1);
      RowPairs(score, threshold, i, upTo - 1) + (if s >= threshold then [DuplicatePair(i, upTo - 1, s)] else [])
  }

  /** What the outer loop has appended after `rows` iterations over `n`
      articles. */
  function AllPairs(score: (nat, nat) -> real, threshold: real, n: nat, rows: nat): seq<DuplicatePair> {
    if rows == 0 then []
    else AllPairs(score, threshold, n, rows - 1) + RowPairs(score, threshold, rows - 1, n)
  }

  /** The value of `find_duplicates(articles)`. */
  function DuplicatePairs(articles: seq<Fields>, cosine: (string, string) -> Option<real>, threshold: real): seq<DuplicatePair> {
    AllPairs(ScoreOf(articles, cosine), threshold, |articles|, |articles|)
  }

  /** Lexicographic order on `(i, j)`. */
  predicate PairBefore(p: DuplicatePair, q: DuplicatePair) {
    p.i < q.i || (p.i == q.i && p.j < q.j)
  }

  predicate LexOrdered(ps: seq<DuplicatePair>) {
    forall x, y :: 0 <= x < y < |ps| ==> PairBefore(ps[x], ps[y])
  }

  lemma {:induction false} RowPairsMembers(score: (nat, nat) -> real, threshold: real, n: nat, i: nat, upTo: nat)
    requires upTo <= n
    ensures forall p :: p in RowPairs(score, threshold, i, upTo) <==>
      IsDuplicate(score, threshold, n, p) && p.i == i && p.j < upTo
    ensures LexOrdered(RowPairs(score, threshold, i, upTo))
    decreases upTo
  {
    if upTo > i + 1 {
      RowPairsMembers(score, threshold, n, i, upTo - 1);
      var prev := RowPairs(score, threshold, i, upTo - 1);
      var row := RowPairs(score, threshold, i, upTo);
      forall x, y | 0 <= x < y < |row| ensures PairBefore(row[x], row[y]) {
        if y >= |prev| {
          assert row[x] in prev;
        }
      }
    }
  }

  lemma LexOrderedConcat(a: seq<DuplicatePair>, b: seq<DuplicatePair>)
    requires LexOrdered(a) && LexOrdered(b)
    requires forall p, q :: p in a && q in b ==> PairBefore(p, q)
    ensures LexOrdered(a + b)
  {
    var c := a + b;
    forall x, y | 0 <= x < y < |c| ensures PairBefore(c[x], c[y]) {
      if x < |a| && y >= |a| {
        assert c[x] in a && c[y] in b;
      } else if x >= |a| {
        assert c[x] == b[x - |a|] && c[y] == b[y - |a|];
      }
    }
  }

  lemma {:induction false} AllPairsMembers(score: (nat, nat) -> real, threshold: real, n: nat, rows: nat)
    requires rows <= n
    ensures forall p :: p in AllPairs(score, threshold, n, rows) <==>
      IsDuplicate(score, threshold, n, p) && p.i < rows
  {
    if rows > 0 {
      AllPairsMembers(score, threshold, n, rows - 1);
      RowPairsMembers(score, threshold, n, rows - 1, n);
    }
  }

  lemma {:induction false} AllPairsOrdered(score: (nat, nat) -> real, threshold: real, n: nat, rows: nat)
    requires rows <= n
    ensures LexOrdered(AllPairs(score, threshold, n, rows))
  {
    if rows > 0 {
      AllPairsOrdered(score, threshold, n, rows - 1);
      AllPairsMembers(score, threshold, n, rows - 1);
      RowPairsMembers(score, threshold, n, rows - 1, n);
      var earlier := AllPairs(score, threshold, n, rows - 1);
      var row := RowPairs(score, threshold, rows - 1, n);
      forall p, q | p in earlier && q in row ensures PairBefore(p, q) {
        assert p.i < rows - 1 && q.i == rows - 1;
      }
      LexOrderedConcat(earlier, row);
    }
  }

  /** What `find_duplicates` promises: every reported pair satisfies
      `0 <= i < j < len(articles)` and reaches the threshold with the score of
      its two compared texts; every such pair is reported; and the pairs come
      out in lexicographic `(i, j)` order. */
  lemma DuplicatePairsCharacterised(articles: seq<Fields>, cosine: (string, string) -> Option<real>, threshold: real)
    ensures forall p :: p in DuplicatePairs(articles, cosine, threshold) <==>
      IsDuplicate(ScoreOf(articles, cosine), threshold, |articles|, p)
    ensures LexOrdered(DuplicatePairs(articles, cosine, threshold))
  {
    AllPairsMembers(ScoreOf(articles, cosine), threshold, |articles|, |articles|);
    AllPairsOrdered(ScoreOf(articles, cosine), threshold, |articles|, |articles|);
  }

  /** The inner loop of `find_duplicates` for a fixed `i`: the pairs
      `(i, j)` with `i < j` that reach the threshold, in order of `j`. */
  method RowDuplicates(texts: seq<string>, cosine: (string, string) -> Option<real>, threshold: real, i: nat)
    returns (row: seq<DuplicatePair>)
    requires i < |texts|
    ensures row == RowPairs(TextScore(texts, cosine), threshold, i, |texts|)
  {
    row := [];
    var j := i + 1;
    while j < |texts|
      invariant i + 1 <= j <= |texts|
      invariant row == RowPairs(TextScore(texts, cosine), threshold, i, j)
    {
      var similarity := TextSimilarity(cosine, texts[i], texts[j]);
      if similarity >= threshold {
        row := row + [DuplicatePair(i, j, similarity)];
      }
      j := j + 1;
    }
  }

  /** The outer loop of `find_duplicates` over `i`, appending each row. */
  method TextDuplicates(texts: seq<string>, cosine: (string, string) -> Option<real>, threshold: real)
    returns (duplicates: seq<DuplicatePair>)
    ensures duplicates == AllPairs(TextScore(texts, cosine), threshold, |texts|, |texts|)
  {
    duplicates := [];
    var i := 0;
    while i < |texts|
      invariant 0 <= i <= |texts|
      invariant duplicates == AllPairs(TextScore(texts, cosine), threshold, |texts|, i)
    {
      var row := RowDuplicates(texts, cosine, threshold, i);
      duplicates := duplicates + row;
      i := i + 1;
    }
  }

  /** `find_duplicates`: every pair `(i, j)` with `i < j` whose texts reach
      the threshold, in lexicographic order. The service builds the text of
      an article afresh for every pair it takes part in; the text depends on
      the article alone, so it is built once per article here. */
  method FindDuplicates(articles: seq<Fields>, cosine: (string, string) -> Option<real>, threshold: real)
    returns (duplicates: seq<DuplicatePair>)
    ensures duplicates == DuplicatePairs(articles, cosine, threshold)
    ensures forall p :: p in duplicates <==> IsDuplicate(ScoreOf(articles, cosine), threshold, |articles|, p)
    ensures LexOrdered(duplicates)
  {
    var texts := CompareTexts(articles);
    duplicates := TextDuplicates(texts, cosine, threshold);
    DuplicatePairsCharacterised(articles, cosine, threshold);
  }

  // ---------------------------------------------------------------------
  // Removal and survivors

  /** `articles_to_remove` after the loop over the pairs: every second index. */
  function RemovedIndices(duplicates: seq<DuplicatePair>): set<nat> {
    if duplicates == [] then {}
    else RemovedIndices(duplicates[..|duplicates| - 1]) + {duplicates[|duplicates| - 1].j}
  }

  lemma {:induction false} RemovedIndicesMembers(duplicates: seq<DuplicatePair>)
    ensures forall x :: x in RemovedIndices(duplicates) <==> exists p :: p in duplicates && p.j == x
    ensures |RemovedIndices(duplicates)| <= |duplicates|
  {
    if duplicates != [] {
      var prefix := duplicates[..|duplicates| - 1];
      RemovedIndicesMembers(prefix);
      assert duplicates == prefix + [duplicates[|duplicates| - 1]];
    }
  }

  /** The comprehension keeping the articles whose index is not removed. */
  function Survivors(articles: seq<Fields>, removed: set<nat>): seq<Fields> {
    if articles == [] then []
    else
      var last := |articles| - 1;
      Survivors(articles[..last], removed) + (if last in removed then [] else [articles[last]])
  }

  /** The indices below `n` that are not removed, in increasing order. */
  function KeptIndices(n: nat, removed: set<nat>): seq<nat> {
    if n == 0 then []
    else KeptIndices(n - 1, removed) + (if n - 1 in removed then [] else [n - 1])
  }

  function RemovedBelow(removed: set<nat>, n: nat): set<nat> {
    set x | x in removed && x < n
  }

  lemma {:induction false} KeptIndicesFacts(n: nat, removed: set<nat>)
    ensures forall x: nat :: x in KeptIndices(n, removed) <==> x < n && x !in removed
    ensures forall a, b :: 0 <= a < b < |KeptIndices(n, removed)| ==> KeptIndices(n, removed)[a] < KeptIndices(n, removed)[b]
    ensures |KeptIndices(n, removed)| + |RemovedBelow(removed, n)| == n
  {
    if n > 0 {
      KeptIndicesFacts(n - 1, removed);
      var prev := KeptIndices(n - 1, removed);
      var kept := KeptIndices(n, removed);
      if n - 1 in removed {
        assert kept == prev;
        forall x: nat ensures x in kept <==> x < n && x !in removed {
          assert x in kept <==> x in prev;
        }
        assert RemovedBelow(removed, n) == RemovedBelow(removed, n - 1) + {n - 1};
      } else {
        assert kept == prev + [n - 1];
        forall x: nat ensures x in kept <==> x < n && x !in removed {
          assert x in kept <==> x in prev || x == n - 1;
        }
        assert RemovedBelow(removed, n) == RemovedBelow(removed, n - 1);
        forall a, b | 0 <= a < b < |kept| ensures kept[a] < kept[b] {
          if b == |prev| {
            assert kept[a] in prev;
          }
        }
      }
    }
  }

  lemma {:induction false} SurvivorsAreKept(articles: seq<Fields>, removed: set<nat>)
    ensures |Survivors(articles, removed)| == |KeptIndices(|articles|, removed)|
    ensures forall k :: 0 <= k < |Survivors(articles, removed)| ==>
      KeptIndices(|articles|, removed)[k] < |articles| &&
      Survivors(articles, removed)[k] == articles[KeptIndices(|articles|, removed)[k]]
  {
    if articles != [] {
      var last := |articles| - 1;
      SurvivorsAreKept(articles[..last], removed);
      assert |articles[..last]| == last;
    }
  }

  /** The survivors are the articles at the non-removed indices, in their
      original relative order, and there are `n - |removed below n|` of them. */
  lemma SurvivorsCharacterised(articles: seq<Fields>, removed: set<nat>)
    ensures var kept := KeptIndices(|articles|, removed);
      && |Survivors(articles, removed)| == |kept| == |articles| - |RemovedBelow(removed, |articles|)|
      && (forall x: nat :: x in kept <==> x < |articles| && x !in removed)
      && (forall a, b :: 0 <= a < b < |kept| ==> kept[a] < kept[b])
      && (forall k :: 0 <= k < |kept| ==> kept[k] < |articles| && Survivors(articles, removed)[k] == articles[kept[k]])
  {
    KeptIndicesFacts(|articles|, removed);
    SurvivorsAreKept(articles, removed);
  }

  /** The deduplication rule: an article is dropped exactly when some earlier
      article scores at or above the threshold against it. This is what makes
      a chain of mutually similar articles collapse onto its first member. */
  lemma RemovedIffEarlierDuplicate(articles: seq<Fields>, cosine: (string, string) -> Option<real>, threshold: real, j: nat)
    requires j < |articles|
    ensures j in RemovedIndices(DuplicatePairs(articles, cosine, threshold)) <==>
      exists i :: 0 <= i < j && PairScore(articles, cosine, i, j) >= threshold
  {
    var dups := DuplicatePairs(articles, cosine, threshold);
    DuplicatePairsCharacterised(articles, cosine, threshold);
    RemovedIndicesMembers(dups);
    if j in RemovedIndices(dups) {
      var p :| p in dups && p.j == j;
      ScoreOfPair(articles, cosine, p.i, j);
      assert 0 <= p.i < j && PairScore(articles, cosine, p.i, j) >= threshold;
    }
    if exists i :: 0 <= i < j && PairScore(articles, cosine, i, j) >= threshold {
      var i :| 0 <= i < j && PairScore(articles, cosine, i, j) >= threshold;
      ScoreOfPair(articles, cosine, i, j);
      assert IsDuplicate(ScoreOf(articles, cosine), threshold, |articles|, DuplicatePair(i, j, PairScore(articles, cosine, i, j)));
    }
  }

  /** Index 0 is never the second member of a pair, so the first article
      always survives. */
  lemma FirstArticleSurvives(articles: seq<Fields>, cosine: (string, string) -> Option<real>, threshold: real)
    requires |articles| > 0
    ensures var survivors := Survivors(articles, RemovedIndices(DuplicatePairs(articles, cosine, threshold)));
      |survivors| > 0 && survivors[0] == articles[0]
  {
    var removed := RemovedIndices(DuplicatePairs(articles, cosine, threshold));
    RemovedIffEarlierDuplicate(articles, cosine, threshold, 0);
    SurvivorsCharacterised(articles, removed);
    var kept := KeptIndices(|articles|, removed);
    assert 0 in kept;
    assert kept[0] == 0;
  }

  /** Three articles that all score at or above the threshold against the
      first collapse to the first alone, whatever the score between the
      second and the third. */
  lemma ChainKeepsOnlyFirst(articles: seq<Fields>, cosine: (string, string) -> Option<real>, threshold: real)
    requires |articles| == 3
    requires PairScore(articles, cosine, 0, 1) >= threshold
    requires PairScore(articles, cosine, 0, 2) >= threshold
    ensures Survivors(articles, RemovedIndices(DuplicatePairs(articles, cosine, threshold))) == [articles[0]]
  {
    var removed := RemovedIndices(DuplicatePairs(articles, cosine, threshold));
    RemovedIffEarlierDuplicate(articles, cosine, threshold, 0);
    RemovedIffEarlierDuplicate(articles, cosine, threshold, 1);
    RemovedIffEarlierDuplicate(articles, cosine, threshold, 2);
    assert articles[..2][..1][..0] == [];
    assert Survivors(articles[..2][..1], removed) == [articles[0]];
  }

  // ---------------------------------------------------------------------
  // Loading and tagging the two sources

  /** An article after `article["source_file"] = ...` and
      `article["source_name"] = ...`. */
  function Tagged(article: Fields, fileTag: string, sourceName: string): Fields {
    article["source_file" := Str(fileTag)]["source_name" := Str(sourceName)]
  }

  /** The tagging loop over a list, stopping at the first element that is not
      a dict with the `TypeError` that the assignment raises. */
  function TagAll(items: seq<Value>, fileTag: string, sourceName: string): Outcome<seq<Fields>> {
    if items == [] then Ok([])
    else if !items[0].Dict? then Err(ItemAssignmentError(items[0]))
    else
      match TagAll(items[1..], fileTag, sourceName)
      case Ok(rest) => Ok([Tagged(items[0].fields, fileTag, sourceName)] + rest)
      case Err(e) => Err(e)
  }

  /** `for article in articles: article[...] = ...` for whatever value the
      file holds under "news_articles". Iterating a string or a dict yields
      strings, which refuse item assignment; other non-lists are not
      iterable. */
  function TagSource(articles: Value, fileTag: string, sourceName: string): Outcome<seq<Fields>> {
    match articles
    case List(items) => TagAll(items, fileTag, sourceName)
    case Str(s) => if s == "" then Ok([]) else Err(ItemAssignmentError(Str([s[0]])))
    case Dict(m) => if m == map[] then Ok([]) else Err(ItemAssignmentError(Str("")))
    case _ => Err(NotIterableError(articles))
  }

  lemma {:induction false} TagAllFacts(items: seq<Value>, fileTag: string, sourceName: string)
    ensures TagAll(items, fileTag, sourceName).Ok? <==> forall k :: 0 <= k < |items| ==> items[k].Dict?
    ensures TagAll(items, fileTag, sourceName).Ok? ==>
      var tagged := TagAll(items, fileTag, sourceName).value;
      |tagged| == |items| &&
      forall k :: 0 <= k < |items| ==> tagged[k] == Tagged(items[k].fields, fileTag, sourceName)
  {
    if items != [] {
      TagAllFacts(items[1..], fileTag, sourceName);
      if items[0].Dict? && TagAll(items[1..], fileTag, sourceName).Ok? {
        assert forall k :: 1 <= k < |items| ==> items[k] == items[1..][k - 1];
      }
    }
  }

  lemma {:induction false} TagAllStopsAt(items: seq<Value>, fileTag: string, sourceName: string, i: nat)
    requires i < |items| && !items[i].Dict?
    requires forall k :: 0 <= k < i ==> items[k].Dict?
    ensures TagAll(items, fileTag, sourceName) == Err(ItemAssignmentError(items[i]))
  {
    if i > 0 {
      TagAllStopsAt(items[1..], fileTag, sourceName, i - 1);
    }
  }

  /** The loop of `merge_news_sources` that tags each article of one source
      with its `source_file` and `source_name`. */
  method TagArticles(articles: Value, fileTag: string, sourceName: string) returns (r: Outcome<seq<Fields>>)
    ensures r == TagSource(articles, fileTag, sourceName)
  {
    if !articles.List? {
      return TagSource(articles, fileTag, sourceName);
    }
    var items := articles.items;
    var tagged: seq<Fields> := [];
    var i := 0;
    while i < |items|
      invariant 0 <= i <= |items|
      invariant forall k :: 0 <= k < i ==> items[k].Dict?
      invariant |tagged| == i
      invariant forall k :: 0 <= k < i ==> tagged[k] == Tagged(items[k].fields, fileTag, sourceName)
    {
      if !items[i].Dict? {
        TagAllStopsAt(items, fileTag, sourceName, i);
        return Err(ItemAssignmentError(items[i]));
      }
      tagged := tagged + [Tagged(items[i].fields, fileTag, sourceName)];
      i := i + 1;
    }
    TagAllFacts(items, fileTag, sourceName);
    assert tagged == TagAll(items, fileTag, sourceName).value;
    r := Ok(tagged);
  }

  /** The loop over `duplicates` that fills `articles_to_remove`. */
  method CollectRemoved(duplicates: seq<DuplicatePair>) returns (removed: set<nat>)
    ensures removed == RemovedIndices(duplicates)
    ensures forall x :: x in removed <==> exists p :: p in duplicates && p.j == x
  {
    removed := {};
    var k := 0;
    while k < |duplicates|
      invariant 0 <= k <= |duplicates|
      invariant removed == RemovedIndices(duplicates[..k])
    {
      assert duplicates[..k + 1][..k] == duplicates[..k];
      removed := removed + {duplicates[k].j};
      k := k + 1;
    }
    assert duplicates[..k] == duplicates;
    RemovedIndicesMembers(duplicates);
  }

  // ---------------------------------------------------------------------
  // merge_news_sources

  /** The articles one source contributes: `None` when the source is skipped
      because its data is missing, empty or has no "news_articles" key, and
      the tagged list otherwise; an error is the text of the `TypeError`
      that tagging raised. */
  function SourceArticles(data: Option<Fields>, fileTag: string, sourceName: string): Outcome<Option<seq<Fields>>> {
    if data.None? || data.value == map[] || "news_articles" !in data.value then Ok(None)
    else
      match TagSource(data.value["news_articles"], fileTag, sourceName)
      case Ok(tagged) => Ok(Some(tagged))
      case Err(e) => Err(e)
  }

  /** The articles of a loaded source, or none for a skipped one. */
  function Loaded(source: Option<seq<Fields>>): seq<Fields> {
    if source.Some? then source.value else []
  }

  /** `sources_loaded` entry for a source: its tag when it was loaded. */
  function LoadedTag(source: Option<seq<Fields>>, fileTag: string): seq<string> {
    if source.Some? then [fileTag] else []
  }

  /** `os.path.join(data_dir, f"merged_news_{s}sources_{n}articles.json")` */
  function MergedFilePath(sourceCount: nat, articleCount: nat): string {
    DataDir + "/merged_news_" + IntToString(sourceCount) + "sources_" + IntToString(articleCount) + "articles.json"
  }

  /** The deduplicated merge of a non-empty article list. */
  function Deduplicated(all: seq<Fields>, sources: seq<string>, cosine: (string, string) -> Option<real>): MergedNews {
    var duplicates := DuplicatePairs(all, cosine, SimilarityThreshold);
    var unique := Survivors(all, RemovedIndices(duplicates));
    MergedNews(unique, sources, DedupStats(|all|, |duplicates|, |unique|, SimilarityThreshold), MergedFilePath(|sources|, |unique|))
  }

  /** The outcome of `merge_news_sources`. `dailystarFile` and
      `prothomaloFile` are the contents of the latest file of each source as
      `load_news_data` returns them (an empty dict when the file cannot be
      read), or `None` when no file of that source exists. A Prothom Alo file
      is only looked for once a Daily Star file has been found. */
  function Merge(dailystarFile: Option<Fields>, prothomaloFile: Option<Fields>, cosine: (string, string) -> Option<real>): Outcome<MergedNews> {
    if dailystarFile.None? then Err("No news files found")
    else
      match SourceArticles(dailystarFile, "dailystar", "Daily Star Bangladesh")
      case Err(e) => Err("Error merging news: " + e)
      case Ok(ds) =>
        match SourceArticles(prothomaloFile, "prothomalo", "Prothom Alo")
        case Err(e) => Err("Error merging news: " + e)
        case Ok(pa) =>
          var all := Loaded(ds) + Loaded(pa);
          if all == [] then Err("No articles found")
          else Ok(Deduplicated(all, LoadedTag(ds, "dailystar") + LoadedTag(pa, "prothomalo"), cosine))
  }

  /** One "Load ... news" block of `merge_news_sources`: skip the source
      unless its data has "news_articles", otherwise tag every article. */
  method LoadSource(data: Option<Fields>, fileTag: string, sourceName: string) returns (r: Outcome<Option<seq<Fields>>>)
    ensures r == SourceArticles(data, fileTag, sourceName)
  {
    if data.None? {
      return Ok(None);
    }
    var d := data.value;
    if d != map[] && "news_articles" in d {
      var tagged := TagArticles(d["news_articles"], fileTag, sourceName);
      if tagged.Err? {
        return Err(tagged.error);
      }
      return Ok(Some(tagged.value));
    }
    return Ok(None);
  }

  /** The deduplication part of `merge_news_sources` for a non-empty list. */
  method Deduplicate(allArticles: seq<Fields>, sourcesLoaded: seq<string>, cosine: (string, string) -> Option<real>)
    returns (merged: MergedNews)
    ensures merged == Deduplicated(allArticles, sourcesLoaded, cosine)
  {
    var duplicates := FindDuplicates(allArticles, cosine, SimilarityThreshold);
    var articlesToRemove := CollectRemoved(duplicates);
    var uniqueArticles := Survivors(allArticles, articlesToRemove);
    merged := MergedNews(
      uniqueArticles,
      sourcesLoaded,
      DedupStats(|allArticles|, |duplicates|, |uniqueArticles|, SimilarityThreshold),
      MergedFilePath(|sourcesLoaded|, |uniqueArticles|));
  }

  /** `merge_news_sources`: load and tag both sources in order, then
      deduplicate. */
  method MergeNewsSources(dailystarFile: Option<Fields>, prothomaloFile: Option<Fields>, cosine: (string, string) -> Option<real>)
    returns (r: Outcome<MergedNews>)
    ensures r == Merge(dailystarFile, prothomaloFile, cosine)
  {
    var prothomalo := prothomaloFile;
    if dailystarFile.None? {
      prothomalo := None;
    }
    if dailystarFile.None? && prothomalo.None? {
      return Err("No news files found");
    }
    var allArticles: seq<Fields> := [];
    var sourcesLoaded: seq<string> := [];
    var dailystar := LoadSource(dailystarFile, "dailystar", "Daily Star Bangladesh");
    if dailystar.Err? {
      return Err("Error merging news: " + dailystar.error);
    }
    if dailystar.value.Some? {
      allArticles := allArticles + dailystar.value.value;
      sourcesLoaded := sourcesLoaded + ["dailystar"];
    }
    var prothomaloArticles := LoadSource(prothomalo, "prothomalo", "Prothom Alo");
    if prothomaloArticles.Err? {
      return Err("Error merging news: " + prothomaloArticles.error);
    }
    if prothomaloArticles.value.Some? {
      allArticles := allArticles + prothomaloArticles.value.value;
      sourcesLoaded := sourcesLoaded + ["prothomalo"];
    }
    assert allArticles == Loaded(dailystar.value) + Loaded(prothomaloArticles.value);
    assert sourcesLoaded == LoadedTag(dailystar.value, "dailystar") + LoadedTag(prothomaloArticles.value, "prothomalo");
    if allArticles == [] {
      return Err("No articles found");
    }
    var merged := Deduplicate(allArticles, sourcesLoaded, cosine);
    r := Ok(merged);
  }

  // ---------------------------------------------------------------------
  // Properties of the merge

  /** The tagged articles of a list whose elements are all dicts. */
  function TaggedList(items: seq<Value>, fileTag: string, sourceName: string): (tagged: seq<Fields>)
    requires forall k :: 0 <= k < |items| ==> items[k].Dict?
    ensures |tagged| == |items|
  {
    seq(|items|, k requires 0 <= k < |items| => Tagged(items[k].fields, fileTag, sourceName))
  }

  /** Every article of a successfully tagged source carries that source's
      `source_file` and `source_name`. */
  lemma TagSourceTags(articles: Value, fileTag: string, sourceName: string)
    requires TagSource(articles, fileTag, sourceName).Ok?
    ensures forall a :: a in TagSource(articles, fileTag, sourceName).value ==>
      Get(a, "source_file", Null) == Str(fileTag) && Get(a, "source_name", Null) == Str(sourceName)
  {
    if articles.List? {
      TagAllFacts(articles.items, fileTag, sourceName);
    }
  }

  /** The merge fails with "No news files found" exactly when no Daily Star
      file exists, whatever Prothom Alo files there are; with "No articles
      found" exactly when both sources load without error and contribute no
      article; and otherwise, when no tagging error occurs, it succeeds. */
  lemma MergeOutcomes(dailystarFile: Option<Fields>, prothomaloFile: Option<Fields>, cosine: (string, string) -> Option<real>)
    ensures Merge(dailystarFile, prothomaloFile, cosine) == Err("No news files found") <==> dailystarFile.None?
    ensures dailystarFile.Some? ==>
      var ds := SourceArticles(dailystarFile, "dailystar", "Daily Star Bangladesh");
      var pa := SourceArticles(prothomaloFile, "prothomalo", "Prothom Alo");
      (ds.Err? ==> Merge(dailystarFile, prothomaloFile, cosine) == Err("Error merging news: " + ds.error)) &&
      (ds.Ok? && pa.Err? ==> Merge(dailystarFile, prothomaloFile, cosine) == Err("Error merging news: " + pa.error)) &&
      (ds.Ok? && pa.Ok? ==>
        (Merge(dailystarFile, prothomaloFile, cosine) == Err("No articles found") <==> Loaded(ds.value) + Loaded(pa.value) == []) &&
        (Merge(dailystarFile, prothomaloFile, cosine).Ok? <==> Loaded(ds.value) + Loaded(pa.value) != []))
  {
    if dailystarFile.Some? {
      var ds := SourceArticles(dailystarFile, "dailystar", "Daily Star Bangladesh");
      if ds.Err? {
        assert "Error merging news: " + ds.error != "No news files found" by {
          assert ("Error merging news: " + ds.error)[0] == 'E';
        }
      } else {
        var pa := SourceArticles(prothomaloFile, "prothomalo", "Prothom Alo");
        if pa.Err? {
          assert "Error merging news: " + pa.error != "No news files found" by {
            assert ("Error merging news: " + pa.error)[0] == 'E';
          }
        }
      }
    }
  }

  /** When both files hold a list of article dicts under "news_articles", the
      merged list is every Daily Star article, in file order and tagged as
      Daily Star, followed by every Prothom Alo article, tagged as Prothom
      Alo, and both sources are reported as loaded (even one whose list is
      empty). */
  lemma BothSourcesMerged(d: Fields, p: Fields, xs: seq<Value>, ys: seq<Value>, cosine: (string, string) -> Option<real>)
    requires "news_articles" in d && d["news_articles"] == List(xs)
    requires "news_articles" in p && p["news_articles"] == List(ys)
    requires forall k :: 0 <= k < |xs| ==> xs[k].Dict?
    requires forall k :: 0 <= k < |ys| ==> ys[k].Dict?
    requires |xs| + |ys| > 0
    ensures Merge(Some(d), Some(p), cosine) ==
      Ok(Deduplicated(
        TaggedList(xs, "dailystar", "Daily Star Bangladesh") + TaggedList(ys, "prothomalo", "Prothom Alo"),
        ["dailystar", "prothomalo"],
        cosine))
  {
    TagAllFacts(xs, "dailystar", "Daily Star Bangladesh");
    TagAllFacts(ys, "prothomalo", "Prothom Alo");
    assert TagAll(xs, "dailystar", "Daily Star Bangladesh").value == TaggedList(xs, "dailystar", "Daily Star Bangladesh");
    assert TagAll(ys, "prothomalo", "Prothom Alo").value == TaggedList(ys, "prothomalo", "Prothom Alo");
    assert d != map[] && p != map[];
    assert SourceArticles(Some(d), "dailystar", "Daily Star Bangladesh") == Ok(Some(TaggedList(xs, "dailystar", "Daily Star Bangladesh")));
    assert SourceArticles(Some(p), "prothomalo", "Prothom Alo") == Ok(Some(TaggedList(ys, "prothomalo", "Prothom Alo")));
    assert ["dailystar"] + ["prothomalo"] == ["dailystar", "prothomalo"];
  }

  /** The statistics of a deduplicated list: the final count is the original
      count less the number of distinct removed indices, the reported number
      of duplicate pairs is at least the number of removed articles, the
      first article survives, and every survivor is one of the merged
      articles. */
  lemma DeduplicatedFacts(all: seq<Fields>, sources: seq<string>, cosine: (string, string) -> Option<real>)
    requires all != []
    ensures var m := Deduplicated(all, sources, cosine);
      var removed := RemovedIndices(DuplicatePairs(all, cosine, SimilarityThreshold));
      && m.stats.originalCount == |all|
      && m.stats.finalCount == |m.newsArticles| == |all| - |removed|
      && m.stats.originalCount - m.stats.finalCount <= m.stats.duplicatesFound
      && m.stats.similarityThreshold == 0.85
      && 1 <= |m.newsArticles| && m.newsArticles[0] == all[0]
      && (forall a :: a in m.newsArticles ==> a in all)
      && m.savedFile == MergedFilePath(|sources|, m.stats.finalCount)
  {
    var duplicates := DuplicatePairs(all, cosine, SimilarityThreshold);
    var removed := RemovedIndices(duplicates);
    DuplicatePairsCharacterised(all, cosine, SimilarityThreshold);
    RemovedIndicesMembers(duplicates);
    assert RemovedBelow(removed, |all|) == removed;
    SurvivorsCharacterised(all, removed);
    FirstArticleSurvives(all, cosine, SimilarityThreshold);
    var unique := Survivors(all, removed);
    forall a | a in unique ensures a in all {
      var k :| 0 <= k < |unique| && unique[k] == a;
    }
  }

  /** Every article of a successful merge is tagged as coming from Daily Star
      or from Prothom Alo, with the matching source name. */
  lemma MergedArticlesTagged(dailystarFile: Option<Fields>, prothomaloFile: Option<Fields>, cosine: (string, string) -> Option<real>)
    requires Merge(dailystarFile, prothomaloFile, cosine).Ok?
    ensures forall a :: a in Merge(dailystarFile, prothomaloFile, cosine).value.newsArticles ==>
      (Get(a, "source_file", Null) == Str("dailystar") && Get(a, "source_name", Null) == Str("Daily Star Bangladesh")) ||
      (Get(a, "source_file", Null) == Str("prothomalo") && Get(a, "source_name", Null) == Str("Prothom Alo"))
  {
    var ds := SourceArticles(dailystarFile, "dailystar", "Daily Star Bangladesh");
    var pa := SourceArticles(prothomaloFile, "prothomalo", "Prothom Alo");
    if ds.value.Some? {
      TagSourceTags(dailystarFile.value["news_articles"], "dailystar", "Daily Star Bangladesh");
    }
    if pa.value.Some? {
      TagSourceTags(prothomaloFile.value["news_articles"], "prothomalo", "Prothom Alo");
    }
    var all := Loaded(ds.value) + Loaded(pa.value);
    DeduplicatedFacts(all, LoadedTag(ds.value, "dailystar") + LoadedTag(pa.value, "prothomalo"), cosine);
  }
}
