/** `app/utils/preprocessing.py`: splitting scraped markdown into chunks of
    whole lines, recovering the JSON text of a model reply that may be
    wrapped in a code fence, filling in defaults on the extracted articles,
    and attaching embeddings to them by position. */
module Preprocessing {

  import opened Wrappers
  import opened Text
  import opened PyValue
  import opened Services

  /** The `chunk_size` that `preprocess_data` passes to the splitter. */
  const ChunkSize: int := 3000

  // ---------------------------------------------------------------------
  // split_markdown_into_chunks

  /** The text a run of lines accumulates in `current_chunk`: each line
      followed by a newline. */
  function LinesText(group: seq<string>): string {
    if group == [] then "" else LinesText(group[..|group| - 1]) + group[|group| - 1] + "\n"
  }

  lemma LinesTextAppend(group: seq<string>, line: string)
    ensures LinesText(group + [line]) == LinesText(group) + line + "\n"
  {
    assert (group + [line])[..|group|] == group;
  }

  lemma {:induction false} LinesTextEmpty(group: seq<string>)
    ensures |LinesText(group)| >= |group|
    ensures LinesText(group) == "" <==> group == []
  {
    if group != [] {
      LinesTextEmpty(group[..|group| - 1]);
    }
  }

  /** The runs of lines the splitter has closed, and the run it is still
      accumulating. */
  datatype Grouping = Grouping(closed: seq<seq<string>>, open: seq<string>)

  /** The greedy grouping of `lines`: a line starts a new run when the open
      run is non-empty and adding the line and its newline would take it past
      `size`; otherwise it joins the open run. */
  function Group(lines: seq<string>, size: int): Grouping {
    if lines == [] then Grouping([], [])
    else Step(Group(lines[..|lines| - 1], size), lines[|lines| - 1], size)
  }

  /** One iteration of the splitter's loop. */
  function Step(g: Grouping, line: string, size: int): Grouping {
    if |LinesText(g.open)| + |line| + 1 > size && g.open != [] then Grouping(g.closed + [g.open], [line])
    else Grouping(g.closed, g.open + [line])
  }

  /** Each closed run, stripped, as it is appended to `chunks`. */
  function StrippedRuns(runs: seq<seq<string>>): (chunks: seq<string>)
    ensures |chunks| == |runs|
  {
    seq(|runs|, k requires 0 <= k < |runs| => Strip(LinesText(runs[k])))
  }

  /** What `split_markdown_into_chunks(markdown, size)` returns: the content
      itself when it fits, otherwise the stripped closed runs of its lines,
      then the stripped open run unless that is blank. */
  function Chunks(markdown: string, size: int): seq<string> {
    if |markdown| <= size then [markdown]
    else
      var g := Group(Split(markdown, '\n'), size);
      var last := Strip(LinesText(g.open));
      StrippedRuns(g.closed) + (if last != "" then [last] else [])
  }

  /** The runs concatenated back, in order. */
  function Flatten(runs: seq<seq<string>>): seq<string> {
    if runs == [] then [] else Flatten(runs[..|runs| - 1]) + runs[|runs| - 1]
  }

  lemma FlattenAppend(runs: seq<seq<string>>, run: seq<string>)
    ensures Flatten(runs + [run]) == Flatten(runs) + run
  {
    assert (runs + [run])[..|runs|] == runs;
  }

  /** Lines are never split, dropped or reordered: the closed runs followed by
      the open run are exactly the lines. */
  lemma {:induction false} GroupPartitions(lines: seq<string>, size: int)
    ensures Flatten(Group(lines, size).closed) + Group(lines, size).open == lines
  {
    if lines != [] {
      var prefix := lines[..|lines| - 1];
      var line := lines[|lines| - 1];
      GroupPartitions(prefix, size);
      var g := Group(prefix, size);
      var h := Step(g, line, size);
      assert Group(lines, size) == h;
      if |LinesText(g.open)| + |line| + 1 > size && g.open != [] {
        FlattenAppend(g.closed, g.open);
        assert Flatten(h.closed) + h.open == (Flatten(g.closed) + g.open) + [line];
      } else {
        assert Flatten(h.closed) + h.open == (Flatten(g.closed) + g.open) + [line];
      }
      assert lines == prefix + [line];
    }
  }

  /** A run fits in `size` characters, or holds one line that does not. */
  predicate Fits(run: seq<string>, size: int) {
    |LinesText(run)| <= size || |run| == 1
  }

  /** Every closed run is non-empty; the open run is non-empty once there is
      a line; and every run fits or is a single line. */
  lemma {:induction false} GroupShape(lines: seq<string>, size: int)
    ensures var g := Group(lines, size);
      && (forall k :: 0 <= k < |g.closed| ==> g.closed[k] != [] && Fits(g.closed[k], size))
      && (lines != [] ==> g.open != [])
      && (lines == [] ==> g.closed == [] && g.open == [])
      && (g.open == [] || Fits(g.open, size))
  {
    if lines != [] {
      var prefix := lines[..|lines| - 1];
      var line := lines[|lines| - 1];
      GroupShape(prefix, size);
      var g := Group(prefix, size);
      LinesTextAppend(g.open, line);
      LinesTextAppend([], line);
      if !(|LinesText(g.open)| + |line| + 1 > size && g.open != []) && g.open == [] {
        assert g.open + [line] == [line];
      }
    }
  }

  /** The run after closed run `k`: the next closed run, or the open one. */
  function NextRun(g: Grouping, k: nat): seq<string>
    requires k < |g.closed|
  {
    if k + 1 < |g.closed| then g.closed[k + 1] else g.open
  }

  /** The grouping is greedy: every run was closed only because the first
      line of the next run would not fit after it. */
  lemma {:induction false} GroupGreedy(lines: seq<string>, size: int)
    ensures var g := Group(lines, size);
      forall k :: 0 <= k < |g.closed| ==>
        NextRun(g, k) != [] && |LinesText(g.closed[k])| + |NextRun(g, k)[0]| + 1 > size
  {
    if lines != [] {
      var prefix := lines[..|lines| - 1];
      var line := lines[|lines| - 1];
      GroupGreedy(prefix, size);
      GroupShape(prefix, size);
      var g := Group(prefix, size);
      var h := Group(lines, size);
      forall k | 0 <= k < |h.closed|
        ensures NextRun(h, k) != [] && |LinesText(h.closed[k])| + |NextRun(h, k)[0]| + 1 > size
      {
        if |LinesText(g.open)| + |line| + 1 > size && g.open != [] {
          if k < |g.closed| {
            assert NextRun(h, k) == NextRun(g, k);
          }
        } else {
          assert NextRun(h, k)[0] == NextRun(g, k)[0];
        }
      }
    }
  }

  lemma StrippedRunsAppend(runs: seq<seq<string>>, run: seq<string>)
    ensures StrippedRuns(runs + [run]) == StrippedRuns(runs) + [Strip(LinesText(run))]
  {
  }

  /** What one iteration does to the text the loop holds: `current_chunk`
      is `LinesText` of the open run and `chunks` the stripped closed runs. */
  lemma StepTexts(g: Grouping, line: string, size: int)
    ensures var current := LinesText(g.open);
      var h := Step(g, line, size);
      if |current| + |line| + 1 > size && current != "" then
        && StrippedRuns(h.closed) == StrippedRuns(g.closed) + [Strip(current)]
        && LinesText(h.open) == line + "\n"
      else
        && h.closed == g.closed
        && LinesText(h.open) == current + line + "\n"
  {
    LinesTextEmpty(g.open);
    LinesTextAppend(g.open, line);
    LinesTextAppend([], line);
    StrippedRunsAppend(g.closed, g.open);
  }

  /** `split_markdown_into_chunks` */
  method SplitMarkdownIntoChunks(markdown: string, chunkSize: int) returns (chunks: seq<string>)
    ensures chunks == Chunks(markdown, chunkSize)
  {
    if |markdown| <= chunkSize {
      return [markdown];
    }
    chunks := [];
    var current := "";
    var lines := Split(markdown, '\n');
    var i := 0;
    while i < |lines|
      invariant 0 <= i <= |lines|
      invariant current == LinesText(Group(lines[..i], chunkSize).open)
      invariant chunks == StrippedRuns(Group(lines[..i], chunkSize).closed)
    {
      var line := lines[i];
      assert lines[..i + 1][..i] == lines[..i] && lines[..i + 1][i] == line;
      StepTexts(Group(lines[..i], chunkSize), line, chunkSize);
      if |current| + |line| + 1 > chunkSize && current != "" {
        chunks := chunks + [Strip(current)];
        current := line + "\n";
      } else {
        current := current + line + "\n";
      }
      i := i + 1;
    }
    assert lines[..i] == lines;
    if Strip(current) != "" {
      chunks := chunks + [Strip(current)];
    }
  }

  /** Read back in order and joined with newlines, the runs are the markdown:
      no line is split, dropped or moved. */
  lemma ChunkRunsCoverMarkdown(markdown: string, size: int)
    ensures var g := Group(Split(markdown, '\n'), size);
      Join(Flatten(g.closed) + g.open, '\n') == markdown
  {
    GroupPartitions(Split(markdown, '\n'), size);
    JoinSplit(markdown, '\n');
  }

  /** Stripping the text of a run that fits keeps it within `size`; the text
      of a single line, stripped, holds no newline. */
  lemma StrippedRunBound(run: seq<string>, size: int)
    requires Fits(run, size)
    requires forall k :: 0 <= k < |run| ==> '\n' !in run[k]
    ensures |Strip(LinesText(run))| <= size || '\n' !in Strip(LinesText(run))
  {
    var text := LinesText(run);
    StripCharsFacts(text, Whitespace);
    if |text| > size {
      var line := run[0];
      assert run == [] + [line];
      LinesTextAppend([], line);
      assert text == line + "\n";
      var r := Strip(text);
      var a := |text| - |LStripChars(text, Whitespace)|;
      if r != [] {
        assert r[|r| - 1] == text[a + |r| - 1];
        assert a + |r| <= |line|;
        forall c | c in r ensures c in line {
          var k :| 0 <= k < |r| && r[k] == c;
          assert line[a + k] == c;
        }
      }
    }
  }

  /** Every chunk is at most `size` characters long unless it comes from one
      line longer than that (and so holds no newline), and every chunk of
      split content is already stripped. */
  lemma ChunksBounded(markdown: string, size: int)
    ensures forall k :: 0 <= k < |Chunks(markdown, size)| ==>
      |markdown| > size ==> Strip(Chunks(markdown, size)[k]) == Chunks(markdown, size)[k]
    ensures forall k :: 0 <= k < |Chunks(markdown, size)| ==>
      |Chunks(markdown, size)[k]| <= size || '\n' !in Chunks(markdown, size)[k]
  {
    if |markdown| > size {
      var lines := Split(markdown, '\n');
      var g := Group(lines, size);
      GroupShape(lines, size);
      GroupPartitions(lines, size);
      var chunks := Chunks(markdown, size);
      forall k | 0 <= k < |chunks|
        ensures Strip(chunks[k]) == chunks[k]
        ensures |chunks[k]| <= size || '\n' !in chunks[k]
      {
        var run := if k < |g.closed| then g.closed[k] else g.open;
        assert chunks[k] == Strip(LinesText(run));
        StripIdempotent(LinesText(run));
        RunLinesFromSplit(g.closed, g.open, lines, k);
        StrippedRunBound(run, size);
      }
    }
  }

  /** A run of the grouping holds lines of the split, so none of its lines
      holds a newline. */
  lemma RunLinesFromSplit(closed: seq<seq<string>>, open: seq<string>, lines: seq<string>, k: nat)
    requires Flatten(closed) + open == lines
    requires forall j :: 0 <= j < |lines| ==> '\n' !in lines[j]
    ensures k < |closed| ==> forall j :: 0 <= j < |closed[k]| ==> '\n' !in closed[k][j]
    ensures forall j :: 0 <= j < |open| ==> '\n' !in open[j]
  {
    forall j | 0 <= j < |open| ensures '\n' !in open[j] {
      assert open[j] == lines[|Flatten(closed)| + j];
    }
    if k < |closed| {
      FlattenHolds(closed, k);
      forall j | 0 <= j < |closed[k]| ensures '\n' !in closed[k][j] {
        assert closed[k][j] in Flatten(closed);
        var m :| 0 <= m < |Flatten(closed)| && Flatten(closed)[m] == closed[k][j];
        assert lines[m] == closed[k][j];
      }
    }
  }

  /** Every line of every run appears in the flattened runs. */
  lemma {:induction false} FlattenHolds(runs: seq<seq<string>>, k: nat)
    requires k < |runs|
    ensures forall j :: 0 <= j < |runs[k]| ==> runs[k][j] in Flatten(runs)
  {
    var last := |runs| - 1;
    var prefix := runs[..last];
    assert Flatten(runs) == Flatten(prefix) + runs[last];
    if k < last {
      FlattenHolds(prefix, k);
      assert runs[k] == prefix[k];
    } else {
      forall j | 0 <= j < |runs[k]| ensures runs[k][j] in Flatten(runs) {
        assert Flatten(runs)[|Flatten(prefix)| + j] == runs[k][j];
      }
    }
  }

  /** Content longer than the chunk size that is one blank line yields no
      chunk at all, the case `preprocess_data` reports as having no chunks. */
  lemma BlankLineHasNoChunks(markdown: string, size: int)
    requires |markdown| > size
    requires forall k :: 0 <= k < |markdown| ==> markdown[k] in Whitespace && markdown[k] != '\n'
    ensures Chunks(markdown, size) == []
  {
    assert Join([markdown], '\n') == markdown;
    SplitJoin([markdown], '\n');
    SingleLineGroup(markdown, size);
    var text := markdown + "\n";
    assert forall i :: 0 <= i < |text| ==> text[i] in Whitespace;
    BlankIffAllWhitespace(text);
  }

  /** One line makes one open run. */
  lemma SingleLineGroup(line: string, size: int)
    ensures Group([line], size) == Grouping([], [line])
    ensures LinesText([line]) == line + "\n"
  {
    assert [line][..0] == [];
    assert [] + [line] == [line];
    LinesTextAppend([], line);
  }

  // ---------------------------------------------------------------------
  // Recovering the JSON text of a reply

  /** A markdown code fence. */
  const Fence: string := "```"

  /** The opening fence of a block tagged as JSON. */
  const JsonFence: string := "```json"

  /** The text `preprocess_data` hands to `json.loads`: when the reply, left
      stripped, opens with a fence, the stripped text between a `json`-tagged
      opening fence and the next fence (or the end); without the tag, the
      stripped reply with every leading and trailing backtick removed;
      otherwise the reply as it is. */
  function JsonText(response: string): string {
    if StartsWith(LStrip(response), Fence) then
      var tag := Find(response, JsonFence, 0);
      if tag != -1 then
        var start := tag + |JsonFence|;
        var close := Find(response, Fence, start);
        var end := if close == -1 then |response| else close;
        Strip(response[start..end])
      else StripChars(Strip(response), {'`'})
    else response
  }

  /** A reply that, left stripped, does not open with a fence is parsed as
      it is, whatever whitespace or backticks it holds. */
  lemma PlainReplyUnchanged(response: string)
    requires !StartsWith(LStrip(response), Fence)
    ensures JsonText(response) == response
  {
  }

  /** A reply without backticks is never altered. */
  lemma BacktickFreeReplyUnchanged(response: string)
    requires '`' !in response
    ensures JsonText(response) == response
  {
    LStripCharsFacts(response, Whitespace);
  }

  /** Leading whitespace is dropped and the reply then opens with `tail`
      when `tail` starts with a backtick. */
  lemma LStripOpening(w: string, tail: string)
    requires forall i :: 0 <= i < |w| ==> w[i] in Whitespace
    requires tail != [] && tail[0] == '`'
    ensures LStrip(w + tail) == tail
  {
    LStripCharsPrefix(w, tail, Whitespace);
  }

  /** The `json` tag found first is the one after the leading whitespace. */
  lemma TagAfterWhitespace(w: string, tail: string)
    requires forall i :: 0 <= i < |w| ==> w[i] in Whitespace
    requires StartsWith(tail, JsonFence)
    ensures Find(w + tail, JsonFence, 0) == |w|
  {
    var r := w + tail;
    assert OccursAt(r, JsonFence, |w|) by { assert r[|w|..|w| + 7] == tail[..7]; }
    forall k: nat | k < |w| ensures !OccursAt(r, JsonFence, k) {
      if k + 7 <= |r| {
        assert r[k..k + 7][0] == r[k] == w[k];
      }
    }
  }

  /** The first fence at or after `start` is at `close` when no backtick
      comes between them. */
  lemma FirstFenceAt(r: string, start: nat, close: nat)
    requires start <= close && OccursAt(r, Fence, close)
    requires forall k :: start <= k < close ==> r[k] != '`'
    ensures Find(r, Fence, start) == close
  {
    forall k: nat | start <= k < close ensures !OccursAt(r, Fence, k) {
      assert r[k..k + 3][0] == r[k];
    }
  }

  /** No fence at or after `start` when no backtick follows it. */
  lemma NoFenceAfter(r: string, start: nat)
    requires forall k :: start <= k < |r| ==> r[k] != '`'
    ensures Find(r, Fence, start) == -1
  {
    forall k: nat | start <= k ensures !OccursAt(r, Fence, k) {
      if k + 3 <= |r| {
        assert r[k..k + 3][0] == r[k];
      }
    }
  }

  /** A block fenced with a `json` tag yields its stripped content, whatever
      whitespace precedes the fence and whatever follows the closing one. */
  lemma TaggedFenceUnwrapped(w: string, body: string, rest: string)
    requires forall i :: 0 <= i < |w| ==> w[i] in Whitespace
    requires '`' !in body
    ensures JsonText(w + JsonFence + body + Fence + rest) == Strip(body)
  {
    var tail := JsonFence + body + Fence + rest;
    var head := w + JsonFence + body;
    var r := head + (Fence + rest);
    assert w + JsonFence + body + Fence + rest == r == w + tail;
    LStripOpening(w, tail);
    assert tail[..3] == Fence;
    TagAfterWhitespace(w, tail);
    var start := |w| + 7;
    var close := |head|;
    assert r[start..close] == head[start..] == body;
    assert OccursAt(r, Fence, close) by { assert r[close..close + 3] == Fence; }
    forall k | start <= k < close ensures r[k] != '`' {
      assert r[k] == body[k - start];
    }
    FirstFenceAt(r, start, close);
  }

  /** A `json`-tagged block whose closing fence is missing yields the
      stripped rest of the reply. */
  lemma UnclosedFenceUnwrapped(w: string, body: string)
    requires forall i :: 0 <= i < |w| ==> w[i] in Whitespace
    requires '`' !in body
    ensures JsonText(w + JsonFence + body) == Strip(body)
  {
    var tail := JsonFence + body;
    var r := w + tail;
    assert r == w + JsonFence + body;
    LStripOpening(w, tail);
    assert tail[..3] == Fence;
    TagAfterWhitespace(w, tail);
    var start := |w| + 7;
    assert r[start..|r|] == body;
    forall k | start <= k < |r| ensures r[k] != '`' {
      assert r[k] == body[k - start];
    }
    NoFenceAfter(r, start);
  }

  /** A block fenced without a tag yields its content unchanged, provided the
      content holds no backtick and is not itself tagged. */
  lemma BareFenceUnwrapped(body: string)
    requires '`' !in body
    requires !StartsWith(body, "json")
    ensures JsonText(Fence + body + Fence) == body
  {
    var r := Fence + body + Fence;
    assert r[0] == '`' && r[|r| - 1] == '`';
    assert LStrip(r) == r;
    assert r[..3] == Fence;
    forall k: nat ensures !OccursAt(r, JsonFence, k) {
      if k + 7 <= |r| {
        var m: nat;
        if k == 0 {
          if |body| < 4 {
            m := 3 + |body|;
            assert r[m] == '`';
          } else {
            assert body[..4] != "json";
            var d :| 0 <= d < 4 && body[d] != "json"[d];
            m := 3 + d;
            assert r[m] == body[d];
          }
        } else if k <= 2 {
          m := 3 - k;
          assert r[3] == body[0] && body[0] != '`';
        } else {
          m := 0;
          assert r[k] == body[k - 3] && body[k - 3] != '`';
        }
        assert r[k..k + 7][m] != JsonFence[m];
      }
    }
    assert Find(r, JsonFence, 0) == -1;
    StripUnchanged(r, Whitespace);
    StripCharsSurrounded(Fence, body, Fence, {'`'});
  }

  // ---------------------------------------------------------------------
  // Defaults on the extracted articles

  /** The keys every article leaves the chunk loop with. */
  const FilledKeys: set<string> := {"chunk_source", "url", "title", "summary", "category"}

  /** The label of chunk `i` (0-based). */
  function ChunkLabel(i: nat): string {
    "chunk_" + NatToString(i + 1)
  }

  /** Whether the article takes the page's URL as its `source_url`: its own
      `url` is missing or falsy and the page's is truthy. */
  predicate TakesPageUrl(article: Fields, originalUrl: Value) {
    !Truthy(Get(article, "url", Null)) && Truthy(originalUrl)
  }

  /** An article dict from chunk `i` after `preprocess_data` fills it in. */
  function WithDefaults(article: Fields, i: nat, originalUrl: Value): Fields {
    var tagged := article["chunk_source" := Str(ChunkLabel(i))];
    var withUrl := if "url" !in tagged || tagged["url"] == Null then tagged["url" := Null] else tagged;
    var withSource := if !Truthy(withUrl["url"]) && Truthy(originalUrl) then withUrl["source_url" := originalUrl] else withUrl;
    var withTitle := if "title" !in withSource then withSource["title" := Str("Untitled Article")] else withSource;
    var withSummary := if "summary" !in withTitle then withTitle["summary" := Str("No summary available")] else withTitle;
    if "category" !in withSummary then withSummary["category" := Str("general")] else withSummary
  }

  /** Filling in adds the filled keys, and `source_url` exactly when the
      article takes the page's URL. */
  lemma WithDefaultsKeys(article: Fields, i: nat, originalUrl: Value)
    ensures WithDefaults(article, i, originalUrl).Keys
      == article.Keys + FilledKeys + (if TakesPageUrl(article, originalUrl) then {"source_url"} else {})
  {
  }

  /** The filled-in article carries the chunk label, keeps its own `url`
      (null when missing), takes the page's URL only when it has none of its
      own, and keeps its title, summary and category or gains the defaults. */
  lemma WithDefaultsFacts(article: Fields, i: nat, originalUrl: Value)
    ensures var d := WithDefaults(article, i, originalUrl);
      && FilledKeys <= d.Keys
      && d["chunk_source"] == Str(ChunkLabel(i))
      && d["url"] == Get(article, "url", Null)
      && d["title"] == Get(article, "title", Str("Untitled Article"))
      && d["summary"] == Get(article, "summary", Str("No summary available"))
      && d["category"] == Get(article, "category", Str("general"))
      && (TakesPageUrl(article, originalUrl) ==> d["source_url"] == originalUrl)
  {
  }

  /** Filling in leaves every other field of the article as it was. */
  lemma WithDefaultsKeepsOthers(article: Fields, i: nat, originalUrl: Value)
    ensures var d := WithDefaults(article, i, originalUrl);
      forall k :: k in article && k !in FilledKeys && !(k == "source_url" && TakesPageUrl(article, originalUrl)) ==> d[k] == article[k]
  {
  }

  /** The articles of chunk `i` filled in, or `None` when an element is not
      a dict: assigning to it raises, and the chunk counts as failed. */
  function DefaultedArticles(items: seq<Value>, i: nat, originalUrl: Value): Option<seq<Fields>> {
    if items == [] then Some([])
    else match DefaultedArticles(items[..|items| - 1], i, originalUrl)
      case None => None
      case Some(done) =>
        var item := items[|items| - 1];
        if item.Dict? then Some(done + [WithDefaults(item.fields, i, originalUrl)]) else None
  }

  /** The chunk's articles are filled in exactly when every element is a
      dict, and then element by element. */
  lemma {:induction false} DefaultedArticlesFacts(items: seq<Value>, i: nat, originalUrl: Value)
    ensures DefaultedArticles(items, i, originalUrl).Some? <==> forall k :: 0 <= k < |items| ==> items[k].Dict?
    ensures DefaultedArticles(items, i, originalUrl).Some? ==>
      var done := DefaultedArticles(items, i, originalUrl).value;
      |done| == |items| && forall k :: 0 <= k < |items| ==> done[k] == WithDefaults(items[k].fields, i, originalUrl)
  {
    if items != [] {
      var prefix := items[..|items| - 1];
      DefaultedArticlesFacts(prefix, i, originalUrl);
      assert forall k :: 0 <= k < |prefix| ==> prefix[k] == items[k];
    }
  }

  /** The loop over one chunk's `news_articles`. */
  method ApplyDefaults(items: seq<Value>, i: nat, originalUrl: Value) returns (r: Option<seq<Fields>>)
    ensures r == DefaultedArticles(items, i, originalUrl)
  {
    var done: seq<Fields> := [];
    var k := 0;
    while k < |items|
      invariant 0 <= k <= |items|
      invariant DefaultedArticles(items[..k], i, originalUrl) == Some(done)
    {
      assert items[..k + 1][..k] == items[..k];
      var item := items[k];
      if !item.Dict? {
        DefaultedArticlesNone(items, k, i, originalUrl);
        return None;
      }
      done := done + [WithDefaults(item.fields, i, originalUrl)];
      k := k + 1;
    }
    assert items[..k] == items;
    r := Some(done);
  }

  /** An element that is not a dict makes the whole chunk fail. */
  lemma DefaultedArticlesNone(items: seq<Value>, k: nat, i: nat, originalUrl: Value)
    requires k < |items| && !items[k].Dict?
    ensures DefaultedArticles(items, i, originalUrl) == None
  {
    DefaultedArticlesFacts(items, i, originalUrl);
  }

  // ---------------------------------------------------------------------
  // The chunk loop of preprocess_data

  /** What the loop carries from chunk to chunk: `all_articles`,
      `processed_chunks` and `model_used`. */
  datatype Progress = Progress(articles: seq<Fields>, processed: nat, model: Option<string>)

  /** The articles chunk `i` contributes when its reply is `response`, or
      `None` when the reply does not decode, is not a dict, its
      `news_articles` cannot be iterated, or one of them is not a dict. */
  function ChunkArticles(response: string, i: nat, originalUrl: Value, parseJson: string -> Outcome<Value>): Option<seq<Fields>> {
    match parseJson(JsonText(response))
    case Err(_) => None
    case Ok(data) =>
      if !data.Dict? then None
      else match Elements(Get(data.fields, "news_articles", List([])))
        case None => None
        case Some(items) => DefaultedArticles(items, i, originalUrl)
  }

  /** One iteration: a failed call changes nothing; a successful one records
      its model before parsing, and adds the chunk's articles and counts the
      chunk only when they are recovered. */
  function ChunkStep(acc: Progress, reply: Outcome<ChatReply>, i: nat, originalUrl: Value, parseJson: string -> Outcome<Value>): Progress {
    match reply
    case Err(_) => acc
    case Ok(r) =>
      match ChunkArticles(r.response, i, originalUrl, parseJson)
      case None => acc.(model := Some(r.model))
      case Some(found) => Progress(acc.articles + found, acc.processed + 1, Some(r.model))
  }

  /** The loop state after the first `n` of `count` chunks to process. */
  function RunChunks(chunks: seq<string>, n: nat, count: nat, originalUrl: Value, p: Providers): Progress
    requires n <= |chunks|
  {
    if n == 0 then Progress([], 0, None)
    else ChunkStep(RunChunks(chunks, n - 1, count, originalUrl, p), p.extractChunk(chunks[n - 1], n - 1, count), n - 1, originalUrl, p.parseJson)
  }

  /** The article holds every filled key and the label of one of the first
      `n` chunks. */
  predicate FilledBefore(a: Fields, n: nat) {
    FilledKeys <= a.Keys && exists i: nat :: i < n && a["chunk_source"] == Str(ChunkLabel(i))
  }

  /** Every article a chunk contributes holds the filled keys and that
      chunk's label. */
  lemma ChunkArticlesFilled(response: string, i: nat, originalUrl: Value, parseJson: string -> Outcome<Value>)
    ensures var found := ChunkArticles(response, i, originalUrl, parseJson);
      found.Some? ==> forall a :: a in found.value ==> FilledBefore(a, i + 1)
  {
    var found := ChunkArticles(response, i, originalUrl, parseJson);
    if found.Some? {
      var data := parseJson(JsonText(response)).value;
      var items := Elements(Get(data.fields, "news_articles", List([]))).value;
      DefaultedArticlesFacts(items, i, originalUrl);
      forall a | a in found.value ensures FilledBefore(a, i + 1) {
        var k :| 0 <= k < |found.value| && found.value[k] == a;
        WithDefaultsFacts(items[k].fields, i, originalUrl);
      }
    }
  }

  /** At most one chunk is counted per iteration, and every collected article
      carries all the filled keys and the label of a chunk already visited. */
  lemma {:induction false} RunChunksFacts(chunks: seq<string>, n: nat, count: nat, originalUrl: Value, p: Providers)
    requires n <= |chunks|
    ensures var run := RunChunks(chunks, n, count, originalUrl, p);
      && run.processed <= n
      && (run.processed == 0 ==> run.articles == [])
      && forall a :: a in run.articles ==> FilledBefore(a, n)
  {
    if n > 0 {
      var i := n - 1;
      RunChunksFacts(chunks, i, count, originalUrl, p);
      var before := RunChunks(chunks, i, count, originalUrl, p);
      forall a | a in before.articles ensures FilledBefore(a, n) {
        var j: nat :| j < i && a["chunk_source"] == Str(ChunkLabel(j));
      }
      var reply := p.extractChunk(chunks[i], i, count);
      if reply.Ok? {
        ChunkArticlesFilled(reply.value.response, i, originalUrl, p.parseJson);
      }
    }
  }

  /** The body of the `try` that decodes one chunk's reply and fills in its
      articles. */
  method ExtractArticles(response: string, i: nat, originalUrl: Value, parseJson: string -> Outcome<Value>) returns (found: Option<seq<Fields>>)
    ensures found == ChunkArticles(response, i, originalUrl, parseJson)
  {
    found := None;
    var decoded := parseJson(JsonText(response));
    if decoded.Ok? && decoded.value.Dict? {
      var items := Elements(Get(decoded.value.fields, "news_articles", List([])));
      if items.Some? {
        found := ApplyDefaults(items.value, i, originalUrl);
      }
    }
  }

  /** The `for i in range(chunks_to_process)` loop. */
  method ProcessChunks(chunks: seq<string>, count: nat, originalUrl: Value, p: Providers) returns (articles: seq<Fields>, processed: nat, model: Option<string>)
    requires count <= |chunks|
    ensures Progress(articles, processed, model) == RunChunks(chunks, count, count, originalUrl, p)
  {
    articles, processed, model := [], 0, None;
    var i := 0;
    while i < count
      invariant 0 <= i <= count
      invariant Progress(articles, processed, model) == RunChunks(chunks, i, count, originalUrl, p)
    {
      var reply := p.extractChunk(chunks[i], i, count);
      if reply.Ok? {
        model := Some(reply.value.model);
        var found := ExtractArticles(reply.value.response, i, originalUrl, p.parseJson);
        if found.Some? {
          articles := articles + found.value;
          processed := processed + 1;
        }
      }
      i := i + 1;
    }
  }

  // ---------------------------------------------------------------------
  // generate_embeddings_for_articles

  /** The name recorded with every embedding. */
  const EmbeddingModel: string := "mistral-embed"

  /** The texts sent for embedding, one per article: its title and summary,
      already stripped. */
  function EmbeddingTexts(articles: seq<Fields>): (texts: seq<Value>)
    ensures |texts| == |articles|
    ensures forall k :: 0 <= k < |articles| ==> texts[k] == Str(TitleSummaryText(articles[k]))
    ensures forall k :: 0 <= k < |articles| ==> texts[k].Str? && Strip(texts[k].s) == texts[k].s
  {
    var texts := seq(|articles|, k requires 0 <= k < |articles| => Str(TitleSummaryText(articles[k])));
    forall k | 0 <= k < |articles| ensures Strip(texts[k].s) == texts[k].s {
      StripIdempotent(Render(Get(articles[k], "title", Str(""))) + " " + Render(Get(articles[k], "summary", Str(""))));
    }
    texts
  }

  /** The vector for article `i`, when the call succeeded and returned one. */
  function VectorAt(result: Outcome<seq<seq<real>>>, i: nat): Option<seq<real>> {
    if result.Ok? && i < |result.value| then Some(result.value[i]) else None
  }

  /** An article with its embedding fields set: the vector and the model
      name, or `None` for both. */
  function Embedded(article: Fields, vector: Option<seq<real>>): Fields {
    match vector
    case Some(v) => article["embedding" := FloatList(v)]["embedding_model" := Str(EmbeddingModel)]
    case None => article["embedding" := Null]["embedding_model" := Null]
  }

  /** Every article with the vector at its own position, if any. */
  function Attached(articles: seq<Fields>, result: Outcome<seq<seq<real>>>): seq<Fields> {
    seq(|articles|, k requires 0 <= k < |articles| => Embedded(articles[k], VectorAt(result, k)))
  }

  /** The articles after `generate_embeddings_for_articles`. */
  function WithEmbeddings(articles: seq<Fields>, embed: seq<Value> -> Outcome<seq<seq<real>>>): seq<Fields> {
    if articles == [] then [] else Attached(articles, embed(EmbeddingTexts(articles)))
  }

  /** Embedding attaches by position: article `k` keeps every other field and
      gets vector `k` with the model name when the call succeeded and
      returned that many vectors, and `None` for both otherwise; when the
      call fails, every article gets `None`. */
  lemma WithEmbeddingsFacts(articles: seq<Fields>, embed: seq<Value> -> Outcome<seq<seq<real>>>)
    ensures var r := WithEmbeddings(articles, embed);
      && |r| == |articles|
      && forall k :: 0 <= k < |r| ==>
        var result := embed(EmbeddingTexts(articles));
        && r[k].Keys == articles[k].Keys + {"embedding", "embedding_model"}
        && (forall key :: key in articles[k] && key != "embedding" && key != "embedding_model" ==> r[k][key] == articles[k][key])
        && (result.Ok? && k < |result.value| ==> r[k]["embedding"] == FloatList(result.value[k]) && r[k]["embedding_model"] == Str(EmbeddingModel))
        && (result.Err? || k >= |result.value| ==> r[k]["embedding"] == Null && r[k]["embedding_model"] == Null)
  {
  }

  /** The loop that gathers `texts_for_embedding`. */
  method CollectEmbeddingTexts(articles: seq<Fields>) returns (texts: seq<Value>)
    ensures texts == EmbeddingTexts(articles)
  {
    texts := [];
    var k := 0;
    while k < |articles|
      invariant 0 <= k <= |articles|
      invariant |texts| == k
      invariant forall j :: 0 <= j < k ==> texts[j] == Str(TitleSummaryText(articles[j]))
    {
      texts := texts + [Str(TitleSummaryText(articles[k]))];
      k := k + 1;
    }
  }

  /** `generate_embeddings_for_articles` */
  method GenerateEmbeddingsForArticles(articles: seq<Fields>, embed: seq<Value> -> Outcome<seq<seq<real>>>) returns (r: seq<Fields>)
    ensures r == WithEmbeddings(articles, embed)
  {
    if articles == [] {
      return articles;
    }
    var texts := CollectEmbeddingTexts(articles);
    var result := embed(texts);
    r := [];
    var k := 0;
    while k < |articles|
      invariant 0 <= k <= |articles|
      invariant r == Attached(articles, result)[..k]
    {
      var article := articles[k];
      if result.Ok? && k < |result.value| {
        article := article["embedding" := FloatList(result.value[k])]["embedding_model" := Str(EmbeddingModel)];
      } else {
        article := article["embedding" := Null]["embedding_model" := Null];
      }
      assert article == Embedded(articles[k], VectorAt(result, k));
      r := r + [article];
      k := k + 1;
    }
    assert r == Attached(articles, result);
  }

  // ---------------------------------------------------------------------
  // preprocess_data

  /** The model name reported when no chunk call returned one. */
  const DefaultModel: string := "mistral-large-latest"

  /** The result of a successful `preprocess_data`: the structured articles
      and the counts it reports. */
  datatype Preprocessed = Preprocessed(
    articles: seq<Fields>,
    chunksProcessed: nat,
    totalChunks: nat,
    chunkSize: int,
    maxChunksRequested: int,
    totalContentLength: nat,
    originalUrl: Value,
    modelUsed: string)

  /** The scraped data as a dict: itself when it is one, otherwise its
      `str()` under `content`. */
  function ScrapedFields(data: Value): Fields {
    if data.Dict? then data.fields else map["content" := Str(Render(data))]
  }

  /** `min(max_chunks, len(chunks))` */
  function ChunksToProcess(maxChunks: int, available: nat): int {
    if maxChunks < available then maxChunks else available
  }

  /** The error `preprocess_data` returns for an exception it catches. */
  function PreprocessingError(e: string): string {
    "Preprocessing error: " + e
  }

  /** The chunks of the markdown content. A string is split by
      `split_markdown_into_chunks`; a list or dict with no more than
      `chunk_size` elements is returned whole as the one chunk, which the
      prompt renders with `str()`; a longer one raises `AttributeError` on
      `split`. */
  function MarkdownChunks(markdown: Value): Outcome<seq<string>>
    requires Length(markdown).Ok?
  {
    if markdown.Str? then Ok(Chunks(markdown.s, ChunkSize))
    else if Length(markdown).value <= ChunkSize then Ok([Render(markdown)])
    else Err(PreprocessingError("'" + TypeName(markdown) + "' object has no attribute 'split'"))
  }

  /** What `preprocess_data(data, max_chunks)` returns. */
  function Preprocess(data: Value, maxChunks: int, p: Providers): Outcome<Preprocessed> {
    var fields := ScrapedFields(data);
    var markdown := Get(fields, "markdown", Str(""));
    var originalUrl := Get(fields, "url", Str(""));
    if !Truthy(markdown) then Err("No markdown content found in scraped data")
    else match Length(markdown)
      case Err(e) => Err(PreprocessingError(e))
      case Ok(size) =>
        match MarkdownChunks(markdown)
        case Err(e) => Err(e)
        case Ok(chunks) =>
          var count := ChunksToProcess(maxChunks, |chunks|);
          if count == 0 then Err("No chunks available to process")
          else
            var n := if count < 0 then 0 else count;
            if n > 0 && markdown.Dict? then Err(PreprocessingError(SlicePrefix(markdown, 300).error))
            else
              var run := RunChunks(chunks, n, n, originalUrl, p);
              var model := if run.model.Some? && run.model.value != "" then run.model.value else DefaultModel;
              Ok(Preprocessed(WithEmbeddings(run.articles, p.embed), run.processed, |chunks|, ChunkSize,
                              maxChunks, size, originalUrl, model))
  }

  /** `preprocess_data` reports missing or falsy markdown, markdown without
      a length, a list or dict too long to be one chunk, no chunk to process,
      and the slicing of a dict chunk, each with its own error. */
  lemma PreprocessRefusals(data: Value, maxChunks: int, p: Providers)
    ensures var markdown := Get(ScrapedFields(data), "markdown", Str(""));
      var r := Preprocess(data, maxChunks, p);
      && (!Truthy(markdown) <==> r == Err("No markdown content found in scraped data"))
      && (Truthy(markdown) && !markdown.Str? && !markdown.List? && !markdown.Dict? ==>
           r == Err(PreprocessingError("object of type '" + TypeName(markdown) + "' has no len()")))
      && (Truthy(markdown) && markdown.Str? ==>
           (r == Err("No chunks available to process")
            <==> ChunksToProcess(maxChunks, |Chunks(markdown.s, ChunkSize)|) == 0))
      && ((markdown.List? && |markdown.items| > ChunkSize) || (markdown.Dict? && |markdown.fields| > ChunkSize) ==>
           r == Err(PreprocessingError("'" + TypeName(markdown) + "' object has no attribute 'split'")))
      && (Truthy(markdown) && ((markdown.List? && |markdown.items| <= ChunkSize) || (markdown.Dict? && |markdown.fields| <= ChunkSize)) ==>
           (r == Err("No chunks available to process") <==> maxChunks == 0))
      && (Truthy(markdown) && markdown.Dict? && |markdown.fields| <= ChunkSize && maxChunks > 0 ==>
           r == Err(PreprocessingError("unhashable type: 'slice'")))
  {
  }

  /** A string, a list, or a dict that no iteration slices, is what
      `preprocess_data` can succeed on. It then processes no more than
      `min(max_chunks, len(chunks))` chunks, reports `len(markdown)`, one
      chunk for a list or dict, and a model name, and returns articles that
      all carry the filled keys, a chunk label and the embedding fields. */
  lemma PreprocessSuccess(data: Value, maxChunks: int, p: Providers)
    requires Preprocess(data, maxChunks, p).Ok?
    ensures var markdown := Get(ScrapedFields(data), "markdown", Str(""));
      var r := Preprocess(data, maxChunks, p).value;
      && (markdown.Str? || markdown.List? || (markdown.Dict? && maxChunks < 0))
      && r.totalContentLength == (if markdown.Str? then |markdown.s| else if markdown.List? then |markdown.items| else |markdown.fields|)
      && (!markdown.Str? ==> r.totalChunks == 1)
      && r.chunksProcessed <= r.totalChunks
      && r.chunksProcessed <= (if maxChunks < 0 then 0 else maxChunks)
      && r.modelUsed != ""
      && r.chunkSize == 3000
      && forall a :: a in r.articles ==> FilledKeys + {"embedding", "embedding_model"} <= a.Keys
  {
    var fields := ScrapedFields(data);
    var markdown := Get(fields, "markdown", Str(""));
    var chunks := MarkdownChunks(markdown).value;
    var count := ChunksToProcess(maxChunks, |chunks|);
    var n := if count < 0 then 0 else count;
    var originalUrl := Get(fields, "url", Str(""));
    var run := RunChunks(chunks, n, n, originalUrl, p);
    RunChunksFacts(chunks, n, n, originalUrl, p);
    WithEmbeddingsFacts(run.articles, p.embed);
    var out := WithEmbeddings(run.articles, p.embed);
    forall a | a in out ensures FilledKeys + {"embedding", "embedding_model"} <= a.Keys {
      var k :| 0 <= k < |out| && out[k] == a;
      assert run.articles[k] in run.articles;
    }
  }

  /** `preprocess_data` */
  method PreprocessData(data: Value, maxChunks: int, p: Providers) returns (r: Outcome<Preprocessed>)
    ensures r == Preprocess(data, maxChunks, p)
  {
    var fields := ScrapedFields(data);
    var markdown := Get(fields, "markdown", Str(""));
    var originalUrl := Get(fields, "url", Str(""));
    if !Truthy(markdown) {
      return Err("No markdown content found in scraped data");
    }
    var size := Length(markdown);
    if size.Err? {
      return Err(PreprocessingError(size.error));
    }
    var chunks: seq<string>;
    if markdown.Str? {
      chunks := SplitMarkdownIntoChunks(markdown.s, ChunkSize);
    } else if size.value <= ChunkSize {
      chunks := [Render(markdown)];
    } else {
      return Err(PreprocessingError("'" + TypeName(markdown) + "' object has no attribute 'split'"));
    }
    var count := ChunksToProcess(maxChunks, |chunks|);
    if count == 0 {
      return Err("No chunks available to process");
    }
    var n := if count < 0 then 0 else count;
    if n > 0 && markdown.Dict? {
      return Err(PreprocessingError(SlicePrefix(markdown, 300).error));
    }
    var articles, processed, model := ProcessChunks(chunks, n, originalUrl, p);
    var embedded := GenerateEmbeddingsForArticles(articles, p.embed);
    var modelUsed := if model.Some? && model.value != "" then model.value else DefaultModel;
    r := Ok(Preprocessed(embedded, processed, |chunks|, ChunkSize, maxChunks, size.value, originalUrl, modelUsed));
  }
}
