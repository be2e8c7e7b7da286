/** `SupabaseService`: maps detailed articles to rows of the articles table,
    coercing loosely typed fields, and sends the valid rows to the table
    client. The client itself is a parameter: the insert and upsert calls are
    functions from the rows to the response data or an error text. */
module Supabase {

  import opened Wrappers
  import opened Text
  import opened PyValue

  /** `int(os.getenv("EMBEDDING_DIM", "1536"))` when the variable is unset. */
  const DefaultEmbeddingDim: int := 1536

  // ---------------------------------------------------------------------
  // _coerce_keywords

  /** `[p.strip() for p in parts if p.strip()]` */
  function KeptParts(parts: seq<string>): seq<string> {
    if parts == [] then []
    else (if Strip(parts[0]) != "" then [Strip(parts[0])] else []) + KeptParts(parts[1..])
  }

  /** `_coerce_keywords`: `None` stays absent; a list becomes the `str()` of
      each element; a string is split on commas, each piece trimmed and the
      blank ones dropped, absent when nothing is left; anything else is
      absent. */
  function CoerceKeywords(value: Value): (r: Option<seq<string>>)
    ensures value.Null? ==> r.None?
    ensures value.List? ==> r.Some? && |r.value| == |value.items|
    ensures value.List? ==> forall k :: 0 <= k < |value.items| ==> r.value[k] == Render(value.items[k])
    ensures r.Some? && value.Str? ==> r.value != []
    ensures !value.Null? && !value.List? && !value.Str? ==> r.None?
  {
    match value
    case Null => None
    case List(items) => Some(seq(|items|, k requires 0 <= k < |items| => Render(items[k])))
    case Str(s) =>
      var parts := KeptParts(Split(s, ','));
      if parts == [] then None else Some(parts)
    case _ => None
  }

  /** The positions, counted from `base`, of the pieces that are not blank
      once trimmed: the pieces the keyword comprehension keeps. */
  function NonBlankIndices(parts: seq<string>, base: nat): seq<nat> {
    if parts == [] then []
    else (if Strip(parts[0]) != "" then [base] else []) + NonBlankIndices(parts[1..], base + 1)
  }

  /** The non-blank positions are exactly the positions, counted from
      `base`, of pieces that are not blank once trimmed. */
  lemma {:induction false} NonBlankIndicesMembers(parts: seq<string>, base: nat)
    ensures forall x: nat :: x in NonBlankIndices(parts, base) <==> base <= x < base + |parts| && Strip(parts[x - base]) != ""
  {
    if parts != [] {
      NonBlankIndicesMembers(parts[1..], base + 1);
      forall x: nat ensures x in NonBlankIndices(parts, base) <==> base <= x < base + |parts| && Strip(parts[x - base]) != "" {
        if base < x < base + |parts| {
          assert parts[x - base] == parts[1..][x - (base + 1)];
        }
      }
    }
  }

  /** The non-blank positions increase strictly. */
  lemma {:induction false} NonBlankIndicesIncreasing(parts: seq<string>, base: nat)
    ensures forall x :: x in NonBlankIndices(parts, base) ==> base <= x
    ensures forall a, b :: 0 <= a < b < |NonBlankIndices(parts, base)| ==> NonBlankIndices(parts, base)[a] < NonBlankIndices(parts, base)[b]
  {
    if parts != [] {
      NonBlankIndicesIncreasing(parts[1..], base + 1);
      var idx := NonBlankIndices(parts, base);
      var rest := NonBlankIndices(parts[1..], base + 1);
      if Strip(parts[0]) != "" {
        assert idx == [base] + rest;
        forall a, b | 0 <= a < b < |idx| ensures idx[a] < idx[b] {
          assert idx[b] == rest[b - 1] && rest[b - 1] in rest;
        }
      } else {
        assert idx == rest;
      }
    }
  }

  /** Keyword `m` of `kept` is the trimmed piece at position `idx[m]`,
      counted from `base`. */
  predicate PiecesAt(parts: seq<string>, base: nat, idx: seq<nat>, kept: seq<string>) {
    |kept| == |idx| &&
    forall m :: 0 <= m < |idx| ==> base <= idx[m] < base + |parts| && kept[m] == Strip(parts[idx[m] - base])
  }

  /** One more piece in front: the positions and the kept parts grow
      together when it is kept, and stay as they are when it is dropped. */
  lemma PiecesAtCons(parts: seq<string>, base: nat, idx: seq<nat>, kept: seq<string>)
    requires parts != []
    requires PiecesAt(parts[1..], base + 1, idx, kept)
    ensures Strip(parts[0]) != "" ==> PiecesAt(parts, base, [base] + idx, [Strip(parts[0])] + kept)
    ensures PiecesAt(parts, base, idx, kept)
  {
    forall m | 0 <= m < |idx| ensures parts[idx[m] - base] == parts[1..][idx[m] - (base + 1)] {
    }
    if Strip(parts[0]) != "" {
      var idx' := [base] + idx;
      var kept' := [Strip(parts[0])] + kept;
      forall m | 0 < m < |idx'| ensures base <= idx'[m] < base + |parts| && kept'[m] == Strip(parts[idx'[m] - base]) {
        assert idx'[m] == idx[m - 1] && kept'[m] == kept[m - 1];
      }
    }
  }

  /** The kept parts are the trimmed pieces at the non-blank positions, in
      order: keyword `m` is the trimmed piece at the `m`-th such position. */
  lemma {:induction false} KeptPartsAt(parts: seq<string>, base: nat)
    ensures PiecesAt(parts, base, NonBlankIndices(parts, base), KeptParts(parts))
  {
    if parts != [] {
      KeptPartsAt(parts[1..], base + 1);
      PiecesAtCons(parts, base, NonBlankIndices(parts[1..], base + 1), KeptParts(parts[1..]));
      if Strip(parts[0]) != "" {
        assert KeptParts(parts) == [Strip(parts[0])] + KeptParts(parts[1..]);
        assert NonBlankIndices(parts, base) == [base] + NonBlankIndices(parts[1..], base + 1);
      } else {
        assert KeptParts(parts) == KeptParts(parts[1..]);
        assert NonBlankIndices(parts, base) == NonBlankIndices(parts[1..], base + 1);
      }
    }
  }

  /** Nothing is kept exactly when every piece is blank once trimmed. */
  lemma {:induction false} KeptPartsEmpty(parts: seq<string>)
    ensures KeptParts(parts) == [] <==> forall k :: 0 <= k < |parts| ==> Strip(parts[k]) == ""
  {
    if parts != [] {
      KeptPartsEmpty(parts[1..]);
      assert forall k :: 1 <= k < |parts| ==> parts[k] == parts[1..][k - 1];
    }
  }

  /** A string's keywords, given its comma-split `pieces`, are absent exactly
      when every piece is blank once trimmed. */
  lemma KeywordsNoneIffBlank(s: string, pieces: seq<string>)
    requires pieces == Split(s, ',')
    ensures CoerceKeywords(Str(s)).None? <==> forall k :: 0 <= k < |pieces| ==> Strip(pieces[k]) == ""
  {
    assert CoerceKeywords(Str(s)).None? <==> KeptParts(pieces) == [];
    KeptPartsEmpty(pieces);
  }

  /** Otherwise they are the trimmed non-blank pieces in their original
      order: keyword `m` is the trimmed piece at the `m`-th non-blank
      position, and every non-blank piece has such a position. */
  lemma KeywordsOfPieces(s: string, pieces: seq<string>)
    requires pieces == Split(s, ',')
    requires CoerceKeywords(Str(s)).Some?
    ensures var idx := NonBlankIndices(pieces, 0);
      && |CoerceKeywords(Str(s)).value| == |idx|
      && (forall x: nat :: x in idx <==> x < |pieces| && Strip(pieces[x]) != "")
      && (forall a, b :: 0 <= a < b < |idx| ==> idx[a] < idx[b])
      && (forall m :: 0 <= m < |idx| ==> idx[m] < |pieces| && CoerceKeywords(Str(s)).value[m] == Strip(pieces[idx[m]]))
  {
    assert CoerceKeywords(Str(s)).value == KeptParts(pieces);
    NonBlankIndicesMembers(pieces, 0);
    NonBlankIndicesIncreasing(pieces, 0);
    KeptPartsAt(pieces, 0);
  }

  lemma SpacedListPieces()
    ensures Split(" a , b,,", ',') == [" a ", " b", "", ""]
  {
    assert ","[1..] == "";
    assert Split(",", ',') == ["", ""];
    assert ",,"[1..] == ",";
    assert Split(",,", ',') == ["", "", ""];
    assert "b,,"[1..] == ",,";
    assert ['b'] + "" == "b";
    assert Split("b,,", ',') == ["b", "", ""];
    assert " b,,"[1..] == "b,,";
    assert [' '] + "b" == " b";
    assert Split(" b,,", ',') == [" b", "", ""];
    assert ", b,,"[1..] == " b,,";
    assert Split(", b,,", ',') == ["", " b", "", ""];
    assert " , b,,"[1..] == ", b,,";
    assert [' '] + "" == " ";
    assert Split(" , b,,", ',') == [" ", " b", "", ""];
    assert "a , b,,"[1..] == " , b,,";
    assert ['a'] + " " == "a ";
    assert Split("a , b,,", ',') == ["a ", " b", "", ""];
    assert " a , b,,"[1..] == "a , b,,";
    assert [' '] + "a " == " a ";
    assert Split(" a , b,,", ',') == [" a ", " b", "", ""];
  }

  lemma SpacedListStripped()
    ensures KeptParts([" a ", " b", "", ""]) == ["a", "b"]
  {
    StripCharsSurrounded(" ", "a", " ", Whitespace);
    assert " " + "a" + " " == " a ";
    StripCharsSurrounded(" ", "b", "", Whitespace);
    assert " " + "b" + "" == " b";
    var pieces := [" a ", " b", "", ""];
    assert KeptParts(pieces[3..]) == [];
    assert KeptParts(pieces[2..]) == [];
    assert KeptParts(pieces[1..]) == ["b"];
  }

  /** `" a , b,,"` gives `["a", "b"]`: each piece is trimmed and the blank
      trailing pieces are dropped. */
  lemma KeywordsOfSpacedList()
    ensures CoerceKeywords(Str(" a , b,,")) == Some(["a", "b"])
  {
    SpacedListPieces();
    SpacedListStripped();
  }

  /** A keyword as the string form produces it: non-empty, without a comma
      and without surrounding whitespace. */
  predicate CleanKeyword(k: string) {
    k != "" && ',' !in k && Strip(k) == k
  }

  lemma {:induction false} KeptPartsClean(parts: seq<string>)
    requires forall k :: 0 <= k < |parts| ==> ',' !in parts[k]
    ensures forall k :: 0 <= k < |KeptParts(parts)| ==> CleanKeyword(KeptParts(parts)[k])
    ensures |KeptParts(parts)| <= |parts|
  {
    if parts != [] {
      KeptPartsClean(parts[1..]);
      StripInfix(parts[0]);
      StripIdempotent(parts[0]);
      var head := if Strip(parts[0]) != "" then [Strip(parts[0])] else [];
      assert KeptParts(parts) == head + KeptParts(parts[1..]);
    }
  }

  lemma {:induction false} KeptPartsOfClean(ks: seq<string>)
    requires forall k :: 0 <= k < |ks| ==> CleanKeyword(ks[k])
    ensures KeptParts(ks) == ks
  {
    if ks != [] {
      KeptPartsOfClean(ks[1..]);
    }
  }

  /** Every keyword parsed from a string is clean. */
  lemma KeywordsFromStringClean(s: string)
    requires CoerceKeywords(Str(s)).Some?
    ensures forall k :: 0 <= k < |CoerceKeywords(Str(s)).value| ==> CleanKeyword(CoerceKeywords(Str(s)).value[k])
  {
    KeptPartsClean(Split(s, ','));
  }

  /** Writing clean keywords as one comma-separated string and coercing it
      gives the keywords back; no keywords give an absent value. */
  lemma KeywordsRoundTrip(ks: seq<string>)
    requires forall k :: 0 <= k < |ks| ==> CleanKeyword(ks[k])
    ensures CoerceKeywords(Str(Join(ks, ','))) == if ks == [] then None else Some(ks)
  {
    if ks != [] {
      SplitJoin(ks, ',');
      KeptPartsOfClean(ks);
    }
  }

  // ---------------------------------------------------------------------
  // _coerce_int, _coerce_timestamp, _coerce_embedding

  /** `_coerce_int`: `int(value)`, absent for `None` or when the conversion
      raises. */
  function CoerceInt(value: Value): (r: Option<int>)
    ensures value.Null? ==> r.None?
    ensures value.Int? ==> r == Some(value.i)
    ensures value.Bool? ==> r == Some(if value.b then 1 else 0)
    ensures value.List? || value.Dict? ==> r.None?
    ensures value.Float? ==> r == Some(Truncate(value.r))
    ensures value.DateTime? ==> r.None?
    ensures value.Str? && Strip(value.s) == "" ==> r.None?
  {
    if value.Null? then None else ToInt(value)
  }

  /** A string whose trimmed text has a character other than a digit, and
      other than a leading sign, fails to convert and gives None. */
  lemma CoerceIntRejectsNonNumeral(s: string, k: nat)
    requires k < |Strip(s)| && !IsDigit(Strip(s)[k])
    requires !(k == 0 && (Strip(s)[0] == '-' || Strip(s)[0] == '+'))
    ensures CoerceInt(Str(s)) == None
  {
    var t := Strip(s);
    if |t| > 0 && (t[0] == '-' || t[0] == '+') {
      assert t[1..][k - 1] == t[k];
    }
  }

  /** An integer survives being written out as a string and coerced back. */
  lemma CoerceIntOfRendered(i: int)
    ensures CoerceInt(Str(IntToString(i))) == Some(i)
  {
    ConversionsOfRenderedInt(i);
  }

  /** `_coerce_timestamp`: falsy values are absent, strings pass through,
      datetimes become their ISO form, anything else is absent. */
  function CoerceTimestamp(value: Value): (r: Option<string>)
    ensures r.Some? ==> r.value != ""
    ensures value.Str? && value.s != "" ==> r == Some(value.s)
    ensures value.DateTime? ==> r == Some(IsoFormat(value.date, value.time))
    ensures !value.Str? && !value.DateTime? ==> r.None?
    ensures !Truthy(value) ==> r.None?
  {
    if !Truthy(value) then None
    else match value
      case Str(s) => Some(s)
      case DateTime(date, time) => Some(IsoFormat(date, time))
      case _ => None
  }

  /** `[float(x) for x in xs]`, absent when some conversion raises. */
  function FloatsOf(xs: seq<Value>): (r: Option<seq<real>>)
    ensures r.Some? <==> forall k :: 0 <= k < |xs| ==> ToFloat(xs[k]).Some?
    ensures r.Some? ==> |r.value| == |xs| && forall k :: 0 <= k < |xs| ==> ToFloat(xs[k]) == Some(r.value[k])
  {
    if xs == [] then Some([])
    else
      match (ToFloat(xs[0]), FloatsOf(xs[1..]))
      case (Some(x), Some(rest)) => Some([x] + rest)
      case _ => None
  }

  /** `_coerce_embedding`: the vector of floats of a non-empty iterable whose
      every element converts, when it has exactly `dim` entries; otherwise
      absent. */
  function CoerceEmbedding(value: Value, dim: int): (r: Option<seq<real>>)
    ensures r.Some? ==> Truthy(value) && |r.value| == dim
    ensures r.Some? <==>
      && Truthy(value) && Elements(value).Some?
      && FloatsOf(Elements(value).value).Some? && |Elements(value).value| == dim
    ensures r.Some? ==> r == FloatsOf(Elements(value).value)
  {
    if !Truthy(value) then None
    else
      match Elements(value)
      case None => None
      case Some(xs) =>
        match FloatsOf(xs)
        case None => None
        case Some(vec) => if |vec| != dim then None else Some(vec)
  }

  /** A list of floats is kept exactly when it is non-empty and of the
      required dimension. */
  lemma CoerceEmbeddingOfFloats(xs: seq<real>, dim: int)
    ensures CoerceEmbedding(FloatList(xs), dim) == if xs != [] && |xs| == dim then Some(xs) else None
  {
    var v := FloatList(xs);
    if xs != [] {
      assert FloatsOf(v.items).Some?;
      assert FloatsOf(v.items).value == xs;
    }
  }

  /** A list with an element that `float()` rejects is never kept. */
  lemma CoerceEmbeddingRejectsBadElement(items: seq<Value>, dim: int, k: nat)
    requires k < |items| && ToFloat(items[k]).None?
    ensures CoerceEmbedding(List(items), dim).None?
  {
  }

  // ---------------------------------------------------------------------
  // normalize_article_for_db

  /** An optional value as stored in a row: `None` becomes JSON null. */
  function OptInt(o: Option<int>): Value {
    if o.Some? then Int(o.value) else Null
  }

  function OptStr(o: Option<string>): Value {
    if o.Some? then Str(o.value) else Null
  }

  function OptStrList(o: Option<seq<string>>): Value {
    if o.Some? then StrList(o.value) else Null
  }

  /** The columns every row has. */
  const RowColumns: set<string> := {
    "title", "full_text", "summary", "category", "sentiment", "importance_level",
    "keywords", "date_time", "location", "named_entities", "source_name",
    "source_url", "thumbnail_url", "language"
  }

  /** `article.get("source_url") or article.get("url")` */
  function SourceUrl(article: Fields): Value {
    Or(Get(article, "source_url", Null), Get(article, "url", Null))
  }

  /** The columns of a row as `normalize_article_for_db` fills them, before
      they are laid out as the dict sent to the table. */
  datatype Row = Row(
    title: Value, fullText: Value, summary: Value, category: Value, sentiment: Value,
    importanceLevel: Option<int>, keywords: Option<seq<string>>, dateTime: Option<string>,
    location: Value, namedEntities: Value, sourceName: Value, sourceUrl: Value,
    thumbnailUrl: Value, language: Value, embedding: Option<seq<real>>)

  /** The columns of an article whose title, full text and source URL are
      truthy, or absent otherwise. */
  function RowOf(article: Fields, dim: int): Option<Row> {
    var sourceUrl := SourceUrl(article);
    if !Truthy(Get(article, "title", Null)) || !Truthy(Get(article, "full_text", Null)) || !Truthy(sourceUrl) then None
    else
      Some(Row(
        title := Get(article, "title", Null),
        fullText := Get(article, "full_text", Null),
        summary := Get(article, "summary", Null),
        category := Get(article, "category", Null),
        sentiment := Get(article, "sentiment", Null),
        importanceLevel := CoerceInt(Get(article, "importance_level", Null)),
        keywords := CoerceKeywords(Get(article, "keywords", Null)),
        dateTime := CoerceTimestamp(Get(article, "date_time", Null)),
        location := Get(article, "location", Null),
        namedEntities := Get(article, "named_entities", Null),
        sourceName := Or(Get(article, "source_name", Null), Get(article, "original_source_name", Null)),
        sourceUrl := sourceUrl,
        thumbnailUrl := Get(article, "thumbnail_url", Null),
        language := Get(article, "language", Null),
        embedding := CoerceEmbedding(Get(article, "embedding", Null), dim)))
  }

  /** The fourteen fixed columns of a row as a dict. */
  function BaseFields(row: Row): Fields {
    map[
      "summary" := row.summary,
      "category" := row.category,
      "sentiment" := row.sentiment,
      "importance_level" := OptInt(row.importanceLevel),
      "keywords" := OptStrList(row.keywords),
      "date_time" := OptStr(row.dateTime),
      "location" := row.location,
      "named_entities" := row.namedEntities,
      "thumbnail_url" := row.thumbnailUrl,
      "language" := row.language,
      "source_name" := row.sourceName,
      "source_url" := row.sourceUrl,
      "full_text" := row.fullText,
      "title" := row.title
    ]
  }

  /** The dict sent to the table: the fixed columns, and "embedding" only
      when there is a vector. */
  function RowFields(row: Row): Fields {
    if row.embedding.Some? then BaseFields(row)["embedding" := FloatList(row.embedding.value)]
    else BaseFields(row)
  }

  /** `normalize_article_for_db`: absent when the title, the full text or
      the source URL (falling back to `url`) is falsy; otherwise the row,
      with an "embedding" column only when the embedding coerces. */
  function NormalizeArticle(article: Fields, dim: int): Option<Fields> {
    match RowOf(article, dim)
    case None => None
    case Some(row) => Some(RowFields(row))
  }

  /** A row is produced exactly when title, full text and source URL (or,
      failing that, `url`) are all truthy. */
  lemma NormalizeArticleAbsent(article: Fields, dim: int)
    ensures NormalizeArticle(article, dim).None? <==>
      !Truthy(Get(article, "title", Null)) || !Truthy(Get(article, "full_text", Null)) ||
      (!Truthy(Get(article, "source_url", Null)) && !Truthy(Get(article, "url", Null)))
  {
  }

  /** The columns of a row: the fixed ones, and "embedding" exactly when the
      embedding coerces. */
  lemma NormalizeArticleColumns(article: Fields, dim: int)
    requires NormalizeArticle(article, dim).Some?
    ensures NormalizeArticle(article, dim).value.Keys ==
      RowColumns + (if CoerceEmbedding(Get(article, "embedding", Null), dim).Some? then {"embedding"} else {})
  {
    BaseFieldsColumns(RowOf(article, dim).value);
  }

  /** The fixed part of the dict has exactly the fourteen columns. */
  lemma BaseFieldsColumns(row: Row)
    ensures BaseFields(row).Keys == RowColumns
  {
  }

  /** Every column of a produced row: title and full text copied and truthy,
      the source URL with its `url` fallback, the source name with its
      `original_source_name` fallback, the other optional fields as supplied,
      the importance level, keywords and timestamp coerced, and the vector
      when the embedding coerces. */
  lemma NormalizeArticleValues(article: Fields, dim: int)
    requires NormalizeArticle(article, dim).Some?
    ensures RowOf(article, dim).Some? && NormalizeArticle(article, dim) == Some(RowFields(RowOf(article, dim).value))
    ensures var row := RowOf(article, dim).value;
      && row.title == article["title"] && Truthy(row.title)
      && row.fullText == article["full_text"] && Truthy(row.fullText)
      && Truthy(row.sourceUrl)
      && (Truthy(Get(article, "source_url", Null)) ==> row.sourceUrl == article["source_url"])
      && (!Truthy(Get(article, "source_url", Null)) ==> row.sourceUrl == article["url"])
      && row.sourceName == Or(Get(article, "source_name", Null), Get(article, "original_source_name", Null))
      && row.summary == Get(article, "summary", Null)
      && row.category == Get(article, "category", Null)
      && row.sentiment == Get(article, "sentiment", Null)
      && row.location == Get(article, "location", Null)
      && row.namedEntities == Get(article, "named_entities", Null)
      && row.thumbnailUrl == Get(article, "thumbnail_url", Null)
      && row.language == Get(article, "language", Null)
      && row.importanceLevel == CoerceInt(Get(article, "importance_level", Null))
      && row.keywords == CoerceKeywords(Get(article, "keywords", Null))
      && row.dateTime == CoerceTimestamp(Get(article, "date_time", Null))
      && row.embedding == CoerceEmbedding(Get(article, "embedding", Null), dim)
  {
  }

  /** The dict lays out each fixed column under its name. */
  lemma RowFieldsValues(row: Row)
    ensures var d := RowFields(row);
      && d["title"] == row.title
      && d["full_text"] == row.fullText
      && d["source_url"] == row.sourceUrl
      && d["source_name"] == row.sourceName
  {
  }

  /** The optional columns the fixed part of the dict copies. */
  lemma BaseFieldsCopied(row: Row)
    ensures var d := BaseFields(row);
      && d["summary"] == row.summary
      && d["category"] == row.category
      && d["sentiment"] == row.sentiment
      && d["location"] == row.location
      && d["named_entities"] == row.namedEntities
      && d["thumbnail_url"] == row.thumbnailUrl
      && d["language"] == row.language
  {
  }

  /** The optional columns the fixed part of the dict coerces. */
  lemma BaseFieldsCoerced(row: Row)
    ensures var d := BaseFields(row);
      && d["importance_level"] == OptInt(row.importanceLevel)
      && d["keywords"] == OptStrList(row.keywords)
      && d["date_time"] == OptStr(row.dateTime)
  {
  }

  /** The optional columns of the dict, copied or coerced. */
  lemma RowFieldsOptionalValues(row: Row)
    ensures var d := RowFields(row);
      && d["summary"] == row.summary
      && d["category"] == row.category
      && d["sentiment"] == row.sentiment
      && d["importance_level"] == OptInt(row.importanceLevel)
      && d["keywords"] == OptStrList(row.keywords)
      && d["date_time"] == OptStr(row.dateTime)
      && d["location"] == row.location
      && d["named_entities"] == row.namedEntities
      && d["thumbnail_url"] == row.thumbnailUrl
      && d["language"] == row.language
  {
    BaseFieldsCopied(row);
    BaseFieldsCoerced(row);
    forall key | key in BaseFields(row) && key != "embedding" ensures RowFields(row)[key] == BaseFields(row)[key] {
    }
  }

  /** When the embedding coerces, the row holds the coerced vector, which has
      the required dimension. */
  lemma NormalizeArticleEmbedding(article: Fields, dim: int)
    requires NormalizeArticle(article, dim).Some?
    requires CoerceEmbedding(Get(article, "embedding", Null), dim).Some?
    ensures var v := CoerceEmbedding(Get(article, "embedding", Null), dim).value;
      NormalizeArticle(article, dim).value["embedding"] == FloatList(v) && |v| == dim
  {
  }

  // ---------------------------------------------------------------------
  // Row building in insert_articles / upsert_articles

  /** The rows built from `articles`: the non-absent normalisations, in input
      order. */
  function NormalizedRows(articles: seq<Fields>, dim: int): seq<Fields> {
    if articles == [] then []
    else
      var last := |articles| - 1;
      var row := NormalizeArticle(articles[last], dim);
      NormalizedRows(articles[..last], dim) + (if row.Some? then [row.value] else [])
  }

  /** Row building distributes over concatenation: rows keep the order of
      their articles. */
  lemma {:induction false} NormalizedRowsConcat(a: seq<Fields>, b: seq<Fields>, dim: int)
    ensures NormalizedRows(a + b, dim) == NormalizedRows(a, dim) + NormalizedRows(b, dim)
    decreases |b|
  {
    if b != [] {
      var last := |b| - 1;
      NormalizedRowsConcat(a, b[..last], dim);
      assert (a + b)[..|a + b| - 1] == a + b[..last];
    } else {
      assert a + b == a;
    }
  }

  /** There are never more rows than articles; there are none exactly when
      no article normalises; every row is the normalisation of some article. */
  lemma {:induction false} NormalizedRowsLength(articles: seq<Fields>, dim: int)
    ensures |NormalizedRows(articles, dim)| <= |articles|
  {
    if articles != [] {
      NormalizedRowsLength(articles[..|articles| - 1], dim);
    }
  }

  lemma {:induction false} NormalizedRowsEmpty(articles: seq<Fields>, dim: int)
    ensures NormalizedRows(articles, dim) == [] <==>
      forall k :: 0 <= k < |articles| ==> NormalizeArticle(articles[k], dim).None?
  {
    if articles != [] {
      var last := |articles| - 1;
      var prefix := articles[..last];
      NormalizedRowsEmpty(prefix, dim);
      var row := NormalizeArticle(articles[last], dim);
      assert NormalizedRows(articles, dim) == NormalizedRows(prefix, dim) + (if row.Some? then [row.value] else []);
      assert forall k :: 0 <= k < last ==> prefix[k] == articles[k];
    }
  }

  lemma {:induction false} NormalizedRowsFrom(articles: seq<Fields>, dim: int)
    ensures forall row :: row in NormalizedRows(articles, dim) ==>
      exists k :: 0 <= k < |articles| && NormalizeArticle(articles[k], dim) == Some(row)
  {
    if articles != [] {
      var last := |articles| - 1;
      var prefix := articles[..last];
      NormalizedRowsFrom(prefix, dim);
      var row := NormalizeArticle(articles[last], dim);
      assert NormalizedRows(articles, dim) == NormalizedRows(prefix, dim) + (if row.Some? then [row.value] else []);
      forall r | r in NormalizedRows(articles, dim)
        ensures exists k :: 0 <= k < |articles| && NormalizeArticle(articles[k], dim) == Some(r)
      {
        if r in NormalizedRows(prefix, dim) {
          var k :| 0 <= k < |prefix| && NormalizeArticle(prefix[k], dim) == Some(r);
          assert prefix[k] == articles[k];
        } else {
          assert NormalizeArticle(articles[last], dim) == Some(r);
        }
      }
    }
  }

  lemma NormalizedRowsFacts(articles: seq<Fields>, dim: int)
    ensures |NormalizedRows(articles, dim)| <= |articles|
    ensures NormalizedRows(articles, dim) == [] <==>
      forall k :: 0 <= k < |articles| ==> NormalizeArticle(articles[k], dim).None?
    ensures forall row :: row in NormalizedRows(articles, dim) ==>
      exists k :: 0 <= k < |articles| && NormalizeArticle(articles[k], dim) == Some(row)
  {
    NormalizedRowsLength(articles, dim);
    NormalizedRowsEmpty(articles, dim);
    NormalizedRowsFrom(articles, dim);
  }

  /** The loop of `insert_articles`/`upsert_articles` that appends every
      non-absent normalised row. */
  method BuildRows(articles: seq<Fields>, dim: int) returns (rows: seq<Fields>)
    ensures rows == NormalizedRows(articles, dim)
  {
    rows := [];
    var i := 0;
    while i < |articles|
      invariant 0 <= i <= |articles|
      invariant rows == NormalizedRows(articles[..i], dim)
    {
      assert articles[..i + 1][..i] == articles[..i];
      var row := NormalizeArticle(articles[i], dim);
      if row.Some? {
        rows := rows + [row.value];
      }
      i := i + 1;
    }
    assert articles[..i] == articles;
  }

  /** A successful upload: `count` and `response` of the returned dict. */
  datatype Upload = Upload(count: nat, response: Option<seq<Value>>)

  /** `insert_articles`: fails without calling the client when no row is
      valid; otherwise the count is the length of the returned data, zero
      when the data is absent or empty. */
  method InsertArticles(articles: seq<Fields>, dim: int, insertRows: seq<Fields> -> Outcome<Option<seq<Value>>>)
    returns (r: Outcome<Upload>)
    ensures NormalizedRows(articles, dim) == [] ==> r == Err("No valid rows to insert")
    ensures NormalizedRows(articles, dim) != [] ==>
      match insertRows(NormalizedRows(articles, dim))
      case Err(e) => r == Err(e)
      case Ok(data) => (r.Ok? && r.value.response == data &&
        r.value.count == (if data.Some? then |data.value| else 0))
  {
    var rows := BuildRows(articles, dim);
    if rows == [] {
      return Err("No valid rows to insert");
    }
    var resp := insertRows(rows);
    if resp.Err? {
      return Err(resp.error);
    }
    var data := resp.value;
    r := Ok(Upload(if data.Some? && data.value != [] then |data.value| else 0, data));
  }

  /** The dict `upsert_articles` returns: the error when no row is valid or
      the client raises, otherwise the number of rows sent and the response. */
  function Upserted(articles: seq<Fields>, dim: int, upsertRows: seq<Fields> -> Outcome<Option<seq<Value>>>): Outcome<Upload> {
    var rows := NormalizedRows(articles, dim);
    if rows == [] then Err("No valid rows to upsert")
    else match upsertRows(rows)
      case Err(e) => Err(e)
      case Ok(data) => Ok(Upload(|rows|, data))
  }

  /** `upsert_articles`: fails without calling the client when no row is
      valid; otherwise the count is the number of rows sent. */
  method UpsertArticles(articles: seq<Fields>, dim: int, upsertRows: seq<Fields> -> Outcome<Option<seq<Value>>>)
    returns (r: Outcome<Upload>)
    ensures NormalizedRows(articles, dim) == [] ==> r == Err("No valid rows to upsert")
    ensures NormalizedRows(articles, dim) != [] ==>
      match upsertRows(NormalizedRows(articles, dim))
      case Err(e) => r == Err(e)
      case Ok(data) => r == Ok(Upload(|NormalizedRows(articles, dim)|, data))
    ensures r.Ok? ==> 1 <= r.value.count <= |articles|
    ensures r == Upserted(articles, dim, upsertRows)
  {
    var rows := BuildRows(articles, dim);
    NormalizedRowsFacts(articles, dim);
    if rows == [] {
      return Err("No valid rows to upsert");
    }
    var resp := upsertRows(rows);
    if resp.Err? {
      return Err(resp.error);
    }
    r := Ok(Upload(|rows|, resp.value));
  }
}
