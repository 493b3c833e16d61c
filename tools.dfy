/** The parts of the backend's tools that are plain string and integer
    computations: the truncation of scraped text, the Wikipedia summary URL,
    the HTTP method gate of the API caller, the counts of the file and text
    analysers and the `count` operation of the data processor. */
module Tools {
  import opened Text

  // ---------------------------------------------------------------- web_scraper

  /** The scraper keeps at most this many characters of the page text. */
  const ScrapeLimit: nat := 2000

  /** The scraper's result for the cleaned page text: the text itself when it
      fits, otherwise its first 2000 characters followed by "...". */
  function TruncateScraped(text: string): (r: string)
    ensures Take(text, ScrapeLimit) <= r
    ensures |r| <= ScrapeLimit + 3
    ensures |text| <= ScrapeLimit ==> r == text
    ensures |text| > ScrapeLimit ==> |r| == ScrapeLimit + 3 && r[ScrapeLimit..] == "..."
  {
    if |text| > ScrapeLimit then text[..ScrapeLimit] + "..." else text
  }

  // ---------------------------------------------------------------- search_wikipedia

  const WikipediaSummaryBase := "https://en.wikipedia.org/api/rest_v1/page/summary/"

  /** The summary endpoint for a query: spaces become underscores. */
  function WikipediaUrl(query: string): (url: string)
    ensures WikipediaSummaryBase <= url
    ensures |url| == |WikipediaSummaryBase| + |query|
    ensures ' ' !in url[|WikipediaSummaryBase|..]
    ensures forall i :: 0 <= i < |query| ==>
      url[|WikipediaSummaryBase| + i] == if query[i] == ' ' then '_' else query[i]
  {
    var url := WikipediaSummaryBase + ReplaceChar(query, ' ', '_');
    assert url[|WikipediaSummaryBase|..] == ReplaceChar(query, ' ', '_');
    url
  }

  /** The page title a summary URL names, with underscores read as spaces. */
  function ArticleTitle(url: string): string
    requires WikipediaSummaryBase <= url
  {
    ReplaceChar(url[|WikipediaSummaryBase|..], '_', ' ')
  }

  /** A query without underscores can be read back from its URL; a query
      with them cannot be told apart from the one with spaces there. */
  lemma WikipediaUrlRoundTrip(query: string)
    requires '_' !in query
    ensures ArticleTitle(WikipediaUrl(query)) == query
  {
    var url := WikipediaUrl(query);
    assert url[|WikipediaSummaryBase|..] == ReplaceChar(query, ' ', '_');
  }

  /** Two queries give the same URL exactly when they have the same length
      and differ only where one has a space and the other an underscore. */
  lemma WikipediaUrlMergesSpaceAndUnderscore(q1: string, q2: string)
    ensures WikipediaUrl(q1) == WikipediaUrl(q2) <==> SameTitle(q1, q2)
  {
    if WikipediaUrl(q1) == WikipediaUrl(q2) {
      EqualUrlsSameTitle(q1, q2);
    }
    if SameTitle(q1, q2) {
      SameTitleEqualUrls(q1, q2);
    }
  }

  /** Same length, and at each position the same character or a space or
      underscore in both. */
  predicate SameTitle(q1: string, q2: string) {
    |q1| == |q2| && forall i :: 0 <= i < |q1| ==> q1[i] == q2[i] || (SpaceOrUnderscore(q1[i]) && SpaceOrUnderscore(q2[i]))
  }

  lemma EqualUrlsSameTitle(q1: string, q2: string)
    requires WikipediaUrl(q1) == WikipediaUrl(q2)
    ensures SameTitle(q1, q2)
  {
    var r1, r2 := ReplaceChar(q1, ' ', '_'), ReplaceChar(q2, ' ', '_');
    assert r1 == r2 by {
      assert WikipediaUrl(q1) == WikipediaSummaryBase + r1;
      assert WikipediaUrl(q2) == WikipediaSummaryBase + r2;
      assert (WikipediaSummaryBase + r1)[|WikipediaSummaryBase|..] == r1;
      assert (WikipediaSummaryBase + r2)[|WikipediaSummaryBase|..] == r2;
    }
    forall i | 0 <= i < |q1| ensures q1[i] == q2[i] || (SpaceOrUnderscore(q1[i]) && SpaceOrUnderscore(q2[i])) {
      assert r1[i] == r2[i];
    }
  }

  lemma SameTitleEqualUrls(q1: string, q2: string)
    requires SameTitle(q1, q2)
    ensures WikipediaUrl(q1) == WikipediaUrl(q2)
  {
    var r1, r2 := ReplaceChar(q1, ' ', '_'), ReplaceChar(q2, ' ', '_');
    assert forall i :: 0 <= i < |r1| ==> r1[i] == r2[i];
    assert r1 == r2;
  }

  predicate SpaceOrUnderscore(c: char) {
    c == ' ' || c == '_'
  }

  /** The two spellings of a title, with a space and with an underscore, give
      the same URL. */
  lemma WikipediaUrlOfSpellings()
    ensures WikipediaUrl("a b") == WikipediaUrl("a_b")
  {
    WikipediaUrlMergesSpaceAndUnderscore("a b", "a_b");
  }

  // ---------------------------------------------------------------- api_caller

  const OnlyGetMessage := "Only GET method is supported for safety reasons."

  /** What the API caller does: issue a GET request (not modelled: network),
      or refuse. */
  datatype ApiAction = SendGet(url: string) | Refuse(message: string)

  function ApiCaller(url: string, httpMethod: string): (a: ApiAction)
    ensures a.SendGet? <==> Upper(httpMethod) == "GET"
    ensures a.SendGet? ==> a.url == url
    ensures a.Refuse? ==> a.message == OnlyGetMessage
  {
    if Upper(httpMethod) == "GET" then SendGet(url) else Refuse(OnlyGetMessage)
  }

  lemma UpperCharIs(c: char, lower: char, upper: char)
    requires 'a' <= lower <= 'z' && upper as int == lower as int - 32
    ensures UpperChar(c) == upper <==> c == lower || c == upper
  {
  }

  /** The gate lets through exactly the eight spellings of "get" that differ
      in letter case. */
  lemma ApiGateAcceptsAnyCaseOfGet(httpMethod: string)
    ensures ApiCaller("", httpMethod).SendGet? <==>
      |httpMethod| == 3 && httpMethod[0] in "gG" && httpMethod[1] in "eE" && httpMethod[2] in "tT"
  {
    if |httpMethod| == 3 {
      UpperCharIs(httpMethod[0], 'g', 'G');
      UpperCharIs(httpMethod[1], 'e', 'E');
      UpperCharIs(httpMethod[2], 't', 'T');
      assert Upper(httpMethod) == [UpperChar(httpMethod[0]), UpperChar(httpMethod[1]), UpperChar(httpMethod[2])];
    }
  }

  // ---------------------------------------------------------------- file_analyzer

  /** The file analyser's findings.  A `json` file is handed on to the JSON
      analyser, whose output is not modelled. */
  datatype FileReport =
    | CsvReport(rows: nat, columns: nat, preview: string)
    | TextReport(words: nat, characters: nat, lines: nat, preview: string)
    | JsonDelegated(content: string)
  {
    function Render(): string
      requires !JsonDelegated?
    {
      match this
      case CsvReport(rows, columns, preview) =>
        "CSV Analysis:\n- Rows: " + Decimal(rows) + "\n- Columns: " + Decimal(columns) + "\n- Preview:\n" + preview
      case TextReport(words, characters, lines, preview) =>
        "Text Analysis:\n- Words: " + Decimal(words) + "\n- Characters: " + Decimal(characters)
          + "\n- Lines: " + Decimal(lines) + "\n- Preview:\n" + preview
    }
  }

  function FileAnalyzer(content: string, fileType: string): (r: FileReport)
    ensures r.CsvReport? <==> fileType == "csv"
    ensures r.JsonDelegated? <==> fileType == "json"
    ensures r.JsonDelegated? ==> r.content == content
  {
    if fileType == "csv" then
      var lines := Split(content, '\n');
      var cols := if |lines| > 0 then |Split(lines[0], ',')| else 0;
      CsvReport(|lines|, cols, Take(content, 200))
    else if fileType == "json" then
      JsonDelegated(content)
    else
      TextReport(|Words(content)|, |content|, |Split(content, '\n')|, Take(content, 300))
  }

  /** For a csv file: one row per newline plus one, as many columns as the
      first line has commas plus one (so at least one), and the first 200
      characters as preview. */
  lemma CsvCounts(content: string)
    ensures var r := FileAnalyzer(content, "csv");
      && r.rows == Count(content, '\n') + 1
      && r.columns == Count(UpTo(content, '\n'), ',') + 1
      && r.columns >= 1
      && r.preview == Take(content, 200)
  {
    SplitFirst(content, '\n');
  }

  /** For any other file type but json: the whitespace-separated words, the
      length, one line per newline plus one, and the first 300 characters. */
  lemma TextCounts(content: string, fileType: string)
    requires fileType != "csv" && fileType != "json"
    ensures var r := FileAnalyzer(content, fileType);
      && r.TextReport?
      && r.words == |Words(content)|
      && (r.words == 0 <==> Blank(content))
      && r.characters == |content|
      && r.lines == Count(content, '\n') + 1
      && r.preview == Take(content, 300)
  {
    WordsEmptyIffBlank(content);
  }

  // ---------------------------------------------------------------- text_analyzer

  const PositiveWords: seq<string> := ["good", "great", "excellent", "happy", "love", "amazing", "wonderful"]
  const NegativeWords: seq<string> := ["bad", "terrible", "awful", "hate", "poor", "worst", "horrible"]

  /** What `str(e)` gives for the division by zero in the richness line. */
  const DivisionByZeroFailure := "Text analysis failed: division by zero"

  datatype Sentiment = Positive | Negative | Neutral

  /** The integer results of the text analyser.  The average word length and
      the vocabulary richness are floating point and not modelled. */
  datatype TextAnalysis =
    | Analysis(wordCount: nat, uniqueWords: nat, positive: nat, negative: nat, sentiment: Sentiment)
    | AnalysisFailed(message: string)

  /** How many of `ws` are in `vocabulary`. */
  function Occurrences(ws: seq<string>, vocabulary: seq<string>): (r: nat)
    ensures r <= |ws|
  {
    if ws == [] then 0 else (if ws[0] in vocabulary then 1 else 0) + Occurrences(ws[1..], vocabulary)
  }

  function SentimentOf(positive: nat, negative: nat): (s: Sentiment)
    ensures s == Positive <==> positive > negative
    ensures s == Negative <==> negative > positive
    ensures s == Neutral <==> positive == negative
  {
    if positive > negative then Positive else if negative > positive then Negative else Neutral
  }

  /** A word is counted as positive or as negative, never both, so the two
      counts together do not exceed the number of words. */
  lemma {:induction false} OccurrencesOfDisjointVocabularies(ws: seq<string>, p: seq<string>, n: seq<string>)
    requires forall w :: w in p ==> w !in n
    ensures Occurrences(ws, p) + Occurrences(ws, n) <= |ws|
  {
    if ws != [] {
      OccurrencesOfDisjointVocabularies(ws[1..], p, n);
    }
  }

  /** `set(words)`. */
  function Vocabulary(ws: seq<string>): set<string> {
    set w | w in ws
  }

  lemma {:induction false} VocabularyBound(ws: seq<string>)
    ensures |Vocabulary(ws)| <= |ws|
    ensures ws != [] ==> |Vocabulary(ws)| >= 1
  {
    if ws != [] {
      VocabularyBound(ws[1..]);
      assert Vocabulary(ws) == {ws[0]} + Vocabulary(ws[1..]);
      assert ws[0] in Vocabulary(ws);
    }
  }

  function TextAnalyzer(text: string): (r: TextAnalysis)
    ensures r.AnalysisFailed? <==> Blank(text)
    ensures r.AnalysisFailed? ==> r.message == DivisionByZeroFailure
    ensures r.Analysis? ==>
      && r.wordCount == |Words(Lower(text))|
      && r.uniqueWords == |Vocabulary(Words(Lower(text)))|
      && r.positive == Occurrences(Words(Lower(text)), PositiveWords)
      && r.negative == Occurrences(Words(Lower(text)), NegativeWords)
      && 1 <= r.uniqueWords <= r.wordCount
      && r.positive + r.negative <= r.wordCount
      && (r.sentiment == Positive <==> r.positive > r.negative)
      && (r.sentiment == Negative <==> r.negative > r.positive)
      && (r.sentiment == Neutral <==> r.positive == r.negative)
  {
    var words := Words(Lower(text));
    var positive := Occurrences(words, PositiveWords);
    var negative := Occurrences(words, NegativeWords);
    WordsEmptyIffBlank(Lower(text));
    LowerKeepsBlank(text);
    VocabularyBound(words);
    OccurrencesOfDisjointVocabularies(words, PositiveWords, NegativeWords);
    if |words| == 0 then AnalysisFailed(DivisionByZeroFailure)
    else Analysis(|words|, |Vocabulary(words)|, positive, negative, SentimentOf(positive, negative))
  }

  // ---------------------------------------------------------------- data_processor

  const SupportedOperations := "Supported operations: sort, sum, average, unique, count"

  /** The data processor's answer.  `sort`, `sum`, `average` and `unique`
      work on floating point numbers or in set order and are not modelled. */
  datatype DataResult = Output(text: string) | NotModelled(operation: string)

  /** The comma-separated items, each stripped of surrounding whitespace. */
  function Items(data: string): (items: seq<string>)
    ensures |items| == Count(data, ',') + 1
  {
    var pieces := Split(data, ',');
    seq(|pieces|, i requires 0 <= i < |pieces| => Strip(pieces[i]))
  }

  function DataProcessor(data: string, operation: string): (r: DataResult)
    ensures operation == "count" ==> r == Output("Count: " + Decimal(|Items(data)|))
    ensures operation !in {"sort", "sum", "average", "unique", "count"} ==> r == Output(SupportedOperations)
    ensures operation in {"sort", "sum", "average", "unique"} ==> r.NotModelled?
  {
    var items := Items(data);
    if operation in {"sort", "sum", "average", "unique"} then NotModelled(operation)
    else if operation == "count" then Output("Count: " + Decimal(|items|))
    else Output(SupportedOperations)
  }

  /** `count` reports one more item than the data has commas, so never zero;
      the empty string is one (empty) item. */
  lemma DataCountIsCommasPlusOne(data: string)
    ensures DataProcessor(data, "count") == Output("Count: " + Decimal(Count(data, ',') + 1))
    ensures DataProcessor("", "count") == Output("Count: 1")
  {
  }
}
