/**
 * The multi-strategy article extractor (internal/scraper/extractor.go): the
 * title and description fallback chains, the reading-time estimate, the
 * metadata-only result, which strategies run, and the composite score that
 * picks the best result. Readability, the HTML sanitizers and the content
 * quality scorer are not modelled: their outputs are inputs here, and the
 * text cleanup applied by `sanitizeText` is the parameter `clean`.
 */
module Extractor {
  import opened Wrappers
  import opened Text
  import opened Models
  import opened ExtractorHelpers
  import Constants

  // ---------------------------------------------------------------------------
  // Title and description

  /** `sanitizeText`: empty text stays empty, anything else goes through the cleanup. */
  function SanitizeText(clean: string -> string, text: string): (r: string)
    ensures text == "" ==> r == ""
  {
    if text == "" then "" else clean(text)
  }

  /** The trimmed text of the first element, "" when there is none. */
  function FirstText(first: Option<string>): string {
    if first.Some? then TrimSpace(first.value) else ""
  }

  /**
   * The title before sanitizing: og:title, then twitter:title, then the first
   * `<h1>`, then the last `<title>` (each trimmed).
   */
  function TitleText(metas: seq<Meta>, firstH1: Option<string>, titles: seq<string>): (r: string)
    ensures var og := MetaValue(metas, Constants.OgTitle, "");
      var tw := MetaValue(metas, "", Constants.TwitterTitle);
      var h1 := FirstText(firstH1);
      (og != "" ==> r == og) &&
      (og == "" && tw != "" ==> r == tw) &&
      (og == "" && tw == "" && h1 != "" ==> r == h1) &&
      (og == "" && tw == "" && h1 == "" ==> r == LastText(titles))
  {
    var og := MetaValue(metas, Constants.OgTitle, "");
    var tw := MetaValue(metas, "", Constants.TwitterTitle);
    var h1 := FirstText(firstH1);
    if og != "" then og
    else if tw != "" then tw
    else if h1 != "" then h1
    else if titles == [] then h1
    else TrimSpace(titles[|titles| - 1])
  }

  /** `extractTitle`: the raw title, sanitized; a page offering no title gets "". */
  function ExtractTitle(clean: string -> string, metas: seq<Meta>, firstH1: Option<string>, titles: seq<string>): (r: string)
    ensures TitleText(metas, firstH1, titles) == "" ==> r == ""
    ensures TitleText(metas, firstH1, titles) != "" ==> r == clean(TitleText(metas, firstH1, titles))
  {
    SanitizeText(clean, TitleText(metas, firstH1, titles))
  }

  /** No source offers a title exactly when the raw title is empty. */
  lemma TitleTextEmptyIff(metas: seq<Meta>, firstH1: Option<string>, titles: seq<string>)
    ensures TitleText(metas, firstH1, titles) == "" <==>
      (forall i :: 0 <= i < |metas| ==> !Hit(metas[i], Constants.OgTitle, "")) &&
      (forall i :: 0 <= i < |metas| ==> !Hit(metas[i], "", Constants.TwitterTitle)) &&
      FirstText(firstH1) == "" &&
      (titles == [] || TrimSpace(titles[|titles| - 1]) == "")
  {
    MetaValueFirstHit(metas, Constants.OgTitle, "");
    MetaValueFirstHit(metas, "", Constants.TwitterTitle);
  }

  /** An og:title meta with non-blank content decides the title, whatever else the page holds. */
  lemma OgTitleWins(metas: seq<Meta>, firstH1: Option<string>, titles: seq<string>, k: int)
    requires 0 <= k < |metas| && Hit(metas[k], Constants.OgTitle, "")
    ensures TitleText(metas, firstH1, titles) == MetaValue(metas, Constants.OgTitle, "") != ""
  {
    MetaValueFirstHit(metas, Constants.OgTitle, "");
  }

  /** The raw title carries no surrounding white space, whichever source it came from. */
  lemma TitleTextTrimmed(metas: seq<Meta>, firstH1: Option<string>, titles: seq<string>)
    ensures TrimSpace(TitleText(metas, firstH1, titles)) == TitleText(metas, firstH1, titles)
  {
    MetaValueTrimmed(metas, Constants.OgTitle, "");
    MetaValueTrimmed(metas, "", Constants.TwitterTitle);
    if firstH1.Some? {
      TrimSpaceIdempotent(firstH1.value);
    }
    if titles != [] {
      TrimSpaceIdempotent(titles[|titles| - 1]);
    }
  }

  lemma MetaValueTrimmed(metas: seq<Meta>, property: string, name: string)
    ensures TrimSpace(MetaValue(metas, property, name)) == MetaValue(metas, property, name)
  {
    MetaValueFirstHit(metas, property, name);
    var v := MetaValue(metas, property, name);
    if v != "" {
      var i :| 0 <= i < |metas| && Hit(metas[i], property, name) && v == TrimSpace(metas[i].content.value) &&
        forall j :: 0 <= j < i ==> !Hit(metas[j], property, name);
      TrimSpaceIdempotent(metas[i].content.value);
    }
  }

  /**
   * The description before sanitizing: og:description, then
   * twitter:description, then the description meta, then the first
   * paragraph when its length is in the window, else "".
   */
  function DescriptionText(metas: seq<Meta>, firstParagraph: Option<string>): (r: string)
    ensures var og := MetaValue(metas, Constants.OgDescription, "");
      var tw := MetaValue(metas, "", Constants.TwitterDesc);
      var md := MetaValue(metas, "", Constants.MetaDesc);
      (og != "" ==> r == og) &&
      (og == "" && tw != "" ==> r == tw) &&
      (og == "" && tw == "" && md != "" ==> r == md) &&
      (og == "" && tw == "" && md == "" ==> r == ExtractDescriptionFromParagraph(firstParagraph))
  {
    var og := MetaValue(metas, Constants.OgDescription, "");
    var tw := MetaValue(metas, "", Constants.TwitterDesc);
    var md := MetaValue(metas, "", Constants.MetaDesc);
    var p := ExtractDescriptionFromParagraph(firstParagraph);
    if og != "" then og
    else if tw != "" then tw
    else if md != "" then md
    else if p != "" then p
    else ""
  }

  /** `extractDescription`: the raw description, sanitized; a page offering none gets "". */
  function ExtractDescription(clean: string -> string, metas: seq<Meta>, firstParagraph: Option<string>): (r: string)
    ensures DescriptionText(metas, firstParagraph) == "" ==> r == ""
    ensures DescriptionText(metas, firstParagraph) != "" ==> r == clean(DescriptionText(metas, firstParagraph))
  {
    SanitizeText(clean, DescriptionText(metas, firstParagraph))
  }

  /** The description is empty iff no meta source offers one and the first paragraph is missing or outside the window. */
  lemma DescriptionTextEmptyIff(metas: seq<Meta>, firstParagraph: Option<string>)
    ensures DescriptionText(metas, firstParagraph) == "" <==>
      (forall i :: 0 <= i < |metas| ==> !Hit(metas[i], Constants.OgDescription, "")) &&
      (forall i :: 0 <= i < |metas| ==> !Hit(metas[i], "", Constants.TwitterDesc)) &&
      (forall i :: 0 <= i < |metas| ==> !Hit(metas[i], "", Constants.MetaDesc)) &&
      !(firstParagraph.Some? &&
        Constants.MinDescriptionLen < |TrimSpace(firstParagraph.value)| < Constants.MaxDescriptionLen)
  {
    MetaValueFirstHit(metas, Constants.OgDescription, "");
    MetaValueFirstHit(metas, "", Constants.TwitterDesc);
    MetaValueFirstHit(metas, "", Constants.MetaDesc);
  }

  /** Without any description meta, the description is the first paragraph's text, so it lies in the length window. */
  lemma ParagraphDescriptionInWindow(metas: seq<Meta>, firstParagraph: Option<string>)
    requires forall i :: 0 <= i < |metas| ==> !Hit(metas[i], Constants.OgDescription, "")
    requires forall i :: 0 <= i < |metas| ==> !Hit(metas[i], "", Constants.TwitterDesc)
    requires forall i :: 0 <= i < |metas| ==> !Hit(metas[i], "", Constants.MetaDesc)
    ensures var d := DescriptionText(metas, firstParagraph);
      d == "" || Constants.MinDescriptionLen < |d| < Constants.MaxDescriptionLen
  {
    MetaValueFirstHit(metas, Constants.OgDescription, "");
    MetaValueFirstHit(metas, "", Constants.TwitterDesc);
    MetaValueFirstHit(metas, "", Constants.MetaDesc);
  }

  // ---------------------------------------------------------------------------
  // Readability metadata and the metadata-only strategy

  /** What readability reports about the page; the publish time is already formatted. */
  datatype ReadabilityArticle = ReadabilityArticle(
    byline: string, publishedTime: Option<string>, excerpt: string, language: string, length: int)

  /** One minute per thousand characters, rounded down but at least one minute; nothing for an empty text. */
  function ReadingTime(length: int): (minutes: int)
    ensures minutes == 0 <==> length <= 0
    ensures length > 0 ==> minutes >= 1 && length < (minutes + 1) * 1000
    ensures length >= 1000 ==> minutes * 1000 <= length
    ensures 0 < length < 1000 ==> minutes == 1
    ensures length >= 1000 ==> minutes == length / 1000
  {
    if length <= 0 then 0
    else if length / 1000 < 1 then 1
    else length / 1000
  }

  /** A longer text never reads faster. */
  lemma ReadingTimeMonotone(a: int, b: int)
    requires a <= b
    ensures ReadingTime(a) <= ReadingTime(b)
  {
    if 0 < a {
      assert a / 1000 <= b / 1000;
    }
  }

  /** `extractMetadataFromReadability`: the response holds only the metadata fields; a readability failure gives the zero response. */
  function ReadabilityMetadata(article: Option<ReadabilityArticle>): (r: ScrapeResponse)
    ensures r.title == "" && r.content == "" && r.images == [] && r.quality == ZeroQuality
    ensures r.description == "" && r.videos == []
    ensures article.None? ==> r == EmptyResponse
    ensures article.Some? ==>
      r.readingTime == ReadingTime(article.value.length) && r.textLength == article.value.length
    ensures article.Some? ==>
      r.author == article.value.byline && r.excerpt == article.value.excerpt &&
      r.language == article.value.language
    ensures article.Some? ==>
      r.publishDate == (if article.value.publishedTime.Some? then article.value.publishedTime.value else "")
  {
    match article
    case None => EmptyResponse
    case Some(a) =>
      EmptyResponse.(
        author := a.byline,
        publishDate := if a.publishedTime.Some? then a.publishedTime.value else "",
        excerpt := a.excerpt,
        readingTime := ReadingTime(a.length),
        language := a.language,
        textLength := a.length)
  }

  /** The content of the last element visited, trimmed, or "" when there is none. */
  function LastText(texts: seq<string>): string {
    if texts == [] then "" else TrimSpace(texts[|texts| - 1])
  }

  /** A `meta[name=...]` element that carries a `content` attribute. */
  predicate NamedWithContent(m: Meta, name: string) {
    m.name == Some(name) && m.content.Some?
  }

  /** The trimmed content of the last `meta[name=...]` carrying content; a blank one overrides earlier ones. */
  function LastNamedContent(metas: seq<Meta>, name: string): (r: string)
    ensures r != "" ==> exists i :: 0 <= i < |metas| && NamedWithContent(metas[i], name)
    decreases |metas|
  {
    if metas == [] then ""
    else
      var m := metas[|metas| - 1];
      if NamedWithContent(m, name) then TrimSpace(m.content.value)
      else
        var r := LastNamedContent(metas[..|metas| - 1], name);
        assert forall i :: 0 <= i < |metas| - 1 ==> metas[..|metas| - 1][i] == metas[i];
        r
  }

  /** With no `meta[name=...]` carrying content, the value is "". */
  lemma {:induction false} LastNamedContentNone(metas: seq<Meta>, name: string)
    requires forall i :: 0 <= i < |metas| ==> !NamedWithContent(metas[i], name)
    ensures LastNamedContent(metas, name) == ""
    decreases |metas|
  {
    if metas != [] {
      var init := metas[..|metas| - 1];
      assert forall i :: 0 <= i < |init| ==> init[i] == metas[i];
      LastNamedContentNone(init, name);
    }
  }

  /**
   * The meta that wins is the last one with content: when no later one
   * carries content, its trimmed content is the value.
   */
  lemma {:induction false} LastNamedContentAt(metas: seq<Meta>, name: string, i: int)
    requires 0 <= i < |metas| && NamedWithContent(metas[i], name)
    requires forall j :: i < j < |metas| ==> !NamedWithContent(metas[j], name)
    ensures LastNamedContent(metas, name) == TrimSpace(metas[i].content.value)
    decreases |metas|
  {
    var n := |metas| - 1;
    if i < n {
      var init := metas[..n];
      assert !NamedWithContent(metas[n], name);
      assert LastNamedContent(metas, name) == LastNamedContent(init, name);
      assert init[i] == metas[i];
      assert forall j :: i < j < |init| ==> init[j] == metas[j];
      LastNamedContentAt(init, name, i);
    }
  }

  /**
   * `ExtractMetadataOnly`: the last `<title>`, the last description meta, the
   * readability metadata, images and videos; never any content.
   */
  function ExtractMetadataOnly(
    clean: string -> string, titles: seq<string>, metas: seq<Meta>,
    article: Option<ReadabilityArticle>, images: seq<Image>, videos: seq<Video>): (r: ScrapeResponse)
    ensures r.content == ""
    ensures r.quality == Quality(10, 0.0, 0, 0, false, 0.0, 0)
    ensures r.readingTime == ReadabilityMetadata(article).readingTime
    ensures r.images == images && r.videos == videos
    ensures LastText(titles) == "" ==> r.title == ""
    ensures r.title == SanitizeText(clean, LastText(titles))
    ensures r.description == SanitizeText(clean, LastNamedContent(metas, Constants.MetaDesc))
    ensures var md := ReadabilityMetadata(article);
      r.author == md.author && r.publishDate == md.publishDate && r.excerpt == md.excerpt &&
      r.language == md.language && r.textLength == md.textLength
  {
    var md := ReadabilityMetadata(article);
    ScrapeResponse(
      SanitizeText(clean, LastText(titles)),
      SanitizeText(clean, LastNamedContent(metas, Constants.MetaDesc)),
      "",
      images, videos, Metadata("", 0),
      md.author, md.publishDate, md.excerpt, md.readingTime, md.language, md.textLength,
      Quality(10, 0.0, 0, 0, false, 0.0, 0))
  }

  // ---------------------------------------------------------------------------
  // The JSON-LD strategy

  /**
   * The result built from a found JSON-LD article: the body is the content,
   * the description stands in for an empty body, and structured data earns
   * 10 points over the quality score of that content (`quality`).
   */
  function JsonLdResult(
    clean: string -> string, headline: string, body: string, description: string,
    quality: Quality, images: seq<Image>, videos: seq<Video>): (r: ScrapeResponse)
    ensures r.quality.score == quality.score + 10
    ensures r.content == SanitizeText(clean, if body != "" then body else description)
    ensures r.title == SanitizeText(clean, headline)
  {
    var content := if body == "" then description else body;
    EmptyResponse.(
      title := SanitizeText(clean, headline),
      description := SanitizeText(clean, description),
      content := SanitizeText(clean, content),
      images := images,
      videos := videos,
      quality := quality.(score := quality.score + 10))
  }

  // ---------------------------------------------------------------------------
  // Which strategies run

  /** A result that has neither title nor content. */
  predicate Blank(r: ScrapeResponse) {
    |r.title| == 0 && |r.content| == 0
  }

  /** The simple strategy runs when readability gave no content, no title, or a score under 30. */
  predicate NeedsSimple(r1: ScrapeResponse) {
    |r1.content| == 0 || |r1.title| == 0 || r1.quality.score < 30
  }

  predicate AllBlank(results: seq<ScrapeResponse>) {
    forall i :: 0 <= i < |results| ==> Blank(results[i])
  }

  /**
   * The results gathered before the metadata-only check: the JSON-LD result
   * when one was found, the readability result `r1`, and the simple result
   * `r2` when readability was weak.
   */
  function Gathered(jsonld: Option<ScrapeResponse>, r1: ScrapeResponse, r2: ScrapeResponse): (seq<ScrapeResponse>, seq<string>) {
    var (res0, str0) := if jsonld.Some? then ([jsonld.value], ["jsonld"]) else ([], []);
    var res1 := res0 + [r1];
    var str1 := str0 + ["readability"];
    if NeedsSimple(r1) then (res1 + [r2], str1 + ["simple"]) else (res1, str1)
  }

  /** All results and their strategy names, the metadata-only result `r3` last when everything before was blank. */
  function Plan(jsonld: Option<ScrapeResponse>, r1: ScrapeResponse, r2: ScrapeResponse, r3: ScrapeResponse): (seq<ScrapeResponse>, seq<string>) {
    var (res, strs) := Gathered(jsonld, r1, r2);
    if AllBlank(res) then (res + [r3], strs + ["metadata-only"]) else (res, strs)
  }

  /**
   * Each strategy runs under its own condition: JSON-LD iff an article was
   * found, readability always, simple iff readability was weak, and
   * metadata-only iff every earlier result was blank. Every result has its
   * strategy name at the same index.
   */
  lemma PlanGating(jsonld: Option<ScrapeResponse>, r1: ScrapeResponse, r2: ScrapeResponse, r3: ScrapeResponse)
    ensures var (res, strs) := Plan(jsonld, r1, r2, r3);
      |res| == |strs| &&
      ("jsonld" in strs <==> jsonld.Some?) &&
      "readability" in strs &&
      ("simple" in strs <==> NeedsSimple(r1)) &&
      ("metadata-only" in strs <==>
        (jsonld.None? || Blank(jsonld.value)) && Blank(r1) && (!NeedsSimple(r1) || Blank(r2)))
  {
    var (res, strs) := Gathered(jsonld, r1, r2);
    assert "metadata-only" !in strs;
    assert AllBlank(res) <==>
      (jsonld.None? || Blank(jsonld.value)) && Blank(r1) && (!NeedsSimple(r1) || Blank(r2)) by {
      if jsonld.Some? {
        assert res[0] == jsonld.value && res[1] == r1;
      } else {
        assert res[0] == r1;
      }
      if NeedsSimple(r1) {
        assert res[|res| - 1] == r2;
      }
    }
  }

  /** Metadata-only never runs without the simple strategy: a blank readability result has no title. */
  lemma MetadataOnlyAfterSimple(jsonld: Option<ScrapeResponse>, r1: ScrapeResponse, r2: ScrapeResponse, r3: ScrapeResponse)
    ensures var (_, strs) := Plan(jsonld, r1, r2, r3);
      "metadata-only" in strs ==> "simple" in strs
  {
    PlanGating(jsonld, r1, r2, r3);
  }

  /** The loop that decides whether every result so far is blank. */
  method AllEmpty(results: seq<ScrapeResponse>) returns (allEmpty: bool)
    ensures allEmpty <==> AllBlank(results)
  {
    allEmpty := true;
    for i := 0 to |results|
      invariant allEmpty <==> forall j :: 0 <= j < i ==> Blank(results[j])
    {
      if |results[i].title| > 0 || |results[i].content| > 0 {
        allEmpty := false;
        return;
      }
    }
  }

  // ---------------------------------------------------------------------------
  // selectBestResult

  datatype Selection = Selection(result: ScrapeResponse, strategy: string)

  /** The running state of the selection loop. */
  datatype Running = Running(best: Selection, bestScore: int)

  const Start := Running(Selection(EmptyResponse, ""), -1)

  function StrategyAt(strategies: seq<string>, i: int): string {
    if 0 <= i < |strategies| then strategies[i] else "unknown"
  }

  /** The quality score, 20 points for having both a title and content, and one point per 100 content bytes up to 50. */
  function Composite(r: ScrapeResponse): int {
    var both := if |r.title| > 0 && |r.content| > 0 then 20 else 0;
    var bonus := if |r.content| / 100 > 50 then 50 else |r.content| / 100;
    r.quality.score + both + bonus
  }

  /** The readability result gets 5 more points when it has content and comes within 10 points of the best so far. */
  function Adjusted(r: ScrapeResponse, strategy: string, bestScore: int): (score: int)
    ensures Composite(r) <= score <= Composite(r) + 5
    ensures score > Composite(r) ==> strategy == "readability"
  {
    var score := Composite(r);
    if strategy == "readability" && score >= bestScore - 10 && |r.content| > 0 then score + 5 else score
  }

  /** A result with a higher score, or the same score and strictly longer content, takes over. */
  predicate Replaces(score: int, r: ScrapeResponse, run: Running) {
    score > run.bestScore || (score == run.bestScore && |r.content| > |run.best.result.content|)
  }

  /** The selection state after the results, each with its strategy name at the same index. */
  function Select(results: seq<ScrapeResponse>, strategies: seq<string>): Running
    decreases |results|
  {
    if results == [] then Start
    else
      var i := |results| - 1;
      var run := Select(results[..i], strategies);
      var score := Adjusted(results[i], StrategyAt(strategies, i), run.bestScore);
      if Replaces(score, results[i], run) then Running(Selection(results[i], StrategyAt(strategies, i)), score)
      else run
  }

  /** The final best score is at least -1 and no smaller than any result's composite score. */
  lemma {:induction false} SelectDominates(results: seq<ScrapeResponse>, strategies: seq<string>)
    ensures Select(results, strategies).bestScore >= -1
    ensures forall i :: 0 <= i < |results| ==> Composite(results[i]) <= Select(results, strategies).bestScore
    decreases |results|
  {
    if results != [] {
      var init := results[..|results| - 1];
      SelectDominates(init, strategies);
      assert forall i :: 0 <= i < |init| ==> init[i] == results[i];
    }
  }

  /** The selection is the starting blank, or one of the results paired with its own strategy name. */
  lemma {:induction false} SelectPicksAResult(results: seq<ScrapeResponse>, strategies: seq<string>)
    ensures var run := Select(results, strategies);
      run == Start ||
      exists i :: 0 <= i < |results| && run.best == Selection(results[i], StrategyAt(strategies, i))
    decreases |results|
  {
    if results != [] {
      var init := results[..|results| - 1];
      SelectPicksAResult(init, strategies);
      assert forall i :: 0 <= i < |init| ==> init[i] == results[i];
    }
  }

  /** The best composite score among the results, -1 when there are none (the reference for the selection). */
  function MaxComposite(results: seq<ScrapeResponse>): int
    decreases |results|
  {
    if results == [] then -1
    else
      var m := MaxComposite(results[..|results| - 1]);
      var c := Composite(results[|results| - 1]);
      if c > m then c else m
  }

  /** Without a readability result the bonus never applies: the final score is the best composite score. */
  lemma {:induction false} SelectWithoutReadability(results: seq<ScrapeResponse>, strategies: seq<string>)
    requires forall i :: 0 <= i < |results| ==> StrategyAt(strategies, i) != "readability"
    ensures Select(results, strategies).bestScore == MaxComposite(results)
    decreases |results|
  {
    if results != [] {
      var init := results[..|results| - 1];
      forall i | 0 <= i < |init| ensures StrategyAt(strategies, i) != "readability" {
        assert StrategyAt(strategies, i) != "readability";
      }
      SelectWithoutReadability(init, strategies);
    }
  }

  /**
   * The score kept is the chosen result's own adjusted score: its composite
   * score, plus at most the 5-point readability bonus.
   */
  lemma {:induction false} SelectAttainsScore(results: seq<ScrapeResponse>, strategies: seq<string>)
    ensures var run := Select(results, strategies);
      run == Start ||
      (Composite(run.best.result) <= run.bestScore <= Composite(run.best.result) + 5 &&
       (run.bestScore > Composite(run.best.result) ==> run.best.strategy == "readability"))
    decreases |results|
  {
    if results != [] {
      SelectAttainsScore(results[..|results| - 1], strategies);
    }
  }

  /**
   * Result `i` is the one the replace rule settles on: it has the best
   * composite score, no result with that score has longer content, and every
   * earlier result with that score has strictly shorter content.
   */
  predicate FirstLongestBest(results: seq<ScrapeResponse>, i: int) {
    0 <= i < |results| && Composite(results[i]) == MaxComposite(results) &&
    (forall j :: 0 <= j < |results| && Composite(results[j]) == MaxComposite(results) ==>
      |results[j].content| <= |results[i].content|) &&
    (forall j :: 0 <= j < i && Composite(results[j]) == MaxComposite(results) ==>
      |results[j].content| < |results[i].content|)
  }

  lemma MaxCompositeBounds(results: seq<ScrapeResponse>)
    ensures forall j :: 0 <= j < |results| ==> Composite(results[j]) <= MaxComposite(results)
    ensures results != [] && MaxComposite(results) >= 0 ==>
      exists j :: 0 <= j < |results| && Composite(results[j]) == MaxComposite(results)
    decreases |results|
  {
    if results != [] {
      var init := results[..|results| - 1];
      MaxCompositeBounds(init);
      assert forall j :: 0 <= j < |init| ==> init[j] == results[j];
    }
  }

  /** A last result that beats or outlasts every earlier best-scoring one is the pick. */
  lemma NewPick(results: seq<ScrapeResponse>, i: int)
    requires results != [] && 0 <= i < |results| - 1
    requires var init := results[..|results| - 1]; var c := Composite(results[|results| - 1]);
      c > MaxComposite(init) ||
      (c == MaxComposite(init) && FirstLongestBest(init, i) &&
       |results[|results| - 1].content| > |results[i].content|)
    ensures FirstLongestBest(results, |results| - 1)
  {
    var init := results[..|results| - 1];
    MaxCompositeBounds(init);
    assert forall j :: 0 <= j < |init| ==> init[j] == results[j];
  }

  /** The same, when the earlier results hold no best-scoring candidate. */
  lemma FirstPick(results: seq<ScrapeResponse>)
    requires results != []
    requires Composite(results[|results| - 1]) > MaxComposite(results[..|results| - 1])
    ensures FirstLongestBest(results, |results| - 1)
  {
    var init := results[..|results| - 1];
    MaxCompositeBounds(init);
    assert forall j :: 0 <= j < |init| ==> init[j] == results[j];
  }

  /** A last result that neither beats nor outlasts the pick leaves it the pick. */
  lemma KeptPick(results: seq<ScrapeResponse>, i: int)
    requires results != [] && 0 <= i < |results| - 1
    requires var init := results[..|results| - 1]; var c := Composite(results[|results| - 1]);
      FirstLongestBest(init, i) &&
      (c < MaxComposite(init) ||
       (c == MaxComposite(init) && |results[|results| - 1].content| <= |results[i].content|))
    ensures FirstLongestBest(results, i)
  {
    var init := results[..|results| - 1];
    assert forall j :: 0 <= j < |init| ==> init[j] == results[j];
  }

  /**
   * Without a readability result, and once some result scores at least 0,
   * the chosen result is the first of the longest-content results among those
   * with the best composite score, paired with its own strategy name.
   */
  lemma {:induction false} SelectWithoutReadabilityPick(results: seq<ScrapeResponse>, strategies: seq<string>)
    requires forall i :: 0 <= i < |results| ==> StrategyAt(strategies, i) != "readability"
    ensures MaxComposite(results) >= 0 ==>
      exists i :: FirstLongestBest(results, i) &&
        Select(results, strategies).best == Selection(results[i], StrategyAt(strategies, i))
    decreases |results|
  {
    if results != [] {
      var n := |results| - 1;
      var init := results[..n];
      forall j | 0 <= j < |init| ensures StrategyAt(strategies, j) != "readability" {
        assert StrategyAt(strategies, j) != "readability";
      }
      SelectWithoutReadability(init, strategies);
      SelectWithoutReadabilityPick(init, strategies);
      var run := Select(init, strategies);
      var m := MaxComposite(init);
      var c := Composite(results[n]);
      var sn := StrategyAt(strategies, n);
      assert Adjusted(results[n], sn, run.bestScore) == c;
      if c > m {
        FirstPick(results);
        assert Select(results, strategies).best == Selection(results[n], sn);
      } else if m >= 0 {
        var i :| FirstLongestBest(init, i) && run.best == Selection(init[i], StrategyAt(strategies, i));
        assert init[i] == results[i];
        if c == m && |results[n].content| > |results[i].content| {
          NewPick(results, i);
          assert Select(results, strategies).best == Selection(results[n], sn);
        } else {
          KeptPick(results, i);
          assert Select(results, strategies).best == run.best;
        }
      }
    }
  }

  /** `selectBestResult`: "none" for no results, otherwise the running best. */
  method SelectBestResult(results: seq<ScrapeResponse>, strategies: seq<string>) returns (best: Selection)
    ensures results == [] ==> best == Selection(EmptyResponse, "none")
    ensures results != [] ==> best == Select(results, strategies).best
  {
    if |results| == 0 {
      return Selection(EmptyResponse, "none");
    }
    best := Selection(EmptyResponse, "");
    var bestScore := -1;
    for i := 0 to |results|
      invariant Running(best, bestScore) == Select(results[..i], strategies)
    {
      assert results[..i + 1][..i] == results[..i];
      var strategy := "unknown";
      if i < |strategies| {
        strategy := strategies[i];
      }
      var result := results[i];
      var score := result.quality.score;
      if |result.title| > 0 && |result.content| > 0 {
        score := score + 20;
      }
      var contentBonus := |result.content| / 100;
      if contentBonus > 50 {
        contentBonus := 50;
      }
      score := score + contentBonus;
      assert score == Composite(result);
      if strategy == "readability" && score >= bestScore - 10 && |result.content| > 0 {
        score := score + 5;
      }
      assert strategy == StrategyAt(strategies, i) && score == Adjusted(result, strategy, bestScore);
      if score > bestScore || (score == bestScore && |result.content| > |best.result.content|) {
        bestScore := score;
        best := Selection(result, strategy);
      }
    }
    assert results[..|results|] == results;
  }

  // ---------------------------------------------------------------------------
  // ExtractArticleWithMultipleStrategies

  /**
   * Runs the strategies and returns the best result. `found` and the three
   * strings are `ExtractJSONLD`'s answer, `jsonQuality` the quality score of
   * its content, `r1`, `r2` and `r3` the readability, simple and
   * metadata-only results.
   */
  method ExtractArticleWithMultipleStrategies(
    clean: string -> string, found: bool, headline: string, body: string, description: string,
    jsonQuality: Quality, images: seq<Image>, videos: seq<Video>,
    r1: ScrapeResponse, r2: ScrapeResponse, r3: ScrapeResponse)
    returns (best: ScrapeResponse, strategy: string)
    ensures var jsonld := if found then Some(JsonLdResult(clean, headline, body, description, jsonQuality, images, videos)) else None;
      var (res, strs) := Plan(jsonld, r1, r2, r3);
      Selection(best, strategy) == Select(res, strs).best
  {
    var jsonld: Option<ScrapeResponse> := None;
    var results: seq<ScrapeResponse> := [];
    var strategies: seq<string> := [];
    if found {
      var r0 := JsonLdResult(clean, headline, body, description, jsonQuality, images, videos);
      jsonld := Some(r0);
      results := results + [r0];
      strategies := strategies + ["jsonld"];
    }
    results := results + [r1];
    strategies := strategies + ["readability"];
    if |r1.content| == 0 || |r1.title| == 0 || r1.quality.score < 30 {
      results := results + [r2];
      strategies := strategies + ["simple"];
    }
    assert (results, strategies) == Gathered(jsonld, r1, r2) by {
      var (res0, str0) := if jsonld.Some? then ([jsonld.value], ["jsonld"]) else ([], []);
      if NeedsSimple(r1) {
        assert results == res0 + [r1] + [r2] && strategies == str0 + ["readability"] + ["simple"];
      } else {
        assert results == res0 + [r1] && strategies == str0 + ["readability"];
      }
    }
    var allEmpty := AllEmpty(results);
    if allEmpty {
      results := results + [r3];
      strategies := strategies + ["metadata-only"];
    }
    assert (results, strategies) == Plan(jsonld, r1, r2, r3);
    var sel := SelectBestResult(results, strategies);
    best, strategy := sel.result, sel.strategy;
  }
}
