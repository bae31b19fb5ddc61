# Article scraper core, modelled in Dafny

This project models the decision logic of an article-extraction service
written in Go. The service fetches a web page, first over plain HTTP and then,
when that does not give an article, in a headless browser. From the HTML it
picks the article's title, description, text, images and videos, and it
serves the result over an HTTP endpoint on Cloud Run.

Browser driving, DOM parsing, HTTP and readability cannot be modelled. Every
effect of that kind becomes an input here: a captured page or nothing, a list
of meta elements in document order, a decoded JSON value, a remaining-time
integer, or a function standing for an oracle the code calls. What remains is
modelled as the code writes it. That covers the ordered rule chains, integer
scores, clamps, the in-place sort, the de-duplication sets, and the retry and
stability loops.

Modules, one file each:

- `Wrappers` (`wrappers.dfy`): `Option` and `Result`.
- `Text` (`text.dfy`): the Go string functions the code relies on, on ASCII strings:
  - `strings.TrimSpace`, `ToLower`, `Contains`, `ReplaceAll`, `Split` and `Join`;
  - `strconv.Atoi` and `Itoa` on 64-bit integers;
  - their laws (trimming is idempotent, `Split` and `Join` are inverse, `Atoi(Itoa(n)) == n`).
- `Json` (`json.dfy`): decoded JSON values and member lookup.
- `Models` and `Constants` (`models.dfy`, `constants.dfy`): the response types and shared constants.
- `Images` (`images.dfy`): the image candidate engine of `images.go`.
- `BrowserSnapshots` and `BrowserClient` (`browser_snapshots.dfy`, `browser_client.dfy`): the capture decision logic of `browser.go`.
- `ExtractorHelpers` and `Extractor` (`extractor_helpers.dfy`, `extractor.dfy`): the document helpers and the multi-strategy extractor.
- `Videos` (`videos.dfy`): the five video sources and the `seen` set they share.
- `Scraper` (`scraper.dfy`): the two-phase scrape under a time budget.
- `CloudRun` (`cloudrun.dfy`): the HTTP handler.

Imperative code stays imperative:

- In-place operations are methods proved against specification functions:
  - the bubble sort works on an `array`;
  - the snapshot list passed by pointer is the class `SnapshotLog`;
  - `strings.Builder` is the class `TextBuilder`;
  - the video extractor with its `seen` map is the class `VideoCollector`;
  - the handler with its `apiKeys` field is the class `CloudRunHandler`.
- A loop that updates state, or builds a result step by step, is a `while` or `for` loop with invariants.
- Pure search loops that return on the first hit are recursive predicates or functions:
  - the type-array loop of `isArticleType` is `AnyArticleName`;
  - the pattern loops of `LooksLikeChallengePage` and `hasArticleContent` are `ContainsAny`;
  - the `range articles` loop of `ExtractJSONLD` is `FirstQualifying`;
  - the type-array loop of `extractVideoFromJSONLD` is `FirstVideoName`.
- Properties are lemmas about the specification functions.

All durations are whole milliseconds. Character data is ASCII, which matches
Go's byte-length semantics.

## Model

| member | source | states |
|---|---|---|
| Images.PassesBasicFilters | internal/scraper/images.go:720-752 | With both sides positive: kept iff w > h, w ≥ 600, h ≥ 100, not an ad size, and not (bad hint and short side < 200). Otherwise: kept iff there is no bad hint. |
| Images.FloorLog10 | internal/scraper/images.go:967-981 | The digit count d satisfies 10^d ≤ x < 10^(d+1) for x ≥ 1, and is 0 below 10. |
| Images.Log10 | internal/scraper/images.go:967-981 | The divide-and-count loop returns ⌊log10 x⌋: 10^count ≤ x < 10^(count+1). |
| Images.FloorLog10Unique | internal/scraper/images.go:967-981 | The digit count is the only d with 10^d ≤ x < 10^(d+1). |
| Images.CalculateScore | internal/scraper/images.go:823-854 | The score (×2) is the flat part (in article, og/jsonld source, whitelisted ratio). When the area is positive, add 2·d for the d with 10^d ≤ area < 10^(d+1). |
| Images.ScoreOfPositiveArea | internal/scraper/images.go:848-851 | With a positive area, the score is the flat part plus twice the digit count of the area. |
| Images.TenfoldAreaScoresTwoMore | internal/scraper/images.go:848-851 | Making an image ten times wider, with the same ratio test, raises its score (×2) by exactly 2. |
| Images.KeptScoredMembers | internal/scraper/images.go:680-700 | An entry of the filtered list is exactly the scored form of some input candidate that is in scope and passes the basic filter. |
| Images.FilterArticleImages | internal/scraper/images.go:680-700 | The append loop keeps exactly the in-scope candidates that pass the basic filter, scored, in input order. |
| Images.SwapOutOfOrder | internal/scraper/images.go:862-865 | A swap of an out-of-order neighbour pair keeps the array a permutation of the original and keeps equal-rank items in their original order. |
| Images.SwapStep | internal/scraper/images.go:862-865 | A swap during a pass keeps the sorted suffix and the partition, carries the lowest item forward, and preserves the multiset. |
| Images.SwapPassState | internal/scraper/images.go:862-865 | Swapping an out-of-order pair moves the pass state (sorted suffix, partition, lowest item, stable permutation) one position on, and keeps the multiset. |
| Images.KeepPassState | internal/scraper/images.go:862-865 | Leaving an in-order pair moves the pass state one position on. |
| Images.BubblePass | internal/scraper/images.go:861-866 | One inner pass sorts one more suffix position, and keeps a stable permutation of the original. |
| Images.SortCandidates | internal/scraper/images.go:857-868 | The array ends non-increasing in (score, area), as a permutation of its old contents, with equal items in their original order. |
| Images.FirstUrlsDistinct | internal/scraper/images.go:875-881 | The URL order of getTopImages has no repeats. |
| Images.FirstUrlsAreInputUrls | internal/scraper/images.go:875-881 | A URL is in that order iff some candidate has it. |
| Images.FirstUrlsInFirstOccurrenceOrder | internal/scraper/images.go:875-881 | URLs appear in the order of their first occurrence among the candidates. |
| Images.KeptAltIsFirstNonEmpty | internal/scraper/images.go:875-888 | A URL's alt is the first non-empty alt among its candidates, and "" iff all of them are empty. |
| Images.GetTopImages | internal/scraper/images.go:871-899 | The map-and-slice loop returns TopImages: at most `limit` images, pairwise distinct URLs, each an input URL. |
| Images.RankImages | internal/scraper/images.go:93-101 | Filter, sort, then take the top 10: the result is TopImages of a ranked permutation of the kept candidates, with at most 10 distinct URLs, each from a kept candidate. |
| Images.RankedProvenance | internal/scraper/images.go:93-101 | Every URL taken from a permutation of the kept list belongs to a kept candidate. |
| Images.RankedPair | internal/scraper/images.go:857-868 | Two items, one outranking the other, have only one ranked order. |
| Images.TopImagesOfPair | internal/scraper/images.go:871-899 | Two distinct URLs give two images, in order, with their alts. |
| Images.ScenarioKept | internal/scraper/images_test.go:5-78 | Of the test's four images, the 1600×900 hero and the 1000×700 body image pass; the 600×900 portrait and the 550×300 image do not. |
| Images.ScenarioOutranks | internal/scraper/images_test.go:5-78 | In the test scenario the hero outranks the body image. |
| Images.ImagesTestScenario | internal/scraper/images_test.go:5-78 | Filtering the test's four candidates keeps [hero, body], and the hero outranks the body image. |
| Images.ImagesTestScenarioTopImages | internal/scraper/images_test.go:64-77 | The test's expected output: the hero image, then the body image, with their alt texts. |
| Images.BestWidthUnique | internal/scraper/images.go:477-492 | At most one srcset item is the best width pick. |
| Images.NotBetterThanPick | internal/scraper/images.go:477-492 | No srcset item beats the pick (closer to 1000, then wider, then earlier). |
| Images.ParseSrcset | internal/scraper/images.go:457-475 | The parse loop keeps exactly the items that match, in order. |
| Images.BestWidthIndex | internal/scraper/images.go:481-490 | The running-best loop returns the best width pick. |
| Images.PickFromSrcset | internal/scraper/images.go:457-493 | "" when no item parses. Otherwise the URL of the item whose width is closest to 1000, ties going to the wider, then to the earliest. |
| Images.LowerSliceContains | internal/scraper/images.go:548-591 | A keyword found in a lower-cased attribute is found in the lower-cased combined text. |
| Images.ClassOrIdTextInSectionText | internal/scraper/images.go:535-548 | A keyword in the class or id is in the combined section text. |
| Images.KeywordInClassOrIdExcludes | internal/scraper/images.go:535-592 | isExcludedSection (IsExcludedSection) holds for a section whose class or id contains an exclusion pattern. |
| Images.AnyLargeIff | internal/scraper/images.go:638-662 | "Some image wider than 400" iff one of the level's images is large. |
| Images.ScanImages | internal/scraper/images.go:638-662 | The scan loop finds a large image iff there is one, and counts the images of width 1..400. |
| Images.IsInLinkList | internal/scraper/images.go:615-677 | True iff one of the first 5 ancestors excludes: ≥ 3 links and ≥ 2 images, and either a list or nav tag, or (no large image, ≥ 2 small images and ≥ 6 links). |
| Images.ThumbnailGridExamples | internal/scraper/images.go:615-677 | 6 links over three 150-wide images exclude a level; one 800-wide image stops that. |
| Images.StripQueryIdempotent | internal/scraper/images.go:918-926 | Dropping the query twice is dropping it once, and no fragment marker is introduced. |
| Images.SplitFragmentOfJoined | internal/scraper/images.go:918-926 | Splitting off the fragment undoes appending it. |
| Images.CleanImageURLIdempotent | internal/scraper/images.go:918-926 | Cleaning an image URL twice is cleaning it once. |
| Images.CleanImageURL | internal/scraper/images.go:918-926 | The fragment is kept, the part before it loses its query, and a URL with neither query nor fragment is unchanged. |
| BrowserSnapshots.SnapshotLog.Append | internal/scraper/browser.go:1209-1218 | One snapshot is appended to the shared list, and nothing else changes. |
| BrowserSnapshots.SnapshotLog.AppendAll | internal/scraper/browser.go:816-819 | The periodic snapshots are appended in order. |
| BrowserSnapshots.BestIndex | internal/scraper/browser.go:1351-1398 | The chosen index is eligible (not a short application-error page) and has a non-negative stage priority. |
| BrowserSnapshots.BestIndexCharacterization | internal/scraper/browser.go:1351-1398 | getBestHTML picks k iff k is the best: eligible, highest priority, longest among those, first among equals. It picks nothing iff every eligible snapshot has a negative priority. |
| BrowserSnapshots.BestIsUnique | internal/scraper/browser.go:1351-1398 | The best snapshot is unique. |
| BrowserSnapshots.GetBestHTML | internal/scraper/browser.go:1351-1398 | The running-best loop returns Best: a snapshot of the input with non-negative stage priority, or nil. |
| BrowserSnapshots.NegativeStagesNeverChosen | internal/scraper/browser.go:1365-1393 | fallback, minimal-fallback, js-fetch-fallback, final and final-fallback are never chosen. |
| BrowserSnapshots.LoneFallbackHasNoBest | internal/scraper/browser.go:1365-1393 | A lone "fallback" snapshot gives no best snapshot. |
| BrowserSnapshots.PeriodicSnapshots | internal/scraper/browser.go:1455-1503 | Only non-empty reads are kept, as "periodic" snapshots; every one but the last is at most 500 long. |
| BrowserSnapshots.PeriodicStopsAtFirstLong | internal/scraper/browser.go:1486-1491 | When some read is longer than 500, capture stops at the first such read, and it is the last snapshot. |
| BrowserSnapshots.PeriodicFromReads | internal/scraper/browser.go:1470-1486 | Every periodic snapshot comes from a successful read. |
| BrowserSnapshots.CaptureHTMLPeriodically | internal/scraper/browser.go:1455-1503 | The ticker loop returns PeriodicSnapshots of its reads. |
| BrowserSnapshots.Stability | internal/scraper/browser.go:1191-1280 | A snapshot is produced iff something was captured; its stage is "stable" or the stage of the exit (timeout or interruption). |
| BrowserSnapshots.WaitForContentStability | internal/scraper/browser.go:1191-1280 | The state-machine loop returns Stability, and appends exactly that one snapshot (if any) to the shared list. |
| BrowserSnapshots.TrailingRun | internal/scraper/browser.go:1240-1277 | Three small changes at the end of the length history make a stable run. |
| BrowserSnapshots.StableRunFrom | internal/scraper/browser.go:1240-1277 | A "stable" exit means the non-empty lengths read so far end in a stable run. |
| BrowserSnapshots.StableNeedsThreeSmallChanges | internal/scraper/browser.go:1240-1277 | "stable" needs at least 4 non-empty reads, the last 3 of which each changed by < 5 %. |
| BrowserSnapshots.Clicks | internal/scraper/browser.go:490-578 | At most one click per attempt. |
| BrowserSnapshots.HandleConsentDialogs | internal/scraper/browser.go:490-578 | Exactly 3 evaluations. The error is the last evaluation's. The sleep is 2 s plus 1 s per click, so 2–5 s in all. |
| BrowserClient.NavTimeout | internal/scraper/browser.go:793-799 | 20 s with ≥ 25 s left; remaining − 5 s with 10 s to 25 s left; 5 s with less than 10 s left. Always in [5 s, 20 s]. |
| BrowserClient.DomContentWait | internal/scraper/browser.go:808-811 | 5 s iff ≥ 8 s are left, else 3 s. |
| BrowserClient.CloudflareWait | internal/scraper/browser.go:857-863 | 30 s with ≥ 35 s left; remaining − 5 s with 10 s to 35 s left; 5 s with less than 10 s left. Always in [5 s, 30 s]. |
| BrowserClient.ReadyStateWait | internal/scraper/browser.go:880-888 | 10 s with ≥ 15 s left; remaining − 5 s with 7 s to 15 s left; 2 s with less than 7 s left. Always in [2 s, 10 s]. |
| BrowserClient.NetworkIdleWait | internal/scraper/browser.go:910-922 | Skipped iff < 10 s are left, else 3 s, which still leaves 3 s. |
| BrowserClient.ContentSelectorWait | internal/scraper/browser.go:925-941 | Skipped iff < 10 s are left; 5 s with 10 s to 13 s left; 10 s with ≥ 13 s left; every wait leaves 3 s. |
| BrowserClient.ChallengeWait | internal/scraper/browser.go:1584-1603 | 30 s without a deadline. Otherwise remaining − 5 s clamped to [3 s, 30 s], and 3 s when at most 5 s remain. Always in [3 s, 30 s]. |
| BrowserClient.MaxRetries | internal/scraper/browser.go:158-166 | 3 attempts iff ≥ 60 s are left, 1 iff < 30 s, else 2. |
| BrowserClient.BackoffDoubles | internal/scraper/browser.go:702-704 | Each backoff is twice the previous one: 2^k s before attempt k. |
| BrowserClient.CaptureErrorOnlyWhenEmpty | internal/scraper/browser.go:1121-1124 | captureHTMLSnapshots fails iff a navigation or processing error occurred and no snapshot was produced. |
| BrowserClient.SingleNegativeHasNoBest | internal/scraper/browser.go:1351-1398 | At most one snapshot, of negative priority, gives no best. |
| BrowserClient.FallbackIsNeverBest | internal/scraper/browser.go:1055-1113 | When no regular snapshot was taken, the fallback chain adds at most one snapshot, and it is never chosen. |
| BrowserClient.CaptureStage | internal/scraper/browser.go:952-972 | A stage snapshot is appended exactly when the read succeeded with non-blank (trimmed) HTML. |
| BrowserClient.ProcessingPhase | internal/scraper/browser.go:866-1040 | The processing run gives the phase error, the current and final URLs, and appends after-consent, after-scroll and the stability snapshot (that one only without an error). |
| BrowserClient.FallbackChain | internal/scraper/browser.go:1055-1113 | The fallback chain appends FallbackSnapshots: the captured HTML, else minimal navigation, else the JS fetch. |
| BrowserClient.PrimarySnapshotsSplit | internal/scraper/browser.go:764-1040 | The early and processing snapshots together are the primary snapshots. |
| BrowserClient.CaptureHTMLSnapshots | internal/scraper/browser.go:764-1128 | The whole capture method returns Capture of the browser's observations. |
| BrowserClient.RetryFromOutcome | internal/scraper/browser.go:696-759 | From any attempt reached by retrying, the loop's result satisfies RetryOutcome. |
| BrowserClient.RetryStopOutcome | internal/scraper/browser.go:722-758 | Where the loop stops, the result satisfies RetryOutcome. |
| BrowserClient.StopOnSuccess | internal/scraper/browser.go:722-726 | A stop on success returns that attempt's snapshots and URL, unchanged. |
| BrowserClient.StopOnFailure | internal/scraper/browser.go:728-758 | A stop on a failure returns the pooled result after k+1 attempts. |
| BrowserClient.RetryCharacterization | internal/scraper/browser.go:696-759 | At most maxRetries attempts, each earlier one failed and worth retrying. A success is returned as captured; an early stop means not worth retrying. Otherwise the best pooled snapshot alone, else the pool with the last error. |
| BrowserClient.WaitedStep | internal/scraper/browser.go:702-711 | The wait before attempt n+1 adds the backoff, or nothing once the parent is done. |
| BrowserClient.RetryNavigation | internal/scraper/browser.go:696-759 | The retry loop returns Retry, and waits exactly the backoff schedule. |
| BrowserClient.Pause | internal/scraper/browser.go:702-711 | The select waits the backoff, or nothing when the parent is done. |
| BrowserClient.DecideRetry | internal/scraper/browser.go:729-739 | Retry on a timeout or network error, or when there was no snapshot and attempts remain. |
| BrowserClient.PoolSnapshots | internal/scraper/browser.go:750-758 | The pooled ending: the best snapshot alone with no error, else the pool and the last error. |
| BrowserClient.NavigateAndExtract | internal/scraper/browser.go:156-194 | Retry with the time-based retry count, then the HTML of the best snapshot. |
| BrowserClient.RetryErrorMeansNavigationFailed | internal/scraper/browser.go:169-179 | A retry that ends in error gives "navigation failed: …". |
| BrowserClient.BestOfConcat | internal/scraper/browser.go:1351-1398 | A list of snapshots has no best iff neither part of it has one. |
| BrowserClient.PoolHasNoBest | internal/scraper/browser.go:715-716 | A pool of attempts none of which has a best snapshot has none either. |
| BrowserClient.NoUsableSnapshotNoHTML | internal/scraper/browser.go:156-194 | When no attempt has a usable snapshot, navigateAndExtract fails. |
| BrowserClient.LoneFallbackCaptureNoHTML | internal/scraper/browser.go:183-193 | A first attempt returning only a "fallback" snapshot ends in "no HTML captured from any snapshot". |
| BrowserClient.FirstUsable | internal/scraper/browser.go:115-134 | The first alternate whose HTML is non-empty and not a Cloudflare block. None iff there is none. |
| BrowserClient.ScrapeSuccessIsUsable | internal/scraper/browser.go:45-143 | Success HTML is non-empty, is not a Cloudflare block, and comes from the primary URL or one of the alternates. |
| BrowserClient.ScrapeWithOptions | internal/scraper/browser.go:45-143 | The method returns ScrapeOutcome: primary HTML first, with or without a navigation error, then the alternates in order. |
| BrowserClient.PageTestsIgnoreCase | internal/scraper/browser.go:465-480 | LooksLikeChallengePage and hasArticleContent both test the lower-cased HTML, so they ignore case. |
| BrowserClient.ArticleContentExample | internal/scraper/browser.go:657-684 | An upper-case `<MAIN>` tag counts as article content. |
| ExtractorHelpers.MetaValueFirstHit | internal/scraper/extractor_helpers.go:12-42 | The trimmed content of the first meta, in document order, whose property or name matches and whose trimmed content is non-empty. "" iff there is none. |
| ExtractorHelpers.FindMetaTag | internal/scraper/extractor_helpers.go:12-42 | The early-exit loop returns MetaValue. |
| ExtractorHelpers.StructuredTextEmptyIff | internal/scraper/extractor_helpers.go:45-71 | The text is empty iff no element emits: every one is blank or not a heading, p, li or blockquote. |
| ExtractorHelpers.StructuredTextStart | internal/scraper/extractor_helpers.go:48-68 | The text never starts with whitespace, so never with a newline. |
| ExtractorHelpers.TextBuilder.WriteString | internal/scraper/extractor_helpers.go:58-66 | The builder's content grows by exactly the string. |
| ExtractorHelpers.ExtractTextFromElements | internal/scraper/extractor_helpers.go:45-71 | The builder loop writes StructuredText. |
| ExtractorHelpers.WriteElement | internal/scraper/extractor_helpers.go:49-67 | A heading adds "\n\n" (when not first) + text + "\n". p, li and blockquote add "\n" (when not first) + text. |
| ExtractorHelpers.ExtractDescriptionFromParagraph | internal/scraper/extractor_helpers.go:99-110 | Non-empty iff the first paragraph exists and 50 < trimmed length < 300, and then it is the trimmed text. |
| ExtractorHelpers.FindContentContainer | internal/scraper/extractor_helpers.go:84-96 | The earliest selector, in the ContentSelectors order, that matches; the body iff none does. |
| ExtractorHelpers.SelectorsTrimmed | internal/scraper/extractor_helpers.go:85-88 | Splitting and trimming the selector list leaves each selector as written. |
| ExtractorHelpers.NewsArticleIsArticle | internal/scraper/extractor_helpers.go:174-200 | "newsarticle" contains "article". |
| ExtractorHelpers.ArticleNameIff | internal/scraper/extractor_helpers.go:174-200 | A type name qualifies iff its lower-cased form contains "article" or "blogposting". |
| ExtractorHelpers.AnyArticleNameIff | internal/scraper/extractor_helpers.go:187-197 | An array qualifies iff some string element does. |
| ExtractorHelpers.IsArticleTypeIff | internal/scraper/extractor_helpers.go:174-200 | isArticleType (IsArticleType) holds iff the type is a qualifying string, or an array with a qualifying string element; nil and other shapes fail. |
| ExtractorHelpers.DecodeAll | internal/scraper/extractor_helpers.go:156-158 | A decoded array has one article per element. |
| ExtractorHelpers.FirstQualifying | internal/scraper/extractor_helpers.go:156-167 | The first article-typed entry with a headline. None iff there is none. |
| ExtractorHelpers.ScriptArticleQualifies | internal/scraper/extractor_helpers.go:143-167 | A script's article is article-typed with a headline; the single object is tried before the array. |
| ExtractorHelpers.JsonLdFirst | internal/scraper/extractor_helpers.go:132-171 | The article of the first script that yields one; None iff no script does. |
| ExtractorHelpers.ExtractJSONLD | internal/scraper/extractor_helpers.go:132-171 | found iff some script yields an article. Its headline, body and description are returned, and all three are "" when not found. |
| ExtractorHelpers.FoundHeadlineNonEmpty | internal/scraper/extractor_helpers.go:146-163 | A found article has a non-empty headline. |
| ExtractorHelpers.DecodeMembersMistyped | internal/scraper/extractor_helpers.go:144-145 | A known field with a value of the wrong JSON type makes decoding fail. |
| ExtractorHelpers.MistypedMemberRejects | internal/scraper/extractor_helpers.go:143-167 | A script with such a field yields no article. |
| Extractor.SanitizeText | internal/scraper/extractor.go:137-147 | Empty text stays empty. |
| Extractor.TitleText | internal/scraper/extractor.go:150-176 | The title fallback chain: og:title, else twitter:title, else the first `<h1>`, else the last `<title>`. |
| Extractor.ExtractTitle | internal/scraper/extractor.go:150-176 | "" when no source offers a title, otherwise the cleaned raw title. |
| Extractor.DescriptionText | internal/scraper/extractor.go:179-201 | The description fallback chain: og:description, else twitter:description, else the description meta, else the first paragraph in the window. |
| Extractor.ExtractDescription | internal/scraper/extractor.go:179-201 | "" when no source offers a description, otherwise the cleaned raw description. |
| Extractor.TitleTextEmptyIff | internal/scraper/extractor.go:150-176 | The title is empty iff og:title, twitter:title, the first h1 and the last `<title>` all give nothing. |
| Extractor.OgTitleWins | internal/scraper/extractor.go:150-176 | A matching og:title is always the title. |
| Extractor.TitleTextTrimmed | internal/scraper/extractor.go:150-176 | The raw title is trimmed. |
| Extractor.MetaValueTrimmed | internal/scraper/extractor_helpers.go:12-42 | A meta value is trimmed. |
| Extractor.DescriptionTextEmptyIff | internal/scraper/extractor.go:179-201 | The description is empty iff og, twitter and meta description give nothing and the first paragraph is outside (50, 300). |
| Extractor.ParagraphDescriptionInWindow | internal/scraper/extractor.go:179-201 | Without the metas, the description is "" or 50 < length < 300. |
| Extractor.ReadingTime | internal/scraper/extractor.go:266-273 | 0 iff the length is ≤ 0; 1 minute for lengths 1 to 999; length/1000, rounded down, from 1000 on. |
| Extractor.ReadingTimeMonotone | internal/scraper/extractor.go:266-273 | Longer text never reads faster. |
| Extractor.ReadabilityMetadata | internal/scraper/extractor.go:259-289 | No title, description, content, images, videos or quality. A readability failure gives the empty response. Otherwise author, excerpt, language, text length and reading time come from the article, and the publish date is the formatted time or "". |
| Extractor.LastNamedContent | internal/scraper/extractor.go:516-521 | A non-empty value comes from a meta with that name and a content. |
| Extractor.LastNamedContentNone | internal/scraper/extractor.go:516-521 | With no description meta carrying content, the description is "". |
| Extractor.LastNamedContentAt | internal/scraper/extractor.go:516-521 | The value is the trimmed content of the last description meta carrying content: later ones overwrite earlier ones. |
| Extractor.ExtractMetadataOnly | internal/scraper/extractor.go:503-556 | Title = the sanitized last `<title>` text; description = the sanitized last description meta; content ""; quality score 10 with every other quality field zero; author, publish date, excerpt, language, text length and reading time from readability; images and videos as given. |
| Extractor.JsonLdResult | internal/scraper/extractor.go:369-394 | Score = quality + 10; content = body, else description; title from the headline. |
| Extractor.PlanGating | internal/scraper/extractor.go:347-443 | jsonld runs iff found. readability always runs. simple runs iff readability's content or title is empty or its score < 30. metadata-only runs iff every earlier result is blank. |
| Extractor.MetadataOnlyAfterSimple | internal/scraper/extractor.go:412-436 | metadata-only never runs without simple having run. |
| Extractor.AllEmpty | internal/scraper/extractor.go:422-428 | The check loop is true iff every result has empty title and content. |
| Extractor.Adjusted | internal/scraper/extractor.go:470-487 | The adjusted score lies between the composite and the composite + 5; only readability can get the bonus. |
| Extractor.SelectDominates | internal/scraper/extractor.go:452-499 | The best score is at least every result's composite score. |
| Extractor.SelectPicksAResult | internal/scraper/extractor.go:452-499 | The chosen result is one of the inputs, with its strategy, unless none was chosen. |
| Extractor.SelectWithoutReadability | internal/scraper/extractor.go:452-499 | With no readability result, the best score is the maximum composite. |
| Extractor.SelectAttainsScore | internal/scraper/extractor.go:466-495 | The kept score is the chosen result's own score: its composite, plus at most the 5-point bonus, which only readability gets. |
| Extractor.SelectWithoutReadabilityPick | internal/scraper/extractor.go:489-495 | Without readability (and some composite ≥ 0) the pick is the first of the longest-content results among those with the maximum composite, with its own strategy. |
| Extractor.SelectBestResult | internal/scraper/extractor.go:452-499 | Empty input gives the empty response with strategy "none"; otherwise the running-best loop returns Select. |
| Extractor.ExtractArticleWithMultipleStrategies | internal/scraper/extractor.go:347-443 | The best of the gated strategies, as Select picks it. |
| Videos.EmbedHasProvider | internal/scraper/videos.go:292-331 | IsVideoEmbed (isVideoEmbed) implies that DetectProvider (detectProvider) names a known provider. |
| Videos.DetectProviderHosts | internal/scraper/videos.go:305-331 | DetectProvider (detectProvider) gives youtube iff the URL contains youtube.com or youtu.be, and html5 iff no host rule applies and the extension test passes. |
| Videos.OfferStep | internal/scraper/videos.go:76-87 | Reporting a well-formed video keeps URLs distinct and seen. |
| Videos.OfferResolvedStep | internal/scraper/videos.go:76-87 | Resolving and reporting one URL adds at most one video. |
| Videos.LastContentIsLast | internal/scraper/videos.go:57-73 | The og:video URL is the content of the last og:video, og:video:url or og:video:secure_url. |
| Videos.FirstContentIsFirst | internal/scraper/videos.go:57-73 | The title is the first non-empty og:title. |
| Videos.FirstVideoName | internal/scraper/videos.go:156-168 | A type taken from an array contains "Video". |
| Videos.WalkNodeStep | internal/scraper/videos.go:137-208 | The recursive JSON-LD walk only adds well-formed jsonld videos and keeps URLs distinct. |
| Videos.WalkItemsStep | internal/scraper/videos.go:141-148 | Walking the @graph children, in order, does the same. |
| Videos.NonVideoNodeOnlyChildren | internal/scraper/videos.go:141-172 | A node whose type does not mention "Video" adds only its children's videos. |
| Videos.JsonLdVideosStep | internal/scraper/videos.go:120-134 | All JSON-LD scripts together only add jsonld videos. |
| Videos.EmbeddedVideosStep | internal/scraper/videos.go:211-242 | The iframe scan only adds embed URLs with a known provider. |
| Videos.OfferSourcesStep | internal/scraper/videos.go:273-285 | The `<source>` children only add html5 videos. |
| Videos.Html5VideosStep | internal/scraper/videos.go:245-289 | The video elements only add html5 videos, with provider html5. |
| Videos.ExtractVideosProperties | internal/scraper/videos.go:33-50 | URLs pairwise distinct. Grouped by source in the order og, twitter, jsonld, embedded, html5. Each video well formed. Open Graph and Twitter add at most one each. |
| Videos.VideoCollector.Report | internal/scraper/videos.go:76-87 | The collector's state becomes Offer: appended and seen, unless already seen. |
| Videos.VideoCollector.ExtractOGVideos | internal/scraper/videos.go:53-90 | The meta scan loop updates the state as OgVideos. |
| Videos.VideoCollector.ExtractTwitterPlayer | internal/scraper/videos.go:93-117 | The player scan updates the state as TwitterVideos. |
| Videos.VideoCollector.ExtractVideoFromJSONLD | internal/scraper/videos.go:137-208 | The recursive method updates the state as WalkNode. |
| Videos.VideoCollector.ExtractJSONLDVideos | internal/scraper/videos.go:120-134 | The script loop updates the state as JsonLdVideos. |
| Videos.VideoCollector.ExtractEmbeddedVideos | internal/scraper/videos.go:211-242 | The iframe loop updates the state as EmbeddedVideos. |
| Videos.VideoCollector.ExtractHTML5Videos | internal/scraper/videos.go:245-289 | The video-element loop updates the state as Html5Videos. |
| Videos.ExtractVideosFromHTML | internal/scraper/videos.go:33-50 | A fresh collector, run over the five sources, returns ExtractVideos. |
| Scraper.CalculateRemainingTime | internal/scraper/scraper.go:32-42 | Never negative; 300 s without a deadline; 0 iff the deadline has passed, otherwise exactly the time to the deadline. |
| Scraper.RemainingTimeShrinks | internal/scraper/scraper.go:32-42 | Later calls never report more time left. |
| Scraper.AdjustTimeoutForBudget | internal/scraper/scraper.go:45-51 | min(base, remaining × percent / 100). |
| Scraper.InvalidURLFirst | internal/scraper/scraper.go:56-58 | A URL parse error returns before any fetch, with an empty response. |
| Scraper.HttpPhaseRunsIff | internal/scraper/scraper.go:71-76 | The HTTP phase runs iff min(12 s, 80 % of the remaining time) ≥ 1 s, and then with a timeout in [1 s, 12 s]. |
| Scraper.NoDeadlineFullHttpTimeout | internal/scraper/scraper.go:71-76 | Without a deadline the HTTP phase gets the full 12 s. |
| Scraper.HttpAcceptedIff | internal/scraper/scraper.go:83-104 | The HTTP result is returned iff there was no fetch error, the trimmed HTML is ≥ 100 long, and the extraction has a title or content. |
| Scraper.BrowserTimeoutBounded | internal/scraper/scraper.go:117-134 | The browser timeout lies in [1 s, 60 s] and never exceeds remaining − 5 s. Once phase 2 is reached: refused with an insufficient-budget error iff remaining − 5 s < 1 s, and otherwise run with min(60 s, remaining − 5 s). |
| Scraper.SuccessHasContent | internal/scraper/scraper.go:83-153 | A successful scrape has a title or content. Once the browser has run, the scrape succeeds iff the browser reported no error and the extraction has a title or content, and then returns that extraction. |
| Scraper.FailurePrecedence | internal/scraper/scraper.go:159-177 | After a failed browser phase: the expired context first, then a Cloudflare block with the hostname, else the generic wrapped error. |
| Scraper.ScrapeSmart | internal/scraper/scraper.go:54-178 | The sequential procedure returns the response and error that Smart specifies. |
| CloudRun.LoadKeysFromSecretManager | cmd/cloudrun/main.go:81-86 | The lookup always fails. |
| CloudRun.KeepKeys | cmd/cloudrun/main.go:66-74 | Trimming and dropping empties never adds keys. |
| CloudRun.KeepKeysClean | cmd/cloudrun/main.go:66-74 | Every kept key is non-empty, trimmed and comma-free. |
| CloudRun.KeepKeysOfClean | cmd/cloudrun/main.go:66-74 | Clean keys are kept as they are, in order. |
| CloudRun.ParsedKeysClean | cmd/cloudrun/main.go:66-74 | Every parsed key is clean. |
| CloudRun.ParseKeyListJoin | cmd/cloudrun/main.go:66-74 | Parsing the comma-join of clean keys gives back those keys. |
| CloudRun.KeysFromEnvironment | cmd/cloudrun/main.go:43-77 | The keys are the parsed SCRAPER_API_KEYS, or none when it is empty. |
| CloudRun.CloudRunHandler.constructor | cmd/cloudrun/main.go:31-40 | The handler starts with the keys loadAPIKeys yields. |
| CloudRun.CloudRunHandler.LoadAPIKeys | cmd/cloudrun/main.go:43-77 | The append loop sets apiKeys to LoadedKeys. |
| CloudRun.CloudRunHandler.ValidateAPIKey | cmd/cloudrun/main.go:90-107 | True iff there are no keys, or the request key equals one of them. |
| CloudRun.QueryGet | cmd/cloudrun/main.go:133-140 | The first value of the parameter, or "" when it is absent. |
| CloudRun.RequestTimeout | cmd/cloudrun/main.go:155-169 | Always in [1000, 240000] ms. A parsed value in range is used as is; a parsed value above 240000 becomes 240000, one below 1000 becomes 1000. |
| CloudRun.DefaultTimeoutIsCapped | cmd/cloudrun/main.go:155-169 | An absent or unparsable timeout gives the 300000 default, capped to 240000. |
| CloudRun.SanitizeErrorMessage | cmd/cloudrun/main.go:238-284 | nil gives "unknown error". Verbose: unchanged up to 500 bytes, else the first 500 + "...". Non-verbose: the message with "/app/" and "/tmp/" removed, classified by Classify; at most 203 bytes. |
| CloudRun.Classify | cmd/cloudrun/main.go:261-283 | The first matching keyword group decides, in the order timeout, 403, 404, network/connection, all-URLs-failed, each giving its fixed text. With no keyword the message is kept, cut to 200 + "...". |
| CloudRun.PlainMessagePassesThrough | cmd/cloudrun/main.go:257-283 | A short message with no path and no keyword is shown as is. |
| CloudRun.DeadlineMessageIsTimeout | cmd/cloudrun/main.go:261-263 | A deadline error reads "timeout: request took too long". |
| CloudRun.ForbiddenMessageIsAccessDenied | cmd/cloudrun/main.go:261-266 | A message with 403 and no timeout keyword reads "access denied: site blocked the request". |
| CloudRun.HandleStatusCodes | cmd/cloudrun/main.go:110-234 | Every response carries the CORS headers, and its status is one of 200, 204, 400, 401, 405, 451, 500, 504. |
| CloudRun.OkIff | cmd/cloudrun/main.go:110-234 | 200 iff a GET with an accepted key and a parsable url whose scrape succeeds; the body is then the article with url and duration metadata. |
| CloudRun.KeyCheckedFirst | cmd/cloudrun/main.go:133-137 | A GET with a wrong key gets 401 whatever else it carries. |
| CloudRun.NoKeysOpen | cmd/cloudrun/main.go:90-107 | With no keys configured, no request is refused with 401. |
| CloudRun.DeadlineErrorIsGatewayTimeout | cmd/cloudrun/main.go:186-208 | Any non-Cloudflare error whose text contains "context deadline exceeded" is a 504. |
| CloudRun.ExpiryMentionsCause | internal/scraper/scraper.go:109-111 | An expiry error in either phase (HTTP here, browser at lines 159-161) wraps its cause, so any text in the cause is also in the message. |
| CloudRun.ExpiryIsGatewayTimeout | cmd/cloudrun/main.go:204-208 | An expiry in either phase whose cause contains "context deadline exceeded" is a 504. |
| CloudRun.DeadlineIsGatewayTimeout | cmd/cloudrun/main.go:204-208 | For every cause containing "context deadline exceeded", an expiry in either phase is a 504; this includes the bare deadline error. |
| CloudRun.CloudflareIsUnavailable | cmd/cloudrun/main.go:186-201 | A Cloudflare block is a 451 with the "cloudflare" provider, the domain and the metadata. |
| CloudRun.CloudRunHandler.Handler | cmd/cloudrun/main.go:110-234 | The handler method, with its step-by-step timeout, returns Handle's response. |

## Left out

- Browser, JavaScript and DOM:
  - chromedp, the injected scripts (consent clicker, paywall remover, network-idle promise, request blocking), goquery traversal, go-readability and bluemonday are not modelled.
  - Their outcomes are inputs: reads of the page, script results, parsed meta lists, decoded JSON, element lists.
- The unseen configuration and helpers:
  - the `config` regular expressions, the ad-size table and the aspect-ratio whitelist are parameters;
  - `CleanWhitespace`, `CleanTextContent` and `ScoreContentQuality` are parameters too;
  - the HTTP client (`FetchWithAlternatesGroup`, `GenerateAlternateURLs`) and `IsCloudflareBlock` are oracles.
- URL handling:
  - `url.Parse`, `ResolveReference` (section 5.2 of RFC 3986) and query-string decoding are inputs;
  - `cleanImageURL` is modelled as dropping the query component, kept apart from a fragment.
- Clocks, sleeps and randomness:
  - time is an input integer of milliseconds;
  - sleeps are not modelled, except as the total waited in the retry loop and the consent loop;
  - the random jitter in ScrapeSmart is left out.
- Concurrency:
  - the goroutine fan-in of images gives an unspecified candidate order, so any input order is allowed;
  - the goroutine in `navigateWithTimeout` and the mutexes are left out.
- Floating point:
  - image scores are integers scaled by two;
  - the 80 % budget factor is an integer percentage;
  - the 5 % stability test is the integer form |cur − prev| × 20 < prev, which differs from the float test only at the boundary.
- Images.CalculateScore: returns the score ×2 as an integer, and the aspect-ratio test is a parameter.
- Scraper.Message: the insufficient-budget text omits the remaining duration, because Go's `Duration` formatting is not modelled.
- Scraper.Message: a Cloudflare block renders as its cause, because the `CloudflareBlockError` type is not part of this model.
- Text.Lower: ASCII only. Go's Unicode case mapping is not modelled.
- JSON decoding and encoding:
  - decoding of scripts is an input;
  - the JSON encoding of responses, the `ScrapedAt` timestamp, and nil versus empty slices are not modelled.
- Server plumbing: `main()`, reading the environment, `errorResponse`'s encoding, and the Secret Manager result, which is a parameter of LoadAPIKeys because the lookup always fails.
- Legacy and unused code:
  - `navigateAndExtractLegacy`, `waitForContentStability`, `passesFilters`, `filterAndScoreCandidates`, `hasGoodAspectRatio`, `extractImgTags`, `normalizeParamKey`, `navigateAndExtractOptimized` and `handlePaywall`;
  - internal/scraper/browser_options.go, which only assembles opaque option values.
- ExtractMetadataOnly, ExtractArticleWithMultipleStrategies and ExtractVideosFromHTML: the early return on a goquery parse failure is not modelled, because parsing from a string reader does not fail.
- Text examples on literal strings, such as a challenge page, are not proved beyond ArticleContentExample, because the lower-casing of literals is costly to verify.
