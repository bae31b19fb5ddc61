/** The records the scraper produces: quality metrics, images, videos and the response itself. */
module Models {
  /** Content quality metrics; the two ratios are floating point in the service and are only carried here. */
  datatype Quality = Quality(
    score: int,
    textToHtmlRatio: real,
    paragraphCount: int,
    avgParagraphLength: int,
    hasHeaders: bool,
    linkDensity: real,
    wordCount: int)

  const ZeroQuality := Quality(0, 0.0, 0, 0, false, 0.0, 0)

  datatype Image = Image(url: string, alt: string)

  datatype Video = Video(url: string, provider: string, kind: string, title: string)

  /** Request metadata; the scrape timestamp is not modelled. */
  datatype Metadata = Metadata(url: string, durationMs: int)

  datatype ScrapeResponse = ScrapeResponse(
    title: string,
    description: string,
    content: string,
    images: seq<Image>,
    videos: seq<Video>,
    metadata: Metadata,
    author: string,
    publishDate: string,
    excerpt: string,
    readingTime: int,
    language: string,
    textLength: int,
    quality: Quality)

  const EmptyResponse := ScrapeResponse("", "", "", [], [], Metadata("", 0), "", "", "", 0, "", 0, ZeroQuality)

  /**
   * A candidate image before ranking. `score` is twice the service's
   * floating-point score, so that every bonus it adds (2.0, 1.5, 1.0, and
   * the floor of a base-10 logarithm) is a whole number.
   */
  datatype ImageCandidate = ImageCandidate(
    url: string,
    alt: string,
    width: int,
    height: int,
    inArticle: bool,
    badHint: bool,
    source: string,
    score: int,
    area: int)
}
