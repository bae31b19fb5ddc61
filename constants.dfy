/** Shared constants of the scraper; durations are in milliseconds. */
module Constants {
  const HttpTimeoutMs: int := 12_000
  const BrowserTimeoutMs: int := 60_000
  const DefaultTimeoutMs: int := 15_000

  /** The content container selectors, in the order the comma-separated list gives them. */
  const ContentSelectors: seq<string> := [
    "[data-module='ArticleBody']", "[data-qa='article-body']", ".article__body",
    ".story__content-body", "article", "main", "[role='main']", ".content",
    ".post-content", ".entry-content", ".article-content", ".story-content"]

  const OgTitle := "og:title"
  const OgDescription := "og:description"
  const TwitterTitle := "twitter:title"
  const TwitterDesc := "twitter:description"
  const MetaDesc := "description"

  const DoubleNewline := "\n\n"
  const SingleNewline := "\n"

  const DefaultImageLimit: int := 3
  const TargetImageWidth: int := 1000
  const MinDescriptionLen: int := 50
  const MaxDescriptionLen: int := 300
}
