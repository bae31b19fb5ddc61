/**
 * The two-phase scrape (internal/scraper/scraper.go): a plain HTTP fetch
 * first, the headless browser second, each under a timeout cut from the
 * caller's remaining time budget, and a fixed precedence among the ways the
 * whole scrape can fail.
 *
 * The clock, the HTTP client, the browser, the extractor and the
 * Cloudflare test are inputs (`Env`); a fetcher is a function from the
 * timeout it is given to what it returns. Durations are whole milliseconds.
 */
module Scraper {
  import opened Wrappers
  import opened Text
  import opened Models
  import Constants

  /** The budget assumed when the caller set no deadline. */
  const NoDeadlineBudgetMs: int := 300_000

  /** The cleanup time kept back from the browser phase. */
  const BrowserBufferMs: int := 5_000

  /** The shortest timeout worth starting a phase with. */
  const MinPhaseMs: int := 1_000

  /** The smallest trimmed HTML the HTTP phase accepts. */
  const MinHtmlLength: int := 100

  /** Time left until `deadline` at time `now`, never negative; a fixed budget without a deadline. */
  function CalculateRemainingTime(deadline: Option<int>, now: int): (r: int)
    ensures r >= 0
    ensures deadline.None? ==> r == NoDeadlineBudgetMs
    ensures deadline.Some? ==> (r == 0 <==> deadline.value <= now) && (r > 0 ==> now + r == deadline.value)
  {
    match deadline
    case None => NoDeadlineBudgetMs
    case Some(d) => if d - now > 0 then d - now else 0
  }

  /** The budget only shrinks as time passes. */
  lemma RemainingTimeShrinks(deadline: Option<int>, t0: int, t1: int)
    requires t0 <= t1
    ensures CalculateRemainingTime(deadline, t1) <= CalculateRemainingTime(deadline, t0)
  {
  }

  /** `min(base, remaining × percent / 100)`: the phase timeout never exceeds either bound and equals one of them. */
  function AdjustTimeoutForBudget(baseMs: int, remainingMs: int, percent: int): (r: int)
    ensures r <= baseMs && r <= remainingMs * percent / 100
    ensures r == baseMs || r == remainingMs * percent / 100
  {
    var maxAllowed := remainingMs * percent / 100;
    if maxAllowed < baseMs then maxAllowed else baseMs
  }

  /** What a fetcher returns: the HTML, the URL it ended at, and an error. */
  datatype Fetched = Fetched(html: string, finalURL: string, err: Option<string>)

  /**
   * The world the scrape runs in. `urlErr` is the URL parser's verdict,
   * `hostname` the parsed host, `nowAtStart`/`nowAtBrowser` the clock when
   * the budget is read, `expiredAfterHttp`/`expiredAfterBrowser` the
   * parent context's error when checked, `httpFetch` and `browser` the two
   * fetchers, `extract` the multi-strategy extractor and `isCloudflareBlock`
   * the test on the browser's error.
   */
  datatype Env = Env(
    urlErr: Option<string>,
    hostname: string,
    deadline: Option<int>,
    nowAtStart: int,
    nowAtBrowser: int,
    httpFetch: int -> Fetched,
    expiredAfterHttp: Option<string>,
    browser: int -> Fetched,
    expiredAfterBrowser: Option<string>,
    extract: (string, string) -> ScrapeResponse,
    isCloudflareBlock: string -> bool)

  datatype ScrapeError =
    | InvalidURL(cause: string)
    | ExpiredDuringHttp(cause: string)
    | InsufficientBudget(remainingMs: int)
    | ExpiredDuringBrowser(cause: string)
    | CloudflareBlocked(domain: string, cause: string)
    | BothPhasesFailed(cause: string)

  /** The error text; the remaining budget in the insufficient-budget message is not rendered. */
  function Message(e: ScrapeError): string {
    match e
    case InvalidURL(c) => "invalid URL: " + c
    case ExpiredDuringHttp(c) => "scraping failed: parent context expired during HTTP phase: " + c
    case InsufficientBudget(_) => "scraping failed: insufficient time budget for browser phase"
    case ExpiredDuringBrowser(c) => "scraping failed: parent context expired during browser phase: " + c
    case CloudflareBlocked(d, c) => c
    case BothPhasesFailed(c) => "scraping failed - HTTP phase failed, browser phase also failed: " + c
  }

  /** A scrape's result, and the timeouts each phase was started with (`None` when it did not run). */
  datatype Run = Run(response: ScrapeResponse, err: Option<ScrapeError>, httpTimeoutMs: Option<int>, browserTimeoutMs: Option<int>)

  /** Extraction found a title or some content. */
  predicate HasContent(r: ScrapeResponse) {
    |r.content| > 0 || |r.title| > 0
  }

  /** The HTTP timeout: 12 s, or 80% of the budget when that is smaller. */
  function HttpTimeout(remainingMs: int): int {
    AdjustTimeoutForBudget(Constants.HttpTimeoutMs, remainingMs, 80)
  }

  /** The HTTP phase's answer when it produced an acceptable result. */
  function HttpSuccess(env: Env, timeoutMs: int): Option<ScrapeResponse> {
    var f := env.httpFetch(timeoutMs);
    if f.err.None? && |f.html| > 0 && |TrimSpace(f.html)| >= MinHtmlLength then
      var result := env.extract(f.html, f.finalURL);
      if HasContent(result) then Some(result) else None
    else None
  }

  /** The browser phase and what follows it, given the budget read after the HTTP phase. */
  function BrowserPhase(env: Env, httpTimeout: Option<int>, remainingMs: int): Run {
    var maxBrowserTime := remainingMs - BrowserBufferMs;
    if maxBrowserTime < MinPhaseMs then Run(EmptyResponse, Some(InsufficientBudget(remainingMs)), httpTimeout, None)
    else
      var timeout := AdjustTimeoutForBudget(Constants.BrowserTimeoutMs, maxBrowserTime, 100);
      var f := env.browser(timeout);
      var result := env.extract(f.html, f.finalURL);
      if f.err.None? && HasContent(result) then Run(result, None, httpTimeout, Some(timeout))
      else
        var err := if f.err.Some? then f.err.value else "content extraction returned empty results";
        if env.expiredAfterBrowser.Some? then
          Run(EmptyResponse, Some(ExpiredDuringBrowser(env.expiredAfterBrowser.value)), httpTimeout, Some(timeout))
        else if env.isCloudflareBlock(err) then
          Run(EmptyResponse, Some(CloudflareBlocked(env.hostname, err)), httpTimeout, Some(timeout))
        else Run(EmptyResponse, Some(BothPhasesFailed(err)), httpTimeout, Some(timeout))
  }

  /** `ScrapeSmart` from beginning to end. */
  function Smart(env: Env): Run {
    if env.urlErr.Some? then Run(EmptyResponse, Some(InvalidURL(env.urlErr.value)), None, None)
    else
      var remaining := CalculateRemainingTime(env.deadline, env.nowAtStart);
      var httpTimeout := HttpTimeout(remaining);
      if httpTimeout < MinPhaseMs then
        BrowserPhase(env, None, CalculateRemainingTime(env.deadline, env.nowAtBrowser))
      else
        var ok := HttpSuccess(env, httpTimeout);
        if ok.Some? then Run(ok.value, None, Some(httpTimeout), None)
        else if env.expiredAfterHttp.Some? then
          Run(EmptyResponse, Some(ExpiredDuringHttp(env.expiredAfterHttp.value)), Some(httpTimeout), None)
        else BrowserPhase(env, Some(httpTimeout), CalculateRemainingTime(env.deadline, env.nowAtBrowser))
  }

  /** A URL that does not parse fails at once: neither fetcher runs. */
  lemma InvalidURLFirst(env: Env)
    requires env.urlErr.Some?
    ensures Smart(env) == Run(EmptyResponse, Some(InvalidURL(env.urlErr.value)), None, None)
  {
  }

  /** The HTTP phase runs iff 80% of the budget, capped at 12 s, is at least a second. */
  lemma HttpPhaseRunsIff(env: Env)
    requires env.urlErr.None?
    ensures Smart(env).httpTimeoutMs.Some? <==>
      HttpTimeout(CalculateRemainingTime(env.deadline, env.nowAtStart)) >= MinPhaseMs
    ensures Smart(env).httpTimeoutMs.Some? ==> MinPhaseMs <= Smart(env).httpTimeoutMs.value <= Constants.HttpTimeoutMs
  {
  }

  /** Without a deadline the HTTP phase always runs, with the full 12 s. */
  lemma NoDeadlineFullHttpTimeout(env: Env)
    requires env.urlErr.None? && env.deadline.None?
    ensures Smart(env).httpTimeoutMs == Some(Constants.HttpTimeoutMs)
  {
  }

  /** The scrape gets as far as the browser phase: the URL parses and the HTTP phase was skipped or failed without expiry. */
  predicate ReachesBrowser(env: Env) {
    env.urlErr.None? &&
    var httpTimeout := HttpTimeout(CalculateRemainingTime(env.deadline, env.nowAtStart));
    httpTimeout < MinPhaseMs || (HttpSuccess(env, httpTimeout).None? && env.expiredAfterHttp.None?)
  }

  /**
   * Whenever the browser runs, its timeout is at least a second and at most
   * both 60 s and the budget read after the HTTP phase less the 5 s buffer;
   * the browser is refused only for lack of budget. Once the browser phase
   * is reached it is refused exactly when less than a second is left after
   * the buffer, and otherwise runs with min(60 s, remaining - 5 s).
   */
  lemma BrowserTimeoutBounded(env: Env)
    ensures var run := Smart(env);
      var remaining := CalculateRemainingTime(env.deadline, env.nowAtBrowser);
      run.browserTimeoutMs.Some? ==>
        MinPhaseMs <= run.browserTimeoutMs.value <= Constants.BrowserTimeoutMs &&
        run.browserTimeoutMs.value <= remaining - BrowserBufferMs
    ensures var run := Smart(env);
      run.err.Some? && run.err.value.InsufficientBudget? ==>
        run.browserTimeoutMs.None? &&
        CalculateRemainingTime(env.deadline, env.nowAtBrowser) - BrowserBufferMs < MinPhaseMs
    ensures var run := Smart(env);
      var maxBrowserTime := CalculateRemainingTime(env.deadline, env.nowAtBrowser) - BrowserBufferMs;
      ReachesBrowser(env) ==>
        ((run.err.Some? && run.err.value.InsufficientBudget?) <==> maxBrowserTime < MinPhaseMs) &&
        (maxBrowserTime >= MinPhaseMs ==>
          run.browserTimeoutMs ==
            Some(if maxBrowserTime < Constants.BrowserTimeoutMs then maxBrowserTime else Constants.BrowserTimeoutMs))
  {
  }

  /**
   * A successful scrape always carries a title or content. Once the browser
   * has run, the scrape succeeds exactly when the browser reported no error
   * and extraction found a title or content, and the response is then that
   * extraction.
   */
  lemma SuccessHasContent(env: Env)
    ensures Smart(env).err.None? ==> HasContent(Smart(env).response)
    ensures var run := Smart(env);
      ReachesBrowser(env) && run.browserTimeoutMs.Some? ==>
        var f := env.browser(run.browserTimeoutMs.value);
        var result := env.extract(f.html, f.finalURL);
        (run.err.None? <==> f.err.None? && HasContent(result)) &&
        (run.err.None? ==> run.response == result)
  {
  }

  /**
   * The HTTP phase's result is returned iff the fetch succeeded with at least
   * 100 bytes of trimmed HTML and extraction found a title or content; then
   * the browser never runs.
   */
  lemma HttpAcceptedIff(env: Env)
    requires env.urlErr.None?
    requires HttpTimeout(CalculateRemainingTime(env.deadline, env.nowAtStart)) >= MinPhaseMs
    ensures var t := HttpTimeout(CalculateRemainingTime(env.deadline, env.nowAtStart));
      var f := env.httpFetch(t);
      (Smart(env).err.None? && Smart(env).browserTimeoutMs.None?) <==>
        f.err.None? && |TrimSpace(f.html)| >= MinHtmlLength && HasContent(env.extract(f.html, f.finalURL))
  {
    var t := HttpTimeout(CalculateRemainingTime(env.deadline, env.nowAtStart));
    var f := env.httpFetch(t);
    if |TrimSpace(f.html)| >= MinHtmlLength {
      assert |f.html| > 0;
    }
  }

  /**
   * After a failed browser phase the parent context's expiry is reported
   * first, then a Cloudflare block with the host name, then the browser's
   * error wrapped as a failure of both phases.
   */
  lemma FailurePrecedence(env: Env)
    requires Smart(env).browserTimeoutMs.Some? && Smart(env).err.Some?
    ensures var e := Smart(env).err.value;
      var t := Smart(env).browserTimeoutMs.value;
      var f := env.browser(t);
      var cause := if f.err.Some? then f.err.value else "content extraction returned empty results";
      (env.expiredAfterBrowser.Some? ==> e == ExpiredDuringBrowser(env.expiredAfterBrowser.value)) &&
      (env.expiredAfterBrowser.None? && env.isCloudflareBlock(cause) ==> e == CloudflareBlocked(env.hostname, cause)) &&
      (env.expiredAfterBrowser.None? && !env.isCloudflareBlock(cause) ==> e == BothPhasesFailed(cause))
  {
  }

  /** `ScrapeSmart` as a procedure: the budget and the error are reassigned as the phases go. */
  method ScrapeSmart(env: Env) returns (response: ScrapeResponse, err: Option<ScrapeError>)
    ensures response == Smart(env).response && err == Smart(env).err
  {
    if env.urlErr.Some? {
      return EmptyResponse, Some(InvalidURL(env.urlErr.value));
    }
    var remainingTime := CalculateRemainingTime(env.deadline, env.nowAtStart);
    var httpTimeout := AdjustTimeoutForBudget(Constants.HttpTimeoutMs, remainingTime, 80);
    if httpTimeout >= MinPhaseMs {
      var fetched := env.httpFetch(httpTimeout);
      if fetched.err.None? && |fetched.html| > 0 && |TrimSpace(fetched.html)| >= MinHtmlLength {
        var result := env.extract(fetched.html, fetched.finalURL);
        if |result.content| > 0 || |result.title| > 0 {
          return result, None;
        }
      }
      if env.expiredAfterHttp.Some? {
        return EmptyResponse, Some(ExpiredDuringHttp(env.expiredAfterHttp.value));
      }
    }
    remainingTime := CalculateRemainingTime(env.deadline, env.nowAtBrowser);
    var maxBrowserTime := remainingTime - BrowserBufferMs;
    if maxBrowserTime < MinPhaseMs {
      return EmptyResponse, Some(InsufficientBudget(remainingTime));
    }
    var browserTimeout := AdjustTimeoutForBudget(Constants.BrowserTimeoutMs, maxBrowserTime, 100);
    var fetched := env.browser(browserTimeout);
    var browserErr := fetched.err;
    if browserErr.None? {
      var result := env.extract(fetched.html, fetched.finalURL);
      if |result.content| > 0 || |result.title| > 0 {
        return result, None;
      }
      browserErr := Some("content extraction returned empty results");
    }
    if env.expiredAfterBrowser.Some? {
      return EmptyResponse, Some(ExpiredDuringBrowser(env.expiredAfterBrowser.value));
    }
    if env.isCloudflareBlock(browserErr.value) {
      return EmptyResponse, Some(CloudflareBlocked(env.hostname, browserErr.value));
    }
    return EmptyResponse, Some(BothPhasesFailed(browserErr.value));
  }
}
