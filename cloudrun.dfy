/**
 * The Cloud Run HTTP handler (cmd/cloudrun/main.go): API keys loaded from
 * the environment, request routing and validation, the request timeout,
 * the mapping from a scrape's outcome to a status code and body, and the
 * sanitising of error messages shown to callers.
 *
 * The environment variables, the URL parser, the query string (already
 * decoded into name/value pairs), the scraper and the measured duration
 * are inputs.
 */
module CloudRun {
  import opened Wrappers
  import opened Text
  import opened Models
  import opened Scraper

  /** The headers set on every response. */
  const CorsHeaders: seq<(string, string)> := [
    ("Content-Type", "application/json; charset=utf-8"),
    ("Access-Control-Allow-Origin", "*"),
    ("Access-Control-Allow-Headers", "Content-Type"),
    ("Access-Control-Allow-Methods", "GET,OPTIONS")]

  const DefaultRequestTimeoutMs: int := 300_000
  const MaxRequestTimeoutMs: int := 240_000
  const MinRequestTimeoutMs: int := 1_000

  const VerboseLimit: int := 500
  const GenericLimit: int := 200

  // ---------------------------------------------------------------------------
  // API keys
  // ---------------------------------------------------------------------------

  /** The Secret Manager lookup: not implemented, it always fails. */
  function LoadKeysFromSecretManager(secretName: string): (r: Result<seq<string>, string>)
    ensures r.Err?
  {
    Err("Secret Manager integration not implemented - use SCRAPER_API_KEYS environment variable")
  }

  /** The trimmed, non-empty pieces of a split key list, in order. */
  function KeepKeys(pieces: seq<string>): (keys: seq<string>)
    ensures |keys| <= |pieces|
    decreases |pieces|
  {
    if pieces == [] then []
    else
      var key := TrimSpace(pieces[|pieces| - 1]);
      KeepKeys(pieces[..|pieces| - 1]) + (if key != "" then [key] else [])
  }

  /** The keys read from `SCRAPER_API_KEYS`: split at commas, trimmed, blanks dropped. */
  function ParseKeyList(keysStr: string): seq<string> {
    KeepKeys(Split(keysStr, ','))
  }

  /**
   * The keys a handler holds after loading, given what the Secret Manager
   * lookup returned: its keys when a secret is named and it yields some,
   * else the environment variable's.
   */
  function LoadedKeys(secretName: string, secret: Result<seq<string>, string>, keysEnv: string): seq<string> {
    if secretName != "" && secret.Ok? && |secret.value| > 0 then secret.value
    else if keysEnv == "" then []
    else ParseKeyList(keysEnv)
  }

  /** A key as the handler stores it: non-empty, without surrounding space and without a comma. */
  predicate CleanKey(k: string) {
    k != "" && TrimSpace(k) == k && ',' !in k
  }

  /** Every key kept from a list of comma-free pieces is clean. */
  lemma {:induction false} KeepKeysClean(pieces: seq<string>)
    requires forall k :: 0 <= k < |pieces| ==> ',' !in pieces[k]
    ensures forall k :: 0 <= k < |KeepKeys(pieces)| ==> CleanKey(KeepKeys(pieces)[k])
    decreases |pieces|
  {
    if pieces != [] {
      var init := pieces[..|pieces| - 1];
      var last := pieces[|pieces| - 1];
      assert forall k :: 0 <= k < |init| ==> init[k] == pieces[k];
      KeepKeysClean(init);
      TrimSpaceIdempotent(last);
      TrimSpaceTrims(last);
      var ti :| TrimmedAt(last, TrimSpace(last), ti);
      assert TrimmedAt(last, TrimSpace(last), ti);
      assert TrimSpace(last) == last[ti..ti + |TrimSpace(last)|];
    }
  }

  /** A list of clean keys survives the filter unchanged. */
  lemma {:induction false} KeepKeysOfClean(keys: seq<string>)
    requires forall k :: 0 <= k < |keys| ==> CleanKey(keys[k])
    ensures KeepKeys(keys) == keys
    decreases |keys|
  {
    if keys != [] {
      var init := keys[..|keys| - 1];
      assert forall k :: 0 <= k < |init| ==> init[k] == keys[k];
      KeepKeysOfClean(init);
      assert init + [keys[|keys| - 1]] == keys;
    }
  }

  /** Every loaded key is clean. */
  lemma ParsedKeysClean(keysStr: string)
    ensures forall k :: 0 <= k < |ParseKeyList(keysStr)| ==> CleanKey(ParseKeyList(keysStr)[k])
  {
    KeepKeysClean(Split(keysStr, ','));
  }

  /** Clean keys joined with commas are read back exactly. */
  lemma ParseKeyListJoin(keys: seq<string>)
    requires |keys| >= 1
    requires forall k :: 0 <= k < |keys| ==> CleanKey(keys[k])
    ensures ParseKeyList(Join(keys, ',')) == keys
  {
    SplitJoin(keys, ',');
    KeepKeysOfClean(keys);
  }

  /** Since the Secret Manager lookup always fails, the keys always come from the environment variable. */
  lemma KeysFromEnvironment(secretName: string, keysEnv: string)
    ensures LoadedKeys(secretName, LoadKeysFromSecretManager(secretName), keysEnv) ==
      (if keysEnv == "" then [] else ParseKeyList(keysEnv))
  {
  }

  /** A request key passes when no keys are configured, or when it equals one of them. */
  predicate KeyAccepted(keys: seq<string>, requestKey: string) {
    |keys| == 0 || requestKey in keys
  }

  // ---------------------------------------------------------------------------
  // Requests and responses
  // ---------------------------------------------------------------------------

  /** A request: its method and its decoded query parameters, in order. */
  datatype Request = Request(httpMethod: string, query: seq<(string, string)>)

  /** `url.Values.Get`: the first value given for `name`, or "" when there is none. */
  function QueryGet(query: seq<(string, string)>, name: string): (v: string)
    ensures (forall i :: 0 <= i < |query| ==> query[i].0 != name) ==> v == ""
    ensures forall i :: (0 <= i < |query| && query[i].0 == name &&
      (forall j :: 0 <= j < i ==> query[j].0 != name)) ==> v == query[i].1
  {
    if query == [] then ""
    else if query[0].0 == name then query[0].1
    else
      var v := QueryGet(query[1..], name);
      assert forall i :: 1 <= i < |query| ==> query[1..][i - 1] == query[i];
      v
  }

  /** The `timeout` parameter in milliseconds: 300000 by default, clamped to [1000, 240000]. */
  function RequestTimeout(timeoutStr: string): (ms: int)
    ensures MinRequestTimeoutMs <= ms <= MaxRequestTimeoutMs
    ensures (timeoutStr != "" && Atoi(timeoutStr).Some? &&
      MinRequestTimeoutMs <= Atoi(timeoutStr).value <= MaxRequestTimeoutMs) ==> ms == Atoi(timeoutStr).value
    ensures (timeoutStr != "" && Atoi(timeoutStr).Some? && Atoi(timeoutStr).value > MaxRequestTimeoutMs) ==>
      ms == MaxRequestTimeoutMs
    ensures (timeoutStr != "" && Atoi(timeoutStr).Some? && Atoi(timeoutStr).value < MinRequestTimeoutMs) ==>
      ms == MinRequestTimeoutMs
  {
    var parsed := if timeoutStr != "" && Atoi(timeoutStr).Some? then Atoi(timeoutStr).value else DefaultRequestTimeoutMs;
    if parsed > MaxRequestTimeoutMs then MaxRequestTimeoutMs
    else if parsed < MinRequestTimeoutMs then MinRequestTimeoutMs
    else parsed
  }

  /** The default of five minutes is always cut to the four-minute cap, as is any unparsable value. */
  lemma DefaultTimeoutIsCapped(timeoutStr: string)
    requires timeoutStr == "" || Atoi(timeoutStr).None?
    ensures RequestTimeout(timeoutStr) == MaxRequestTimeoutMs
  {
  }

  /** What a response carries. */
  datatype Body =
    | NoBody
    | ErrorBody(error: string)
    | BlockedBody(error: string, provider: string, domain: string, metadata: Metadata)
    | ArticleBody(article: ScrapeResponse)

  datatype Response = Response(status: int, headers: seq<(string, string)>, body: Body)

  /** `VERBOSE_ERRORS` or `DEBUG` set to "true". */
  predicate VerboseErrors(verboseEnv: string, debugEnv: string) {
    verboseEnv == "true" || debugEnv == "true"
  }

  /** The public text of a scrape error. */
  function SanitizeErrorMessage(err: Option<string>, verbose: bool): (r: string)
    ensures err.None? ==> r == "unknown error"
    ensures |r| <= VerboseLimit + 3
    ensures err.Some? && !verbose ==> |r| <= GenericLimit + 3
    ensures err.Some? && !verbose ==> r == Classify(StripPaths(err.value))
    ensures err.Some? && verbose ==>
      (|err.value| <= VerboseLimit ==> r == err.value) &&
      (|err.value| > VerboseLimit ==> r == err.value[..VerboseLimit] + "...")
  {
    if err.None? then "unknown error"
    else if verbose then
      if |err.value| > VerboseLimit then err.value[..VerboseLimit] + "..." else err.value
    else Classify(StripPaths(err.value))
  }

  /** The message with every "/app/" and then every "/tmp/" removed. */
  function StripPaths(m: string): string {
    ReplaceAll(ReplaceAll(m, "/app/", ""), "/tmp/", "")
  }

  /** The fixed texts of the non-verbose error categories. */
  const Categories: seq<string> := [
    "timeout: request took too long", "access denied: site blocked the request",
    "not found: URL does not exist", "network error: could not connect to target site",
    "all scraping attempts failed"]

  /** The non-verbose text of an error message with the paths removed: a fixed category, else the message cut to 200 bytes. */
  function Classify(m: string): (r: string)
    ensures |r| <= GenericLimit + 3
    ensures !NoCategory(m) ==> r in Categories
    ensures TimeoutWord(m) ==> r == Categories[0]
    ensures !TimeoutWord(m) && ForbiddenWord(m) ==> r == Categories[1]
    ensures !TimeoutWord(m) && !ForbiddenWord(m) && NotFoundWord(m) ==> r == Categories[2]
    ensures !TimeoutWord(m) && !ForbiddenWord(m) && !NotFoundWord(m) && NetworkWord(m) ==> r == Categories[3]
    ensures !TimeoutWord(m) && !ForbiddenWord(m) && !NotFoundWord(m) && !NetworkWord(m) && AllFailedWord(m) ==>
      r == Categories[4]
    ensures NoCategory(m) ==> (|m| <= GenericLimit ==> r == m) && (|m| > GenericLimit ==> r == m[..GenericLimit] + "...")
  {
    if Contains(m, "context deadline exceeded") || Contains(m, "timeout") then "timeout: request took too long"
    else if Contains(m, "HTTP 403") || Contains(m, "403") then "access denied: site blocked the request"
    else if Contains(m, "HTTP 404") || Contains(m, "404") then "not found: URL does not exist"
    else if Contains(m, "network") || Contains(m, "connection") then "network error: could not connect to target site"
    else if Contains(m, "all URLs failed") || Contains(m, "all alternate URLs") then "all scraping attempts failed"
    else if |m| > GenericLimit then m[..GenericLimit] + "..."
    else m
  }

  // The keywords of each category, tested in this order.
  predicate TimeoutWord(m: string) { Contains(m, "context deadline exceeded") || Contains(m, "timeout") }
  predicate ForbiddenWord(m: string) { Contains(m, "HTTP 403") || Contains(m, "403") }
  predicate NotFoundWord(m: string) { Contains(m, "HTTP 404") || Contains(m, "404") }
  predicate NetworkWord(m: string) { Contains(m, "network") || Contains(m, "connection") }
  predicate AllFailedWord(m: string) { Contains(m, "all URLs failed") || Contains(m, "all alternate URLs") }

  /** No keyword the non-verbose sanitiser maps to a fixed category. */
  predicate NoCategory(m: string) {
    !TimeoutWord(m) && !ForbiddenWord(m) && !NotFoundWord(m) && !NetworkWord(m) && !AllFailedWord(m)
  }

  /** A short message with no path and no keyword is shown verbatim. */
  lemma PlainMessagePassesThrough(m: string)
    requires !Contains(m, "/app/") && !Contains(m, "/tmp/") && NoCategory(m) && |m| <= GenericLimit
    ensures SanitizeErrorMessage(Some(m), false) == m
  {
    ReplaceAllAbsent(m, "/app/", "");
    ReplaceAllAbsent(m, "/tmp/", "");
  }

  /** A message naming a deadline, with no path in it, reads as a timeout. */
  lemma DeadlineMessageIsTimeout(m: string)
    requires !Contains(m, "/app/") && !Contains(m, "/tmp/") && Contains(m, "context deadline exceeded")
    ensures SanitizeErrorMessage(Some(m), false) == "timeout: request took too long"
  {
    ReplaceAllAbsent(m, "/app/", "");
    ReplaceAllAbsent(m, "/tmp/", "");
  }

  /** A message naming status 403, with no path and no timeout keyword, reads as an access denial. */
  lemma ForbiddenMessageIsAccessDenied(m: string)
    requires !Contains(m, "/app/") && !Contains(m, "/tmp/") && !TimeoutWord(m) && Contains(m, "403")
    ensures SanitizeErrorMessage(Some(m), false) == "access denied: site blocked the request"
  {
    ReplaceAllAbsent(m, "/app/", "");
    ReplaceAllAbsent(m, "/tmp/", "");
  }

  /** The timeout handed to the scraper for a request. */
  function ScrapeTimeout(req: Request): int {
    RequestTimeout(QueryGet(req.query, "timeout"))
  }

  /** The response for a finished scrape of `targetURL`. */
  function ScrapeOutcomeResponse(targetURL: string, result: ScrapeResponse, err: Option<ScrapeError>,
                                 durationMs: int, verbose: bool): Response
  {
    if err.Some? && err.value.CloudflareBlocked? then
      Response(451, CorsHeaders, BlockedBody("Blocked by site protection", "cloudflare", err.value.domain,
        Metadata(targetURL, durationMs)))
    else if err.Some? && Contains(Message(err.value), "context deadline exceeded") then
      Response(504, CorsHeaders, ErrorBody("Scrape took too long"))
    else if err.Some? then
      Response(500, CorsHeaders, ErrorBody("Failed to scrape: " + SanitizeErrorMessage(Some(Message(err.value)), verbose)))
    else
      Response(200, CorsHeaders, ArticleBody(result.(metadata := Metadata(targetURL, durationMs))))
  }

  /** The whole handler for a configured key list. */
  function Handle(keys: seq<string>, req: Request, urlParses: string -> bool,
                  scrape: (string, int) -> (ScrapeResponse, Option<ScrapeError>),
                  durationMs: int, verbose: bool): Response
  {
    var targetURL := QueryGet(req.query, "url");
    if req.httpMethod == "OPTIONS" then Response(204, CorsHeaders, NoBody)
    else if req.httpMethod != "GET" then Response(405, CorsHeaders, ErrorBody("Method not allowed"))
    else if !KeyAccepted(keys, QueryGet(req.query, "key")) then
      Response(401, CorsHeaders, ErrorBody("Invalid or missing API key"))
    else if targetURL == "" then Response(400, CorsHeaders, ErrorBody("Missing \"url\" query parameter"))
    else if !urlParses(targetURL) then Response(400, CorsHeaders, ErrorBody("Invalid URL format"))
    else
      var outcome := scrape(targetURL, ScrapeTimeout(req));
      ScrapeOutcomeResponse(targetURL, outcome.0, outcome.1, durationMs, verbose)
  }

  /** Every response carries the CORS headers and one of the handler's status codes. */
  lemma HandleStatusCodes(keys: seq<string>, req: Request, urlParses: string -> bool,
                          scrape: (string, int) -> (ScrapeResponse, Option<ScrapeError>), durationMs: int, verbose: bool)
    ensures var r := Handle(keys, req, urlParses, scrape, durationMs, verbose);
      r.headers == CorsHeaders && r.status in {200, 204, 400, 401, 405, 451, 500, 504}
  {
  }

  /**
   * A 200 is returned iff the request is a GET with an accepted key and a
   * parsable, non-empty `url`, and the scrape succeeded; its body is the
   * scrape's result with the request URL and duration as metadata.
   */
  lemma OkIff(keys: seq<string>, req: Request, urlParses: string -> bool,
              scrape: (string, int) -> (ScrapeResponse, Option<ScrapeError>), durationMs: int, verbose: bool)
    ensures var r := Handle(keys, req, urlParses, scrape, durationMs, verbose);
      var u := QueryGet(req.query, "url");
      r.status == 200 <==>
        req.httpMethod == "GET" && KeyAccepted(keys, QueryGet(req.query, "key")) && u != "" && urlParses(u) &&
        scrape(u, ScrapeTimeout(req)).1.None?
    ensures var r := Handle(keys, req, urlParses, scrape, durationMs, verbose);
      var u := QueryGet(req.query, "url");
      r.status == 200 ==>
        r.body == ArticleBody(scrape(u, ScrapeTimeout(req)).0.(metadata := Metadata(u, durationMs)))
  {
  }

  /** The key is checked before the URL: a GET with a refused key is a 401 whatever its `url`. */
  lemma KeyCheckedFirst(keys: seq<string>, req: Request, urlParses: string -> bool,
                        scrape: (string, int) -> (ScrapeResponse, Option<ScrapeError>), durationMs: int, verbose: bool)
    requires req.httpMethod == "GET" && |keys| > 0 && QueryGet(req.query, "key") !in keys
    ensures Handle(keys, req, urlParses, scrape, durationMs, verbose).status == 401
  {
  }

  /** With no keys configured every GET passes authentication. */
  lemma NoKeysOpen(req: Request, urlParses: string -> bool,
                   scrape: (string, int) -> (ScrapeResponse, Option<ScrapeError>), durationMs: int, verbose: bool)
    requires req.httpMethod == "GET"
    ensures Handle(LoadedKeys("", LoadKeysFromSecretManager(""), ""), req, urlParses, scrape, durationMs, verbose).status != 401
  {
  }

  /** An error other than a Cloudflare block whose text mentions the deadline is answered with 504. */
  lemma DeadlineErrorIsGatewayTimeout(targetURL: string, result: ScrapeResponse, e: ScrapeError, durationMs: int, verbose: bool)
    requires !e.CloudflareBlocked? && Contains(Message(e), "context deadline exceeded")
    ensures ScrapeOutcomeResponse(targetURL, result, Some(e), durationMs, verbose).status == 504
  {
  }

  /** An expiry in either phase keeps its cause in the error text. */
  lemma ExpiryMentionsCause(c: string, p: string)
    requires Contains(c, p)
    ensures Contains(Message(ExpiredDuringBrowser(c)), p) && Contains(Message(ExpiredDuringHttp(c)), p)
  {
    ContainsInConcat("scraping failed: parent context expired during browser phase: ", c, "", p);
    assert "scraping failed: parent context expired during browser phase: " + c + "" ==
      Message(ExpiredDuringBrowser(c));
    ContainsInConcat("scraping failed: parent context expired during HTTP phase: ", c, "", p);
    assert "scraping failed: parent context expired during HTTP phase: " + c + "" ==
      Message(ExpiredDuringHttp(c));
  }

  /** An expiry in either phase whose cause mentions the deadline is answered with 504. */
  lemma ExpiryIsGatewayTimeout(targetURL: string, result: ScrapeResponse, c: string, durationMs: int, verbose: bool)
    requires Contains(c, "context deadline exceeded")
    ensures ScrapeOutcomeResponse(targetURL, result, Some(ExpiredDuringBrowser(c)), durationMs, verbose).status == 504
    ensures ScrapeOutcomeResponse(targetURL, result, Some(ExpiredDuringHttp(c)), durationMs, verbose).status == 504
  {
    ExpiryMentionsCause(c, "context deadline exceeded");
    DeadlineErrorIsGatewayTimeout(targetURL, result, ExpiredDuringBrowser(c), durationMs, verbose);
    DeadlineErrorIsGatewayTimeout(targetURL, result, ExpiredDuringHttp(c), durationMs, verbose);
  }

  /**
   * A scrape whose parent context ran out of time is answered with 504: an
   * expiry in either phase whose cause mentions the deadline.
   */
  lemma DeadlineIsGatewayTimeout(targetURL: string, result: ScrapeResponse, durationMs: int, verbose: bool)
    ensures ScrapeOutcomeResponse(targetURL, result, Some(ExpiredDuringBrowser("context deadline exceeded")), durationMs, verbose).status == 504
    ensures ScrapeOutcomeResponse(targetURL, result, Some(ExpiredDuringHttp("context deadline exceeded")), durationMs, verbose).status == 504
    ensures forall c :: Contains(c, "context deadline exceeded") ==>
      ScrapeOutcomeResponse(targetURL, result, Some(ExpiredDuringBrowser(c)), durationMs, verbose).status == 504 &&
      ScrapeOutcomeResponse(targetURL, result, Some(ExpiredDuringHttp(c)), durationMs, verbose).status == 504
  {
    var p := "context deadline exceeded";
    assert OccursAt(p, p, 0);
    ExpiryIsGatewayTimeout(targetURL, result, p, durationMs, verbose);
    forall c | Contains(c, p)
      ensures ScrapeOutcomeResponse(targetURL, result, Some(ExpiredDuringBrowser(c)), durationMs, verbose).status == 504
      ensures ScrapeOutcomeResponse(targetURL, result, Some(ExpiredDuringHttp(c)), durationMs, verbose).status == 504
    {
      ExpiryIsGatewayTimeout(targetURL, result, c, durationMs, verbose);
    }
  }

  /** A Cloudflare block is answered with 451 naming the blocked host. */
  lemma CloudflareIsUnavailable(targetURL: string, result: ScrapeResponse, domain: string, cause: string,
                                durationMs: int, verbose: bool)
    ensures ScrapeOutcomeResponse(targetURL, result, Some(CloudflareBlocked(domain, cause)), durationMs, verbose) ==
      Response(451, CorsHeaders, BlockedBody("Blocked by site protection", "cloudflare", domain, Metadata(targetURL, durationMs)))
  {
  }

  // ---------------------------------------------------------------------------
  // The handler object
  // ---------------------------------------------------------------------------

  class CloudRunHandler {
    var apiKeys: seq<string>

    /** `NewCloudRunHandler`: a handler with its keys loaded. */
    constructor (secretName: string, keysEnv: string)
      ensures apiKeys == LoadedKeys(secretName, LoadKeysFromSecretManager(secretName), keysEnv)
    {
      apiKeys := [];
      new;
      LoadAPIKeys(secretName, LoadKeysFromSecretManager(secretName), keysEnv);
    }

    /** Replaces the key list with the one the environment gives. */
    method LoadAPIKeys(secretName: string, secret: Result<seq<string>, string>, keysEnv: string)
      modifies this
      ensures apiKeys == LoadedKeys(secretName, secret, keysEnv)
    {
      if secretName != "" {
        if secret.Ok? && |secret.value| > 0 {
          apiKeys := secret.value;
          return;
        }
      }
      if keysEnv == "" {
        apiKeys := [];
        return;
      }
      var pieces := Split(keysEnv, ',');
      apiKeys := [];
      for i := 0 to |pieces|
        invariant apiKeys == KeepKeys(pieces[..i])
      {
        assert pieces[..i + 1][..i] == pieces[..i];
        var key := TrimSpace(pieces[i]);
        if key != "" {
          apiKeys := apiKeys + [key];
        }
      }
      assert pieces[..|pieces|] == pieces;
    }

    /** Accepts the request key iff no keys are configured or it equals one of them. */
    method ValidateAPIKey(requestKey: string) returns (ok: bool)
      ensures ok <==> KeyAccepted(apiKeys, requestKey)
    {
      if |apiKeys| == 0 {
        return true;
      }
      for i := 0 to |apiKeys|
        invariant requestKey !in apiKeys[..i]
      {
        if requestKey == apiKeys[i] {
          return true;
        }
      }
      assert apiKeys[..|apiKeys|] == apiKeys;
      return false;
    }

    /** Serves one request. */
    method Handler(req: Request, urlParses: string -> bool,
                   scrape: (string, int) -> (ScrapeResponse, Option<ScrapeError>),
                   durationMs: int, verbose: bool) returns (resp: Response)
      ensures resp == Handle(apiKeys, req, urlParses, scrape, durationMs, verbose)
    {
      if req.httpMethod == "OPTIONS" {
        return Response(204, CorsHeaders, NoBody);
      }
      if req.httpMethod != "GET" {
        return Response(405, CorsHeaders, ErrorBody("Method not allowed"));
      }
      var requestKey := QueryGet(req.query, "key");
      var ok := ValidateAPIKey(requestKey);
      if !ok {
        return Response(401, CorsHeaders, ErrorBody("Invalid or missing API key"));
      }
      var targetURL := QueryGet(req.query, "url");
      if targetURL == "" {
        return Response(400, CorsHeaders, ErrorBody("Missing \"url\" query parameter"));
      }
      if !urlParses(targetURL) {
        return Response(400, CorsHeaders, ErrorBody("Invalid URL format"));
      }
      var timeoutMs := RequestTimeout(QueryGet(req.query, "timeout"));
      var outcome := scrape(targetURL, timeoutMs);
      var result, err := outcome.0, outcome.1;
      if err.Some? && err.value.CloudflareBlocked? {
        return Response(451, CorsHeaders, BlockedBody("Blocked by site protection", "cloudflare", err.value.domain,
          Metadata(targetURL, durationMs)));
      }
      if err.Some? && Contains(Message(err.value), "context deadline exceeded") {
        return Response(504, CorsHeaders, ErrorBody("Scrape took too long"));
      }
      if err.Some? {
        var errorMsg := SanitizeErrorMessage(Some(Message(err.value)), verbose);
        return Response(500, CorsHeaders, ErrorBody("Failed to scrape: " + errorMsg));
      }
      result := result.(metadata := Metadata(targetURL, durationMs));
      return Response(200, CorsHeaders, ArticleBody(result));
    }
  }
}
