/**
 * The decision logic of the headless-browser client around the browser
 * itself: the adaptive wait clamps, the capture pipeline of one navigation
 * with its fallback chain, the pooled retry loop, the choice of the HTML to
 * return for one URL, and the primary/alternate acceptance rule.
 *
 * What the browser reports (reads of the page, script outcomes, navigation
 * errors) and the remaining time budget are inputs; the `cfBlock` and
 * `appError` regular expressions are predicates on the HTML.
 */
module BrowserClient {
  import opened Wrappers
  import opened Text
  import opened BrowserSnapshots

  // ---------------------------------------------------------------------------
  // Wait clamps (all durations in milliseconds)

  /** Time held back for extraction and clean-up after a browser wait. */
  const CleanupMs: int := 5000

  /** The navigation timeout: 20 s, or what is left after the clean-up buffer, but at least 5 s. */
  function NavTimeout(remainingMs: int): (t: int)
    ensures 5000 <= t <= 20000
    ensures remainingMs >= 25000 ==> t == 20000
    ensures 10000 <= remainingMs < 25000 ==> t == remainingMs - CleanupMs
    ensures remainingMs < 10000 ==> t == 5000
    ensures remainingMs >= 10000 ==> t + CleanupMs <= remainingMs
  {
    var t := 20000;
    if remainingMs < t + 5000 then (if remainingMs - 5000 < 5000 then 5000 else remainingMs - 5000) else t
  }

  /** The wait for a Cloudflare challenge seen in the body: 30 s, clamped the same way. */
  function CloudflareWait(remainingMs: int): (t: int)
    ensures 5000 <= t <= 30000
    ensures remainingMs >= 35000 ==> t == 30000
    ensures 10000 <= remainingMs < 35000 ==> t == remainingMs - CleanupMs
    ensures remainingMs < 10000 ==> t == 5000
    ensures remainingMs >= 10000 ==> t + CleanupMs <= remainingMs
  {
    var t := 30000;
    if remainingMs < t + 5000 then (if remainingMs - 5000 < 5000 then 5000 else remainingMs - 5000) else t
  }

  /** The wait for `document.readyState`: 10 s, or what is left after 5 s, but at least 2 s. */
  function ReadyStateWait(remainingMs: int): (t: int)
    ensures 2000 <= t <= 10000
    ensures remainingMs >= 15000 ==> t == 10000
    ensures 7000 <= remainingMs < 15000 ==> t == remainingMs - CleanupMs
    ensures remainingMs < 7000 ==> t == 2000
    ensures remainingMs >= 7000 ==> t + CleanupMs <= remainingMs
  {
    var t := 10000;
    if remainingMs < t + 5000 then (if remainingMs - 5000 < 2000 then 2000 else remainingMs - 5000) else t
  }

  /** The network-idle wait: skipped under 10 s left, otherwise 3 s. */
  function NetworkIdleWait(remainingMs: int): (t: Option<int>)
    ensures t.None? <==> remainingMs < 10000
    ensures t.Some? ==> t.value == 3000 && t.value + 3000 <= remainingMs
  {
    if remainingMs < 10000 then None
    else Some(if remainingMs < 3000 + 3000 then 2000 else 3000)
  }

  /** The wait for an article-body selector: skipped under 10 s left, otherwise 10 s, 5 s or 3 s. */
  function ContentSelectorWait(remainingMs: int): (t: Option<int>)
    ensures t.None? <==> remainingMs < 10000
    ensures t.Some? ==> 5000 <= t.value <= 10000 && t.value + 3000 <= remainingMs
    ensures remainingMs >= 13000 ==> t == Some(10000)
    ensures 10000 <= remainingMs < 13000 ==> t == Some(5000)
  {
    if remainingMs < 10000 then None
    else
      var w := 10000;
      if remainingMs < w + 3000 then
        var w' := 5000;
        Some(if remainingMs < w' + 3000 then 3000 else w')
      else Some(w)
  }

  /** The DOMContentLoaded wait: 5 s, or 3 s with less than 8 s left. */
  function DomContentWait(remainingMs: int): (t: int)
    ensures t == 3000 || t == 5000
    ensures t == 5000 <==> remainingMs >= 8000
  {
    if remainingMs < 5000 + 3000 then 3000 else 5000
  }

  /**
   * `calculateChallengeWait`, the stability wait: 30 s without a deadline,
   * otherwise the time left after clean-up, between 3 s and 30 s.
   */
  function ChallengeWait(remainingMs: Option<int>): (t: int)
    ensures 3000 <= t <= 30000
    ensures remainingMs.None? ==> t == 30000
    ensures remainingMs.Some? && remainingMs.value <= CleanupMs ==> t == 3000
    ensures remainingMs.Some? && remainingMs.value > CleanupMs ==>
      t == if remainingMs.value - CleanupMs < 3000 then 3000
           else if remainingMs.value - CleanupMs > 30000 then 30000
           else remainingMs.value - CleanupMs
  {
    if remainingMs.Some? then
      var remaining := remainingMs.value;
      if remaining > CleanupMs then
        var maxWait := if remaining - CleanupMs < 30000 then remaining - CleanupMs else 30000;
        if maxWait < 3000 then 3000 else maxWait
      else 3000
    else 30000
  }

  /** The number of navigation attempts allowed with `remainingMs` left. */
  function MaxRetries(remainingMs: int): (r: int)
    ensures 1 <= r <= 3
    ensures r == 3 <==> remainingMs >= 60000
    ensures r == 1 <==> remainingMs < 30000
  {
    var m := 3;
    var m := if remainingMs < 60000 then 2 else m;
    if remainingMs < 30000 then 1 else m
  }

  function Pow2(k: nat): (p: nat)
    ensures p >= 1
  {
    if k == 0 then 1 else 2 * Pow2(k - 1)
  }

  /** The pause before attempt `k`: 2^k seconds. */
  function Backoff(k: nat): (ms: int)
    ensures ms >= 1000
  {
    Pow2(k) * 1000
  }

  /** Each pause is twice the one before it. */
  lemma BackoffDoubles(k: nat)
    requires k > 0
    ensures Backoff(k) == 2 * Backoff(k - 1)
  {
  }

  // ---------------------------------------------------------------------------
  // One navigation: captureHTMLSnapshots

  /** The outcome of `captureHTMLSnapshots`. */
  datatype CaptureResult = CaptureResult(snapshots: seq<Snapshot>, url: string, err: Option<string>)

  /**
   * What the browser reports during one `captureHTMLSnapshots` run, step by
   * step. A page read is `None` when reading the location or the HTML failed.
   */
  datatype CaptureInputs = CaptureInputs(
    navErr: Option<string>,                    // navigateWithTimeout
    periodic: seq<Option<Page>>,               // the reads of captureHTMLPeriodically
    initial: Option<Page>,                     // the "initial" read
    consent: int -> Result<bool, string>,      // each attempt of handleConsentDialogs
    pauseErr: Option<string>,                  // the 500 ms pause after the consent step
    afterConsent: Option<Page>,
    afterScroll: Option<Page>,
    stability: seq<Option<Page>>,              // the reads of the stability wait
    stabilityExit: Exit,
    location: string,                          // the final location read, "" when it failed
    minimal: Option<Page>,                     // the read of minimalNavigation
    jsHtml: string,                            // the result of fetchHTMLViaJS, "" on failure
    lastChance: Option<Page>)                  // the read of captureSnapshotFallback

  function HtmlOf(p: Option<Page>): string { if p.Some? then p.value.html else "" }

  /** The snapshot a step appends: only a successful read with non-blank HTML counts. */
  function StageSnapshot(p: Option<Page>, stage: string): seq<Snapshot> {
    if p.Some? && |TrimSpace(p.value.html)| > 0 then [SnapshotOf(p.value, stage)] else []
  }

  /** The error that ends the processing phase early: the consent step's, then the pause's. */
  function PhaseError(obs: CaptureInputs): Option<string> {
    var consentErr := ConsentError(obs.consent);
    if consentErr.Some? then consentErr else obs.pauseErr
  }

  /** The reads of the steps after the consent step; none of them runs once the phase failed. */
  function AfterConsent(obs: CaptureInputs): Option<Page> { if PhaseError(obs).None? then obs.afterConsent else None }
  function AfterScroll(obs: CaptureInputs): Option<Page> { if PhaseError(obs).None? then obs.afterScroll else None }

  /** The URL last seen: the initial read's, replaced by any later non-empty one. */
  function CurrentURL(obs: CaptureInputs): string {
    var u0 := if obs.initial.Some? then obs.initial.value.url else "";
    var ac := AfterConsent(obs);
    var u1 := if ac.Some? && ac.value.url != "" then ac.value.url else u0;
    var sc := AfterScroll(obs);
    if sc.Some? && sc.value.url != "" then sc.value.url else u1
  }

  /** The snapshots of the regular capture steps, in the order they are appended. */
  function PrimarySnapshots(obs: CaptureInputs): seq<Snapshot> {
    var stable := if PhaseError(obs).None? then Stability(obs.stability, obs.stabilityExit, 0, 0, None) else None;
    PeriodicSnapshots(obs.periodic) + StageSnapshot(obs.initial, "initial") +
    StageSnapshot(AfterConsent(obs), "after-consent") + StageSnapshot(AfterScroll(obs), "after-scroll") +
    (if stable.Some? then [stable.value] else [])
  }

  /** The fallback chain, used only when the regular steps produced nothing. */
  function FallbackSnapshots(obs: CaptureInputs, targetURL: string): seq<Snapshot> {
    var h1 := HtmlOf(AfterScroll(obs));
    var h2 := if h1 == "" then HtmlOf(AfterConsent(obs)) else h1;
    var best := if h2 == "" then HtmlOf(obs.initial) else h2;
    if best != "" then [Snapshot(best, CurrentURL(obs), "fallback", |TrimSpace(best)|)]
    else if obs.minimal.Some? && obs.minimal.value.html != "" then [SnapshotOf(obs.minimal.value, "minimal-fallback")]
    else if obs.jsHtml != "" then [Snapshot(obs.jsHtml, targetURL, "js-fetch-fallback", |TrimSpace(obs.jsHtml)|)]
    else StageSnapshot(obs.lastChance, "final-fallback")
  }

  function CaptureErrors(obs: CaptureInputs): seq<string> {
    (if obs.navErr.Some? then ["initial navigation failed: " + obs.navErr.value] else []) +
    (if PhaseError(obs).Some? then ["processing phase failed: " + PhaseError(obs).value] else [])
  }

  /** `captureHTMLSnapshots` as a function of what the browser reported. */
  function Capture(obs: CaptureInputs, targetURL: string): CaptureResult {
    var primary := PrimarySnapshots(obs);
    var snaps := if primary != [] then primary else FallbackSnapshots(obs, targetURL);
    var loc := if PhaseError(obs).None? then obs.location else "";
    var url := if loc != "" then loc else CurrentURL(obs);
    var errors := CaptureErrors(obs);
    CaptureResult(snaps, url, if |errors| > 0 && snaps == [] then Some("capture errors: [" + Join(errors, ' ') + "]") else None)
  }

  /** An error is reported only when something failed and nothing at all was captured. */
  lemma CaptureErrorOnlyWhenEmpty(obs: CaptureInputs, targetURL: string)
    ensures var r := Capture(obs, targetURL);
      r.err.Some? <==> (obs.navErr.Some? || PhaseError(obs).Some?) && r.snapshots == []
  {
  }

  lemma {:induction false} SingleNegativeHasNoBest(isAppError: string -> bool, snaps: seq<Snapshot>)
    requires |snaps| <= 1
    requires forall k :: 0 <= k < |snaps| ==> StagePriority(snaps[k].stage) < 0
    ensures Best(isAppError, snaps) == None
  {
    if |snaps| == 1 {
      assert snaps[..0] == [];
    }
  }

  /**
   * When the regular steps captured nothing, whatever the fallback chain adds
   * is a single snapshot that `getBestHTML` never picks.
   */
  lemma {:induction false} FallbackIsNeverBest(isAppError: string -> bool, obs: CaptureInputs, targetURL: string)
    requires PrimarySnapshots(obs) == []
    ensures |Capture(obs, targetURL).snapshots| <= 1
    ensures Best(isAppError, Capture(obs, targetURL).snapshots) == None
  {
    var snaps := Capture(obs, targetURL).snapshots;
    assert snaps == FallbackSnapshots(obs, targetURL);
    assert StagePriority("fallback") == -1 && StagePriority("minimal-fallback") == -1;
    assert StagePriority("js-fetch-fallback") == -2 && StagePriority("final-fallback") == -2;
    SingleNegativeHasNoBest(isAppError, snaps);
  }

  /** A page read made by one capture step, appended when its HTML is not blank. */
  method CaptureStage(log: SnapshotLog, p: Page, stage: string)
    modifies log
    ensures log.entries == old(log.entries) + StageSnapshot(Some(p), stage)
  {
    if |TrimSpace(p.html)| > 0 {
      log.Append(SnapshotOf(p, stage));
    }
  }

  /**
   * The processing phase: it stops at its first failing step (the consent
   * step or the pause after it); otherwise the after-consent and after-scroll
   * reads, the stability wait and the final location read follow.
   */
  method ProcessingPhase(log: SnapshotLog, obs: CaptureInputs, currentURL0: string)
    returns (err2: Option<string>, currentURL: string, finalURL: string)
    modifies log
    ensures err2 == PhaseError(obs)
    ensures currentURL == (var ac := AfterConsent(obs);
                           var u1 := if ac.Some? && ac.value.url != "" then ac.value.url else currentURL0;
                           var sc := AfterScroll(obs);
                           if sc.Some? && sc.value.url != "" then sc.value.url else u1)
    ensures finalURL == if err2.Some? then "" else if obs.location != "" then obs.location else currentURL
    ensures log.entries == old(log.entries) +
      StageSnapshot(AfterConsent(obs), "after-consent") + StageSnapshot(AfterScroll(obs), "after-scroll") +
      (var stable := if PhaseError(obs).None? then Stability(obs.stability, obs.stabilityExit, 0, 0, None) else None;
       if stable.Some? then [stable.value] else [])
  {
    currentURL, finalURL := currentURL0, "";
    var consentErr, _, _ := HandleConsentDialogs(obs.consent);
    if consentErr.Some? {
      return consentErr, currentURL, finalURL;
    }
    if obs.pauseErr.Some? {
      return obs.pauseErr, currentURL, finalURL;
    }
    err2 := None;
    if obs.afterConsent.Some? {
      var p := obs.afterConsent.value;
      if p.url != "" {
        currentURL := p.url;
      }
      CaptureStage(log, p, "after-consent");
    }
    if obs.afterScroll.Some? {
      var p := obs.afterScroll.value;
      if p.url != "" {
        currentURL := p.url;
      }
      CaptureStage(log, p, "after-scroll");
    }
    var _ := WaitForContentStability(log, obs.stability, obs.stabilityExit);
    finalURL := obs.location;
    if finalURL == "" {
      finalURL := currentURL;
    }
  }

  /** The fallback chain, tried in order when no snapshot was captured. */
  method FallbackChain(log: SnapshotLog, obs: CaptureInputs, targetURL: string)
    modifies log
    ensures log.entries == old(log.entries) + FallbackSnapshots(obs, targetURL)
  {
    var bestHTML := HtmlOf(AfterScroll(obs));
    if bestHTML == "" {
      bestHTML := HtmlOf(AfterConsent(obs));
    }
    if bestHTML == "" {
      bestHTML := HtmlOf(obs.initial);
    }
    if bestHTML != "" {
      log.Append(Snapshot(bestHTML, CurrentURL(obs), "fallback", |TrimSpace(bestHTML)|));
    } else if obs.minimal.Some? && obs.minimal.value.html != "" {
      log.Append(SnapshotOf(obs.minimal.value, "minimal-fallback"));
    } else if obs.jsHtml != "" {
      log.Append(Snapshot(obs.jsHtml, targetURL, "js-fetch-fallback", |TrimSpace(obs.jsHtml)|));
    } else if obs.lastChance.Some? {
      CaptureStage(log, obs.lastChance.value, "final-fallback");
    }
  }

  lemma PrimarySnapshotsSplit(obs: CaptureInputs, early: seq<Snapshot>, all: seq<Snapshot>)
    requires early == PeriodicSnapshots(obs.periodic) + StageSnapshot(obs.initial, "initial")
    requires all == early +
      StageSnapshot(AfterConsent(obs), "after-consent") + StageSnapshot(AfterScroll(obs), "after-scroll") +
      (var stable := if PhaseError(obs).None? then Stability(obs.stability, obs.stabilityExit, 0, 0, None) else None;
       if stable.Some? then [stable.value] else [])
    ensures all == PrimarySnapshots(obs)
  {
  }

  /** `captureHTMLSnapshots`: the capture steps append to one snapshot list in order. */
  method CaptureHTMLSnapshots(obs: CaptureInputs, targetURL: string) returns (result: CaptureResult)
    ensures result == Capture(obs, targetURL)
  {
    var log := new SnapshotLog();
    var captureErrors: seq<string> := [];
    var currentURL := "";

    var periodicSnaps := CaptureHTMLPeriodically(obs.periodic);
    if |periodicSnaps| > 0 {
      log.AppendAll(periodicSnaps);
    }
    assert log.entries == PeriodicSnapshots(obs.periodic);
    if obs.initial.Some? {
      currentURL := obs.initial.value.url;
      CaptureStage(log, obs.initial.value, "initial");
    }
    ghost var early := log.entries;
    assert early == PeriodicSnapshots(obs.periodic) + StageSnapshot(obs.initial, "initial");
    var err2, currentURL', finalURL := ProcessingPhase(log, obs, currentURL);
    currentURL := currentURL';
    PrimarySnapshotsSplit(obs, early, log.entries);
    assert currentURL == CurrentURL(obs);
    ghost var primary := log.entries;

    if obs.navErr.Some? {
      captureErrors := captureErrors + ["initial navigation failed: " + obs.navErr.value];
    }
    if err2.Some? {
      captureErrors := captureErrors + ["processing phase failed: " + err2.value];
    }
    if |log.entries| == 0 {
      FallbackChain(log, obs, targetURL);
    }
    if finalURL == "" {
      finalURL := currentURL;
    }
    var combinedErr: Option<string> := None;
    if |captureErrors| > 0 && |log.entries| == 0 {
      combinedErr := Some("capture errors: [" + Join(captureErrors, ' ') + "]");
    }
    assert captureErrors == CaptureErrors(obs);
    assert log.entries == if primary != [] then primary else FallbackSnapshots(obs, targetURL);
    result := CaptureResult(log.entries, finalURL, combinedErr);
  }

  // ---------------------------------------------------------------------------
  // The pooled retry loop: retryNavigation

  predicate Succeeded(c: CaptureResult) {
    c.err.None? && |c.snapshots| > 0
  }

  function ErrorText(err: Option<string>): string {
    if err.Some? then err.value else ""
  }

  /** An error worth another attempt: a timeout or a network failure. */
  predicate TransientError(e: string) {
    Contains(e, "timeout") || Contains(e, "context deadline exceeded") ||
    Contains(e, "network") || Contains(e, "connection")
  }

  predicate ShouldRetry(c: CaptureResult, attempt: int, maxRetries: int) {
    TransientError(ErrorText(c.err)) || (|c.snapshots| == 0 && attempt < maxRetries - 1)
  }

  /** The outcome of `retryNavigation` and the number of attempts it made. */
  datatype Retried = Retried(snapshots: seq<Snapshot>, url: string, err: Option<string>, attempts: nat)

  /** The end of the loop without a success: the best pooled snapshot alone, else the pool and the last error. */
  function Pooled(isAppError: string -> bool, pool: seq<Snapshot>, url: string, lastErr: Option<string>, attempts: nat): Retried {
    var best := Best(isAppError, pool);
    if |pool| > 0 && best.Some? then Retried([best.value], url, None, attempts)
    else Retried(pool, url, lastErr, attempts)
  }

  /** Where the retry loop stops: a captured success, or the pool once attempts run out or are not worth it. */
  datatype Stop =
    | Captured(snapshots: seq<Snapshot>, url: string, attempts: nat)
    | Exhausted(pool: seq<Snapshot>, url: string, lastErr: Option<string>, attempts: nat)

  /**
   * The retry loop from attempt `k` on, with the snapshots pooled so far,
   * the last non-empty URL and the last error; `capture(k)` is the outcome
   * of attempt `k`.
   */
  function RetryStop(capture: int -> CaptureResult, maxRetries: int,
                     k: nat, pool: seq<Snapshot>, url: string, lastErr: Option<string>): Stop
    decreases maxRetries - k
  {
    if k >= maxRetries then Exhausted(pool, url, lastErr, k)
    else
      var c := capture(k);
      var pool' := pool + c.snapshots;
      var url' := if c.url != "" then c.url else url;
      if Succeeded(c) then Captured(c.snapshots, c.url, k + 1)
      else if !ShouldRetry(c, k, maxRetries) || k >= maxRetries - 1 then Exhausted(pool', url', c.err, k + 1)
      else RetryStop(capture, maxRetries, k + 1, pool', url', c.err)
  }

  /** What the loop returns from where it stopped. */
  function Finish(isAppError: string -> bool, s: Stop): Retried {
    match s
    case Captured(snapshots, url, n) => Retried(snapshots, url, None, n)
    case Exhausted(pool, url, lastErr, n) => Pooled(isAppError, pool, url, lastErr, n)
  }

  function RetryFrom(isAppError: string -> bool, capture: int -> CaptureResult, maxRetries: int,
                     k: nat, pool: seq<Snapshot>, url: string, lastErr: Option<string>): Retried
  {
    Finish(isAppError, RetryStop(capture, maxRetries, k, pool, url, lastErr))
  }

  function Retry(isAppError: string -> bool, capture: int -> CaptureResult, maxRetries: int): Retried {
    RetryFrom(isAppError, capture, maxRetries, 0, [], "", None)
  }

  /** The snapshots of the first `n` attempts, in order. */
  function Pool(capture: int -> CaptureResult, n: nat): seq<Snapshot> {
    if n == 0 then [] else Pool(capture, n - 1) + capture(n - 1).snapshots
  }

  /** The last non-empty URL reported by the first `n` attempts. */
  function LastURL(capture: int -> CaptureResult, n: nat): string {
    if n == 0 then "" else if capture(n - 1).url != "" then capture(n - 1).url else LastURL(capture, n - 1)
  }

  /** What the loop promises once it has stopped after `n` attempts. */
  predicate RetryOutcome(isAppError: string -> bool, capture: int -> CaptureResult, maxRetries: int, r: Retried) {
    var n := r.attempts;
    (maxRetries <= 0 ==> n == 0) && (maxRetries > 0 ==> 1 <= n <= maxRetries) &&
    // every attempt but the last failed, and each of them was worth retrying
    (forall i :: 0 <= i < n - 1 ==> !Succeeded(capture(i)) && ShouldRetry(capture(i), i, maxRetries)) &&
    // the last attempt's success is returned exactly as captured
    (n > 0 && Succeeded(capture(n - 1)) ==> r == Retried(capture(n - 1).snapshots, capture(n - 1).url, None, n)) &&
    // an early stop on a failure means the failure was not worth retrying
    (n > 0 && !Succeeded(capture(n - 1)) && n < maxRetries ==> !ShouldRetry(capture(n - 1), n - 1, maxRetries)) &&
    // otherwise the pool decides
    (!(n > 0 && Succeeded(capture(n - 1))) ==>
      r == Pooled(isAppError, Pool(capture, n), LastURL(capture, n), if n > 0 then capture(n - 1).err else None, n))
  }

  lemma {:induction false} RetryFromOutcome(isAppError: string -> bool, capture: int -> CaptureResult, maxRetries: int, k: nat)
    requires k == 0 || (k < maxRetries && !Succeeded(capture(k - 1)) && ShouldRetry(capture(k - 1), k - 1, maxRetries))
    requires forall i :: 0 <= i < k ==> !Succeeded(capture(i)) && ShouldRetry(capture(i), i, maxRetries)
    ensures RetryOutcome(isAppError, capture, maxRetries,
      RetryFrom(isAppError, capture, maxRetries, k, Pool(capture, k), LastURL(capture, k), if k > 0 then capture(k - 1).err else None))
    decreases maxRetries - k
  {
    var lastErr := if k > 0 then capture(k - 1).err else None;
    if k < maxRetries && !Succeeded(capture(k)) && ShouldRetry(capture(k), k, maxRetries) && k < maxRetries - 1 {
      assert RetryFrom(isAppError, capture, maxRetries, k, Pool(capture, k), LastURL(capture, k), lastErr) ==
        RetryFrom(isAppError, capture, maxRetries, k + 1, Pool(capture, k + 1), LastURL(capture, k + 1), capture(k).err);
      RetryFromOutcome(isAppError, capture, maxRetries, k + 1);
    } else {
      RetryStopOutcome(isAppError, capture, maxRetries, k);
    }
  }

  /** The loop's outcome when it stops at attempt `k`. */
  lemma RetryStopOutcome(isAppError: string -> bool, capture: int -> CaptureResult, maxRetries: int, k: nat)
    requires k == 0 || (k < maxRetries && !Succeeded(capture(k - 1)) && ShouldRetry(capture(k - 1), k - 1, maxRetries))
    requires forall i :: 0 <= i < k ==> !Succeeded(capture(i)) && ShouldRetry(capture(i), i, maxRetries)
    requires !(k < maxRetries && !Succeeded(capture(k)) && ShouldRetry(capture(k), k, maxRetries) && k < maxRetries - 1)
    ensures RetryOutcome(isAppError, capture, maxRetries,
      RetryFrom(isAppError, capture, maxRetries, k, Pool(capture, k), LastURL(capture, k), if k > 0 then capture(k - 1).err else None))
  {
    var lastErr := if k > 0 then capture(k - 1).err else None;
    if k >= maxRetries {
      assert k == 0;
      assert RetryFrom(isAppError, capture, maxRetries, k, Pool(capture, k), LastURL(capture, k), lastErr) ==
        Pooled(isAppError, [], "", None, 0);
    } else if Succeeded(capture(k)) {
      StopOnSuccess(isAppError, capture, maxRetries, k);
    } else {
      StopOnFailure(isAppError, capture, maxRetries, k);
    }
  }

  lemma StopOnSuccess(isAppError: string -> bool, capture: int -> CaptureResult, maxRetries: int, k: nat)
    requires k < maxRetries && Succeeded(capture(k))
    requires forall i :: 0 <= i < k ==> !Succeeded(capture(i)) && ShouldRetry(capture(i), i, maxRetries)
    ensures RetryOutcome(isAppError, capture, maxRetries,
      RetryFrom(isAppError, capture, maxRetries, k, Pool(capture, k), LastURL(capture, k), if k > 0 then capture(k - 1).err else None))
  {
    var lastErr := if k > 0 then capture(k - 1).err else None;
    assert RetryStop(capture, maxRetries, k, Pool(capture, k), LastURL(capture, k), lastErr) ==
      Captured(capture(k).snapshots, capture(k).url, k + 1);
  }

  lemma StopOnFailure(isAppError: string -> bool, capture: int -> CaptureResult, maxRetries: int, k: nat)
    requires k < maxRetries && !Succeeded(capture(k))
    requires !ShouldRetry(capture(k), k, maxRetries) || k >= maxRetries - 1
    requires forall i :: 0 <= i < k ==> !Succeeded(capture(i)) && ShouldRetry(capture(i), i, maxRetries)
    ensures RetryOutcome(isAppError, capture, maxRetries,
      RetryFrom(isAppError, capture, maxRetries, k, Pool(capture, k), LastURL(capture, k), if k > 0 then capture(k - 1).err else None))
  {
    var lastErr := if k > 0 then capture(k - 1).err else None;
    assert Pool(capture, k + 1) == Pool(capture, k) + capture(k).snapshots;
    assert RetryStop(capture, maxRetries, k, Pool(capture, k), LastURL(capture, k), lastErr) ==
      Exhausted(Pool(capture, k + 1), LastURL(capture, k + 1), capture(k).err, k + 1);
  }

  /**
   * `retryNavigation` makes between one and `maxRetries` attempts, returns a
   * success exactly as captured, and otherwise the best pooled snapshot or
   * the pool with the last error.
   */
  lemma RetryCharacterization(isAppError: string -> bool, capture: int -> CaptureResult, maxRetries: int)
    ensures RetryOutcome(isAppError, capture, maxRetries, Retry(isAppError, capture, maxRetries))
  {
    RetryFromOutcome(isAppError, capture, maxRetries, 0);
  }

  /** The pauses taken before the attempts `1..n-1`; an expired parent context cuts a pause short. */
  function Waited(parentDone: int -> bool, n: int): int
    decreases n
  {
    if n <= 1 then 0 else Waited(parentDone, n - 1) + PauseMs(parentDone, n - 1)
  }

  lemma WaitedStep(parentDone: int -> bool, n: nat)
    ensures Waited(parentDone, n + 1) == if n == 0 then 0 else Waited(parentDone, n) + PauseMs(parentDone, n)
  {
  }

  /** The pause before attempt `k`, or none when the parent context has expired. */
  function PauseMs(parentDone: int -> bool, k: nat): int {
    if parentDone(k) then 0 else Backoff(k)
  }

  /**
   * `retryNavigation`. `parentDone(k)` says whether the parent context had
   * expired before attempt `k`: it only shortens the pause (the `break`
   * leaves the `select`, not the loop), so the attempts made do not depend
   * on it.
   */
  method RetryNavigation(isAppError: string -> bool, capture: int -> CaptureResult, maxRetries: int, parentDone: int -> bool)
    returns (r: Retried, waitedMs: int)
    ensures r == Retry(isAppError, capture, maxRetries)
    ensures waitedMs == Waited(parentDone, r.attempts)
  {
    var allSnapshots: seq<Snapshot> := [];
    var finalURL := "";
    var lastErr: Option<string> := None;
    waitedMs := 0;
    var attempt := 0;
    ghost var goal := RetryStop(capture, maxRetries, 0, [], "", None);
    while attempt < maxRetries
      invariant 0 <= attempt
      invariant (attempt == 0 && maxRetries <= 0) || attempt <= maxRetries
      invariant RetryStop(capture, maxRetries, attempt, allSnapshots, finalURL, lastErr) == goal
      invariant waitedMs == Waited(parentDone, attempt)
      decreases maxRetries - attempt
    {
      if attempt > 0 {
        var pause := Pause(parentDone, attempt);
        waitedMs := waitedMs + pause;
      } else {
        WaitedStep(parentDone, 0);
      }
      assert waitedMs == Waited(parentDone, attempt + 1);
      var c := capture(attempt);
      ghost var pool, url := allSnapshots, finalURL;
      allSnapshots := allSnapshots + c.snapshots;
      if c.url != "" {
        finalURL := c.url;
      }
      if c.err.None? && |c.snapshots| > 0 {
        assert goal == Captured(c.snapshots, c.url, attempt + 1);
        return Retried(c.snapshots, c.url, None, attempt + 1), waitedMs;
      }
      assert goal == RetryStop(capture, maxRetries, attempt, pool, url, lastErr);
      lastErr := c.err;
      var shouldRetry := DecideRetry(c, attempt, maxRetries);
      if !shouldRetry || attempt >= maxRetries - 1 {
        attempt := attempt + 1;
        assert goal == Exhausted(allSnapshots, finalURL, lastErr, attempt);
        break;
      }
      attempt := attempt + 1;
    }
    assert goal == Exhausted(allSnapshots, finalURL, lastErr, attempt);
    r := PoolSnapshots(isAppError, allSnapshots, finalURL, lastErr, attempt);
  }

  /** The `select` between the backoff timer and the parent context: the time actually waited. */
  method Pause(parentDone: int -> bool, attempt: nat) returns (ms: int)
    requires attempt > 0
    ensures ms == PauseMs(parentDone, attempt)
    ensures ms == Waited(parentDone, attempt + 1) - Waited(parentDone, attempt)
  {
    ms := 0;
    if !parentDone(attempt) {
      ms := Backoff(attempt);
    }
    WaitedStep(parentDone, attempt);
  }

  /** Whether a failed attempt is worth another: a transient error, or no snapshot with attempts left. */
  method DecideRetry(c: CaptureResult, attempt: int, maxRetries: int) returns (shouldRetry: bool)
    ensures shouldRetry == ShouldRetry(c, attempt, maxRetries)
  {
    var errStr := ErrorText(c.err);
    shouldRetry := TransientError(errStr) || (|c.snapshots| == 0 && attempt < maxRetries - 1);
  }

  /** The end of `retryNavigation` without a success. */
  method PoolSnapshots(isAppError: string -> bool, allSnapshots: seq<Snapshot>, finalURL: string,
                       lastErr: Option<string>, attempts: nat) returns (r: Retried)
    ensures r == Pooled(isAppError, allSnapshots, finalURL, lastErr, attempts)
  {
    if |allSnapshots| > 0 {
      var best := GetBestHTML(isAppError, allSnapshots);
      if best.Some? {
        return Retried([best.value], finalURL, None, attempts);
      }
    }
    r := Retried(allSnapshots, finalURL, lastErr, attempts);
  }

  // ---------------------------------------------------------------------------
  // One URL: navigateAndExtract

  /** The HTML, final URL and error returned for one URL. */
  datatype Navigated = Navigated(html: string, url: string, err: Option<string>)

  /** What `navigateAndExtract` makes of the retry loop's outcome. */
  function Extracted(isAppError: string -> bool, r: Retried): Navigated {
    var best := Best(isAppError, r.snapshots);
    if r.err.Some? then
      (if |r.snapshots| > 0 && best.Some? && |best.value.html| > 0 then Navigated(best.value.html, best.value.url, None)
       else Navigated("", "", Some("navigation failed: " + r.err.value)))
    else if best.Some? then Navigated(best.value.html, if best.value.url == "" then r.url else best.value.url, None)
    else Navigated("", "", Some("no HTML captured from any snapshot"))
  }

  /** `navigateAndExtract`, with the retry count chosen from the remaining time. */
  method NavigateAndExtract(isAppError: string -> bool, remainingMs: int, capture: int -> CaptureResult, parentDone: int -> bool)
    returns (nav: Navigated)
    ensures nav == Extracted(isAppError, Retry(isAppError, capture, MaxRetries(remainingMs)))
  {
    var maxRetries := 3;
    if remainingMs < 60000 {
      maxRetries := 2;
    }
    if remainingMs < 30000 {
      maxRetries := 1;
    }
    var r, _ := RetryNavigation(isAppError, capture, maxRetries, parentDone);
    if r.err.Some? {
      if |r.snapshots| > 0 {
        var best := GetBestHTML(isAppError, r.snapshots);
        if best.Some? && |best.value.html| > 0 {
          return Navigated(best.value.html, best.value.url, None);
        }
      }
      return Navigated("", "", Some("navigation failed: " + r.err.value));
    }
    var best := GetBestHTML(isAppError, r.snapshots);
    if best.Some? {
      var url := best.value.url;
      if url == "" {
        url := r.url;
      }
      return Navigated(best.value.html, url, None);
    }
    nav := Navigated("", "", Some("no HTML captured from any snapshot"));
  }

  /**
   * When the retry loop reports an error its snapshots have no best, so the
   * "errors but captured HTML" branch of `navigateAndExtract` never returns HTML.
   */
  lemma RetryErrorMeansNavigationFailed(isAppError: string -> bool, capture: int -> CaptureResult, maxRetries: int)
    ensures var r := Retry(isAppError, capture, maxRetries);
      r.err.Some? ==> Extracted(isAppError, r) == Navigated("", "", Some("navigation failed: " + r.err.value))
  {
    RetryCharacterization(isAppError, capture, maxRetries);
  }

  /** A pool has a best iff one of its parts has. */
  lemma {:induction false} BestOfConcat(isAppError: string -> bool, a: seq<Snapshot>, b: seq<Snapshot>)
    ensures Best(isAppError, a + b).None? <==> Best(isAppError, a).None? && Best(isAppError, b).None?
  {
    BestIndexCharacterization(isAppError, a);
    BestIndexCharacterization(isAppError, b);
    BestIndexCharacterization(isAppError, a + b);
    assert forall j :: 0 <= j < |a| ==> (a + b)[j] == a[j];
    assert forall j :: 0 <= j < |b| ==> (a + b)[|a| + j] == b[j];
  }

  lemma {:induction false} PoolHasNoBest(isAppError: string -> bool, capture: int -> CaptureResult, n: nat)
    requires forall k :: 0 <= k < n ==> Best(isAppError, capture(k).snapshots).None?
    ensures Best(isAppError, Pool(capture, n)).None?
  {
    if n > 0 {
      PoolHasNoBest(isAppError, capture, n - 1);
      BestOfConcat(isAppError, Pool(capture, n - 1), capture(n - 1).snapshots);
    }
  }

  /**
   * If no attempt captures a snapshot that `getBestHTML` would pick (for
   * instance, only fallback snapshots), the URL yields no HTML at all.
   */
  lemma NoUsableSnapshotNoHTML(isAppError: string -> bool, capture: int -> CaptureResult, maxRetries: int)
    requires forall k :: 0 <= k < maxRetries ==> Best(isAppError, capture(k).snapshots).None?
    ensures Extracted(isAppError, Retry(isAppError, capture, maxRetries)).err.Some?
  {
    var r := Retry(isAppError, capture, maxRetries);
    RetryCharacterization(isAppError, capture, maxRetries);
    var n := r.attempts;
    if !(n > 0 && Succeeded(capture(n - 1))) {
      PoolHasNoBest(isAppError, capture, n);
    }
  }

  /** A navigation whose only capture is a fallback snapshot ends in "no HTML captured". */
  lemma {:induction false} LoneFallbackCaptureNoHTML(isAppError: string -> bool, capture: int -> CaptureResult, remainingMs: int,
                                                     html: string, url: string, length: int)
    requires capture(0) == CaptureResult([Snapshot(html, url, "fallback", length)], url, None)
    ensures Extracted(isAppError, Retry(isAppError, capture, MaxRetries(remainingMs))) ==
      Navigated("", "", Some("no HTML captured from any snapshot"))
  {
    LoneFallbackHasNoBest(isAppError, html, url, length);
  }

  // ---------------------------------------------------------------------------
  // Primary and alternate URLs: scrapeWithOptions

  /** HTML worth returning: non-empty and not a Cloudflare block page. */
  predicate Usable(cfBlock: string -> bool, html: string) {
    |html| > 0 && !cfBlock(html)
  }

  /** The first alternate whose navigation produced usable HTML. */
  function FirstUsable(cfBlock: string -> bool, navigate: string -> Navigated, alternates: seq<string>): (r: Option<nat>)
    ensures r.Some? ==> r.value < |alternates| && Usable(cfBlock, navigate(alternates[r.value]).html)
    ensures r.Some? ==> forall j :: 0 <= j < r.value ==> !Usable(cfBlock, navigate(alternates[j]).html)
    ensures r.None? <==> forall j :: 0 <= j < |alternates| ==> !Usable(cfBlock, navigate(alternates[j]).html)
    decreases |alternates|
  {
    if alternates == [] then None
    else if Usable(cfBlock, navigate(alternates[0]).html) then Some(0)
    else
      var rest := FirstUsable(cfBlock, navigate, alternates[1..]);
      assert forall j :: 1 <= j < |alternates| ==> alternates[j] == alternates[1..][j - 1];
      if rest.Some? then Some(rest.value + 1) else None
  }

  /**
   * `scrapeWithOptions` after the browser is up: the primary URL's HTML if
   * usable, otherwise the first usable alternate's.
   */
  function ScrapeOutcome(cfBlock: string -> bool, setupErr: Option<string>, targetURL: string,
                         alternates: Result<seq<string>, string>, navigate: string -> Navigated): Navigated {
    if setupErr.Some? then Navigated("", "", Some("failed to set up request blocking: " + setupErr.value))
    else
      var primary := navigate(targetURL);
      if Usable(cfBlock, primary.html) then Navigated(primary.html, primary.url, None)
      else if alternates.Err? then Navigated("", "", Some("failed to generate alternate URLs: " + alternates.error))
      else
        var i := FirstUsable(cfBlock, navigate, alternates.value);
        if i.Some? then
          var alt := navigate(alternates.value[i.value]);
          Navigated(alt.html, alt.url, None)
        else Navigated("", "", Some("all URLs failed or were blocked"))
  }

  /** A success never carries blocked or empty HTML, and some navigation produced it. */
  lemma ScrapeSuccessIsUsable(cfBlock: string -> bool, setupErr: Option<string>, targetURL: string,
                              alternates: Result<seq<string>, string>, navigate: string -> Navigated)
    ensures var r := ScrapeOutcome(cfBlock, setupErr, targetURL, alternates, navigate);
      r.err.None? ==>
        Usable(cfBlock, r.html) &&
        (r.html == navigate(targetURL).html ||
         (alternates.Ok? && exists i :: 0 <= i < |alternates.value| && r.html == navigate(alternates.value[i]).html))
  {
    var r := ScrapeOutcome(cfBlock, setupErr, targetURL, alternates, navigate);
    if r.err.None? && !Usable(cfBlock, navigate(targetURL).html) {
      var i := FirstUsable(cfBlock, navigate, alternates.value);
      assert r.html == navigate(alternates.value[i.value]).html;
    }
  }

  /**
   * `scrapeWithOptions`: `navigate(u)` is the outcome of `navigateAndExtract`
   * for URL `u`, `setupErr` that of installing the request-blocking script.
   */
  method ScrapeWithOptions(cfBlock: string -> bool, setupErr: Option<string>, targetURL: string,
                           alternates: Result<seq<string>, string>, navigate: string -> Navigated)
    returns (out: Navigated)
    ensures out == ScrapeOutcome(cfBlock, setupErr, targetURL, alternates, navigate)
  {
    if setupErr.Some? {
      return Navigated("", "", Some("failed to set up request blocking: " + setupErr.value));
    }
    var primary := navigate(targetURL);
    var html, finalURL, err := primary.html, primary.url, primary.err;
    if err.None? && |html| > 0 {
      if !cfBlock(html) {
        return Navigated(html, finalURL, None);
      }
    } else if err.Some? {
      if |html| > 0 && !cfBlock(html) {
        return Navigated(html, finalURL, None);
      }
    }
    if alternates.Err? {
      if |html| > 0 && !cfBlock(html) {
        return Navigated(html, finalURL, None);
      }
      return Navigated("", "", Some("failed to generate alternate URLs: " + alternates.error));
    }
    var alts := alternates.value;
    for i := 0 to |alts|
      invariant forall j :: 0 <= j < i ==> !Usable(cfBlock, navigate(alts[j]).html)
    {
      var alt := navigate(alts[i]);
      if alt.err.None? && |alt.html| > 0 {
        if cfBlock(alt.html) {
          continue;
        }
        return Navigated(alt.html, alt.url, None);
      } else if |alt.html| > 0 && !cfBlock(alt.html) {
        return Navigated(alt.html, alt.url, None);
      }
    }
    if |html| > 0 && !cfBlock(html) {
      return Navigated(html, finalURL, None);
    }
    out := Navigated("", "", Some("all URLs failed or were blocked"));
  }

  // ---------------------------------------------------------------------------
  // Page tests

  const ChallengePatterns: seq<string> := [
    "verifying you are human", "verify you are human", "checking your browser",
    "please wait", "this may take a few seconds"]

  const ContentIndicators: seq<string> := [
    "class=\"article", "class='article", "class=\"content", "class='content",
    "class=\"story-content", "class='story-content", "class=\"post-content", "class='post-content"]

  /** `LooksLikeChallengePage`: a challenge phrase occurs in the lower-cased HTML. */
  predicate LooksLikeChallengePage(html: string) {
    ContainsAny(Lower(html), ChallengePatterns)
  }

  /** `hasArticleContent`: an `<article` or `<main` tag, or a content class, in the lower-cased HTML. */
  predicate HasArticleContent(html: string) {
    var htmlLower := Lower(html);
    Contains(htmlLower, "<article") || Contains(htmlLower, "<main") || ContainsAny(htmlLower, ContentIndicators)
  }

  lemma LowerIdempotent(s: string)
    ensures Lower(Lower(s)) == Lower(s)
  {
    assert forall k :: 0 <= k < |s| ==> Lower(Lower(s))[k] == Lower(s)[k];
  }

  /** Both tests ignore ASCII case. */
  lemma PageTestsIgnoreCase(html: string)
    ensures LooksLikeChallengePage(Lower(html)) == LooksLikeChallengePage(html)
    ensures HasArticleContent(Lower(html)) == HasArticleContent(html)
  {
    LowerIdempotent(html);
  }

  /** A page with a `<MAIN>` element has article content. */
  lemma {:induction false} ArticleContentExample()
    ensures HasArticleContent("<MAIN>")
  {
    assert Lower("<MAIN>") == "<main>";
    assert OccursAt(Lower("<MAIN>"), "<main", 0);
  }
}
