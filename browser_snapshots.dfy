/**
 * Snapshot bookkeeping of the headless-browser client: the stage priority
 * table and the best-snapshot choice, the periodic early capture, the
 * content-stability state machine and the consent-dialog attempt loop.
 *
 * Every browser effect (reading the location and outer HTML, evaluating a
 * script) is an input here: a read that failed is `None`.
 */
module BrowserSnapshots {
  import opened Wrappers
  import opened Text

  /** A successful read of the page's location and outer HTML. */
  datatype Page = Page(html: string, url: string)

  /** `HTMLSnapshot` without its timestamp; `length` is the trimmed HTML length. */
  datatype Snapshot = Snapshot(html: string, url: string, stage: string, length: int)

  function SnapshotOf(p: Page, stage: string): Snapshot {
    Snapshot(p.html, p.url, stage, |TrimSpace(p.html)|)
  }

  /**
   * The list of snapshots that the capture steps append to through a pointer
   * (`*snapshots = append(*snapshots, ...)`).
   */
  class SnapshotLog {
    var entries: seq<Snapshot>

    constructor ()
      ensures entries == []
    {
      entries := [];
    }

    method Append(s: Snapshot)
      modifies this
      ensures entries == old(entries) + [s]
    {
      entries := entries + [s];
    }

    method AppendAll(ss: seq<Snapshot>)
      modifies this
      ensures entries == old(entries) + ss
    {
      entries := entries + ss;
    }
  }

  // ---------------------------------------------------------------------------
  // Best snapshot

  /** The stage priority table; a stage missing from it reads as 0, as a Go map lookup does. */
  const StagePriorities: map<string, int> := map[
    "stable" := 6, "stable-timeout" := 5, "stable-interrupted" := 4,
    "after-scroll" := 3, "after-consent" := 2, "periodic" := 1,
    "initial" := 0, "minimal" := 0, "minimal-fallback" := -1,
    "js-fetch-fallback" := -2, "fallback" := -1, "final" := -1,
    "final-fallback" := -2, "stability-check" := 0]

  function StagePriority(stage: string): int {
    if stage in StagePriorities then StagePriorities[stage] else 0
  }

  /** A snapshot is considered unless it looks like an application error and is short. */
  predicate Eligible(isAppError: string -> bool, s: Snapshot) {
    !(isAppError(s.html) && s.length < 1000)
  }

  /** `s` displaces the current best `b`: a higher priority, or an equal one and a longer text. */
  predicate Displaces(s: Snapshot, b: Snapshot) {
    StagePriority(s.stage) > StagePriority(b.stage) ||
    (StagePriority(s.stage) == StagePriority(b.stage) && s.length > b.length)
  }

  /**
   * The index the running best of `getBestHTML` holds after scanning `snaps`:
   * the search starts from priority -1 with no best.
   */
  function BestIndex(isAppError: string -> bool, snaps: seq<Snapshot>): (r: Option<nat>)
    ensures r.Some? ==> r.value < |snaps| && Eligible(isAppError, snaps[r.value])
    ensures r.Some? ==> StagePriority(snaps[r.value].stage) >= 0
    decreases |snaps|
  {
    if snaps == [] then None
    else
      var i := |snaps| - 1;
      var prev := BestIndex(isAppError, snaps[..i]);
      var s := snaps[i];
      if !Eligible(isAppError, s) then prev
      else if prev.None? then (if StagePriority(s.stage) > -1 then Some(i) else None)
      else if Displaces(s, snaps[prev.value]) then Some(i)
      else prev
  }

  /** The snapshot `getBestHTML` returns. */
  function Best(isAppError: string -> bool, snaps: seq<Snapshot>): Option<Snapshot> {
    var r := BestIndex(isAppError, snaps);
    if r.Some? then Some(snaps[r.value]) else None
  }

  /**
   * Snapshot `k` is the right pick: it is eligible, of non-negative priority,
   * strictly ahead of every eligible earlier snapshot and not behind any
   * eligible later one (so the first of equals wins).
   */
  predicate IsBest(isAppError: string -> bool, snaps: seq<Snapshot>, k: int) {
    0 <= k < |snaps| && Eligible(isAppError, snaps[k]) && StagePriority(snaps[k].stage) >= 0 &&
    (forall j :: 0 <= j < k && Eligible(isAppError, snaps[j]) ==> Displaces(snaps[k], snaps[j])) &&
    (forall j :: k < j < |snaps| && Eligible(isAppError, snaps[j]) ==> !Displaces(snaps[j], snaps[k]))
  }

  /** The running best is exactly the right pick, and there is none iff every eligible snapshot has a negative priority. */
  lemma {:induction false} BestIndexCharacterization(isAppError: string -> bool, snaps: seq<Snapshot>)
    ensures forall k :: BestIndex(isAppError, snaps) == Some(k) <==> IsBest(isAppError, snaps, k)
    ensures BestIndex(isAppError, snaps).None? <==>
      forall j :: 0 <= j < |snaps| && Eligible(isAppError, snaps[j]) ==> StagePriority(snaps[j].stage) < 0
    decreases |snaps|
  {
    if snaps != [] {
      var i := |snaps| - 1;
      var init := snaps[..i];
      BestIndexCharacterization(isAppError, init);
      assert forall j :: 0 <= j < i ==> init[j] == snaps[j];
      var prev := BestIndex(isAppError, init);
      if prev.Some? {
        assert IsBest(isAppError, init, prev.value);
      }
      forall k | BestIndex(isAppError, snaps) == Some(k)
        ensures IsBest(isAppError, snaps, k)
      {
      }
      forall k | IsBest(isAppError, snaps, k)
        ensures BestIndex(isAppError, snaps) == Some(k)
      {
        var r := BestIndex(isAppError, snaps);
        assert r.Some?;
        assert IsBest(isAppError, snaps, r.value);
        BestIsUnique(isAppError, snaps, k, r.value);
      }
    }
  }

  lemma BestIsUnique(isAppError: string -> bool, snaps: seq<Snapshot>, k1: int, k2: int)
    requires IsBest(isAppError, snaps, k1) && IsBest(isAppError, snaps, k2)
    ensures k1 == k2
  {
  }

  /** `getBestHTML`: a running best over the snapshots. */
  method GetBestHTML(isAppError: string -> bool, snapshots: seq<Snapshot>) returns (best: Option<Snapshot>)
    ensures best == Best(isAppError, snapshots)
    ensures best.Some? ==> best.value in snapshots && StagePriority(best.value.stage) >= 0
  {
    if |snapshots| == 0 {
      return None;
    }
    var bestIdx: Option<nat> := None;
    var bestPriority := -1;
    for i := 0 to |snapshots|
      invariant bestIdx == BestIndex(isAppError, snapshots[..i])
      invariant bestPriority == if bestIdx.Some? then StagePriority(snapshots[bestIdx.value].stage) else -1
    {
      assert snapshots[..i + 1][..i] == snapshots[..i];
      var snap := snapshots[i];
      var priority := StagePriority(snap.stage);
      if !(isAppError(snap.html) && snap.length < 1000) {
        if priority > bestPriority {
          bestIdx := Some(i);
          bestPriority := priority;
        } else if priority == bestPriority && bestIdx.Some? {
          if snap.length > snapshots[bestIdx.value].length {
            bestIdx := Some(i);
          }
        }
      }
    }
    assert snapshots[..|snapshots|] == snapshots;
    best := if bestIdx.Some? then Some(snapshots[bestIdx.value]) else None;
  }

  /** Fallback-stage snapshots (priority -1 or -2) are never chosen, whatever else is present. */
  lemma NegativeStagesNeverChosen(isAppError: string -> bool, snaps: seq<Snapshot>)
    ensures Best(isAppError, snaps).Some? ==>
      Best(isAppError, snaps).value.stage !in {"fallback", "minimal-fallback", "js-fetch-fallback", "final", "final-fallback"}
  {
  }

  /** A lone fallback snapshot gives no best at all. */
  lemma {:induction false} LoneFallbackHasNoBest(isAppError: string -> bool, html: string, url: string, length: int)
    ensures Best(isAppError, [Snapshot(html, url, "fallback", length)]) == None
  {
    var snaps := [Snapshot(html, url, "fallback", length)];
    assert snaps[..0] == [];
    assert StagePriority("fallback") == -1;
  }

  // ---------------------------------------------------------------------------
  // Periodic early capture

  /**
   * `captureHTMLPeriodically` over the captures it makes before its deadline:
   * every read with non-blank HTML becomes a "periodic" snapshot, and the
   * first one longer than 500 characters ends the capture.
   */
  function PeriodicSnapshots(captures: seq<Option<Page>>): (r: seq<Snapshot>)
    ensures |r| <= |captures|
    ensures forall k :: 0 <= k < |r| ==> r[k].stage == "periodic" && r[k].length > 0
    ensures forall k :: 0 <= k < |r| - 1 ==> r[k].length <= 500
    decreases |captures|
  {
    if captures == [] then []
    else if captures[0].None? then PeriodicSnapshots(captures[1..])
    else
      var s := SnapshotOf(captures[0].value, "periodic");
      if s.length == 0 then PeriodicSnapshots(captures[1..])
      else if s.length > 500 then [s]
      else [s] + PeriodicSnapshots(captures[1..])
  }

  predicate LongRead(r: Option<Page>) {
    r.Some? && |TrimSpace(r.value.html)| > 500
  }

  /** Once some read is longer than 500 characters, the capture ends on such a snapshot. */
  lemma {:induction false} PeriodicStopsAtFirstLong(captures: seq<Option<Page>>)
    requires exists i :: 0 <= i < |captures| && LongRead(captures[i])
    ensures var r := PeriodicSnapshots(captures); |r| > 0 && r[|r| - 1].length > 500
    decreases |captures|
  {
    var r := PeriodicSnapshots(captures);
    if LongRead(captures[0]) {
      assert r == [SnapshotOf(captures[0].value, "periodic")];
    } else {
      var i :| 0 <= i < |captures| && LongRead(captures[i]);
      assert LongRead(captures[1..][i - 1]);
      PeriodicStopsAtFirstLong(captures[1..]);
      var rest := PeriodicSnapshots(captures[1..]);
      assert r == rest || r == [SnapshotOf(captures[0].value, "periodic")] + rest;
    }
  }

  /** Snapshots are taken only from non-blank captures, one per read, in read order. */
  lemma {:induction false} PeriodicFromReads(captures: seq<Option<Page>>)
    ensures forall s :: s in PeriodicSnapshots(captures) ==>
      exists i :: 0 <= i < |captures| && captures[i].Some? && s == SnapshotOf(captures[i].value, "periodic")
    decreases |captures|
  {
    if captures != [] {
      PeriodicFromReads(captures[1..]);
      var rest := PeriodicSnapshots(captures[1..]);
      forall s | s in PeriodicSnapshots(captures)
        ensures exists i :: 0 <= i < |captures| && captures[i].Some? && s == SnapshotOf(captures[i].value, "periodic")
      {
        if s in rest {
          var i :| 0 <= i < |captures[1..]| && captures[1..][i].Some? && s == SnapshotOf(captures[1..][i].value, "periodic");
          assert captures[i + 1] == captures[1..][i];
        } else {
          assert captures[0].Some? && s == SnapshotOf(captures[0].value, "periodic");
        }
      }
    }
  }

  method CaptureHTMLPeriodically(captures: seq<Option<Page>>) returns (snaps: seq<Snapshot>)
    ensures snaps == PeriodicSnapshots(captures)
  {
    snaps := [];
    var i := 0;
    while i < |captures|
      invariant 0 <= i <= |captures|
      invariant snaps + PeriodicSnapshots(captures[i..]) == PeriodicSnapshots(captures)
    {
      assert captures[i..][1..] == captures[i + 1..];
      if captures[i].Some? {
        var textLength := |TrimSpace(captures[i].value.html)|;
        if textLength > 0 {
          var snap := SnapshotOf(captures[i].value, "periodic");
          snaps := snaps + [snap];
          if textLength > 500 {
            return;
          }
        }
      }
      i := i + 1;
    }
  }

  // ---------------------------------------------------------------------------
  // Content stability

  /** Which timer ended the stability wait: its own deadline or the parent context. */
  datatype Exit = TimedOut | Interrupted

  function ExitStage(e: Exit): string {
    match e
    case TimedOut => "stable-timeout"
    case Interrupted => "stable-interrupted"
  }

  const StableThreshold: int := 3

  function AbsDiff(a: int, b: int): int { if a >= b then a - b else b - a }

  /** A change of less than 5% against a positive previous length, as `|cur - prev| * 20 < prev`. */
  predicate SmallChange(prev: int, cur: int) {
    prev > 0 && AbsDiff(cur, prev) * 20 < prev
  }

  /**
   * The snapshot `waitForContentStabilityInline` appends and returns, from
   * state (previous non-empty length, stable count, last successful read)
   * and the captures still to come before the wait ends with `exit`.
   */
  function Stability(captures: seq<Option<Page>>, exit: Exit, prev: int, count: int, last: Option<Snapshot>): (r: Option<Snapshot>)
    ensures r.Some? ==> r.value.stage == "stable" || r.value.stage == ExitStage(exit)
    ensures r.Some? <==> last.Some? || exists i :: 0 <= i < |captures| && captures[i].Some?
    decreases |captures|
  {
    if captures == [] then
      (if last.Some? then Some(last.value.(stage := ExitStage(exit))) else None)
    else if captures[0].None? then
      var r := Stability(captures[1..], exit, prev, count, last);
      assert forall i :: 1 <= i < |captures| ==> captures[i] == captures[1..][i - 1];
      r
    else
      var snap := SnapshotOf(captures[0].value, "stability-check");
      if snap.length == 0 then Stability(captures[1..], exit, prev, count, Some(snap))
      else if SmallChange(prev, snap.length) then
        if count + 1 >= StableThreshold then Some(snap.(stage := "stable"))
        else Stability(captures[1..], exit, snap.length, count + 1, Some(snap))
      else Stability(captures[1..], exit, snap.length, 0, Some(snap))
  }

  /** `waitForContentStabilityInline`: appends at most one snapshot to `log` and returns it. */
  method WaitForContentStability(log: SnapshotLog, captures: seq<Option<Page>>, exit: Exit) returns (snap: Option<Snapshot>)
    modifies log
    ensures snap == Stability(captures, exit, 0, 0, None)
    ensures log.entries == old(log.entries) + (if snap.Some? then [snap.value] else [])
  {
    var previousLength := 0;
    var stableCount := 0;
    var lastSnap: Option<Snapshot> := None;
    var i := 0;
    while i < |captures|
      invariant 0 <= i <= |captures|
      invariant Stability(captures, exit, 0, 0, None) == Stability(captures[i..], exit, previousLength, stableCount, lastSnap)
      invariant log.entries == old(log.entries)
    {
      assert captures[i..][1..] == captures[i + 1..];
      if captures[i].Some? {
        var s := SnapshotOf(captures[i].value, "stability-check");
        lastSnap := Some(s);
        if s.length > 0 {
          var currentLength := s.length;
          if previousLength > 0 && AbsDiff(currentLength, previousLength) * 20 < previousLength {
            stableCount := stableCount + 1;
            if stableCount >= StableThreshold {
              var stable := s.(stage := "stable");
              log.Append(stable);
              return Some(stable);
            }
          } else {
            stableCount := 0;
          }
          previousLength := currentLength;
        }
      }
      i := i + 1;
    }
    if lastSnap.Some? {
      var s := lastSnap.value.(stage := ExitStage(exit));
      log.Append(s);
      snap := Some(s);
    } else {
      snap := None;
    }
  }

  /** The lengths of the non-blank captures, in order. */
  function NonEmptyLengths(captures: seq<Option<Page>>): seq<int>
    decreases |captures|
  {
    if captures == [] then []
    else
      var rest := NonEmptyLengths(captures[1..]);
      if captures[0].Some? && |TrimSpace(captures[0].value.html)| > 0 then [|TrimSpace(captures[0].value.html)|] + rest else rest
  }

  /** The number of small changes in a row at the end of a history of lengths. */
  function TrailingSmall(h: seq<int>): nat
    decreases |h|
  {
    if |h| < 2 then 0
    else if SmallChange(h[|h| - 2], h[|h| - 1]) then 1 + TrailingSmall(h[..|h| - 1])
    else 0
  }

  function LastOrZero(h: seq<int>): int { if h == [] then 0 else h[|h| - 1] }

  /** At least four lengths, the last equal to `len`, and the last three changes all small. */
  predicate StableRun(l: seq<int>, len: int) {
    |l| >= 4 && l[|l| - 1] == len &&
    SmallChange(l[|l| - 4], l[|l| - 3]) && SmallChange(l[|l| - 3], l[|l| - 2]) && SmallChange(l[|l| - 2], l[|l| - 1])
  }

  lemma TrailingRun(h: seq<int>)
    requires TrailingSmall(h) >= 3
    ensures StableRun(h, h[|h| - 1])
  {
    var h1 := h[..|h| - 1];
    var h2 := h1[..|h1| - 1];
    assert TrailingSmall(h1) >= 2 && TrailingSmall(h2) >= 1;
  }

  /** A witness for the rest of the reads, lifted to the reads with their first element. */
  lemma LiftStableRun(captures: seq<Option<Page>>, h: seq<int>, p: nat, len: int)
    requires 0 <= p < |captures|
    requires StableRun(h + NonEmptyLengths(captures[..1]) + NonEmptyLengths(captures[1..][..p]), len)
    ensures StableRun(h + NonEmptyLengths(captures[..p + 1]), len)
  {
    assert captures[..p + 1][1..] == captures[1..][..p];
    assert captures[..1][1..] == [];
    assert NonEmptyLengths(captures[..p + 1]) == NonEmptyLengths(captures[..1]) + NonEmptyLengths(captures[1..][..p]);
    assert h + NonEmptyLengths(captures[..1]) + NonEmptyLengths(captures[1..][..p]) == h + NonEmptyLengths(captures[..p + 1]);
  }

  /** The length the first read contributes to the history, if any. */
  lemma NonEmptyLengthsFirst(captures: seq<Option<Page>>)
    requires captures != []
    ensures NonEmptyLengths(captures[..1]) ==
      if captures[0].Some? && |TrimSpace(captures[0].value.html)| > 0 then [|TrimSpace(captures[0].value.html)|] else []
  {
    assert captures[..1][1..] == [];
  }

  /** The generalisation of `StableNeedsThreeSmallChanges` to any reachable state of the loop. */
  lemma {:induction false} StableRunFrom(captures: seq<Option<Page>>, exit: Exit, h: seq<int>, last: Option<Snapshot>)
    requires forall k :: 0 <= k < |h| ==> h[k] > 0
    requires TrailingSmall(h) < StableThreshold
    ensures var r := Stability(captures, exit, LastOrZero(h), TrailingSmall(h), last);
      r.Some? && r.value.stage == "stable" ==>
        exists p :: 0 <= p <= |captures| && StableRun(h + NonEmptyLengths(captures[..p]), r.value.length)
    decreases |captures|
  {
    var r := Stability(captures, exit, LastOrZero(h), TrailingSmall(h), last);
    if captures != [] && r.Some? && r.value.stage == "stable" {
      NonEmptyLengthsFirst(captures);
      if captures[0].None? || |TrimSpace(captures[0].value.html)| == 0 {
        var last' := if captures[0].None? then last else Some(SnapshotOf(captures[0].value, "stability-check"));
        assert r == Stability(captures[1..], exit, LastOrZero(h), TrailingSmall(h), last');
        StableRunFrom(captures[1..], exit, h, last');
        var p :| 0 <= p <= |captures[1..]| && StableRun(h + NonEmptyLengths(captures[1..][..p]), r.value.length);
        assert h + NonEmptyLengths(captures[..1]) == h;
        LiftStableRun(captures, h, p, r.value.length);
      } else {
        var snap := SnapshotOf(captures[0].value, "stability-check");
        var h' := h + [snap.length];
        assert h'[..|h'| - 1] == h;
        assert h + NonEmptyLengths(captures[..1]) == h';
        if SmallChange(LastOrZero(h), snap.length) && TrailingSmall(h) + 1 >= StableThreshold {
          assert TrailingSmall(h') == TrailingSmall(h) + 1;
          TrailingRun(h');
          assert r.value.length == snap.length;
          assert StableRun(h + NonEmptyLengths(captures[..1]), r.value.length);
        } else {
          StableRunStep(captures, exit, h, last, h');
        }
      }
    }
  }

  /** The case of `StableRunFrom` where the first read is non-blank and the wait goes on. */
  lemma {:induction false} StableRunStep(captures: seq<Option<Page>>, exit: Exit, h: seq<int>, last: Option<Snapshot>, h': seq<int>)
    requires forall k :: 0 <= k < |h| ==> h[k] > 0
    requires TrailingSmall(h) < StableThreshold
    requires captures != [] && captures[0].Some? && |TrimSpace(captures[0].value.html)| > 0
    requires h' == h + [|TrimSpace(captures[0].value.html)|]
    requires !(SmallChange(LastOrZero(h), h'[|h'| - 1]) && TrailingSmall(h) + 1 >= StableThreshold)
    requires h + NonEmptyLengths(captures[..1]) == h'
    ensures var r := Stability(captures, exit, LastOrZero(h), TrailingSmall(h), last);
      r.Some? && r.value.stage == "stable" ==>
        exists p :: 0 <= p <= |captures| && StableRun(h + NonEmptyLengths(captures[..p]), r.value.length)
    decreases |captures|, 0
  {
    var r := Stability(captures, exit, LastOrZero(h), TrailingSmall(h), last);
    var snap := SnapshotOf(captures[0].value, "stability-check");
    assert h'[..|h'| - 1] == h;
    var count' := if SmallChange(LastOrZero(h), snap.length) then TrailingSmall(h) + 1 else 0;
    assert TrailingSmall(h') == count';
    assert r == Stability(captures[1..], exit, LastOrZero(h'), TrailingSmall(h'), Some(snap));
    if r.Some? && r.value.stage == "stable" {
      StableRunFrom(captures[1..], exit, h', Some(snap));
      var p :| 0 <= p <= |captures[1..]| && StableRun(h' + NonEmptyLengths(captures[1..][..p]), r.value.length);
      LiftStableRun(captures, h, p, r.value.length);
    }
  }

  /**
   * The wait ends "stable" only after at least four non-blank captures whose
   * last three changes were each under 5%, and the stable snapshot is the
   * last of them.
   */
  lemma StableNeedsThreeSmallChanges(captures: seq<Option<Page>>, exit: Exit)
    ensures var r := Stability(captures, exit, 0, 0, None);
      r.Some? && r.value.stage == "stable" ==>
        exists p :: 0 <= p <= |captures| && StableRun(NonEmptyLengths(captures[..p]), r.value.length)
  {
    StableRunFrom(captures, exit, [], None);
    assert forall l: seq<int> :: [] + l == l;
  }

  // ---------------------------------------------------------------------------
  // Consent dialogs

  const ConsentAttempts: int := 3

  /** The number of the first `n` attempts that clicked a button. */
  function Clicks(evaluate: int -> Result<bool, string>, n: int): (c: nat)
    ensures c <= if n < 0 then 0 else n
    decreases n
  {
    if n <= 0 then 0 else Clicks(evaluate, n - 1) + (if evaluate(n - 1) == Ok(true) then 1 else 0)
  }

  /** The error `handleConsentDialogs` returns: that of the last attempt, if its script failed. */
  function ConsentError(evaluate: int -> Result<bool, string>): Option<string> {
    var last := evaluate(ConsentAttempts - 1);
    if last.Err? then Some(last.error) else None
  }

  /**
   * `handleConsentDialogs`: `evaluate(k)` is the outcome of attempt `k` of
   * the consent-clicking script (whether it clicked, or its error). Waits
   * are reported as the total `sleptMs`: one second between attempts and one
   * second after every click.
   */
  method HandleConsentDialogs(evaluate: int -> Result<bool, string>) returns (err: Option<string>, evaluations: nat, sleptMs: int)
    ensures evaluations == ConsentAttempts
    ensures err == ConsentError(evaluate)
    ensures sleptMs == 2000 + 1000 * Clicks(evaluate, ConsentAttempts)
    ensures 2000 <= sleptMs <= 5000
  {
    var retryDelay := 1000;
    evaluations, sleptMs := 0, 0;
    var attempt := 0;
    while attempt < ConsentAttempts
      invariant 0 <= attempt <= ConsentAttempts && evaluations == attempt
      invariant sleptMs == 1000 * (if attempt < 2 then attempt else 2) + 1000 * Clicks(evaluate, attempt)
      invariant attempt == ConsentAttempts ==> evaluate(ConsentAttempts - 1) == Ok(false)
    {
      var outcome := evaluate(attempt);
      evaluations := evaluations + 1;
      if outcome.Err? {
        if attempt < ConsentAttempts - 1 {
          sleptMs := sleptMs + retryDelay;
          attempt := attempt + 1;
          continue;
        }
        return Some(outcome.error), evaluations, sleptMs;
      }
      if outcome.value {
        sleptMs := sleptMs + 1000;
        if attempt < ConsentAttempts - 1 {
          sleptMs := sleptMs + retryDelay;
          attempt := attempt + 1;
          continue;
        }
        return None, evaluations, sleptMs;
      }
      if attempt < ConsentAttempts - 1 {
        sleptMs := sleptMs + retryDelay;
      }
      attempt := attempt + 1;
    }
    err := None;
  }
}
