/**
 * The image candidate engine: the basic size and ad filter, the score, the
 * in-place ranking sort, de-duplication to the top images, the `srcset`
 * width pick and the two tests that exclude page sections.
 *
 * Candidates arrive as values (the DOM walk that finds them is not modelled);
 * the image configuration's ad-size table and aspect-ratio whitelist are
 * parameters.
 */
module Images {
  import opened Wrappers
  import opened Text
  import opened Models
  import Constants

  /**
   * The parts of the image configuration the engine consults: the ad-size
   * table, and whether a width/height pair is within tolerance of a
   * whitelisted aspect ratio (a floating-point test, left abstract).
   */
  datatype ImageConfig = ImageConfig(adSizes: set<(int, int)>, ratioWhitelisted: (int, int) -> bool)

  predicate IsAdSize(cfg: ImageConfig, width: int, height: int) {
    width != 0 && height != 0 && (width, height) in cfg.adSizes
  }

  function Min(a: int, b: int): int { if a < b then a else b }

  /** The minimal filter applied to article images. */
  function PassesBasicFilters(cfg: ImageConfig, c: ImageCandidate): (r: bool)
    ensures c.width > 0 && c.height > 0 ==>
      (r <==> c.width > c.height && c.width >= 600 && c.height >= 100
              && !IsAdSize(cfg, c.width, c.height) && !(c.badHint && c.height < 200))
    ensures !(c.width > 0 && c.height > 0) ==> (r <==> !c.badHint)
  {
    if c.width > 0 && c.height > 0 then
      var shortSide := Min(c.width, c.height);
      if c.width <= c.height then false
      else if c.width < 600 then false
      else if shortSide < 100 then false
      else if IsAdSize(cfg, c.width, c.height) then false
      else if c.badHint && shortSide < 200 then false
      else true
    else
      !c.badHint
  }

  // ---------------------------------------------------------------------------
  // Score

  function Pow10(n: nat): (p: nat)
    ensures p >= 1
  {
    if n == 0 then 1 else 10 * Pow10(n - 1)
  }

  /** The digit-count logarithm: the number of times `x` can be divided by 10 while it is at least 10. */
  function FloorLog10(x: int): (d: nat)
    ensures x >= 1 ==> Pow10(d) <= x < Pow10(d + 1)
    ensures x < 10 ==> d == 0
    decreases x
  {
    if x < 10 then 0 else 1 + FloorLog10(x / 10)
  }

  /** The service's `log10`, a dividing loop; for whole numbers it is the floor of the base-10 logarithm. */
  method Log10(x: int) returns (count: nat)
    ensures count == FloorLog10(x)
    ensures x >= 1 ==> Pow10(count) <= x < Pow10(count + 1)
  {
    count := 0;
    if x <= 0 {
      return;
    }
    var y := x;
    while y >= 10
      invariant y >= 1
      invariant count + FloorLog10(y) == FloorLog10(x)
      decreases y
    {
      y := y / 10;
      count := count + 1;
    }
  }

  /** The part of the doubled score that does not depend on the area's size. */
  function FlatScore(cfg: ImageConfig, c: ImageCandidate): int {
    (if c.inArticle then 4 else 0)
    + (if c.source == "og" || c.source == "jsonld" then 3 else 0)
    + (if c.width > 0 && c.height > 0 && cfg.ratioWhitelisted(c.width, c.height) then 2 else 0)
  }

  /**
   * Twice the service's score: 2.0 for an article image, 1.5 for an image
   * taken from Open Graph or JSON-LD, 1.0 once for a whitelisted aspect ratio,
   * and the digit-count logarithm of the area when the area is positive.
   */
  function CalculateScore(cfg: ImageConfig, c: ImageCandidate): (r: int)
    ensures var area := c.width * c.height;
      (area <= 0 ==> r == FlatScore(cfg, c))
      && (area > 0 ==> exists d: nat :: r == FlatScore(cfg, c) + 2 * d && Pow10(d) <= area < Pow10(d + 1))
  {
    var area := c.width * c.height;
    var score := 0;
    var score := if c.inArticle then score + 4 else score;
    var score := if c.source == "og" || c.source == "jsonld" then score + 3 else score;
    var score := if c.width > 0 && c.height > 0 && cfg.ratioWhitelisted(c.width, c.height) then score + 2 else score;
    if area > 0 then score + 2 * FloorLog10(area) else score
  }

  lemma {:induction false} FloorLog10Unique(x: int, d: nat)
    requires Pow10(d) <= x < Pow10(d + 1)
    ensures FloorLog10(x) == d
    decreases d
  {
    if d > 0 {
      assert x >= 10;
      FloorLog10Unique(x / 10, d - 1);
    } else {
      assert x < 10;
    }
  }

  /** Ten times the area (with nothing else changed) scores exactly one logarithm step, 2, more. */
  lemma TenfoldAreaScoresTwoMore(cfg: ImageConfig, c: ImageCandidate, c10: ImageCandidate)
    requires c.width > 0 && c.height > 0
    requires c10 == c.(width := 10 * c.width)
    requires cfg.ratioWhitelisted(c10.width, c10.height) == cfg.ratioWhitelisted(c.width, c.height)
    ensures CalculateScore(cfg, c10) == CalculateScore(cfg, c) + 2
  {
    var area := c.width * c.height;
    TenfoldArea(c.width, c.height);
    FloorLog10Unique(10 * area, FloorLog10(area) + 1);
    ScoreOfPositiveArea(cfg, c);
    ScoreOfPositiveArea(cfg, c10);
    assert FlatScore(cfg, c10) == FlatScore(cfg, c);
  }

  lemma TenfoldArea(w: int, h: int)
    requires w > 0 && h > 0
    ensures (10 * w) * h == 10 * (w * h) && w * h > 0
  {
  }

  lemma ScoreOfPositiveArea(cfg: ImageConfig, c: ImageCandidate)
    requires c.width * c.height > 0
    ensures CalculateScore(cfg, c) == FlatScore(cfg, c) + 2 * FloorLog10(c.width * c.height)
  {
  }

  // ---------------------------------------------------------------------------
  // Filtering

  /** The candidates the article filter keeps. */
  predicate Kept(cfg: ImageConfig, c: ImageCandidate) {
    c.inArticle && PassesBasicFilters(cfg, c)
  }

  /** A kept candidate with its score and area filled in. */
  function Scored(cfg: ImageConfig, c: ImageCandidate): ImageCandidate {
    c.(score := CalculateScore(cfg, c), area := c.width * c.height)
  }

  /** The kept candidates of `cands`, scored, in input order. */
  function KeptScored(cfg: ImageConfig, cands: seq<ImageCandidate>): seq<ImageCandidate>
    decreases |cands|
  {
    if cands == [] then []
    else
      var last := cands[|cands| - 1];
      KeptScored(cfg, cands[..|cands| - 1]) + (if Kept(cfg, last) then [Scored(cfg, last)] else [])
  }

  lemma {:induction false} KeptScoredMembers(cfg: ImageConfig, cands: seq<ImageCandidate>, x: ImageCandidate)
    ensures x in KeptScored(cfg, cands) <==> exists c :: c in cands && Kept(cfg, c) && x == Scored(cfg, c)
    decreases |cands|
  {
    if cands != [] {
      var init := cands[..|cands| - 1];
      KeptScoredMembers(cfg, init, x);
      assert cands == init + [cands[|cands| - 1]];
      assert forall c :: c in cands <==> c in init || c == cands[|cands| - 1];
    }
  }

  /** The article filter: drops images outside the article and those failing the basic filter, and scores the rest. */
  method FilterArticleImages(cfg: ImageConfig, cands: seq<ImageCandidate>) returns (filtered: seq<ImageCandidate>)
    ensures filtered == KeptScored(cfg, cands)
    ensures forall x :: x in filtered <==> exists c :: c in cands && Kept(cfg, c) && x == Scored(cfg, c)
  {
    filtered := [];
    var i := 0;
    while i < |cands|
      invariant 0 <= i <= |cands|
      invariant filtered == KeptScored(cfg, cands[..i])
    {
      var c := cands[i];
      assert cands[..i + 1][..i] == cands[..i];
      if c.inArticle && PassesBasicFilters(cfg, c) {
        var c' := c.(score := CalculateScore(cfg, c), area := c.width * c.height);
        filtered := filtered + [c'];
      }
      i := i + 1;
    }
    assert cands[..i] == cands;
    forall x ensures x in filtered <==> exists c :: c in cands && Kept(cfg, c) && x == Scored(cfg, c) {
      KeptScoredMembers(cfg, cands, x);
    }
  }

  // ---------------------------------------------------------------------------
  // Ranking sort

  /** `x` ranks strictly ahead of `y`: a higher score, or an equal score and a larger area. */
  predicate Outranks(x: ImageCandidate, y: ImageCandidate) {
    x.score > y.score || (x.score == y.score && x.area > y.area)
  }

  /** No candidate outranks one placed before it. */
  predicate Ranked(s: seq<ImageCandidate>) {
    forall p, q :: 0 <= p < q < |s| ==> !Outranks(s[q], s[p])
  }

  predicate SameRank(x: ImageCandidate, y: ImageCandidate) {
    !Outranks(x, y) && !Outranks(y, x)
  }

  /** `perm[k]` is the input position of output `k`, and `perm` is one-to-one. */
  predicate PermutationOf(s: seq<ImageCandidate>, orig: seq<ImageCandidate>, perm: seq<int>) {
    |perm| == |s| == |orig|
    && (forall k :: 0 <= k < |s| ==> 0 <= perm[k] < |orig| && s[k] == orig[perm[k]])
    && (forall p, q :: 0 <= p < q < |s| ==> perm[p] != perm[q])
  }

  /** Candidates of equal rank keep their input order. */
  predicate StableBy(s: seq<ImageCandidate>, perm: seq<int>) {
    |perm| == |s| && forall p, q :: 0 <= p < q < |s| && SameRank(s[p], s[q]) ==> perm[p] < perm[q]
  }

  /** `s` with positions `j` and `j + 1` exchanged. */
  function SwapAt<T>(s: seq<T>, j: int): (r: seq<T>)
    requires 0 <= j < |s| - 1
    ensures |r| == |s| && r[j] == s[j + 1] && r[j + 1] == s[j]
    ensures forall k :: 0 <= k < |s| && k != j && k != j + 1 ==> r[k] == s[k]
  {
    s[j := s[j + 1]][j + 1 := s[j]]
  }

  /** Swapping an adjacent pair that is out of rank order keeps the position map one-to-one and stable. */
  lemma SwapOutOfOrder(s: seq<ImageCandidate>, orig: seq<ImageCandidate>, perm: seq<int>, j: int)
    requires 0 <= j < |s| - 1 && Outranks(s[j + 1], s[j])
    requires PermutationOf(s, orig, perm) && StableBy(s, perm)
    ensures PermutationOf(SwapAt(s, j), orig, SwapAt(perm, j))
    ensures StableBy(SwapAt(s, j), SwapAt(perm, j))
  {
    var s', perm' := SwapAt(s, j), SwapAt(perm, j);
    forall p, q | 0 <= p < q < |s'| && SameRank(s'[p], s'[q]) ensures perm'[p] < perm'[q] {
      var sp := if p == j then j + 1 else if p == j + 1 then j else p;
      var sq := if q == j then j + 1 else if q == j + 1 then j else q;
      assert s'[p] == s[sp] && perm'[p] == perm[sp];
      assert s'[q] == s[sq] && perm'[q] == perm[sq];
      assert sp < sq;
    }
    forall p, q | 0 <= p < q < |s'| ensures perm'[p] != perm'[q] {
      var sp := if p == j then j + 1 else if p == j + 1 then j else p;
      var sq := if q == j then j + 1 else if q == j + 1 then j else q;
      assert perm'[p] == perm[sp] && perm'[q] == perm[sq];
      if sp < sq { assert perm[sp] != perm[sq]; } else { assert perm[sq] != perm[sp]; }
    }
  }

  /** The last `|s| - m` positions are in rank order. */
  predicate SuffixRanked(s: seq<ImageCandidate>, m: int) {
    forall p, q :: 0 <= m <= p < q < |s| ==> !Outranks(s[q], s[p])
  }

  /** Nothing in the suffix from `m` outranks anything before `m`. */
  predicate Partitioned(s: seq<ImageCandidate>, m: int) {
    forall p, q :: 0 <= p < m <= q < |s| ==> !Outranks(s[q], s[p])
  }

  /** `s[j]` ranks no higher than anything before it. */
  predicate LowestAt(s: seq<ImageCandidate>, j: int) {
    0 <= j < |s| && forall k :: 0 <= k < j ==> !Outranks(s[j], s[k])
  }

  /** A swap in the inner pass keeps the order facts and moves the lowest candidate on. */
  lemma SwapStep(s: seq<ImageCandidate>, m: int, j: int)
    requires 0 <= j < m - 1 && m <= |s| && Outranks(s[j + 1], s[j])
    requires SuffixRanked(s, m) && Partitioned(s, m) && LowestAt(s, j)
    ensures SuffixRanked(SwapAt(s, j), m) && Partitioned(SwapAt(s, j), m) && LowestAt(SwapAt(s, j), j + 1)
    ensures multiset(SwapAt(s, j)) == multiset(s)
  {
    var s' := SwapAt(s, j);
    assert SuffixRanked(s', m) by {
      forall p, q | 0 <= m <= p < q < |s'| ensures !Outranks(s'[q], s'[p]) {
        assert s'[p] == s[p] && s'[q] == s[q];
      }
    }
    assert Partitioned(s', m) by {
      forall p, q | 0 <= p < m <= q < |s'| ensures !Outranks(s'[q], s'[p]) {
        var sp := if p == j then j + 1 else if p == j + 1 then j else p;
        assert s'[p] == s[sp] && s'[q] == s[q];
      }
    }
    assert LowestAt(s', j + 1) by {
      forall k | 0 <= k < j + 1 ensures !Outranks(s'[j + 1], s'[k]) {
        if k < j { assert s'[k] == s[k]; }
      }
    }
    assert s' == s[j := s[j + 1]][j + 1 := s[j]];
  }

  /** Without a swap the lowest candidate so far is the next one. */
  lemma KeepStep(s: seq<ImageCandidate>, j: int)
    requires 0 <= j < |s| - 1 && !Outranks(s[j + 1], s[j]) && LowestAt(s, j)
    ensures LowestAt(s, j + 1)
  {
  }

  /** The identity position map shows a sequence to be a stable permutation of itself. */
  lemma IdentityPermutation(s: seq<ImageCandidate>, perm: seq<int>)
    requires |perm| == |s| && forall k :: 0 <= k < |s| ==> perm[k] == k
    ensures PermutationOf(s, s, perm) && StableBy(s, perm)
  {
  }

  /** The order and permutation facts the inner pass keeps, with `s[j]` the lowest of the unsorted prefix so far. */
  predicate PassState(s: seq<ImageCandidate>, m: int, j: int, orig: seq<ImageCandidate>, perm: seq<int>) {
    SuffixRanked(s, m) && Partitioned(s, m) && LowestAt(s, j) && PermutationOf(s, orig, perm) && StableBy(s, perm)
  }

  /** A swap of an out-of-order pair moves the pass state on by one position. */
  lemma SwapPassState(s: seq<ImageCandidate>, m: int, j: int, orig: seq<ImageCandidate>, perm: seq<int>)
    requires 0 <= j < m - 1 && m <= |s| && Outranks(s[j + 1], s[j])
    requires PassState(s, m, j, orig, perm)
    ensures PassState(SwapAt(s, j), m, j + 1, orig, SwapAt(perm, j))
    ensures multiset(SwapAt(s, j)) == multiset(s)
  {
    SwapStep(s, m, j);
    SwapOutOfOrder(s, orig, perm, j);
  }

  /** Leaving an in-order pair moves the pass state on by one position. */
  lemma KeepPassState(s: seq<ImageCandidate>, m: int, j: int, orig: seq<ImageCandidate>, perm: seq<int>)
    requires 0 <= j < m - 1 && m <= |s| && !Outranks(s[j + 1], s[j])
    requires PassState(s, m, j, orig, perm)
    ensures PassState(s, m, j + 1, orig, perm)
  {
    KeepStep(s, j);
  }

  /** One inner pass of the bubble sort over the unsorted prefix `a[..m]`. */
  method BubblePass(a: array<ImageCandidate>, m: int, ghost orig: seq<ImageCandidate>, ghost perm0: seq<int>)
    returns (ghost perm: seq<int>)
    requires 1 <= m <= a.Length
    requires SuffixRanked(a[..], m) && Partitioned(a[..], m)
    requires PermutationOf(a[..], orig, perm0) && StableBy(a[..], perm0)
    modifies a
    ensures SuffixRanked(a[..], m - 1) && Partitioned(a[..], m - 1)
    ensures multiset(a[..]) == multiset(old(a[..]))
    ensures PermutationOf(a[..], orig, perm) && StableBy(a[..], perm)
  {
    perm := perm0;
    ghost var cur := a[..];
    var j := 0;
    while j < m - 1
      invariant 0 <= j <= m - 1 && a[..] == cur
      invariant PassState(cur, m, j, orig, perm)
      invariant multiset(cur) == multiset(old(a[..]))
    {
      if a[j].score < a[j + 1].score || (a[j].score == a[j + 1].score && a[j].area < a[j + 1].area) {
        assert Outranks(cur[j + 1], cur[j]);
        SwapPassState(cur, m, j, orig, perm);
        perm := SwapAt(perm, j);
        a[j], a[j + 1] := a[j + 1], a[j];
        cur := SwapAt(cur, j);
        assert a[..] == cur;
      } else {
        assert !Outranks(cur[j + 1], cur[j]);
        KeepPassState(cur, m, j, orig, perm);
      }
      j := j + 1;
    }
    PassDone(cur, m);
  }

  /** The service's bubble sort: repeatedly swaps a neighbouring pair when the second ranks strictly ahead of the first. */
  method SortCandidates(a: array<ImageCandidate>) returns (ghost perm: seq<int>)
    modifies a
    ensures Ranked(a[..])
    ensures multiset(a[..]) == multiset(old(a[..]))
    ensures PermutationOf(a[..], old(a[..]), perm) && StableBy(a[..], perm)
  {
    ghost var orig := a[..];
    perm := seq(a.Length, k => k);
    IdentityPermutation(orig, perm);
    var n := a.Length;
    var i := 0;
    while i < n - 1
      invariant 0 <= i <= n && (n == 0 || i <= n - 1)
      invariant SuffixRanked(a[..], n - i) && Partitioned(a[..], n - i)
      invariant multiset(a[..]) == multiset(orig)
      invariant PermutationOf(a[..], orig, perm) && StableBy(a[..], perm)
    {
      perm := BubblePass(a, n - i, orig, perm);
      i := i + 1;
    }
    Done(a[..], n - i);
  }

  /** After a pass the lowest candidate of the unsorted prefix joins the suffix. */
  lemma PassDone(s: seq<ImageCandidate>, m: int)
    requires 1 <= m <= |s|
    requires SuffixRanked(s, m) && Partitioned(s, m) && LowestAt(s, m - 1)
    ensures SuffixRanked(s, m - 1) && Partitioned(s, m - 1)
  {
  }

  lemma Done(s: seq<ImageCandidate>, m: int)
    requires 0 <= m <= 1 && SuffixRanked(s, m) && Partitioned(s, m)
    ensures Ranked(s)
  {
  }

  // ---------------------------------------------------------------------------
  // Top images

  /** The distinct URLs of `cands`, in order of first occurrence. */
  function FirstUrls(cands: seq<ImageCandidate>): seq<string>
    decreases |cands|
  {
    if cands == [] then []
    else
      var prev := FirstUrls(cands[..|cands| - 1]);
      var u := cands[|cands| - 1].url;
      if u in prev then prev else prev + [u]
  }

  /** The alt text kept for `url`: the first candidate's, replaced once by a later non-empty one while it is empty. */
  function KeptAlt(cands: seq<ImageCandidate>, url: string): string
    decreases |cands|
  {
    if cands == [] then ""
    else
      var prev := KeptAlt(cands[..|cands| - 1], url);
      var c := cands[|cands| - 1];
      if c.url == url && prev == "" then c.alt else prev
  }

  /** The first `limit` distinct URLs, each with its kept alt text. */
  function TopImages(cands: seq<ImageCandidate>, limit: int): (r: seq<Image>)
  {
    var urls := FirstUrls(cands);
    var n := if limit <= 0 then 0 else Min(limit, |urls|);
    seq(n, k requires 0 <= k < n => Image(urls[k], KeptAlt(cands, urls[k])))
  }

  lemma {:induction false} FirstUrlsDistinct(cands: seq<ImageCandidate>)
    ensures forall p, q :: 0 <= p < q < |FirstUrls(cands)| ==> FirstUrls(cands)[p] != FirstUrls(cands)[q]
    decreases |cands|
  {
    if cands != [] {
      FirstUrlsDistinct(cands[..|cands| - 1]);
    }
  }

  lemma {:induction false} FirstUrlsAreInputUrls(cands: seq<ImageCandidate>, u: string)
    ensures u in FirstUrls(cands) <==> exists k :: 0 <= k < |cands| && cands[k].url == u
    decreases |cands|
  {
    if cands != [] {
      var init := cands[..|cands| - 1];
      FirstUrlsAreInputUrls(init, u);
      if exists k :: 0 <= k < |init| && init[k].url == u {
        var k :| 0 <= k < |init| && init[k].url == u;
        assert cands[k].url == u;
      }
      if exists k :: 0 <= k < |cands| && cands[k].url == u {
        var k :| 0 <= k < |cands| && cands[k].url == u;
        if k < |init| { assert init[k].url == u; }
      }
    }
  }

  /** An earlier URL of the list occurs in the input before any occurrence of a later one. */
  lemma {:induction false} FirstUrlsInFirstOccurrenceOrder(cands: seq<ImageCandidate>, p: int, q: int)
    requires 0 <= p < q < |FirstUrls(cands)|
    ensures exists k :: 0 <= k < |cands| && cands[k].url == FirstUrls(cands)[p]
              && forall k2 :: 0 <= k2 <= k ==> cands[k2].url != FirstUrls(cands)[q]
    decreases |cands|
  {
    var init := cands[..|cands| - 1];
    var urls := FirstUrls(cands);
    var prev := FirstUrls(init);
    if q < |prev| {
      assert urls[p] == prev[p] && urls[q] == prev[q];
      FirstUrlsInFirstOccurrenceOrder(init, p, q);
      var k :| 0 <= k < |init| && init[k].url == prev[p] && forall k2 :: 0 <= k2 <= k ==> init[k2].url != prev[q];
      assert cands[k].url == urls[p];
      assert forall k2 :: 0 <= k2 <= k ==> cands[k2].url == init[k2].url;
    } else {
      assert urls == prev + [cands[|cands| - 1].url] && urls[q] !in prev;
      FirstUrlsAreInputUrls(init, urls[p]);
      FirstUrlsAreInputUrls(init, urls[q]);
      assert urls[p] == prev[p];
      var k :| 0 <= k < |init| && init[k].url == urls[p];
      assert cands[k].url == urls[p];
      forall k2 | 0 <= k2 <= k ensures cands[k2].url != urls[q] {
        assert cands[k2] == init[k2];
      }
    }
  }

  /** The kept alt text is the first non-empty alt among the candidates with that URL, or "" when there is none. */
  lemma {:induction false} KeptAltIsFirstNonEmpty(cands: seq<ImageCandidate>, url: string)
    ensures KeptAlt(cands, url) == "" <==> forall k :: 0 <= k < |cands| && cands[k].url == url ==> cands[k].alt == ""
    ensures KeptAlt(cands, url) != "" ==>
      exists k :: 0 <= k < |cands| && cands[k].url == url && cands[k].alt == KeptAlt(cands, url)
        && forall k2 :: 0 <= k2 < k && cands[k2].url == url ==> cands[k2].alt == ""
    decreases |cands|
  {
    if cands != [] {
      var init := cands[..|cands| - 1];
      KeptAltIsFirstNonEmpty(init, url);
      assert forall k :: 0 <= k < |init| ==> init[k] == cands[k];
      var c := cands[|cands| - 1];
      if KeptAlt(init, url) != "" {
        var k :| 0 <= k < |init| && init[k].url == url && init[k].alt == KeptAlt(init, url)
          && forall k2 :: 0 <= k2 < k && init[k2].url == url ==> init[k2].alt == "";
        assert cands[k].url == url && cands[k].alt == KeptAlt(cands, url);
      } else if c.url == url && c.alt != "" {
        assert cands[|cands| - 1] == c;
      }
    }
  }

  /**
   * The de-duplication to the top images: a map from URL to image and the URLs
   * in order of first occurrence, then the first `limit` of them.
   */
  method GetTopImages(cands: seq<ImageCandidate>, limit: int) returns (result: seq<Image>)
    ensures result == TopImages(cands, limit)
    ensures |result| <= if limit < 0 then 0 else limit
    ensures forall p, q :: 0 <= p < q < |result| ==> result[p].url != result[q].url
    ensures forall k :: 0 <= k < |result| ==> exists i :: 0 <= i < |cands| && cands[i].url == result[k].url
  {
    var urlToImage: map<string, Image> := map[];
    var orderedUrls: seq<string> := [];
    var i := 0;
    while i < |cands|
      invariant 0 <= i <= |cands|
      invariant orderedUrls == FirstUrls(cands[..i])
      invariant forall u :: u in urlToImage <==> u in orderedUrls
      invariant forall u :: u in urlToImage ==> urlToImage[u] == Image(u, KeptAlt(cands[..i], u))
    {
      var c := cands[i];
      assert cands[..i + 1][..i] == cands[..i];
      if c.url !in urlToImage {
        FirstUrlsAreInputUrls(cands[..i], c.url);
        KeptAltIsFirstNonEmpty(cands[..i], c.url);
        urlToImage := urlToImage[c.url := Image(c.url, c.alt)];
        orderedUrls := orderedUrls + [c.url];
      } else if urlToImage[c.url].alt == "" && c.alt != "" {
        var img := urlToImage[c.url];
        urlToImage := urlToImage[c.url := img.(alt := c.alt)];
      }
      i := i + 1;
    }
    assert cands[..i] == cands;
    result := [];
    var k := 0;
    while k < |orderedUrls| && k < limit
      invariant 0 <= k <= |orderedUrls|
      invariant k <= limit || k == 0
      invariant result == TopImages(cands, limit)[..k]
    {
      result := result + [urlToImage[orderedUrls[k]]];
      k := k + 1;
    }
    assert result == TopImages(cands, limit);
    FirstUrlsDistinct(cands);
    forall j | 0 <= j < |result| ensures exists i :: 0 <= i < |cands| && cands[i].url == result[j].url {
      FirstUrlsAreInputUrls(cands, result[j].url);
    }
  }

  /**
   * The ranking tail of image extraction: the article filter, the in-place
   * sort and the top ten distinct images. The candidate order on entry is any
   * interleaving of the Open Graph, JSON-LD and `<img>` lists.
   */
  method RankImages(cfg: ImageConfig, cands: seq<ImageCandidate>) returns (images: seq<Image>)
    ensures exists ranked :: Ranked(ranked) && multiset(ranked) == multiset(KeptScored(cfg, cands))
              && images == TopImages(ranked, 10)
    ensures |images| <= 10
    ensures forall p, q :: 0 <= p < q < |images| ==> images[p].url != images[q].url
    ensures forall k :: 0 <= k < |images| ==> FromKept(cfg, cands, images[k].url)
  {
    var filtered := FilterArticleImages(cfg, cands);
    var a := new ImageCandidate[|filtered|](k requires 0 <= k < |filtered| => filtered[k]);
    assert a[..] == filtered;
    ghost var perm := SortCandidates(a);
    var ranked := a[..];
    images := GetTopImages(ranked, 10);
    RankedProvenance(cfg, cands, ranked, images);
  }

  /** Some candidate kept by the article filter has this URL. */
  predicate FromKept(cfg: ImageConfig, cands: seq<ImageCandidate>, url: string) {
    exists c :: c in cands && Kept(cfg, c) && c.url == url
  }

  /** Every URL of the top images of a ranking of the kept candidates is the URL of a kept candidate. */
  lemma RankedProvenance(cfg: ImageConfig, cands: seq<ImageCandidate>, ranked: seq<ImageCandidate>, images: seq<Image>)
    requires multiset(ranked) == multiset(KeptScored(cfg, cands))
    requires forall k :: 0 <= k < |images| ==> exists i :: 0 <= i < |ranked| && ranked[i].url == images[k].url
    ensures forall k :: 0 <= k < |images| ==> FromKept(cfg, cands, images[k].url)
  {
    forall k | 0 <= k < |images| ensures FromKept(cfg, cands, images[k].url) {
      var i :| 0 <= i < |ranked| && ranked[i].url == images[k].url;
      assert ranked[i] in multiset(ranked);
      assert ranked[i] in KeptScored(cfg, cands);
      KeptScoredMembers(cfg, cands, ranked[i]);
      var c :| c in cands && Kept(cfg, c) && ranked[i] == Scored(cfg, c);
      assert c.url == images[k].url;
    }
  }

  /** A ranked arrangement of two candidates, one outranking the other, puts that one first. */
  lemma RankedPair(ranked: seq<ImageCandidate>, x: ImageCandidate, y: ImageCandidate)
    requires Outranks(x, y) && Ranked(ranked) && multiset(ranked) == multiset([x, y])
    ensures ranked == [x, y]
  {
    assert |ranked| == 2 by { assert |multiset(ranked)| == 2; }
    assert ranked == [ranked[0], ranked[1]];
    assert multiset(ranked) == multiset{ranked[0], ranked[1]};
    assert x != y;
    assert !Outranks(ranked[1], ranked[0]);
  }

  lemma TopImagesOfPair(x: ImageCandidate, y: ImageCandidate)
    requires x.url != y.url
    ensures TopImages([x, y], 10) == [Image(x.url, x.alt), Image(y.url, y.alt)]
  {
    var s := [x, y];
    assert s[..|s| - 1] == [x] && [x][..|[x]| - 1] == [];
    assert FirstUrls([x]) == [x.url];
    assert FirstUrls(s) == [x.url, y.url];
    assert KeptAlt([x], x.url) == x.alt;
    assert KeptAlt(s[..|s| - 1], x.url) == x.alt;
    assert KeptAlt(s, x.url) == x.alt;
    assert KeptAlt([x], y.url) == "";
    assert KeptAlt(s[..|s| - 1], y.url) == "";
    assert KeptAlt(s, y.url) == y.alt;
  }

  // The four article images of the extraction test.
  const Hero := ImageCandidate("https://static0.srcdn.com/hero.jpg", "Hero", 1600, 900, true, false, "img", 0, 0)
  const Body := ImageCandidate("https://static0.srcdn.com/body.jpg", "Body", 1000, 700, true, false, "img", 0, 0)
  const Portrait := ImageCandidate("https://static0.srcdn.com/portrait.jpg", "Portrait", 600, 900, true, false, "img", 0, 0)
  const Small := ImageCandidate("https://static0.srcdn.com/small-landscape.jpg", "Small", 550, 300, true, false, "img", 0, 0)

  lemma ScenarioKept(cfg: ImageConfig)
    requires (1600, 900) !in cfg.adSizes && (1000, 700) !in cfg.adSizes
    ensures Kept(cfg, Hero) && Kept(cfg, Body) && !Kept(cfg, Portrait) && !Kept(cfg, Small)
  {
  }

  lemma ScenarioOutranks(cfg: ImageConfig)
    ensures Outranks(Scored(cfg, Hero), Scored(cfg, Body))
  {
    assert Pow10(5) == 100000 && Pow10(6) == 1000000 && Pow10(7) == 10000000;
    FloorLog10Unique(1440000, 6);
    FloorLog10Unique(700000, 5);
    ScoreOfPositiveArea(cfg, Hero);
    ScoreOfPositiveArea(cfg, Body);
  }

  /** The scenario of the extraction test: the portrait and the small landscape image are dropped, and the hero ranks ahead of the body image. */
  lemma ImagesTestScenario(cfg: ImageConfig)
    requires (1600, 900) !in cfg.adSizes && (1000, 700) !in cfg.adSizes
    ensures KeptScored(cfg, [Hero, Body, Portrait, Small]) == [Scored(cfg, Hero), Scored(cfg, Body)]
    ensures Outranks(Scored(cfg, Hero), Scored(cfg, Body))
  {
    var cands := [Hero, Body, Portrait, Small];
    ScenarioKept(cfg);
    ScenarioOutranks(cfg);
    assert cands[..1][..0] == [];
    assert KeptScored(cfg, cands[..1]) == [Scored(cfg, Hero)];
    assert cands[..2][..1] == cands[..1];
    assert KeptScored(cfg, cands[..2]) == [Scored(cfg, Hero), Scored(cfg, Body)];
    assert cands[..3][..2] == cands[..2];
    assert KeptScored(cfg, cands[..3]) == [Scored(cfg, Hero), Scored(cfg, Body)];
    assert cands[..3] == cands[..|cands| - 1];
  }

  /** Whatever order the ranking sort leaves, the test scenario yields exactly the hero and body images, in that order. */
  lemma ImagesTestScenarioTopImages(cfg: ImageConfig, ranked: seq<ImageCandidate>)
    requires (1600, 900) !in cfg.adSizes && (1000, 700) !in cfg.adSizes
    requires Ranked(ranked) && multiset(ranked) == multiset(KeptScored(cfg, [Hero, Body, Portrait, Small]))
    ensures TopImages(ranked, 10) == [Image("https://static0.srcdn.com/hero.jpg", "Hero"), Image("https://static0.srcdn.com/body.jpg", "Body")]
  {
    ImagesTestScenario(cfg);
    RankedPair(ranked, Scored(cfg, Hero), Scored(cfg, Body));
    TopImagesOfPair(Scored(cfg, Hero), Scored(cfg, Body));
  }

  // ---------------------------------------------------------------------------
  // srcset

  datatype SrcsetCandidate = SrcsetCandidate(url: string, w: int)

  /**
   * The `srcset` entries that parse: each comma-separated item, trimmed, must
   * match the item pattern (`matchItem` gives its URL and width captures), and
   * its width must satisfy `Atoi`.
   */
  function SrcsetCandidates(items: seq<string>, matchItem: string -> Option<(string, string)>): seq<SrcsetCandidate>
    decreases |items|
  {
    if items == [] then []
    else
      var prev := SrcsetCandidates(items[..|items| - 1], matchItem);
      var m := matchItem(TrimSpace(items[|items| - 1]));
      if m.Some? && Atoi(m.value.1).Some? then prev + [SrcsetCandidate(m.value.0, Atoi(m.value.1).value)] else prev
  }

  function WidthDiff(w: int): nat {
    if w - Constants.TargetImageWidth < 0 then Constants.TargetImageWidth - w else w - Constants.TargetImageWidth
  }

  /** `x` is a strictly better width than `y`: closer to the target width, or as close and larger. */
  predicate BetterWidth(x: SrcsetCandidate, y: SrcsetCandidate) {
    WidthDiff(x.w) < WidthDiff(y.w) || (WidthDiff(x.w) == WidthDiff(y.w) && x.w > y.w)
  }

  /** Entry `k` is the pick: no entry is better, and no earlier entry is as good. */
  predicate BestWidthAt(cs: seq<SrcsetCandidate>, k: int) {
    0 <= k < |cs|
    && (forall j :: 0 <= j < |cs| ==> !BetterWidth(cs[j], cs[k]))
    && (forall j :: 0 <= j < k ==> BetterWidth(cs[k], cs[j]))
  }

  /** At most one entry is the pick. */
  lemma BestWidthUnique(cs: seq<SrcsetCandidate>, k1: int, k2: int)
    requires BestWidthAt(cs, k1) && BestWidthAt(cs, k2)
    ensures k1 == k2
  {
    NotBetterThanPick(cs, k1, k2);
    NotBetterThanPick(cs, k2, k1);
  }

  lemma NotBetterThanPick(cs: seq<SrcsetCandidate>, k: int, j: int)
    requires BestWidthAt(cs, k) && 0 <= j < |cs|
    ensures !BetterWidth(cs[j], cs[k])
  {
  }

  /** The parse loop of the `srcset` pick. */
  method ParseSrcset(items: seq<string>, matchItem: string -> Option<(string, string)>) returns (candidates: seq<SrcsetCandidate>)
    ensures candidates == SrcsetCandidates(items, matchItem)
  {
    candidates := [];
    var i := 0;
    while i < |items|
      invariant 0 <= i <= |items|
      invariant candidates == SrcsetCandidates(items[..i], matchItem)
    {
      assert items[..i + 1][..i] == items[..i];
      var item := TrimSpace(items[i]);
      var m := matchItem(item);
      if m.Some? {
        var w := Atoi(m.value.1);
        if w.Some? {
          candidates := candidates + [SrcsetCandidate(m.value.0, w.value)];
        }
      }
      i := i + 1;
    }
    assert items[..i] == items;
  }

  /** The running best of the `srcset` pick, starting from the first entry. */
  method BestWidthIndex(candidates: seq<SrcsetCandidate>) returns (best: int)
    requires candidates != []
    ensures BestWidthAt(candidates, best)
  {
    best := 0;
    var k := 1;
    while k < |candidates|
      invariant 1 <= k <= |candidates| && 0 <= best < k
      invariant forall j :: 0 <= j < k ==> !BetterWidth(candidates[j], candidates[best])
      invariant forall j :: 0 <= j < best ==> BetterWidth(candidates[best], candidates[j])
    {
      var candidateDiff := WidthDiff(candidates[k].w);
      var bestDiff := WidthDiff(candidates[best].w);
      if candidateDiff < bestDiff || (candidateDiff == bestDiff && candidates[k].w > candidates[best].w) {
        best := k;
      }
      k := k + 1;
    }
  }

  /** The `srcset` pick: "" when no entry parses, otherwise the URL of the best width. */
  method PickFromSrcset(srcset: string, matchItem: string -> Option<(string, string)>) returns (url: string)
    ensures var cs := SrcsetCandidates(Split(srcset, ','), matchItem);
      (cs == [] ==> url == "") && (cs != [] ==> exists k :: BestWidthAt(cs, k) && url == cs[k].url)
  {
    var candidates := ParseSrcset(Split(srcset, ','), matchItem);
    if |candidates| == 0 {
      return "";
    }
    var best := BestWidthIndex(candidates);
    url := candidates[best].url;
  }

  // ---------------------------------------------------------------------------
  // Section exclusion

  /** The attributes of an element that the exclusion test reads; `None` is an absent attribute. */
  datatype SectionAttrs = SectionAttrs(
    classes: Option<string>, id: Option<string>,
    dataWidget: Option<string>, dataComponent: Option<string>, dataType: Option<string>, dataSection: Option<string>)

  function AttrOr(a: Option<string>): string { if a.Some? then a.value else "" }

  function DataAttr(a: Option<string>): string { if a.Some? then a.value + " " else "" }

  /** The lower-cased class, id and data attributes, as one string. */
  function SectionText(a: SectionAttrs): string {
    var dataAttrs := DataAttr(a.dataWidget) + DataAttr(a.dataComponent) + DataAttr(a.dataType) + DataAttr(a.dataSection);
    Lower(AttrOr(a.classes) + " " + AttrOr(a.id) + " " + dataAttrs)
  }

  const ExclusionPatterns: seq<string> := [
    "sidebar", "side-bar", "side_bar",
    "related", "related-posts", "related-articles", "related-content", "related-stories",
    "featured", "featured-posts", "featured-articles", "featured-content", "featured-stories",
    "popular", "trending", "most-read", "most-popular",
    "recommended", "recommendation", "you-may-like",
    "widget", "banner", "advertisement", "ad-", "advert",
    "navigation", "nav-", "navbar", "menu", "footer", "header", "carousel", "slider", "gallery", "aside",
    "promo", "promotion", "sponsored",
    "more-stories", "more-articles", "more-news",
    "latest-posts", "latest-articles", "latest-news", "latest-stories",
    "recent-posts", "recent-articles", "recent-news",
    "top-stories", "top-posts", "highlights", "must-read", "dont-miss",
    "editor-pick", "editor-choice", "read-more", "read-next",
    "story-list", "post-list", "grid-items", "list-items"]

  /** A section whose class, id or data attributes name a non-article part of the page. */
  predicate IsExcludedSection(a: SectionAttrs) {
    ContainsAny(SectionText(a), ExclusionPatterns)
  }

  /** Text found in the lower-cased form of a slice is found in the lower-cased whole. */
  lemma LowerSliceContains(x: string, off: int, y: string, p: string)
    requires 0 <= off && off + |y| <= |x| && x[off..off + |y|] == y
    requires Contains(Lower(y), p)
    ensures Contains(Lower(x), p)
  {
    var i :| 0 <= i <= |y| - |p| && OccursAt(Lower(y), p, i);
    assert OccursAt(Lower(y), p, i);
    var lx := Lower(x);
    forall k | 0 <= k < |p| ensures lx[off + i + k] == p[k] {
      assert Lower(y)[i..i + |p|][k] == Lower(y)[i + k];
      assert x[off..off + |y|][i + k] == x[off + i + k];
    }
    assert lx[off + i..off + i + |p|] == p;
    assert OccursAt(lx, p, off + i);
  }

  /** Text found in the lower-cased class or id is found in the section text. */
  lemma ClassOrIdTextInSectionText(a: SectionAttrs, p: string)
    requires Contains(Lower(AttrOr(a.classes)), p) || Contains(Lower(AttrOr(a.id)), p)
    ensures Contains(SectionText(a), p)
  {
    var dataAttrs := DataAttr(a.dataWidget) + DataAttr(a.dataComponent) + DataAttr(a.dataType) + DataAttr(a.dataSection);
    var cls, id := AttrOr(a.classes), AttrOr(a.id);
    var x := cls + " " + id + " " + dataAttrs;
    if Contains(Lower(cls), p) {
      assert x[0..|cls|] == cls;
      LowerSliceContains(x, 0, cls, p);
    } else {
      assert x[|cls| + 1..|cls| + 1 + |id|] == id;
      LowerSliceContains(x, |cls| + 1, id, p);
    }
  }

  /** A class or id holding an exclusion keyword, in any letter case, excludes the section. */
  lemma KeywordInClassOrIdExcludes(a: SectionAttrs, k: int)
    requires 0 <= k < |ExclusionPatterns|
    requires Contains(Lower(AttrOr(a.classes)), ExclusionPatterns[k]) || Contains(Lower(AttrOr(a.id)), ExclusionPatterns[k])
    ensures IsExcludedSection(a)
  {
    ClassOrIdTextInSectionText(a, ExclusionPatterns[k]);
  }

  // ---------------------------------------------------------------------------
  // Thumbnail grids

  /** What the thumbnail-grid test reads from an `<img>`: its width attribute and the width parsed from its style. */
  datatype ImgAttrs = ImgAttrs(width: Option<string>, styleWidth: Option<real>)

  /** An ancestor of the image: its tag name, the number of links in it and the images in it. */
  datatype Ancestor = Ancestor(tag: string, linkCount: int, images: seq<ImgAttrs>)

  function AttrWidth(img: ImgAttrs): Option<int> {
    if img.width.Some? then Atoi(img.width.value) else None
  }

  predicate IsLargeImage(img: ImgAttrs) {
    (AttrWidth(img).Some? && AttrWidth(img).value > 400) || (img.styleWidth.Some? && img.styleWidth.value > 400.0)
  }

  predicate IsSmallImage(img: ImgAttrs) {
    AttrWidth(img).Some? && 0 < AttrWidth(img).value <= 400
  }

  function CountSmall(imgs: seq<ImgAttrs>): nat
    decreases |imgs|
  {
    if imgs == [] then 0
    else CountSmall(imgs[..|imgs| - 1]) + (if IsSmallImage(imgs[|imgs| - 1]) then 1 else 0)
  }

  function AnyLarge(imgs: seq<ImgAttrs>): bool
    decreases |imgs|
  {
    if imgs == [] then false else AnyLarge(imgs[..|imgs| - 1]) || IsLargeImage(imgs[|imgs| - 1])
  }

  lemma {:induction false} AnyLargeIff(imgs: seq<ImgAttrs>)
    ensures AnyLarge(imgs) <==> exists k :: 0 <= k < |imgs| && IsLargeImage(imgs[k])
    decreases |imgs|
  {
    if imgs != [] {
      var init := imgs[..|imgs| - 1];
      AnyLargeIff(init);
      assert forall k :: 0 <= k < |init| ==> init[k] == imgs[k];
    }
  }

  /** An ancestor that looks like a grid of linked thumbnails. */
  predicate LevelExcludes(a: Ancestor) {
    a.linkCount >= 3 && |a.images| >= 2
    && (a.tag == "ul" || a.tag == "ol" || a.tag == "nav"
        || ((forall k :: 0 <= k < |a.images| ==> !IsLargeImage(a.images[k]))
            && CountSmall(a.images) >= 2 && a.linkCount >= 6))
  }

  /** The per-image scan of one ancestor: whether any image is large, and how many are explicitly small. */
  method ScanImages(imgs: seq<ImgAttrs>) returns (hasLargeImage: bool, smallImageCount: nat)
    ensures hasLargeImage <==> exists k :: 0 <= k < |imgs| && IsLargeImage(imgs[k])
    ensures smallImageCount == CountSmall(imgs)
  {
    hasLargeImage, smallImageCount := false, 0;
    var j := 0;
    while j < |imgs|
      invariant 0 <= j <= |imgs|
      invariant hasLargeImage == AnyLarge(imgs[..j])
      invariant smallImageCount == CountSmall(imgs[..j])
    {
      assert imgs[..j + 1][..j] == imgs[..j];
      var img := imgs[j];
      var w := AttrWidth(img);
      if w.Some? {
        if w.value > 400 {
          hasLargeImage := true;
        } else if w.value > 0 {
          smallImageCount := smallImageCount + 1;
        }
      }
      if !hasLargeImage {
        if img.styleWidth.Some? && img.styleWidth.value > 400.0 {
          hasLargeImage := true;
        }
      }
      j := j + 1;
    }
    assert imgs[..j] == imgs;
    AnyLargeIff(imgs);
  }

  /** The thumbnail-grid test over the image's ancestors, nearest first, looking at most five levels up. */
  method IsInLinkList(ancestors: seq<Ancestor>) returns (r: bool)
    ensures r <==> exists i :: 0 <= i < |ancestors| && i < 5 && LevelExcludes(ancestors[i])
  {
    var i := 0;
    while i < |ancestors| && i < 5
      invariant 0 <= i <= |ancestors| && i <= 5
      invariant forall j :: 0 <= j < i ==> !LevelExcludes(ancestors[j])
    {
      var parent := ancestors[i];
      if parent.linkCount >= 3 && |parent.images| >= 2 {
        if parent.tag == "ul" || parent.tag == "ol" || parent.tag == "nav" {
          return true;
        }
        var hasLargeImage, smallImageCount := ScanImages(parent.images);
        if !hasLargeImage && smallImageCount >= 2 && parent.linkCount >= 6 {
          return true;
        }
      }
      i := i + 1;
    }
    return false;
  }

  /** Six links and three 150-wide thumbnails make a grid; one 800-wide image among them does not. */
  lemma ThumbnailGridExamples()
    ensures LevelExcludes(Ancestor("div", 6, [ImgAttrs(Some("150"), None), ImgAttrs(Some("150"), None), ImgAttrs(Some("150"), None)]))
    ensures !LevelExcludes(Ancestor("div", 6, [ImgAttrs(Some("150"), None), ImgAttrs(Some("800"), None), ImgAttrs(Some("150"), None)]))
  {
    assert Atoi("150") == Some(150) by {
      assert FormatNat(15) == "15";
      assert FormatInt(150) == "150";
      AtoiFormatInt(150);
    }
    assert Atoi("800") == Some(800) by {
      assert FormatNat(80) == "80";
      assert FormatInt(800) == "800";
      AtoiFormatInt(800);
    }
    var thumbs := [ImgAttrs(Some("150"), None), ImgAttrs(Some("150"), None), ImgAttrs(Some("150"), None)];
    assert thumbs[..2][..1] == [thumbs[0]];
    assert thumbs[..1][..0] == [];
    assert thumbs[..2][..1] == thumbs[..1];
    assert thumbs[..3] == thumbs;
    assert CountSmall(thumbs[..1]) == 1;
    assert CountSmall(thumbs[..2]) == 2;
    assert CountSmall(thumbs) == 3;
    var mixed := [ImgAttrs(Some("150"), None), ImgAttrs(Some("800"), None), ImgAttrs(Some("150"), None)];
    assert IsLargeImage(mixed[1]);
  }

  // ---------------------------------------------------------------------------
  // Image URL cleaning

  function IndexOf(s: string, c: char): (r: int)
    ensures -1 <= r < |s|
    ensures r >= 0 ==> s[r] == c && c !in s[..r]
    ensures r == -1 ==> c !in s
    decreases |s|
  {
    if s == [] then -1
    else if s[|s| - 1] == c && c !in s[..|s| - 1] then |s| - 1
    else if c in s[..|s| - 1] then IndexOf(s[..|s| - 1], c)
    else -1
  }

  function CountChar(s: string, c: char): nat
    decreases |s|
  {
    if s == [] then 0 else CountChar(s[..|s| - 1], c) + (if s[|s| - 1] == c then 1 else 0)
  }

  /** The text before the first '#' and the fragment after it ("" when there is no '#'). */
  function SplitFragment(raw: string): (r: (string, string))
    ensures '#' !in r.0
  {
    var h := IndexOf(raw, '#');
    if h < 0 then (raw, "") else (raw[..h], raw[h + 1..])
  }

  /** The query removal: a lone '?' at the end is kept (the parser's forced-query flag); otherwise everything from the first '?' goes. */
  function StripQuery(s: string): string {
    var q := IndexOf(s, '?');
    if q == |s| - 1 && CountChar(s, '?') == 1 then s
    else if q < 0 then s else s[..q]
  }

  /**
   * A URL with its query removed, as parsing it, clearing the raw query and
   * printing it again does: the fragment is split off at the first '#', the
   * query is stripped from the rest, and an empty fragment is not printed.
   */
  function CleanImageURL(raw: string): (r: string)
    ensures SplitFragment(r) == (StripQuery(SplitFragment(raw).0), SplitFragment(raw).1)
    ensures '?' !in raw && '#' !in raw ==> r == raw
  {
    var (beforeHash, fragment) := SplitFragment(raw);
    StripQueryIdempotent(beforeHash);
    SplitFragmentOfJoined(StripQuery(beforeHash), fragment);
    StripQuery(beforeHash) + (if fragment == "" then "" else "#" + fragment)
  }

  lemma CountCharZero(s: string, c: char)
    requires c !in s
    ensures CountChar(s, c) == 0
  {
    if s != [] {
      assert c !in s[..|s| - 1] by { assert forall x :: x in s[..|s| - 1] ==> x in s; }
      CountCharZero(s[..|s| - 1], c);
    }
  }

  lemma StripQueryIdempotent(s: string)
    ensures StripQuery(StripQuery(s)) == StripQuery(s)
    ensures '#' !in s ==> '#' !in StripQuery(s)
  {
    var q := IndexOf(s, '?');
    if !(q == |s| - 1 && CountChar(s, '?') == 1) && q >= 0 {
      assert '?' !in s[..q];
      CountCharZero(s[..q], '?');
    }
    assert forall x :: x in StripQuery(s) ==> x in s;
  }

  lemma SplitFragmentOfJoined(base: string, fragment: string)
    requires '#' !in base
    ensures SplitFragment(base + (if fragment == "" then "" else "#" + fragment)) == (base, fragment)
  {
    var r := base + (if fragment == "" then "" else "#" + fragment);
    if fragment == "" {
      assert r == base;
    } else {
      assert r[|base|] == '#' && r[..|base|] == base;
      assert r[|base| + 1..] == fragment;
    }
  }

  /** Cleaning a cleaned URL changes nothing. */
  lemma CleanImageURLIdempotent(raw: string)
    ensures CleanImageURL(CleanImageURL(raw)) == CleanImageURL(raw)
  {
    var (beforeHash, fragment) := SplitFragment(raw);
    StripQueryIdempotent(beforeHash);
    SplitFragmentOfJoined(StripQuery(beforeHash), fragment);
  }
}
