/**
 * Video discovery (internal/scraper/videos.go). Five sources are read in a
 * fixed order (Open Graph meta tags, the Twitter player tag, JSON-LD
 * scripts, iframes inside the article, `<video>` elements inside the article)
 * and all of them share one set of URLs already seen, so that a URL is
 * reported once, by the first source that finds it.
 *
 * The document is given as the elements goquery would visit, in document
 * order. `resolve` stands for `toAbsoluteURL` against the page URL (`None`
 * when either URL does not parse) and `isVideoExt` for the file-extension
 * regular expression.
 */
module Videos {
  import opened Wrappers
  import opened Text
  import opened Json
  import opened Models
  import ExtractorHelpers

  type Meta = ExtractorHelpers.Meta

  // ---------------------------------------------------------------------------
  // Provider rules

  /** The provider, by ordered substring rules on the lower-cased URL, then the extension test on the URL itself. */
  function DetectProvider(isVideoExt: string -> bool, url: string): string {
    var l := Lower(url);
    if Contains(l, "youtube.com") || Contains(l, "youtu.be") then "youtube"
    else if Contains(l, "vimeo.com") then "vimeo"
    else if Contains(l, "dailymotion.com") then "dailymotion"
    else if Contains(l, "twitch.tv") then "twitch"
    else if Contains(l, "facebook.com") then "facebook"
    else if Contains(l, "tiktok.com") then "tiktok"
    else if isVideoExt(url) then "html5"
    else "unknown"
  }

  /** A URL of a known video host or player, or one with a video file extension. */
  predicate IsVideoEmbed(isVideoExt: string -> bool, url: string) {
    var l := Lower(url);
    Contains(l, "youtube.com") || Contains(l, "youtu.be") || Contains(l, "vimeo.com") ||
    Contains(l, "dailymotion.com") || Contains(l, "twitch.tv") ||
    Contains(l, "facebook.com/plugins/video") || Contains(l, "tiktok.com") ||
    isVideoExt(url)
  }

  /** Every embed URL has a known provider: the facebook player path contains "facebook.com". */
  lemma EmbedHasProvider(isVideoExt: string -> bool, url: string)
    requires IsVideoEmbed(isVideoExt, url)
    ensures DetectProvider(isVideoExt, url) != "unknown"
  {
    var l := Lower(url);
    if Contains(l, "facebook.com/plugins/video") {
      ContainsPrefixOf(l, "facebook.com/plugins/video", "facebook.com");
    }
  }

  /** Letter case in the URL does not change the host rules; only the extension test sees the URL as written. */
  lemma DetectProviderHosts(isVideoExt: string -> bool, url: string)
    ensures DetectProvider(isVideoExt, url) == "youtube" <==>
      Contains(Lower(url), "youtube.com") || Contains(Lower(url), "youtu.be")
    ensures DetectProvider(isVideoExt, url) == "html5" <==>
      !Contains(Lower(url), "youtube.com") && !Contains(Lower(url), "youtu.be") &&
      !Contains(Lower(url), "vimeo.com") && !Contains(Lower(url), "dailymotion.com") &&
      !Contains(Lower(url), "twitch.tv") && !Contains(Lower(url), "facebook.com") &&
      !Contains(Lower(url), "tiktok.com") && isVideoExt(url)
  {
  }

  // ---------------------------------------------------------------------------
  // The shared state

  /** The videos found so far, in order, and the URLs already seen. */
  datatype Collected = Collected(videos: seq<Video>, seen: set<string>)

  /** Report `v` unless its URL was seen; either way the URL is seen afterwards. */
  function Offer(c: Collected, v: Video): Collected {
    if v.url in c.seen then c else Collected(c.videos + [v], c.seen + {v.url})
  }

  predicate Distinct(vs: seq<Video>) {
    forall i, j :: 0 <= i < j < |vs| ==> vs[i].url != vs[j].url
  }

  /** The videos have pairwise distinct URLs, all of them seen. */
  predicate Inv(c: Collected) {
    Distinct(c.videos) && forall i :: 0 <= i < |c.videos| ==> c.videos[i].url in c.seen
  }

  /**
   * What each source promises about a video it reports: a provider from the
   * provider rules (a `<video>` is always "html5"), and an embedded video's
   * URL passes the embed test.
   */
  predicate WellFormed(isVideoExt: string -> bool, v: Video) {
    (v.kind == "html5" ==> v.provider == "html5") &&
    (v.kind != "html5" ==> v.provider == DetectProvider(isVideoExt, v.url)) &&
    (v.kind == "embedded" ==> IsVideoEmbed(isVideoExt, v.url))
  }

  /** `d` extends `c` by well-formed videos of one kind only, and keeps the invariant. */
  predicate Step(isVideoExt: string -> bool, c: Collected, d: Collected, kind: string) {
    c.videos <= d.videos && c.seen <= d.seen &&
    (forall i :: |c.videos| <= i < |d.videos| ==> d.videos[i].kind == kind && WellFormed(isVideoExt, d.videos[i])) &&
    (Inv(c) ==> Inv(d))
  }

  lemma OfferStep(isVideoExt: string -> bool, c: Collected, v: Video)
    requires WellFormed(isVideoExt, v)
    ensures Step(isVideoExt, c, Offer(c, v), v.kind)
  {
  }

  lemma StepRefl(isVideoExt: string -> bool, c: Collected, kind: string)
    ensures Step(isVideoExt, c, c, kind)
  {
  }

  lemma StepTrans(isVideoExt: string -> bool, c: Collected, d: Collected, e: Collected, kind: string)
    requires Step(isVideoExt, c, d, kind) && Step(isVideoExt, d, e, kind)
    ensures Step(isVideoExt, c, e, kind)
  {
    forall i | |c.videos| <= i < |e.videos|
      ensures e.videos[i].kind == kind && WellFormed(isVideoExt, e.videos[i])
    {
      if i < |d.videos| {
        assert e.videos[i] == d.videos[i];
      }
    }
  }

  /** Offer the video with URL `resolve(raw)`, when `raw` is non-empty and resolves. */
  function OfferResolved(
    c: Collected, resolve: string -> Option<string>, isVideoExt: string -> bool,
    raw: string, kind: string, title: string): Collected
  {
    if raw == "" then c
    else match resolve(raw)
      case None => c
      case Some(abs) => Offer(c, Video(abs, DetectProvider(isVideoExt, abs), kind, title))
  }

  lemma OfferResolvedStep(
    c: Collected, resolve: string -> Option<string>, isVideoExt: string -> bool,
    raw: string, kind: string, title: string)
    requires kind != "html5" && kind != "embedded"
    ensures Step(isVideoExt, c, OfferResolved(c, resolve, isVideoExt, raw, kind, title), kind)
    ensures |OfferResolved(c, resolve, isVideoExt, raw, kind, title).videos| <= |c.videos| + 1
  {
  }

  // ---------------------------------------------------------------------------
  // Meta tag scans

  predicate IsOgVideoMeta(m: Meta) {
    m.property == Some("og:video") || m.property == Some("og:video:url") || m.property == Some("og:video:secure_url")
  }

  predicate IsOgTitleMeta(m: Meta) {
    m.property == Some("og:title")
  }

  predicate IsTwitterPlayerMeta(m: Meta) {
    m.name == Some("twitter:player")
  }

  /** The content of the last element with a content attribute that `p` accepts; "" when there is none. */
  function LastContent(metas: seq<Meta>, p: Meta -> bool): string
    decreases |metas|
  {
    if metas == [] then ""
    else
      var m := metas[|metas| - 1];
      if p(m) && m.content.Some? then m.content.value else LastContent(metas[..|metas| - 1], p)
  }

  /** The content of the first element that `p` accepts whose content is non-empty; "" when there is none. */
  function FirstContent(metas: seq<Meta>, p: Meta -> bool): string
    decreases |metas|
  {
    if metas == [] then ""
    else
      var t := FirstContent(metas[..|metas| - 1], p);
      var m := metas[|metas| - 1];
      if t == "" && p(m) && m.content.Some? then m.content.value else t
  }

  /** A later element always overrides: the value is the content of the last accepted element. */
  lemma {:induction false} LastContentIsLast(metas: seq<Meta>, p: Meta -> bool)
    ensures (forall i :: 0 <= i < |metas| ==> !(p(metas[i]) && metas[i].content.Some?)) ==>
      LastContent(metas, p) == ""
    ensures (exists i :: 0 <= i < |metas| && p(metas[i]) && metas[i].content.Some?) ==>
      exists i :: 0 <= i < |metas| && p(metas[i]) && metas[i].content == Some(LastContent(metas, p)) &&
        forall j :: i < j < |metas| ==> !(p(metas[j]) && metas[j].content.Some?)
    decreases |metas|
  {
    if metas != [] {
      var init := metas[..|metas| - 1];
      LastContentIsLast(init, p);
      assert forall i :: 0 <= i < |init| ==> init[i] == metas[i];
      var m := metas[|metas| - 1];
      if !(p(m) && m.content.Some?) && exists i :: 0 <= i < |metas| && p(metas[i]) && metas[i].content.Some? {
        var i :| 0 <= i < |metas| && p(metas[i]) && metas[i].content.Some?;
        assert i < |init| && p(init[i]) && init[i].content.Some?;
      }
    }
  }

  /** An earlier non-empty value is never replaced: the value is the first non-empty accepted content. */
  lemma {:induction false} FirstContentIsFirst(metas: seq<Meta>, p: Meta -> bool)
    ensures FirstContent(metas, p) == "" <==>
      forall i :: 0 <= i < |metas| ==> !(p(metas[i]) && metas[i].content.Some? && metas[i].content.value != "")
    ensures FirstContent(metas, p) != "" ==>
      exists i :: 0 <= i < |metas| && p(metas[i]) && metas[i].content == Some(FirstContent(metas, p)) &&
        forall j :: 0 <= j < i ==> !(p(metas[j]) && metas[j].content.Some? && metas[j].content.value != "")
    decreases |metas|
  {
    if metas != [] {
      var init := metas[..|metas| - 1];
      FirstContentIsFirst(init, p);
      assert forall i :: 0 <= i < |init| ==> init[i] == metas[i];
      var t := FirstContent(init, p);
      if t != "" {
        var i :| 0 <= i < |init| && p(init[i]) && init[i].content == Some(t) &&
          forall j :: 0 <= j < i ==> !(p(init[j]) && init[j].content.Some? && init[j].content.value != "");
        assert p(metas[i]) && metas[i].content == Some(t);
      }
    }
  }

  /** `extractOGVideos`: at most one video, from the last og:video URL and the first og:title. */
  function OgVideos(c: Collected, metas: seq<Meta>, resolve: string -> Option<string>, isVideoExt: string -> bool): Collected {
    OfferResolved(c, resolve, isVideoExt, LastContent(metas, IsOgVideoMeta), "og", FirstContent(metas, IsOgTitleMeta))
  }

  /** `extractTwitterPlayer`: at most one video, from the last player tag, without a title. */
  function TwitterVideos(c: Collected, metas: seq<Meta>, resolve: string -> Option<string>, isVideoExt: string -> bool): Collected {
    OfferResolved(c, resolve, isVideoExt, LastContent(metas, IsTwitterPlayerMeta), "twitter", "")
  }

  // ---------------------------------------------------------------------------
  // JSON-LD

  /** A string-valued member, `None` when the key is absent or holds another kind of value. */
  function StringMember(ms: seq<(string, Json)>, key: string): Option<string> {
    match Get(ms, key)
    case Some(JStr(s)) => Some(s)
    case _ => None
  }

  /** The first string element containing "Video", or "" (the loop over a type array). */
  function FirstVideoName(ts: seq<Json>): (r: string)
    ensures r != "" ==> Contains(r, "Video")
    decreases |ts|
  {
    if ts == [] then ""
    else if ts[0].JStr? && Contains(ts[0].s, "Video") then ts[0].s
    else FirstVideoName(ts[1..])
  }

  /** The node's type name as the code reads it: a string as is, an array through `FirstVideoName`. */
  function TypeName(ms: seq<(string, Json)>): string {
    match Get(ms, "@type")
    case Some(JStr(s)) => s
    case Some(JArr(ts)) => FirstVideoName(ts)
    case _ => ""
  }

  /** The video URL by priority contentUrl, embedUrl, url; the first string-valued one wins even when empty. */
  function VideoUrl(ms: seq<(string, Json)>): string {
    match StringMember(ms, "contentUrl")
    case Some(u) => u
    case None =>
      match StringMember(ms, "embedUrl")
      case Some(u) => u
      case None =>
        match StringMember(ms, "url")
        case Some(u) => u
        case None => ""
  }

  /** The title by priority name, headline. */
  function VideoTitle(ms: seq<(string, Json)>): string {
    match StringMember(ms, "name")
    case Some(t) => t
    case None =>
      match StringMember(ms, "headline")
      case Some(t) => t
      case None => ""
  }

  /** The node's own video, reported when its type mentions "Video" (case-sensitive). */
  function NodeVideo(c: Collected, ms: seq<(string, Json)>, resolve: string -> Option<string>, isVideoExt: string -> bool): Collected {
    var t := TypeName(ms);
    if t == "" || !Contains(t, "Video") then c
    else OfferResolved(c, resolve, isVideoExt, VideoUrl(ms), "jsonld", VideoTitle(ms))
  }

  /** The node's `@graph` array, when it has one. */
  function Graph(ms: seq<(string, Json)>): seq<Json> {
    match Get(ms, "@graph")
    case Some(JArr(items)) => items
    case _ => []
  }

  /** `extractVideoFromJSONLD` on an object: its `@graph` children first, in order, then the node itself. */
  function WalkNode(c: Collected, node: Json, resolve: string -> Option<string>, isVideoExt: string -> bool): Collected
    decreases node, 1
  {
    match node
    case JObj(ms) =>
      var items := Graph(ms);
      var c1 := WalkItems(c, items, node, resolve, isVideoExt);
      NodeVideo(c1, ms, resolve, isVideoExt)
    case _ => c
  }

  /** The children of `parent` in order; those that are not objects are skipped by `WalkNode`. */
  function WalkItems(c: Collected, items: seq<Json>, ghost parent: Json, resolve: string -> Option<string>, isVideoExt: string -> bool): Collected
    requires forall i :: 0 <= i < |items| ==> items[i] < parent
    decreases parent, 0, |items|
  {
    if items == [] then c
    else WalkNode(WalkItems(c, items[..|items| - 1], parent, resolve, isVideoExt), items[|items| - 1], resolve, isVideoExt)
  }

  lemma {:induction false} WalkNodeStep(c: Collected, node: Json, resolve: string -> Option<string>, isVideoExt: string -> bool)
    ensures Step(isVideoExt, c, WalkNode(c, node, resolve, isVideoExt), "jsonld")
    decreases node, 1
  {
    match node
    case JObj(ms) =>
      var items := Graph(ms);
      var c1 := WalkItems(c, items, node, resolve, isVideoExt);
      WalkItemsStep(c, items, node, resolve, isVideoExt);
      var t := TypeName(ms);
      if t == "" || !Contains(t, "Video") {
        StepRefl(isVideoExt, c1, "jsonld");
      } else {
        OfferResolvedStep(c1, resolve, isVideoExt, VideoUrl(ms), "jsonld", VideoTitle(ms));
      }
      StepTrans(isVideoExt, c, c1, WalkNode(c, node, resolve, isVideoExt), "jsonld");
    case _ =>
      StepRefl(isVideoExt, c, "jsonld");
  }

  lemma {:induction false} WalkItemsStep(c: Collected, items: seq<Json>, parent: Json, resolve: string -> Option<string>, isVideoExt: string -> bool)
    requires forall i :: 0 <= i < |items| ==> items[i] < parent
    ensures Step(isVideoExt, c, WalkItems(c, items, parent, resolve, isVideoExt), "jsonld")
    decreases parent, 0, |items|
  {
    if items == [] {
      StepRefl(isVideoExt, c, "jsonld");
    } else {
      var init := items[..|items| - 1];
      var c1 := WalkItems(c, init, parent, resolve, isVideoExt);
      WalkItemsStep(c, init, parent, resolve, isVideoExt);
      WalkNodeStep(c1, items[|items| - 1], resolve, isVideoExt);
      StepTrans(isVideoExt, c, c1, WalkItems(c, items, parent, resolve, isVideoExt), "jsonld");
    }
  }

  /** A node whose type does not mention "Video" contributes only what its `@graph` children do. */
  lemma NonVideoNodeOnlyChildren(c: Collected, ms: seq<(string, Json)>, resolve: string -> Option<string>, isVideoExt: string -> bool)
    requires !Contains(TypeName(ms), "Video")
    ensures WalkNode(c, JObj(ms), resolve, isVideoExt) == WalkItems(c, Graph(ms), JObj(ms), resolve, isVideoExt)
  {
  }

  /** A script decodes into a map only when it is an object; null gives an empty map. */
  function ScriptVideos(c: Collected, script: Option<Json>, resolve: string -> Option<string>, isVideoExt: string -> bool): Collected {
    match script
    case Some(JObj(ms)) => WalkNode(c, JObj(ms), resolve, isVideoExt)
    case _ => c
  }

  function JsonLdVideos(c: Collected, scripts: seq<Option<Json>>, resolve: string -> Option<string>, isVideoExt: string -> bool): Collected
    decreases |scripts|
  {
    if scripts == [] then c
    else ScriptVideos(JsonLdVideos(c, scripts[..|scripts| - 1], resolve, isVideoExt), scripts[|scripts| - 1], resolve, isVideoExt)
  }

  lemma {:induction false} JsonLdVideosStep(c: Collected, scripts: seq<Option<Json>>, resolve: string -> Option<string>, isVideoExt: string -> bool)
    ensures Step(isVideoExt, c, JsonLdVideos(c, scripts, resolve, isVideoExt), "jsonld")
    decreases |scripts|
  {
    if scripts == [] {
      StepRefl(isVideoExt, c, "jsonld");
    } else {
      var c1 := JsonLdVideos(c, scripts[..|scripts| - 1], resolve, isVideoExt);
      JsonLdVideosStep(c, scripts[..|scripts| - 1], resolve, isVideoExt);
      match scripts[|scripts| - 1]
      case Some(JObj(ms)) => WalkNodeStep(c1, JObj(ms), resolve, isVideoExt);
      case _ => StepRefl(isVideoExt, c1, "jsonld");
      StepTrans(isVideoExt, c, c1, JsonLdVideos(c, scripts, resolve, isVideoExt), "jsonld");
    }
  }

  // ---------------------------------------------------------------------------
  // Embedded players and HTML5 video elements

  /** An `<iframe>` inside the article: its `src` and `title` attributes. */
  datatype Frame = Frame(src: Option<string>, title: Option<string>)

  /** A `<video>` inside the article: its `src` attribute and those of its `<source>` children. */
  datatype VideoTag = VideoTag(src: Option<string>, sources: seq<Option<string>>)

  /** An iframe is reported when its resolved URL passes the embed test. */
  function OfferFrame(c: Collected, f: Frame, resolve: string -> Option<string>, isVideoExt: string -> bool): Collected {
    if f.src.None? then c
    else match resolve(f.src.value)
      case None => c
      case Some(abs) =>
        if IsVideoEmbed(isVideoExt, abs) then
          Offer(c, Video(abs, DetectProvider(isVideoExt, abs), "embedded", if f.title.Some? then f.title.value else ""))
        else c
  }

  function EmbeddedVideos(c: Collected, frames: seq<Frame>, resolve: string -> Option<string>, isVideoExt: string -> bool): Collected
    decreases |frames|
  {
    if frames == [] then c
    else OfferFrame(EmbeddedVideos(c, frames[..|frames| - 1], resolve, isVideoExt), frames[|frames| - 1], resolve, isVideoExt)
  }

  lemma {:induction false} EmbeddedVideosStep(c: Collected, frames: seq<Frame>, resolve: string -> Option<string>, isVideoExt: string -> bool)
    ensures Step(isVideoExt, c, EmbeddedVideos(c, frames, resolve, isVideoExt), "embedded")
    decreases |frames|
  {
    if frames == [] {
      StepRefl(isVideoExt, c, "embedded");
    } else {
      var c1 := EmbeddedVideos(c, frames[..|frames| - 1], resolve, isVideoExt);
      EmbeddedVideosStep(c, frames[..|frames| - 1], resolve, isVideoExt);
      var f := frames[|frames| - 1];
      if f.src.Some? && resolve(f.src.value).Some? && IsVideoEmbed(isVideoExt, resolve(f.src.value).value) {
        var abs := resolve(f.src.value).value;
        OfferStep(isVideoExt, c1, Video(abs, DetectProvider(isVideoExt, abs), "embedded", if f.title.Some? then f.title.value else ""));
      } else {
        StepRefl(isVideoExt, c1, "embedded");
      }
      StepTrans(isVideoExt, c, c1, EmbeddedVideos(c, frames, resolve, isVideoExt), "embedded");
    }
  }

  /** One `src` attribute of a video element: provider and type are both "html5", no title. */
  function OfferSource(c: Collected, src: Option<string>, resolve: string -> Option<string>): Collected {
    if src.None? then c
    else match resolve(src.value)
      case None => c
      case Some(abs) => Offer(c, Video(abs, "html5", "html5", ""))
  }

  function OfferSources(c: Collected, srcs: seq<Option<string>>, resolve: string -> Option<string>): Collected
    decreases |srcs|
  {
    if srcs == [] then c
    else OfferSource(OfferSources(c, srcs[..|srcs| - 1], resolve), srcs[|srcs| - 1], resolve)
  }

  /** A video element: its own `src` before its `<source>` children. */
  function OfferTag(c: Collected, t: VideoTag, resolve: string -> Option<string>): Collected {
    OfferSources(OfferSource(c, t.src, resolve), t.sources, resolve)
  }

  function Html5Videos(c: Collected, tags: seq<VideoTag>, resolve: string -> Option<string>): Collected
    decreases |tags|
  {
    if tags == [] then c
    else OfferTag(Html5Videos(c, tags[..|tags| - 1], resolve), tags[|tags| - 1], resolve)
  }

  lemma OfferSourceStep(isVideoExt: string -> bool, c: Collected, src: Option<string>, resolve: string -> Option<string>)
    ensures Step(isVideoExt, c, OfferSource(c, src, resolve), "html5")
  {
    if src.Some? && resolve(src.value).Some? {
      OfferStep(isVideoExt, c, Video(resolve(src.value).value, "html5", "html5", ""));
    }
  }

  lemma {:induction false} OfferSourcesStep(isVideoExt: string -> bool, c: Collected, srcs: seq<Option<string>>, resolve: string -> Option<string>)
    ensures Step(isVideoExt, c, OfferSources(c, srcs, resolve), "html5")
    decreases |srcs|
  {
    if srcs == [] {
      StepRefl(isVideoExt, c, "html5");
    } else {
      var c1 := OfferSources(c, srcs[..|srcs| - 1], resolve);
      OfferSourcesStep(isVideoExt, c, srcs[..|srcs| - 1], resolve);
      OfferSourceStep(isVideoExt, c1, srcs[|srcs| - 1], resolve);
      StepTrans(isVideoExt, c, c1, OfferSources(c, srcs, resolve), "html5");
    }
  }

  lemma {:induction false} Html5VideosStep(isVideoExt: string -> bool, c: Collected, tags: seq<VideoTag>, resolve: string -> Option<string>)
    ensures Step(isVideoExt, c, Html5Videos(c, tags, resolve), "html5")
    decreases |tags|
  {
    if tags == [] {
      StepRefl(isVideoExt, c, "html5");
    } else {
      var c1 := Html5Videos(c, tags[..|tags| - 1], resolve);
      Html5VideosStep(isVideoExt, c, tags[..|tags| - 1], resolve);
      var t := tags[|tags| - 1];
      var c2 := OfferSource(c1, t.src, resolve);
      OfferSourceStep(isVideoExt, c1, t.src, resolve);
      OfferSourcesStep(isVideoExt, c2, t.sources, resolve);
      StepTrans(isVideoExt, c1, c2, OfferTag(c1, t, resolve), "html5");
      StepTrans(isVideoExt, c, c1, Html5Videos(c, tags, resolve), "html5");
    }
  }

  // ---------------------------------------------------------------------------
  // The whole page

  /** What the five sources see of a page. */
  datatype Page = Page(metas: seq<Meta>, scripts: seq<Option<Json>>, frames: seq<Frame>, videoTags: seq<VideoTag>)

  /** The state after each source in turn, starting from nothing seen. */
  function AfterOg(p: Page, resolve: string -> Option<string>, isVideoExt: string -> bool): Collected {
    OgVideos(Collected([], {}), p.metas, resolve, isVideoExt)
  }

  function AfterTwitter(p: Page, resolve: string -> Option<string>, isVideoExt: string -> bool): Collected {
    TwitterVideos(AfterOg(p, resolve, isVideoExt), p.metas, resolve, isVideoExt)
  }

  function AfterJsonLd(p: Page, resolve: string -> Option<string>, isVideoExt: string -> bool): Collected {
    JsonLdVideos(AfterTwitter(p, resolve, isVideoExt), p.scripts, resolve, isVideoExt)
  }

  function AfterEmbedded(p: Page, resolve: string -> Option<string>, isVideoExt: string -> bool): Collected {
    EmbeddedVideos(AfterJsonLd(p, resolve, isVideoExt), p.frames, resolve, isVideoExt)
  }

  /** `ExtractVideosFromHTML`: the five sources in order, sharing the seen set. */
  function ExtractVideos(p: Page, resolve: string -> Option<string>, isVideoExt: string -> bool): seq<Video> {
    Html5Videos(AfterEmbedded(p, resolve, isVideoExt), p.videoTags, resolve).videos
  }

  /** The position of each source in the extraction order. */
  function SourceRank(kind: string): int {
    if kind == "og" then 0
    else if kind == "twitter" then 1
    else if kind == "jsonld" then 2
    else if kind == "embedded" then 3
    else 4
  }

  /**
   * The page's videos have pairwise distinct URLs, come grouped by source in
   * the order og, twitter, jsonld, embedded, html5, and each is well formed
   * (embedded ones pass the embed test and have a known provider, html5 ones
   * have provider "html5"). Open Graph and Twitter add at most one video each.
   */
  lemma ExtractVideosProperties(p: Page, resolve: string -> Option<string>, isVideoExt: string -> bool)
    ensures var vs := ExtractVideos(p, resolve, isVideoExt);
      Distinct(vs) &&
      (forall i, j :: 0 <= i < j < |vs| ==> SourceRank(vs[i].kind) <= SourceRank(vs[j].kind)) &&
      (forall i :: 0 <= i < |vs| ==> WellFormed(isVideoExt, vs[i])) &&
      (forall i :: 0 <= i < |vs| && vs[i].kind == "embedded" ==> vs[i].provider != "unknown")
    ensures |AfterOg(p, resolve, isVideoExt).videos| <= 1
    ensures |AfterTwitter(p, resolve, isVideoExt).videos| <= |AfterOg(p, resolve, isVideoExt).videos| + 1
  {
    var c0 := Collected([], {});
    var c1 := AfterOg(p, resolve, isVideoExt);
    var c2 := AfterTwitter(p, resolve, isVideoExt);
    var c3 := AfterJsonLd(p, resolve, isVideoExt);
    var c4 := AfterEmbedded(p, resolve, isVideoExt);
    var c5 := Html5Videos(c4, p.videoTags, resolve);
    OfferResolvedStep(c0, resolve, isVideoExt, LastContent(p.metas, IsOgVideoMeta), "og", FirstContent(p.metas, IsOgTitleMeta));
    OfferResolvedStep(c1, resolve, isVideoExt, LastContent(p.metas, IsTwitterPlayerMeta), "twitter", "");
    JsonLdVideosStep(c2, p.scripts, resolve, isVideoExt);
    EmbeddedVideosStep(c3, p.frames, resolve, isVideoExt);
    Html5VideosStep(isVideoExt, c4, p.videoTags, resolve);
    var vs := c5.videos;
    assert Inv(c0);
    forall i | 0 <= i < |vs| ensures WellFormed(isVideoExt, vs[i]) && SourceRank(vs[i].kind) == GroupRank(c1, c2, c3, c4, i) {
      if i < |c1.videos| { assert vs[i] == c1.videos[i]; }
      else if i < |c2.videos| { assert vs[i] == c2.videos[i]; }
      else if i < |c3.videos| { assert vs[i] == c3.videos[i]; }
      else if i < |c4.videos| { assert vs[i] == c4.videos[i]; }
    }
    forall i | 0 <= i < |vs| && vs[i].kind == "embedded" ensures vs[i].provider != "unknown" {
      EmbedHasProvider(isVideoExt, vs[i].url);
    }
  }

  /** The rank of the source that produced position `i`, read off the intermediate states. */
  function GroupRank(c1: Collected, c2: Collected, c3: Collected, c4: Collected, i: int): int {
    if i < |c1.videos| then 0
    else if i < |c2.videos| then 1
    else if i < |c3.videos| then 2
    else if i < |c4.videos| then 3
    else 4
  }

  // ---------------------------------------------------------------------------
  // The extractor with its shared state, as the code runs it

  class VideoCollector {
    var videos: seq<Video>
    var seen: set<string>

    function State(): Collected
      reads this
    {
      Collected(videos, seen)
    }

    constructor()
      ensures State() == Collected([], {})
    {
      videos := [];
      seen := {};
    }

    method Report(v: Video)
      modifies this
      ensures State() == Offer(old(State()), v)
    {
      if v.url !in seen {
        seen := seen + {v.url};
        videos := videos + [v];
      }
    }

    method ReportResolved(resolve: string -> Option<string>, isVideoExt: string -> bool, raw: string, kind: string, title: string)
      modifies this
      ensures State() == OfferResolved(old(State()), resolve, isVideoExt, raw, kind, title)
    {
      if raw != "" {
        var abs := resolve(raw);
        if abs.Some? {
          Report(Video(abs.value, DetectProvider(isVideoExt, abs.value), kind, title));
        }
      }
    }

    /** `extractOGVideos`: one scan keeps the last video URL and the first non-empty title. */
    method ExtractOGVideos(metas: seq<Meta>, resolve: string -> Option<string>, isVideoExt: string -> bool)
      modifies this
      ensures State() == OgVideos(old(State()), metas, resolve, isVideoExt)
    {
      var videoURL, videoTitle := "", "";
      for i := 0 to |metas|
        invariant videoURL == LastContent(metas[..i], IsOgVideoMeta)
        invariant videoTitle == FirstContent(metas[..i], IsOgTitleMeta)
      {
        assert metas[..i + 1][..i] == metas[..i];
        var m := metas[i];
        if m.property.None? {
          continue;
        }
        var property := m.property.value;
        if property == "og:video" || property == "og:video:url" || property == "og:video:secure_url" {
          if m.content.Some? {
            videoURL := m.content.value;
          }
        } else if property == "og:title" {
          if m.content.Some? && videoTitle == "" {
            videoTitle := m.content.value;
          }
        }
      }
      assert metas[..|metas|] == metas;
      ReportResolved(resolve, isVideoExt, videoURL, "og", videoTitle);
    }

    /** `extractTwitterPlayer`: the last player tag with content wins. */
    method ExtractTwitterPlayer(metas: seq<Meta>, resolve: string -> Option<string>, isVideoExt: string -> bool)
      modifies this
      ensures State() == TwitterVideos(old(State()), metas, resolve, isVideoExt)
    {
      var playerURL := "";
      for i := 0 to |metas|
        invariant playerURL == LastContent(metas[..i], IsTwitterPlayerMeta)
      {
        assert metas[..i + 1][..i] == metas[..i];
        if metas[i].name == Some("twitter:player") && metas[i].content.Some? {
          playerURL := metas[i].content.value;
        }
      }
      assert metas[..|metas|] == metas;
      ReportResolved(resolve, isVideoExt, playerURL, "twitter", "");
    }

    /** `extractVideoFromJSONLD`: the `@graph` children by recursion, then the node itself. */
    method ExtractVideoFromJSONLD(node: Json, resolve: string -> Option<string>, isVideoExt: string -> bool)
      modifies this
      ensures State() == WalkNode(old(State()), node, resolve, isVideoExt)
      decreases node, 1
    {
      if !node.JObj? {
        return;
      }
      var ms := node.members;
      var items := Graph(ms);
      ghost var c0 := State();
      for k := 0 to |items|
        invariant State() == WalkItems(c0, items[..k], node, resolve, isVideoExt)
      {
        assert items[..k + 1][..k] == items[..k];
        ExtractVideoFromJSONLD(items[k], resolve, isVideoExt);
      }
      assert items[..|items|] == items;
      var typeStr := TypeName(ms);
      if typeStr == "" || !Contains(typeStr, "Video") {
        return;
      }
      ReportResolved(resolve, isVideoExt, VideoUrl(ms), "jsonld", VideoTitle(ms));
    }

    method ExtractJSONLDVideos(scripts: seq<Option<Json>>, resolve: string -> Option<string>, isVideoExt: string -> bool)
      modifies this
      ensures State() == JsonLdVideos(old(State()), scripts, resolve, isVideoExt)
    {
      ghost var c0 := State();
      for i := 0 to |scripts|
        invariant State() == JsonLdVideos(c0, scripts[..i], resolve, isVideoExt)
      {
        assert scripts[..i + 1][..i] == scripts[..i];
        if scripts[i].Some? && scripts[i].value.JObj? {
          ExtractVideoFromJSONLD(scripts[i].value, resolve, isVideoExt);
        }
      }
      assert scripts[..|scripts|] == scripts;
    }

    method ExtractEmbeddedVideos(frames: seq<Frame>, resolve: string -> Option<string>, isVideoExt: string -> bool)
      modifies this
      ensures State() == EmbeddedVideos(old(State()), frames, resolve, isVideoExt)
    {
      ghost var c0 := State();
      for i := 0 to |frames|
        invariant State() == EmbeddedVideos(c0, frames[..i], resolve, isVideoExt)
      {
        assert frames[..i + 1][..i] == frames[..i];
        var f := frames[i];
        if f.src.Some? {
          var abs := resolve(f.src.value);
          if abs.Some? && IsVideoEmbed(isVideoExt, abs.value) && abs.value !in seen {
            Report(Video(abs.value, DetectProvider(isVideoExt, abs.value), "embedded", if f.title.Some? then f.title.value else ""));
          }
        }
      }
      assert frames[..|frames|] == frames;
    }

    method ReportSource(src: Option<string>, resolve: string -> Option<string>)
      modifies this
      ensures State() == OfferSource(old(State()), src, resolve)
    {
      if src.Some? {
        var abs := resolve(src.value);
        if abs.Some? && abs.value !in seen {
          Report(Video(abs.value, "html5", "html5", ""));
        }
      }
    }

    /** `extractHTML5Videos`: each element's `src`, then its `<source>` children. */
    method ExtractHTML5Videos(tags: seq<VideoTag>, resolve: string -> Option<string>)
      modifies this
      ensures State() == Html5Videos(old(State()), tags, resolve)
    {
      ghost var c0 := State();
      for i := 0 to |tags|
        invariant State() == Html5Videos(c0, tags[..i], resolve)
      {
        assert tags[..i + 1][..i] == tags[..i];
        ghost var before := State();
        ReportSource(tags[i].src, resolve);
        ghost var afterSrc := State();
        var sources := tags[i].sources;
        for j := 0 to |sources|
          invariant State() == OfferSources(afterSrc, sources[..j], resolve)
        {
          assert sources[..j + 1][..j] == sources[..j];
          ReportSource(sources[j], resolve);
        }
        assert sources[..|sources|] == sources;
        assert State() == OfferTag(before, tags[i], resolve);
      }
      assert tags[..|tags|] == tags;
    }
  }

  /** `ExtractVideosFromHTML`, run on a fresh collector. */
  method ExtractVideosFromHTML(p: Page, resolve: string -> Option<string>, isVideoExt: string -> bool) returns (videos: seq<Video>)
    ensures videos == ExtractVideos(p, resolve, isVideoExt)
  {
    var c := new VideoCollector();
    c.ExtractOGVideos(p.metas, resolve, isVideoExt);
    c.ExtractTwitterPlayer(p.metas, resolve, isVideoExt);
    c.ExtractJSONLDVideos(p.scripts, resolve, isVideoExt);
    c.ExtractEmbeddedVideos(p.frames, resolve, isVideoExt);
    c.ExtractHTML5Videos(p.videoTags, resolve);
    videos := c.videos;
  }
}
