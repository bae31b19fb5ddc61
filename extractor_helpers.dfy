/**
 * The document helpers of the extractor (internal/scraper/extractor_helpers.go):
 * meta-tag lookup, the structured text builder, the first-paragraph
 * description, the content container pick and the JSON-LD article search.
 * The document is given as what goquery would hand the code: the meta
 * elements in document order, the (tag, text) pairs of the text elements,
 * the first paragraph, a selector oracle, and the decoded JSON-LD scripts.
 */
module ExtractorHelpers {
  import opened Wrappers
  import opened Text
  import opened Json
  import Constants

  // ---------------------------------------------------------------------------
  // FindMetaTag

  /** A `<meta>` element's `property`, `name` and `content` attributes, each possibly absent. */
  datatype Meta = Meta(property: Option<string>, name: Option<string>, content: Option<string>)

  /** The element is picked by a non-empty `property` or `name` and carries a content attribute. */
  predicate Selected(m: Meta, property: string, name: string) {
    m.content.Some? &&
    ((property != "" && m.property == Some(property)) || (name != "" && m.name == Some(name)))
  }

  /** A picked element whose trimmed content is not blank: the one the lookup settles on. */
  predicate Hit(m: Meta, property: string, name: string) {
    Selected(m, property, name) && TrimSpace(m.content.value) != ""
  }

  /** The value held after visiting `metas`; a picked element with blank content leaves it blank. */
  function MetaValue(metas: seq<Meta>, property: string, name: string): string
    decreases |metas|
  {
    if metas == [] then ""
    else
      var v := MetaValue(metas[..|metas| - 1], property, name);
      var m := metas[|metas| - 1];
      if v != "" then v
      else if Selected(m, property, name) then TrimSpace(m.content.value)
      else ""
  }

  /** The lookup yields the trimmed content of the first hit in document order, or "" when there is none. */
  lemma {:induction false} MetaValueFirstHit(metas: seq<Meta>, property: string, name: string)
    ensures MetaValue(metas, property, name) == "" <==>
      forall i :: 0 <= i < |metas| ==> !Hit(metas[i], property, name)
    ensures MetaValue(metas, property, name) != "" ==>
      exists i :: 0 <= i < |metas| && Hit(metas[i], property, name) &&
        MetaValue(metas, property, name) == TrimSpace(metas[i].content.value) &&
        forall j :: 0 <= j < i ==> !Hit(metas[j], property, name)
    decreases |metas|
  {
    if metas != [] {
      var init := metas[..|metas| - 1];
      MetaValueFirstHit(init, property, name);
      assert forall i :: 0 <= i < |init| ==> init[i] == metas[i];
      var v := MetaValue(init, property, name);
      if v != "" {
        var i :| 0 <= i < |init| && Hit(init[i], property, name) && v == TrimSpace(init[i].content.value) &&
          forall j :: 0 <= j < i ==> !Hit(init[j], property, name);
        assert Hit(metas[i], property, name);
      }
    }
  }

  /** The `Each` callback over the meta elements, with its "already found" early return. */
  method FindMetaTag(metas: seq<Meta>, property: string, name: string) returns (value: string)
    ensures value == MetaValue(metas, property, name)
  {
    value := "";
    for i := 0 to |metas|
      invariant value == MetaValue(metas[..i], property, name)
    {
      assert metas[..i + 1][..i] == metas[..i];
      var m := metas[i];
      if value != "" {
        continue;
      }
      if property != "" && m.property == Some(property) && m.content.Some? {
        value := TrimSpace(m.content.value);
        continue;
      }
      if name != "" && m.name == Some(name) && m.content.Some? {
        value := TrimSpace(m.content.value);
      }
    }
    assert metas[..|metas|] == metas;
  }

  // ---------------------------------------------------------------------------
  // ExtractTextFromElements

  /** A matched text element: its lower-case tag name and its raw text. */
  datatype Element = Element(tag: string, text: string)

  predicate IsHeading(tag: string) {
    tag == "h1" || tag == "h2" || tag == "h3" || tag == "h4" || tag == "h5" || tag == "h6"
  }

  predicate IsBlock(tag: string) {
    tag == "p" || tag == "li" || tag == "blockquote"
  }

  /** The element adds something: its trimmed text is not blank and its tag is a heading or a block. */
  predicate Emits(e: Element) {
    TrimSpace(e.text) != "" && (IsHeading(e.tag) || IsBlock(e.tag))
  }

  /** What one element appends to the text built so far (`soFar`). */
  function Piece(soFar: string, e: Element): string {
    var t := TrimSpace(e.text);
    if t == "" then ""
    else if IsHeading(e.tag) then (if |soFar| > 0 then Constants.DoubleNewline else "") + t + Constants.SingleNewline
    else if IsBlock(e.tag) then (if |soFar| > 0 then Constants.SingleNewline else "") + t
    else ""
  }

  /** The builder's contents after the elements `es`, in document order. */
  function StructuredText(es: seq<Element>): string
    decreases |es|
  {
    if es == [] then ""
    else
      var soFar := StructuredText(es[..|es| - 1]);
      soFar + Piece(soFar, es[|es| - 1])
  }

  /** The text is empty exactly when no element emits anything. */
  lemma {:induction false} StructuredTextEmptyIff(es: seq<Element>)
    ensures StructuredText(es) == "" <==> forall i :: 0 <= i < |es| ==> !Emits(es[i])
    decreases |es|
  {
    if es != [] {
      var init := es[..|es| - 1];
      StructuredTextEmptyIff(init);
      assert forall i :: 0 <= i < |init| ==> init[i] == es[i];
      var e := es[|es| - 1];
      if Emits(e) {
        assert |Piece(StructuredText(init), e)| >= |TrimSpace(e.text)| > 0;
      }
    }
  }

  /** A non-empty text starts with a non-space character, so never with a newline. */
  lemma {:induction false} StructuredTextStart(es: seq<Element>)
    ensures StructuredText(es) != "" ==> !IsSpace(StructuredText(es)[0])
    decreases |es|
  {
    if es != [] {
      var init := es[..|es| - 1];
      StructuredTextStart(init);
      var soFar := StructuredText(init);
      var e := es[|es| - 1];
      var t := TrimSpace(e.text);
      if soFar == "" && t != "" && (IsHeading(e.tag) || IsBlock(e.tag)) {
        assert Piece(soFar, e)[0] == t[0];
      }
    }
  }

  /** Go's `strings.Builder`: a growing string written to at the end. */
  class TextBuilder {
    var content: string

    constructor()
      ensures content == ""
    {
      content := "";
    }

    method WriteString(s: string)
      modifies this
      ensures content == old(content) + s
    {
      content := content + s;
    }
  }

  /** Builds the structured text element by element, as the `Each` callback does. */
  method ExtractTextFromElements(es: seq<Element>) returns (text: string)
    ensures text == StructuredText(es)
  {
    var b := new TextBuilder();
    for i := 0 to |es|
      invariant b.content == StructuredText(es[..i])
    {
      assert es[..i + 1][..i] == es[..i];
      WriteElement(b, es[i]);
    }
    assert es[..|es|] == es;
    text := b.content;
  }

  /** The per-element callback: writes the element's piece to the builder. */
  method WriteElement(b: TextBuilder, e: Element)
    modifies b
    ensures b.content == old(b.content) + Piece(old(b.content), e)
  {
    var t := TrimSpace(e.text);
    if t == "" {
      return;
    }
    if IsHeading(e.tag) {
      ghost var sep := if |b.content| > 0 then Constants.DoubleNewline else "";
      if |b.content| > 0 {
        b.WriteString(Constants.DoubleNewline);
      }
      b.WriteString(t);
      b.WriteString(Constants.SingleNewline);
      assert b.content == old(b.content) + (sep + t + Constants.SingleNewline);
    } else if IsBlock(e.tag) {
      if |b.content| > 0 {
        b.WriteString(Constants.SingleNewline);
      }
      b.WriteString(t);
    }
  }

  // ---------------------------------------------------------------------------
  // ExtractDescriptionFromParagraph and FindContentContainer

  /**
   * The description taken from the first `<p>` of the document (`firstParagraph`
   * is its text, `None` when there is no paragraph): its trimmed text when that
   * is strictly between the two length bounds, otherwise "".
   */
  function ExtractDescriptionFromParagraph(firstParagraph: Option<string>): (r: string)
    ensures r != "" <==>
      firstParagraph.Some? &&
      Constants.MinDescriptionLen < |TrimSpace(firstParagraph.value)| < Constants.MaxDescriptionLen
    ensures r != "" ==> r == TrimSpace(firstParagraph.value)
  {
    match firstParagraph
    case None => ""
    case Some(p) =>
      var t := TrimSpace(p);
      if Constants.MinDescriptionLen < |t| < Constants.MaxDescriptionLen then t else ""
  }

  /** The container found: the first element of the selector at `index`, or the body. */
  datatype Container = Matched(index: nat) | Body

  /** `present(sel)` holds when the document has an element matching selector `sel`. */
  method FindContentContainer(present: string -> bool) returns (c: Container)
    ensures c.Matched? ==>
      c.index < |Constants.ContentSelectors| && present(Constants.ContentSelectors[c.index]) &&
      forall j :: 0 <= j < c.index ==> !present(Constants.ContentSelectors[j])
    ensures c.Body? <==> forall j :: 0 <= j < |Constants.ContentSelectors| ==> !present(Constants.ContentSelectors[j])
  {
    var selectors := Constants.ContentSelectors;
    for i := 0 to |selectors|
      invariant forall j :: 0 <= j < i ==> !present(selectors[j])
    {
      var selector := TrimSpace(selectors[i]);
      assert selector == selectors[i] by { SelectorsTrimmed(i); }
      if present(selector) {
        return Matched(i);
      }
    }
    return Body;
  }

  /** The selectors carry no surrounding white space, so trimming each leaves it unchanged. */
  lemma SelectorsTrimmed(i: int)
    requires 0 <= i < |Constants.ContentSelectors|
    ensures TrimSpace(Constants.ContentSelectors[i]) == Constants.ContentSelectors[i]
  {
    var s := Constants.ContentSelectors[i];
    assert s != [] && !IsSpace(s[0]) && !IsSpace(s[|s| - 1]);
  }

  // ---------------------------------------------------------------------------
  // isArticleType

  /** A type name counts when its lower-case form contains one of the three words. */
  predicate ArticleName(t: string) {
    var l := Lower(t);
    Contains(l, "article") || Contains(l, "newsarticle") || Contains(l, "blogposting")
  }

  /** Some string element of `items` is an article name (the loop over a type array). */
  predicate AnyArticleName(items: seq<Json>)
    decreases |items|
  {
    if items == [] then false
    else AnyArticleName(items[..|items| - 1]) || (items[|items| - 1].JStr? && ArticleName(items[|items| - 1].s))
  }

  predicate IsArticleType(t: Json) {
    match t
    case JStr(s) => ArticleName(s)
    case JArr(items) => AnyArticleName(items)
    case _ => false
  }

  /** The word "newsarticle" adds nothing: it contains "article". */
  lemma NewsArticleIsArticle(l: string)
    requires Contains(l, "newsarticle")
    ensures Contains(l, "article")
  {
    var q := "newsarticle";
    assert q[4..4 + |"article"|] == "article";
    assert OccursAt(q, "article", 4);
    ContainsOfInner(l, q, "article");
  }

  /** An article word: "article" or "blogposting", ignoring case. */
  predicate ArticleWord(t: string) {
    Contains(Lower(t), "article") || Contains(Lower(t), "blogposting")
  }

  lemma ArticleNameIff(t: string)
    ensures ArticleName(t) <==> ArticleWord(t)
  {
    if Contains(Lower(t), "newsarticle") {
      NewsArticleIsArticle(Lower(t));
    }
  }

  lemma {:induction false} AnyArticleNameIff(items: seq<Json>)
    ensures AnyArticleName(items) <==>
      exists i :: 0 <= i < |items| && items[i].JStr? && ArticleWord(items[i].s)
    decreases |items|
  {
    if items != [] {
      var init := items[..|items| - 1];
      AnyArticleNameIff(init);
      assert forall i :: 0 <= i < |init| ==> init[i] == items[i];
      var last := items[|items| - 1];
      if last.JStr? {
        ArticleNameIff(last.s);
      }
      if exists i :: 0 <= i < |items| && items[i].JStr? && ArticleWord(items[i].s) {
        var i :| 0 <= i < |items| && items[i].JStr? && ArticleWord(items[i].s);
        if i < |init| {
          assert init[i].JStr? && ArticleWord(init[i].s);
        }
      }
    }
  }

  /**
   * A string type qualifies iff its lower-case form contains "article" or
   * "blogposting"; an array iff some string element does; nil, numbers,
   * booleans and objects never do.
   */
  lemma IsArticleTypeIff(t: Json)
    ensures IsArticleType(t) <==>
      (t.JStr? && ArticleWord(t.s)) ||
      (t.JArr? && exists i :: 0 <= i < |t.items| && t.items[i].JStr? && ArticleWord(t.items[i].s))
  {
    match t
    case JStr(s) => ArticleNameIff(s);
    case JArr(items) => AnyArticleNameIff(items);
    case _ =>
  }

  // ---------------------------------------------------------------------------
  // Decoding JSON-LD into the article record

  /** The fields of the JSON-LD article record that the extractor reads; the other typed fields are checked only. */
  datatype Article = Article(kind: Json, headline: string, body: string, description: string)

  const BlankArticle := Article(JNull, "", "", "")

  /** A string field takes a JSON string, keeps its value on null, and rejects anything else. */
  function StoreString(cur: string, v: Json): Option<string> {
    match v
    case JStr(s) => Some(s)
    case JNull => Some(cur)
    case _ => None
  }

  /** An `int` field accepts null and a number written as an int64 integer. */
  predicate IntAccepts(v: Json) {
    v.JNull? || (v.JNum? && Atoi(v.literal).Some?)
  }

  /**
   * Decoding the object members into the record, in order. Keys match the
   * field names case-insensitively, a later key overrides an earlier one,
   * fields typed `interface{}` and unknown keys accept anything, and a
   * value of the wrong type makes the whole decode fail.
   */
  function DecodeMembers(ms: seq<(string, Json)>, a: Article): Option<Article>
    decreases |ms|
  {
    if ms == [] then Some(a)
    else
      match Store(a, FieldOf(ms[0].0), ms[0].1)
      case None => None
      case Some(a') => DecodeMembers(ms[1..], a')
  }

  /** The record fields as the decoder sees them; `Unknown` covers the `interface{}` fields too. */
  datatype Field = TypeField | HeadlineField | BodyField | DescriptionField | OtherString | OtherInt | Unknown

  /** The field a member key lands in, compared without regard to case. */
  function FieldOf(key: string): Field {
    var k := Lower(key);
    if k == "@type" then TypeField
    else if k == "headline" then HeadlineField
    else if k == "articlebody" then BodyField
    else if k == "description" then DescriptionField
    else if k == "datepublished" || k == "datemodified" || k == "articlesection" || k == "inlanguage" then OtherString
    else if k == "wordcount" then OtherInt
    else Unknown
  }

  /** Storing one member value into its field; `None` is a type error. */
  function Store(a: Article, f: Field, v: Json): Option<Article> {
    match f
    case TypeField => Some(a.(kind := v))
    case HeadlineField =>
      (match StoreString(a.headline, v) case Some(s) => Some(a.(headline := s)) case None => None)
    case BodyField =>
      (match StoreString(a.body, v) case Some(s) => Some(a.(body := s)) case None => None)
    case DescriptionField =>
      (match StoreString(a.description, v) case Some(s) => Some(a.(description := s)) case None => None)
    case OtherString => if v.JStr? || v.JNull? then Some(a) else None
    case OtherInt => if IntAccepts(v) then Some(a) else None
    case Unknown => Some(a)
  }

  /** `json.Unmarshal` into one record: an object or null decodes, anything else is a type error. */
  function DecodeArticle(j: Json): Option<Article> {
    match j
    case JObj(ms) => DecodeMembers(ms, BlankArticle)
    case JNull => Some(BlankArticle)
    case _ => None
  }

  function DecodeAll(items: seq<Json>): (r: Option<seq<Article>>)
    ensures r.Some? ==> |r.value| == |items|
    decreases |items|
  {
    if items == [] then Some([])
    else
      match (DecodeArticle(items[0]), DecodeAll(items[1..]))
      case (Some(a), Some(rest)) => Some([a] + rest)
      case _ => None
  }

  /** `json.Unmarshal` into a slice of records: an array whose every element decodes, or null. */
  function DecodeArticles(j: Json): Option<seq<Article>> {
    match j
    case JArr(items) => DecodeAll(items)
    case JNull => Some([])
    case _ => None
  }

  predicate Qualifies(a: Article) {
    IsArticleType(a.kind) && a.headline != ""
  }

  /** The first qualifying record of a decoded array. */
  function FirstQualifying(as_: seq<Article>): (r: Option<Article>)
    ensures r.Some? ==> r.value in as_ && Qualifies(r.value)
    ensures r.None? <==> forall i :: 0 <= i < |as_| ==> !Qualifies(as_[i])
    decreases |as_|
  {
    if as_ == [] then None
    else if Qualifies(as_[0]) then Some(as_[0])
    else
      var r := FirstQualifying(as_[1..]);
      assert forall i :: 1 <= i < |as_| ==> as_[i] == as_[1..][i - 1];
      r
  }

  /** One script: the single-object reading first, then the array reading. */
  function ScriptArticle(script: Option<Json>): Option<Article> {
    match script
    case None => None
    case Some(j) =>
      var one := DecodeArticle(j);
      if one.Some? && Qualifies(one.value) then one
      else
        match DecodeArticles(j)
        case Some(as_) => FirstQualifying(as_)
        case None => None
  }

  /** Whatever a script yields qualifies: an article type and a non-empty headline. */
  lemma ScriptArticleQualifies(script: Option<Json>)
    ensures ScriptArticle(script).Some? ==> Qualifies(ScriptArticle(script).value)
  {
  }

  /**
   * The search over the scripts, each either a decoded JSON value or `None`
   * for an empty or malformed script: the first script that yields an article.
   */
  function JsonLd(scripts: seq<Option<Json>>): Option<Article>
    decreases |scripts|
  {
    if scripts == [] then None
    else
      var r := JsonLd(scripts[..|scripts| - 1]);
      if r.Some? then r else ScriptArticle(scripts[|scripts| - 1])
  }

  /** The search settles on the first script yielding an article, and fails iff none does. */
  lemma {:induction false} JsonLdFirst(scripts: seq<Option<Json>>)
    ensures JsonLd(scripts).None? <==> forall i :: 0 <= i < |scripts| ==> ScriptArticle(scripts[i]).None?
    ensures JsonLd(scripts).Some? ==>
      Qualifies(JsonLd(scripts).value) &&
      exists i :: 0 <= i < |scripts| && ScriptArticle(scripts[i]) == JsonLd(scripts) &&
        forall j :: 0 <= j < i ==> ScriptArticle(scripts[j]).None?
    decreases |scripts|
  {
    if scripts != [] {
      var init := scripts[..|scripts| - 1];
      JsonLdFirst(init);
      assert forall i :: 0 <= i < |init| ==> init[i] == scripts[i];
      ScriptArticleQualifies(scripts[|scripts| - 1]);
      if JsonLd(init).Some? {
        var i :| 0 <= i < |init| && ScriptArticle(init[i]) == JsonLd(init) &&
          forall j :: 0 <= j < i ==> ScriptArticle(init[j]).None?;
        assert ScriptArticle(scripts[i]) == JsonLd(scripts);
      }
    }
  }

  /** The `Each` callback over the scripts, with its `found` early return. */
  method ExtractJSONLD(scripts: seq<Option<Json>>) returns (headline: string, body: string, description: string, found: bool)
    ensures found <==> JsonLd(scripts).Some?
    ensures found ==>
      headline == JsonLd(scripts).value.headline && body == JsonLd(scripts).value.body &&
      description == JsonLd(scripts).value.description
    ensures !found ==> headline == "" && body == "" && description == ""
  {
    headline, body, description, found := "", "", "", false;
    for i := 0 to |scripts|
      invariant found <==> JsonLd(scripts[..i]).Some?
      invariant found ==>
        headline == JsonLd(scripts[..i]).value.headline && body == JsonLd(scripts[..i]).value.body &&
        description == JsonLd(scripts[..i]).value.description
      invariant !found ==> headline == "" && body == "" && description == ""
    {
      assert scripts[..i + 1][..i] == scripts[..i];
      if found {
        continue;
      }
      match ScriptArticle(scripts[i]) {
        case Some(a) =>
          headline, body, description, found := a.headline, a.body, a.description, true;
        case None =>
      }
    }
    assert scripts[..|scripts|] == scripts;
  }

  /** A found article always has a non-empty headline. */
  lemma FoundHeadlineNonEmpty(scripts: seq<Option<Json>>)
    ensures JsonLd(scripts).Some? ==> JsonLd(scripts).value.headline != ""
  {
    JsonLdFirst(scripts);
  }

  /** A value the field cannot hold; whether it fits does not depend on the record decoded so far. */
  predicate Mistyped(f: Field, v: Json) {
    Store(BlankArticle, f, v).None?
  }

  lemma {:induction false} DecodeMembersMistyped(ms: seq<(string, Json)>, a: Article, k: int)
    requires 0 <= k < |ms| && Mistyped(FieldOf(ms[k].0), ms[k].1)
    ensures DecodeMembers(ms, a) == None
    decreases k
  {
    if k == 0 {
      assert Store(a, FieldOf(ms[0].0), ms[0].1).None?;
    } else {
      match Store(a, FieldOf(ms[0].0), ms[0].1)
      case None =>
      case Some(a') =>
        assert ms[1..][k - 1] == ms[k];
        DecodeMembersMistyped(ms[1..], a', k - 1);
    }
  }

  /**
   * One member of the wrong type anywhere in an object (a string `wordCount`,
   * a numeric `headline`) rejects the whole script: the object reading fails
   * and an object is never an array.
   */
  lemma MistypedMemberRejects(ms: seq<(string, Json)>, k: int)
    requires 0 <= k < |ms| && Mistyped(FieldOf(ms[k].0), ms[k].1)
    ensures ScriptArticle(Some(JObj(ms))).None?
  {
    DecodeMembersMistyped(ms, BlankArticle, k);
  }
}
