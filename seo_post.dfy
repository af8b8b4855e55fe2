/** The article SEO component: the JSON-LD microdata of a blog post, whose
    description is the excerpt with each double quote escaped, and the props
    it hands to the SEO component. */
module SeoPost {
  import opened JsText
  import Seo

  /** The fields of a post that the component reads; `imageSrc` is
      `image.childImageSharp.fluid.src`. */
  datatype Article = Article(
    title: string, slug: string, imageSrc: string, dateForSEO: string,
    excerpt: string, readingTime: Option<string>, tags: seq<string>)

  // ---------------------------------------------------------------------------
  // The excerpt's quote escaping

  /** `excerpt.replace(/"/g, '\\"')`: a backslash goes in front of every
      double quote; nothing else changes. */
  function EscapeQuotes(s: string): string {
    if s == [] then [] else (if s[0] == '"' then "\\\"" else [s[0]]) + EscapeQuotes(s[1..])
  }

  function CountQuotes(s: string): nat {
    if s == [] then 0 else (if s[0] == '"' then 1 else 0) + CountQuotes(s[1..])
  }

  /** Each quote costs one extra character. */
  lemma {:induction false} EscapeQuotesLength(s: string)
    ensures |EscapeQuotes(s)| == |s| + CountQuotes(s)
  {
    if s != [] {
      EscapeQuotesLength(s[1..]);
    }
  }

  /** Reads a backslash-quote pair as a quote and every other character as
      itself; a bare quote is refused. */
  function UnescapeQuotes(t: string): Option<string> {
    if t == [] then Some([])
    else if t[0] == '"' then None
    else if t[0] == '\\' && |t| >= 2 && t[1] == '"' then Prepend('"', UnescapeQuotes(t[2..]))
    else Prepend(t[0], UnescapeQuotes(t[1..]))
  }

  function Prepend(c: char, rest: Option<string>): Option<string> {
    if rest.Some? then Some([c] + rest.value) else None
  }

  /** The escaped excerpt never starts with a bare quote. */
  lemma EscapeQuotesHead(s: string)
    ensures EscapeQuotes(s) == [] || EscapeQuotes(s)[0] != '"'
  {
  }

  /** Escaping loses nothing: the excerpt, other characters and their order
      included, can be read back from its escaped form. */
  lemma {:induction false} EscapeQuotesRoundTrip(s: string)
    ensures UnescapeQuotes(EscapeQuotes(s)) == Some(s)
  {
    if s != [] {
      var rest := EscapeQuotes(s[1..]);
      EscapeQuotesRoundTrip(s[1..]);
      EscapeQuotesHead(s[1..]);
      if s[0] == '"' {
        assert EscapeQuotes(s) == "\\\"" + rest;
        assert EscapeQuotes(s)[2..] == rest;
      } else {
        assert EscapeQuotes(s) == [s[0]] + rest;
        assert EscapeQuotes(s)[1..] == rest;
      }
      assert s == [s[0]] + s[1..];
    }
  }

  // ---------------------------------------------------------------------------
  // JSON string contents (RFC 8259, section 7), as a reference for what the
  // escaped text must be once it stands between the template's quotes

  predicate IsHexDigit(c: char) {
    '0' <= c <= '9' || 'a' <= c <= 'f' || 'A' <= c <= 'F'
  }

  function HexDigitValue(c: char): (d: nat)
    requires IsHexDigit(c)
    ensures d < 16
  {
    if '0' <= c <= '9' then c as int - '0' as int
    else if 'a' <= c <= 'f' then c as int - 'a' as int + 10
    else c as int - 'A' as int + 10
  }

  /** The value of the four hexadecimal digits of a `\u` escape. */
  function Hex4(a: char, b: char, c: char, d: char): nat
    requires IsHexDigit(a) && IsHexDigit(b) && IsHexDigit(c) && IsHexDigit(d)
  {
    4096 * HexDigitValue(a) + 256 * HexDigitValue(b) + 16 * HexDigitValue(c) + HexDigitValue(d)
  }

  /** The character a two-character escape `\c` stands for. */
  function ShortEscape(c: char): Option<char> {
    match c
    case '"' => Some('"')
    case '\\' => Some('\\')
    case '/' => Some('/')
    case 'b' => Some('\U{0008}')
    case 'f' => Some('\U{000C}')
    case 'n' => Some('\n')
    case 'r' => Some('\r')
    case 't' => Some('\t')
    case _ => None
  }

  /** The text a JSON string literal's body stands for, or None when the body
      is not well formed: a bare quote ends the literal early, control
      characters must be escaped, and a backslash must start a valid escape.
      A `\u` escape of a surrogate is refused rather than paired. */
  function DecodeJsonString(t: string): Option<string>
    decreases |t|
  {
    if t == [] then Some([])
    else if t[0] == '"' || t[0] < ' ' then None
    else if t[0] != '\\' then Prepend(t[0], DecodeJsonString(t[1..]))
    else if |t| < 2 then None
    else if ShortEscape(t[1]).Some? then Prepend(ShortEscape(t[1]).value, DecodeJsonString(t[2..]))
    else if t[1] == 'u' && |t| >= 6 && (forall k :: 2 <= k < 6 ==> IsHexDigit(t[k])) then
      var v := Hex4(t[2], t[3], t[4], t[5]);
      if 0xD800 <= v < 0xE000 then None else Prepend(v as char, DecodeJsonString(t[6..]))
    else None
  }

  /** Quote escaping is enough for an excerpt without backslashes and control
      characters: the description then reads back as the excerpt. */
  lemma {:induction false} EscapeQuotesValidJson(s: string)
    requires forall i :: 0 <= i < |s| ==> s[i] != '\\' && s[i] >= ' '
    ensures DecodeJsonString(EscapeQuotes(s)) == Some(s)
  {
    if s != [] {
      var rest := EscapeQuotes(s[1..]);
      EscapeQuotesValidJson(s[1..]);
      if s[0] == '"' {
        assert EscapeQuotes(s) == "\\\"" + rest;
        assert EscapeQuotes(s)[2..] == rest;
      } else {
        assert EscapeQuotes(s) == [s[0]] + rest;
        assert EscapeQuotes(s)[1..] == rest;
      }
      assert s == [s[0]] + s[1..];
    }
  }

  /** An excerpt ending in a backslash: the backslash is left alone, so it
      escapes the closing quote of the description and the text between the
      quotes is no JSON string at all. */
  lemma TrailingBackslashBreaksJson()
    ensures EscapeQuotes("C:\\") == "C:\\"
    ensures DecodeJsonString(EscapeQuotes("C:\\")) == None
  {
    assert EscapeQuotes("\\") == "\\";
    assert EscapeQuotes(":\\") == ":\\";
    assert DecodeJsonString("\\") == None;
    assert DecodeJsonString(":\\") == None;
  }

  function HexDigitChar(d: nat): (c: char)
    requires d < 16
    ensures IsHexDigit(c) && HexDigitValue(c) == d
  {
    if d < 10 then ('0' as int + d) as char else ('a' as int + d - 10) as char
  }

  /** How the escaping should treat one character of the excerpt: quotes and
      backslashes get a backslash, control characters their escape. */
  function JsonEscapeChar(c: char): (r: string)
    ensures |r| >= 1
  {
    if c == '"' then "\\\""
    else if c == '\\' then "\\\\"
    else if c == '\n' then "\\n"
    else if c == '\r' then "\\r"
    else if c == '\t' then "\\t"
    else if c == '\U{0008}' then "\\b"
    else if c == '\U{000C}' then "\\f"
    else if c < ' ' then "\\u00" + [HexDigitChar(c as int / 16), HexDigitChar(c as int % 16)]
    else [c]
  }

  /** The escaping the description needs. */
  function JsonEscape(s: string): string {
    if s == [] then [] else JsonEscapeChar(s[0]) + JsonEscape(s[1..])
  }

  lemma DecodeEscapedChar(c: char, rest: string)
    ensures DecodeJsonString(JsonEscapeChar(c) + rest) == Prepend(c, DecodeJsonString(rest))
  {
    var t := JsonEscapeChar(c) + rest;
    if c == '"' || c == '\\' || c == '\n' || c == '\r' || c == '\t' || c == '\U{0008}' || c == '\U{000C}' {
      assert t[0] == '\\' && t[2..] == rest;
    } else if c < ' ' {
      var hi, lo := HexDigitChar(c as int / 16), HexDigitChar(c as int % 16);
      assert t[0] == '\\' && t[1] == 'u' && t[6..] == rest;
      assert t[2] == '0' && t[3] == '0' && t[4] == hi && t[5] == lo;
      assert Hex4('0', '0', hi, lo) == c as int;
    } else {
      assert t[0] == c && t[1..] == rest;
    }
  }

  /** Whatever the excerpt, its properly escaped form reads back as the excerpt. */
  lemma {:induction false} JsonEscapeRoundTrip(s: string)
    ensures DecodeJsonString(JsonEscape(s)) == Some(s)
  {
    if s != [] {
      JsonEscapeRoundTrip(s[1..]);
      DecodeEscapedChar(s[0], JsonEscape(s[1..]));
      assert s == [s[0]] + s[1..];
    }
  }

  /** Where quote escaping was enough, the proper escaping changes nothing. */
  lemma {:induction false} JsonEscapeAgrees(s: string)
    requires forall i :: 0 <= i < |s| ==> s[i] != '\\' && s[i] >= ' '
    ensures JsonEscape(s) == EscapeQuotes(s)
  {
    if s != [] {
      JsonEscapeAgrees(s[1..]);
    }
  }

  // ---------------------------------------------------------------------------
  // The microdata and the props for the SEO component

  /** The values interpolated between the quotes of the JSON-LD template. */
  datatype JsonLd = JsonLd(
    pageId: string, headline: string, image: string, datePublished: string, dateModified: string,
    authorName: string, description: string, publisherName: string, logoUrl: string)

  /** The microdata as the component writes it. */
  function ArticleJsonLdAsWritten(siteUrl: string, name: string, a: Article): JsonLd {
    JsonLd(siteUrl + a.slug, a.title, siteUrl + a.imageSrc, a.dateForSEO, a.dateForSEO,
           Seo.Author, EscapeQuotes(a.excerpt), name, siteUrl + "/icons/icon-512x512.png")
  }

  /** The microdata with the headline and the description escaped as JSON
      requires: both read back as the title and the excerpt, whatever they hold. */
  function ArticleJsonLd(siteUrl: string, name: string, a: Article): (ld: JsonLd)
    ensures DecodeJsonString(ld.description) == Some(a.excerpt)
    ensures DecodeJsonString(ld.headline) == Some(a.title)
    ensures ld.pageId == siteUrl + a.slug && ld.image == siteUrl + a.imageSrc
    ensures ld.datePublished == a.dateForSEO && ld.dateModified == a.dateForSEO
    ensures ld.publisherName == name
  {
    JsonLdEscapingFixed(siteUrl, name, a);
    ArticleJsonLdAsWritten(siteUrl, name, a).(headline := JsonEscape(a.title), description := JsonEscape(a.excerpt))
  }

  /** A double quote with no backslash anywhere before it ends a JSON
      string literal early: the text is no string body at all. */
  lemma {:induction false} BareQuoteBreaksJson(t: string, k: nat)
    requires k < |t| && t[k] == '"'
    requires forall m :: 0 <= m < k ==> t[m] != '\\'
    ensures DecodeJsonString(t) == None
    decreases k
  {
    if k > 0 && t[0] != '"' && t[0] >= ' ' {
      BareQuoteBreaksJson(t[1..], k - 1);
    }
  }

  /** A title with a double quote that no backslash precedes (such as
      `Say "hi"`): the headline is not escaped at all, so that quote closes
      the JSON string early. */
  lemma HeadlineQuoteBreaksJson(siteUrl: string, name: string, a: Article, k: nat)
    requires k < |a.title| && a.title[k] == '"'
    requires forall m :: 0 <= m < k ==> a.title[m] != '\\'
    ensures DecodeJsonString(ArticleJsonLdAsWritten(siteUrl, name, a).headline) == None
  {
    BareQuoteBreaksJson(a.title, k);
  }

  /** Of the interpolated values only the description is escaped; the page
      id and image are the site URL followed by the slug and the image
      source, and both dates are `dateForSEO`. */
  lemma JsonLdFields(siteUrl: string, name: string, a: Article)
    ensures var ld := ArticleJsonLdAsWritten(siteUrl, name, a);
      && ld.pageId == siteUrl + a.slug && ld.image == siteUrl + a.imageSrc
      && ld.datePublished == a.dateForSEO && ld.dateModified == a.dateForSEO
      && ld.headline == a.title && ld.publisherName == name
      && UnescapeQuotes(ld.description) == Some(a.excerpt)
  {
    EscapeQuotesRoundTrip(a.excerpt);
  }

  /** The corrected headline and description read back as the title and
      the excerpt for every input, and the description equals the written
      one wherever that one was already right. */
  lemma JsonLdEscapingFixed(siteUrl: string, name: string, a: Article)
    ensures DecodeJsonString(JsonEscape(a.excerpt)) == Some(a.excerpt)
    ensures DecodeJsonString(JsonEscape(a.title)) == Some(a.title)
    ensures (forall i :: 0 <= i < |a.excerpt| ==> a.excerpt[i] != '\\' && a.excerpt[i] >= ' ') ==>
      JsonEscape(a.excerpt) == ArticleJsonLdAsWritten(siteUrl, name, a).description
  {
    JsonEscapeRoundTrip(a.excerpt);
    JsonEscapeRoundTrip(a.title);
    if forall i :: 0 <= i < |a.excerpt| ==> a.excerpt[i] != '\\' && a.excerpt[i] >= ' ' {
      JsonEscapeAgrees(a.excerpt);
    }
  }

  /** The props as written: the reading time goes to a prop named
      `timeToRead`, which the SEO component does not read, so it arrives as
      `undefined`. */
  function ArticleSeoPropsAsWritten(a: Article): Seo.SeoProps {
    Seo.SeoProps(Some(a.title), Some(a.excerpt), a.slug, Some(a.imageSrc), Some(a.dateForSEO), None, a.tags)
  }

  /** The props with the reading time passed as `readingTime`. */
  function ArticleSeoProps(a: Article): (p: Seo.SeoProps)
    ensures p.pathname == a.slug && p.published == Some(a.dateForSEO) && p.tags == a.tags
    ensures p.title == Some(a.title) && p.description == Some(a.excerpt) && p.image == Some(a.imageSrc)
    ensures p.readingTime == a.readingTime
  {
    ArticleSeoPropsAsWritten(a).(readingTime := a.readingTime)
  }

  predicate IsReadingLabel(t: Seo.MetaTag) {
    t.Named? && t.name == "twitter:label1"
  }

  lemma BaseTagsNoLabel(site: Seo.SiteMetadata, p: Seo.SeoProps, slug: string)
    ensures forall t :: t in Seo.BaseTags(site, p, slug) ==> !IsReadingLabel(t)
  {
    var base := Seo.BaseTags(site, p, slug);
    forall k | 0 <= k < |base| ensures !IsReadingLabel(base[k]) {
    }
  }

  lemma ArticleTagsNoLabel(published: string, tags: seq<string>)
    ensures forall t :: t in Seo.ArticleTags(published, tags) ==> !IsReadingLabel(t)
  {
    var art := Seo.ArticleTags(published, tags);
    forall k | 0 <= k < |art| ensures !IsReadingLabel(art[k]) {
      if k >= 4 {
        assert art[k] == Seo.Named("article:tag", Seo.Text(tags[k - 4]));
      }
    }
  }

  /** No entry of `m` is the reading-time label. */
  predicate NoReadingLabel(m: seq<Seo.MetaTag>) {
    forall t :: t in m ==> !IsReadingLabel(t)
  }

  /** As written, no article page ever gets the reading-time label, whatever
      its reading time. */
  lemma ReadingTimeNeverReachesMeta(site: Seo.SiteMetadata, a: Article)
    ensures NoReadingLabel(Seo.MetaTags(site, ArticleSeoPropsAsWritten(a)))
  {
    var p := ArticleSeoPropsAsWritten(a);
    NoReadingLabelForSlug(site, p, Seo.Slugify(p.pathname));
  }

  lemma NoReadingLabelForSlug(site: Seo.SiteMetadata, p: Seo.SeoProps, slug: string)
    requires !Truthy(p.readingTime)
    ensures NoReadingLabel(Seo.TagsForSlug(site, p, slug))
  {
    var base := Seo.BaseTags(site, p, slug);
    var w := if slug == "/" then [Seo.WebsiteType] else [];
    var art := if Truthy(p.published) then Seo.ArticleTags(p.published.value, p.tags) else [];
    assert Seo.TagsForSlug(site, p, slug) == base + (w + art);
    BaseTagsNoLabel(site, p, slug);
    if Truthy(p.published) {
      ArticleTagsNoLabel(p.published.value, p.tags);
    }
  }

  /** With the prop passed under its right name, an article with a reading
      time ends its meta tags with the two reading-time entries. */
  lemma ReadingTimeReachesMeta(site: Seo.SiteMetadata, a: Article)
    requires Truthy(a.readingTime)
    ensures var m := Seo.MetaTags(site, ArticleSeoProps(a));
      |m| >= 2 && m[|m| - 1] == Seo.Named("twitter:data1", Seo.Text(a.readingTime.value))
  {
    Seo.ReadingTimeLast(site, ArticleSeoProps(a));
  }
}
