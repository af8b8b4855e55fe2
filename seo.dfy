/** The SEO component: the `slugify` canonicaliser, `fullURL`, and the list of
    meta tags handed to Helmet, grown step by step. */
module Seo {
  import opened JsText

  // ---------------------------------------------------------------------------
  // slugify

  /** `toLowerCase` on ASCII letters. */
  function AsciiLower(c: char): char {
    if 'A' <= c <= 'Z' then (c as int + 32) as char else c
  }

  function LowerCase(s: string): (r: string)
    ensures |r| == |s| && forall i :: 0 <= i < |s| ==> r[i] == AsciiLower(s[i])
  {
    seq(|s|, i requires 0 <= i < |s| => AsciiLower(s[i]))
  }

  /** The characters that the pattern `[^a-z0-9]` does not match. */
  predicate IsSlugChar(c: char) {
    'a' <= c <= 'z' || '0' <= c <= '9'
  }

  predicate NoDoubleDash(s: string) {
    forall i :: 0 <= i < |s| - 1 ==> s[i] != '-' || s[i + 1] != '-'
  }

  predicate SlugAlphabet(s: string) {
    forall i :: 0 <= i < |s| ==> IsSlugChar(s[i]) || s[i] == '-'
  }

  /** The slug characters of `s`, in order. */
  function SlugChars(s: string): string {
    if s == [] then [] else (if IsSlugChar(s[0]) then [s[0]] else []) + SlugChars(s[1..])
  }

  lemma {:induction false} SlugCharsAppend(a: string, b: string)
    ensures SlugChars(a + b) == SlugChars(a) + SlugChars(b)
    decreases |a|
  {
    if a == [] {
      assert a + b == b;
    } else {
      var head := if IsSlugChar(a[0]) then [a[0]] else [];
      assert (a + b)[0] == a[0];
      assert (a + b)[1..] == a[1..] + b;
      assert SlugChars(a + b) == head + SlugChars(a[1..] + b);
      assert SlugChars(a) == head + SlugChars(a[1..]);
      SlugCharsAppend(a[1..], b);
      assert head + (SlugChars(a[1..]) + SlugChars(b)) == (head + SlugChars(a[1..])) + SlugChars(b);
    }
  }

  /** `.replace(/[^a-z0-9]+/g, '-')`: each maximal run of other characters
      becomes one dash; `inRun` says that such a run has already begun. */
  function ReplaceRuns(s: string, inRun: bool): (r: string)
    ensures SlugAlphabet(r) && NoDoubleDash(r)
    ensures inRun && r != [] ==> r[0] != '-'
    ensures SlugChars(r) == SlugChars(s)
  {
    if s == [] then []
    else if IsSlugChar(s[0]) then
      var rest := ReplaceRuns(s[1..], false);
      assert SlugChars([s[0]] + rest) == [s[0]] + SlugChars(rest) by { SlugCharsAppend([s[0]], rest); }
      [s[0]] + rest
    else if inRun then
      ReplaceRuns(s[1..], true)
    else
      var rest := ReplaceRuns(s[1..], true);
      assert SlugChars("-" + rest) == SlugChars(rest) by { SlugCharsAppend("-", rest); }
      "-" + rest
  }

  /** `.replace(/(^-|-$)+/g, '')`: one dash at the start and one at the end go. */
  function TrimDashes(s: string): string {
    DropTrailingDash(DropLeadingDash(s))
  }

  function DropLeadingDash(s: string): string {
    if s != [] && s[0] == '-' then s[1..] else s
  }

  function DropTrailingDash(s: string): string {
    if s != [] && s[|s| - 1] == '-' then s[..|s| - 1] else s
  }

  /** `.replace(/\/\/+/g, '/')`: each run of two or more slashes becomes one. */
  function SquashSlashes(s: string): string {
    if |s| >= 2 && s[0] == '/' && s[1] == '/' then SquashSlashes(s[1..])
    else if s == [] then []
    else [s[0]] + SquashSlashes(s[1..])
  }

  /** The combining diacritical marks, U+0300 to U+036F. */
  predicate IsCombiningMark(c: char) {
    '\U{0300}' <= c <= '\U{036F}'
  }

  /** `.replace(/[\u0300-\u036F]/g, '')`: the combining marks go. */
  function StripMarks(s: string): (r: string)
    ensures forall i :: 0 <= i < |r| ==> !IsCombiningMark(r[i])
  {
    if s == [] then [] else (if IsCombiningMark(s[0]) then [] else [s[0]]) + StripMarks(s[1..])
  }

  /** Removing marks keeps every letter and digit. */
  lemma {:induction false} StripMarksSlugChars(s: string)
    ensures SlugChars(StripMarks(s)) == SlugChars(s)
  {
    if s != [] {
      StripMarksSlugChars(s[1..]);
      var head := if IsCombiningMark(s[0]) then [] else [s[0]];
      SlugCharsAppend(head, StripMarks(s[1..]));
      SlugCharsAppend([s[0]], s[1..]);
      assert s == [s[0]] + s[1..];
    }
  }

  lemma {:induction false} StripMarksNoop(s: string)
    requires forall i :: 0 <= i < |s| ==> !IsCombiningMark(s[i])
    ensures StripMarks(s) == s
  {
    if s != [] {
      StripMarksNoop(s[1..]);
      assert s == [s[0]] + s[1..];
    }
  }

  /** `slugify`, with the canonical decomposition (`normalize('NFD')`) and
      non-ASCII lower-casing left out. */
  function Slugify(s: string): string {
    SquashSlashes("/" + TrimDashes(ReplaceRuns(StripMarks(LowerCase(s)), false)))
  }

  /** What follows the leading slash of a slug: letters, digits and single
      dashes between them. */
  predicate IsCanonicalSlug(t: string) {
    && SlugAlphabet(t) && NoDoubleDash(t)
    && (t != [] ==> t[0] != '-' && t[|t| - 1] != '-')
  }

  lemma {:induction false} SquashSlashesNoop(s: string)
    requires forall i :: 0 <= i < |s| - 1 ==> s[i] != '/' || s[i + 1] != '/'
    ensures SquashSlashes(s) == s
    decreases |s|
  {
    if s != [] {
      SquashSlashesNoop(s[1..]);
    }
  }

  lemma TrimDashesCanonical(s: string)
    requires SlugAlphabet(s) && NoDoubleDash(s)
    ensures IsCanonicalSlug(TrimDashes(s)) && SlugChars(TrimDashes(s)) == SlugChars(s)
  {
    DropLeadingDashSpec(s);
    DropTrailingDashSpec(DropLeadingDash(s));
  }

  lemma DropLeadingDashSpec(s: string)
    requires SlugAlphabet(s) && NoDoubleDash(s)
    ensures var t := DropLeadingDash(s);
      SlugAlphabet(t) && NoDoubleDash(t) && (t != [] ==> t[0] != '-') && SlugChars(t) == SlugChars(s)
  {
    if s != [] && s[0] == '-' {
      SlugCharsAppend("-", s[1..]);
      assert s == "-" + s[1..];
      assert |s| > 1 ==> s[1] != '-';
    }
  }

  lemma DropTrailingDashSpec(t: string)
    requires SlugAlphabet(t) && NoDoubleDash(t) && (t != [] ==> t[0] != '-')
    ensures IsCanonicalSlug(DropTrailingDash(t)) && SlugChars(DropTrailingDash(t)) == SlugChars(t)
  {
    if t != [] && t[|t| - 1] == '-' {
      var r := t[..|t| - 1];
      assert SlugChars(r) == SlugChars(t) by {
        SlugCharsAppend(r, "-");
        assert t == r + "-";
        assert SlugChars("-") == [];
      }
      assert IsCanonicalSlug(r) by {
        assert |t| > 1 ==> t[|t| - 2] != '-';
      }
    }
  }

  /** `slugify(s)` is a slash followed by a canonical slug that keeps every
      ASCII letter and digit of `s`, lower-cased, in order. */
  lemma SlugifyShape(s: string)
    ensures var r := Slugify(s);
      && |r| >= 1 && r[0] == '/' && IsCanonicalSlug(r[1..])
      && SlugChars(r[1..]) == SlugChars(LowerCase(s))
  {
    var t := TrimDashes(ReplaceRuns(StripMarks(LowerCase(s)), false));
    TrimDashesCanonical(ReplaceRuns(StripMarks(LowerCase(s)), false));
    StripMarksSlugChars(LowerCase(s));
    SquashSlashesNoop("/" + t);
    assert ("/" + t)[1..] == t;
  }

  lemma {:induction false} ReplaceRunsCanonical(t: string, inRun: bool)
    requires SlugAlphabet(t) && NoDoubleDash(t)
    requires inRun ==> t == [] || t[0] != '-'
    ensures ReplaceRuns(t, inRun) == t
    decreases |t|
  {
    if t != [] {
      ReplaceRunsCanonical(t[1..], !IsSlugChar(t[0]));
    }
  }

  /** A slash followed by a canonical slug is its own slug. */
  lemma SlugifyFixedPoint(t: string)
    requires IsCanonicalSlug(t)
    ensures Slugify("/" + t) == "/" + t
  {
    assert LowerCase("/" + t) == "/" + t;
    StripMarksNoop("/" + t);
    ReplaceRunsCanonical(t, true);
    assert ("/" + t)[1..] == t;
    assert ReplaceRuns("/" + t, false) == "-" + t;
    assert TrimDashes("-" + t) == t by {
      assert DropLeadingDash("-" + t) == t;
    }
    SquashSlashesNoop("/" + t);
  }

  /** Slugifying twice is slugifying once. */
  lemma SlugifyIdempotent(s: string)
    ensures Slugify(Slugify(s)) == Slugify(s)
  {
    var r := Slugify(s);
    SlugifyShape(s);
    assert r == "/" + r[1..];
    SlugifyFixedPoint(r[1..]);
  }

  /** `slugify(s)` is the root `/` exactly when `s` has no ASCII letter or
      digit; in particular for `""` and `"/"`. */
  lemma SlugifyRootIff(s: string)
    ensures Slugify(s) == "/" <==> SlugChars(LowerCase(s)) == []
  {
    SlugifyShape(s);
    var r := Slugify(s);
    CanonicalSlugChars(r[1..]);
    assert r == [r[0]] + r[1..];
  }

  /** The empty path and the root path both slugify to the root. */
  lemma SlugifyOfRoot()
    ensures Slugify("") == "/" && Slugify("/") == "/"
  {
    SlugifyRootIff("");
    SlugifyRootIff("/");
    assert LowerCase("/") == "/";
    assert SlugChars("/") == SlugChars([]);
  }

  /** A non-empty canonical slug starts with a letter or digit, so it keeps one. */
  lemma CanonicalSlugChars(t: string)
    requires IsCanonicalSlug(t)
    ensures SlugChars(t) == [] <==> t == []
  {
    if t != [] {
      assert IsSlugChar(t[0]);
    }
  }

  // ---------------------------------------------------------------------------
  // Where the dashes go

  /** Mark removal works character by character: it distributes over
      concatenation, drops a mark and keeps every other character. */
  lemma {:induction false} StripMarksAppend(a: string, b: string)
    ensures StripMarks(a + b) == StripMarks(a) + StripMarks(b)
    ensures |a| == 1 ==> StripMarks(a) == if IsCombiningMark(a[0]) then [] else a
    decreases |a|
  {
    if a != [] {
      assert (a + b)[1..] == a[1..] + b;
      StripMarksAppend(a[1..], b);
      var head := if IsCombiningMark(a[0]) then [] else [a[0]];
      assert StripMarks(a + b) == head + StripMarks(a[1..] + b);
      assert StripMarks(a) == head + StripMarks(a[1..]);
      assert head + (StripMarks(a[1..]) + StripMarks(b)) == (head + StripMarks(a[1..])) + StripMarks(b);
      if |a| == 1 {
        assert a[1..] == [];
      }
    } else {
      assert a + b == b;
    }
  }

  /** A word: letters and digits only. */
  predicate IsSlugWord(u: string) {
    forall i :: 0 <= i < |u| ==> IsSlugChar(u[i])
  }

  /** A separator run: no letter or digit at all. */
  predicate IsSeparatorRun(w: string) {
    forall i :: 0 <= i < |w| ==> !IsSlugChar(w[i])
  }

  /** A word passes through the run replacement unchanged, and what follows
      it is replaced as if no run had begun. */
  lemma {:induction false} ReplaceRunsWord(u: string, x: string, inRun: bool)
    requires u != [] && IsSlugWord(u)
    ensures ReplaceRuns(u + x, inRun) == u + ReplaceRuns(x, false)
    decreases |u|
  {
    var head, tail, rx := [u[0]], u[1..], ReplaceRuns(x, false);
    assert ReplaceRuns(u + x, inRun) == head + ReplaceRuns(tail + x, false) by {
      assert u + x == head + (tail + x);
      ReplaceRunsCons(u[0], tail + x, inRun);
    }
    assert ReplaceRuns(tail + x, false) == tail + rx by {
      if tail != [] {
        ReplaceRunsWord(tail, x, false);
      } else {
        assert tail + x == x;
      }
    }
    assert head + (tail + rx) == u + rx by {
      assert head + tail == u;
    }
  }

  /** A text of letters and digits alone comes out of the run replacement as it went in. */
  lemma {:induction false} ReplaceRunsKeepsWord(u: string, inRun: bool)
    requires IsSlugWord(u)
    ensures ReplaceRuns(u, inRun) == u
  {
    if u != [] {
      assert u + [] == u;
      ReplaceRunsWord(u, [], inRun);
    }
  }

  lemma ReplaceRunsCons(c: char, y: string, inRun: bool)
    requires IsSlugChar(c)
    ensures ReplaceRuns([c] + y, inRun) == [c] + ReplaceRuns(y, false)
  {
    assert ([c] + y)[0] == c && ([c] + y)[1..] == y;
  }

  /** A whole separator run becomes a single dash, or nothing when a run has
      already begun, and what follows is replaced as inside a run. */
  lemma {:induction false} ReplaceRunsSeparator(w: string, x: string, inRun: bool)
    requires w != [] && IsSeparatorRun(w)
    ensures ReplaceRuns(w + x, inRun) == (if inRun then [] else "-") + ReplaceRuns(x, true)
    decreases |w|
  {
    assert (w + x)[0] == w[0] && (w + x)[1..] == w[1..] + x;
    if |w| > 1 {
      ReplaceRunsSeparator(w[1..], x, true);
    } else {
      assert w[1..] + x == x;
    }
  }

  /** Two words with a separator run between them come out joined by exactly one dash. */
  lemma ReplaceRunsJoin(u: string, w: string, v: string)
    requires u != [] && IsSlugWord(u) && v != [] && IsSlugWord(v)
    requires w != [] && IsSeparatorRun(w)
    ensures ReplaceRuns(u + w + v, false) == u + "-" + v
  {
    var wv := w + v;
    assert u + w + v == u + wv;
    ReplaceRunsWord(u, wv, false);
    ReplaceRunsSeparator(w, v, false);
    ReplaceRunsKeepsWord(v, true);
    assert ReplaceRuns(wv, false) == "-" + v;
    assert u + ("-" + v) == u + "-" + v;
  }

  /** `slugify` of two words separated by a run of other characters (no
      capital letters, no combining marks) is the lower-cased words joined by
      one dash behind the leading slash. */
  lemma SlugifyJoin(u: string, w: string, v: string)
    requires u != [] && v != [] && w != []
    requires forall i :: 0 <= i < |u| ==> IsSlugChar(AsciiLower(u[i]))
    requires forall i :: 0 <= i < |v| ==> IsSlugChar(AsciiLower(v[i]))
    requires forall i :: 0 <= i < |w| ==> !IsSlugChar(w[i]) && !('A' <= w[i] <= 'Z') && !IsCombiningMark(w[i])
    ensures Slugify(u + w + v) == "/" + LowerCase(u) + "-" + LowerCase(v)
  {
    var lu, lv := LowerCase(u), LowerCase(v);
    LowerCaseJoin(u, w, v);
    NoMarksJoin(lu, w, lv);
    ReplaceRunsJoin(lu, w, lv);
    var t := lu + "-" + lv;
    assert TrimDashes(t) == t by {
      assert t[0] == lu[0] && t[|t| - 1] == lv[|lv| - 1];
    }
    SquashJoin(lu, lv);
  }

  lemma LowerCaseJoin(u: string, w: string, v: string)
    requires forall i :: 0 <= i < |w| ==> !('A' <= w[i] <= 'Z')
    ensures LowerCase(u + w + v) == LowerCase(u) + w + LowerCase(v)
  {
    var lower := LowerCase(u) + w + LowerCase(v);
    assert |LowerCase(u + w + v)| == |lower|;
    forall i | 0 <= i < |lower| ensures LowerCase(u + w + v)[i] == lower[i] {
      if i < |u| {
      } else if i < |u| + |w| {
        assert lower[i] == w[i - |u|];
      } else {
        assert lower[i] == LowerCase(v)[i - |u| - |w|];
      }
    }
  }

  lemma NoMarksJoin(lu: string, w: string, lv: string)
    requires IsSlugWord(lu) && IsSlugWord(lv)
    requires forall i :: 0 <= i < |w| ==> !IsCombiningMark(w[i])
    ensures StripMarks(lu + w + lv) == lu + w + lv
  {
    var lower := lu + w + lv;
    forall i | 0 <= i < |lower| ensures !IsCombiningMark(lower[i]) {
      if i < |lu| {
        assert lower[i] == lu[i];
      } else if i < |lu| + |w| {
        assert lower[i] == w[i - |lu|];
      } else {
        assert lower[i] == lv[i - |lu| - |w|];
      }
    }
    StripMarksNoop(lower);
  }

  lemma SquashJoin(lu: string, lv: string)
    requires IsSlugWord(lu) && IsSlugWord(lv)
    ensures SquashSlashes("/" + (lu + "-" + lv)) == "/" + lu + "-" + lv
  {
    var t := lu + "-" + lv;
    var slug := "/" + t;
    forall i | 1 <= i < |slug| ensures slug[i] != '/' {
      assert slug[i] == t[i - 1];
      if i - 1 < |lu| {
        assert t[i - 1] == lu[i - 1];
      } else if i - 1 > |lu| {
        assert t[i - 1] == lv[i - 1 - |lu| - 1];
      }
    }
    SquashSlashesNoop(slug);
    assert slug == "/" + lu + "-" + lv;
  }

  /** An example: "Hello World" becomes "/hello-world". */
  lemma SlugifyHelloWorld()
    ensures Slugify("Hello World") == "/hello-world"
  {
    var u, w, v := "Hello", " ", "World";
    HelloWorldPieces();
    SlugifyJoin(u, w, v);
  }

  lemma HelloWorldPieces()
    ensures "Hello" + " " + "World" == "Hello World"
    ensures "/" + LowerCase("Hello") + "-" + LowerCase("World") == "/hello-world"
    ensures forall i :: 0 <= i < |"Hello"| ==> IsSlugChar(AsciiLower("Hello"[i]))
    ensures forall i :: 0 <= i < |"World"| ==> IsSlugChar(AsciiLower("World"[i]))
  {
    assert LowerCase("Hello") == "hello";
    assert LowerCase("World") == "world";
  }

  // ---------------------------------------------------------------------------
  // fullURL and the meta tags

  /** `fullURL(path)`: the site URL, followed by the path when the path is truthy. */
  function FullUrl(siteUrl: string, path: Option<string>): (r: string)
    ensures |r| >= |siteUrl| && r[..|siteUrl|] == siteUrl
    ensures r[|siteUrl|..] == if Truthy(path) then path.value else ""
  {
    if Truthy(path) then siteUrl + path.value else siteUrl
  }

  datatype SiteMetadata = SiteMetadata(title: string, description: string, siteUrl: string)

  /** The props of the SEO component that reach its output. */
  datatype SeoProps = SeoProps(
    title: Option<string>,
    description: Option<string>,
    pathname: string,
    image: Option<string>,
    published: Option<string>,
    readingTime: Option<string>,
    tags: seq<string>)

  /** A value put in a meta tag; `tags[0]` of an empty list is `undefined`. */
  datatype Content = Text(text: string) | Undefined

  /** One entry of the meta-tag list, by the attribute that names it. */
  datatype MetaTag =
    | Charset(charset: string)
    | HttpEquiv(httpEquiv: string, httpContent: string)
    | Rel(rel: string, href: string)
    | ItemProp(itemprop: string, itemContent: string)
    | Named(name: string, content: Content)
    | Property(property: string, propertyContent: string)

  const Author: string := "Philipp Schmid"
  const TwitterHandle: string := "@_philschmid"

  function TitleOf(site: SiteMetadata, p: SeoProps): string {
    OrElse(p.title, site.title)
  }

  function DescriptionOf(site: SiteMetadata, p: SeoProps): string {
    OrElse(p.description, site.description)
  }

  /** The twenty entries every page gets, in their order; `slug` is the
      slug of the page's path. */
  function BaseTags(site: SiteMetadata, p: SeoProps, slug: string): (r: seq<MetaTag>)
    ensures |r| == 20
  {
    var title, description := TitleOf(site, p), DescriptionOf(site, p);
    var image := FullUrl(site.siteUrl, p.image);
    [ Charset("utf-8"),
      HttpEquiv("X-UA-Compatible", "IE=edge"),
      Named("viewport", Text("width=device-width, initial-scale=1")),
      Named("theme-color", Text("#fff")),
      Rel("canonical", FullUrl(site.siteUrl, Some(p.pathname))),
      ItemProp("name", title),
      ItemProp("description", description),
      ItemProp("image", image),
      Named("description", Text(description)),
      Named("twitter:card", Text("summary_large_image")),
      Named("twitter:site", Text(TwitterHandle)),
      Named("twitter:title", Text(title)),
      Named("twitter:description", Text(description)),
      Named("twitter:creator", Text(TwitterHandle)),
      Named("twitter:image", Text(image)),
      Property("og:title", title),
      Property("og:url", site.siteUrl + slug),
      Property("og:image", image),
      Property("og:description", description),
      Property("og:site_name", site.title) ]
  }

  const WebsiteType: MetaTag := Property("og:type", "website")

  function TagEntries(tags: seq<string>): (r: seq<MetaTag>)
    ensures |r| == |tags|
  {
    seq(|tags|, i requires 0 <= i < |tags| => Named("article:tag", Text(tags[i])))
  }

  /** The entries an article adds: its type, date, author and section, then one per tag. */
  function ArticleTags(published: string, tags: seq<string>): seq<MetaTag> {
    [ Property("og:type", "article"),
      Named("article:published_time", Text(published)),
      Named("article:author", Text(Author)),
      Named("article:section", if tags != [] then Text(tags[0]) else Undefined) ]
    + TagEntries(tags)
  }

  function ReadingTags(readingTime: string): seq<MetaTag> {
    [Named("twitter:label1", Text("Reading time")), Named("twitter:data1", Text(readingTime))]
  }

  /** The conditional pushes: the website type on the root page, the
      article entries when published, the reading time when given. */
  function ExtraTags(p: SeoProps, slug: string): seq<MetaTag> {
    (if slug == "/" then [WebsiteType] else [])
    + (if Truthy(p.published) then ArticleTags(p.published.value, p.tags) else [])
    + (if Truthy(p.readingTime) then ReadingTags(p.readingTime.value) else [])
  }

  /** The list for a page whose path has slug `slug`. */
  function TagsForSlug(site: SiteMetadata, p: SeoProps, slug: string): seq<MetaTag> {
    BaseTags(site, p, slug) + ExtraTags(p, slug)
  }

  /** The whole list, as the component builds it. */
  function MetaTags(site: SiteMetadata, p: SeoProps): seq<MetaTag> {
    TagsForSlug(site, p, Slugify(p.pathname))
  }

  /** The `metaTags` array: the literal list, then the conditional pushes. */
  method BuildMetaTags(site: SiteMetadata, p: SeoProps) returns (metaTags: seq<MetaTag>)
    ensures metaTags == MetaTags(site, p)
  {
    var slug := Slugify(p.pathname);
    metaTags := BuildTagsForSlug(site, p, slug);
  }

  method BuildTagsForSlug(site: SiteMetadata, p: SeoProps, slug: string) returns (metaTags: seq<MetaTag>)
    ensures metaTags == TagsForSlug(site, p, slug)
  {
    ghost var base := BaseTags(site, p, slug);
    ghost var w := if slug == "/" then [WebsiteType] else [];
    ghost var a := if Truthy(p.published) then ArticleTags(p.published.value, p.tags) else [];
    ghost var r := if Truthy(p.readingTime) then ReadingTags(p.readingTime.value) else [];
    metaTags := BaseTags(site, p, slug);
    if slug == "/" {
      metaTags := metaTags + [WebsiteType];
    }
    assert metaTags == base + w;
    if Truthy(p.published) {
      metaTags := PushArticleTags(metaTags, p.published.value, p.tags);
    }
    assert metaTags == (base + w) + a;
    if Truthy(p.readingTime) {
      ghost var before := metaTags;
      metaTags := metaTags + [Named("twitter:label1", Text("Reading time"))];
      metaTags := metaTags + [Named("twitter:data1", Text(p.readingTime.value))];
      AppendAssoc(before, [Named("twitter:label1", Text("Reading time"))],
                  [Named("twitter:data1", Text(p.readingTime.value))]);
    }
    assert metaTags == ((base + w) + a) + r;
    AppendAssoc(base, w, a);
    AppendAssoc(base, w + a, r);
  }

  /** Proof helper with no counterpart in the component: regrouping the pushed
      parts, stated once for meta-tag lists so the solver need not compare the
      twenty-entry literal element by element. */
  lemma AppendAssoc(x: seq<MetaTag>, y: seq<MetaTag>, z: seq<MetaTag>)
    ensures (x + y) + z == x + (y + z)
  {
  }

  /** The pushes of a published article, one per tag inside the `forEach`. */
  method PushArticleTags(before: seq<MetaTag>, published: string, tags: seq<string>)
    returns (metaTags: seq<MetaTag>)
    ensures metaTags == before + ArticleTags(published, tags)
  {
    metaTags := before + [Property("og:type", "article")];
    metaTags := metaTags + [Named("article:published_time", Text(published))];
    metaTags := metaTags + [Named("article:author", Text(Author))];
    metaTags := metaTags + [Named("article:section", if tags != [] then Text(tags[0]) else Undefined)];
    ghost var head := metaTags;
    for i := 0 to |tags|
      invariant metaTags == head + TagEntries(tags[..i])
    {
      assert TagEntries(tags[..i + 1]) == TagEntries(tags[..i]) + [Named("article:tag", Text(tags[i]))];
      metaTags := metaTags + [Named("article:tag", Text(tags[i]))];
    }
    assert tags[..|tags|] == tags;
  }

  /** The list has twenty entries, one more on the root page, four plus one per
      tag for an article, and two more with a reading time. */
  lemma MetaTagsLength(site: SiteMetadata, p: SeoProps)
    ensures |MetaTags(site, p)| == 20
      + (if Slugify(p.pathname) == "/" then 1 else 0)
      + (if Truthy(p.published) then 4 + |p.tags| else 0)
      + (if Truthy(p.readingTime) then 2 else 0)
  {
  }

  /** The canonical link is the full URL of the path; og:url is the site URL
      followed by the path's slug; title and description fall back to the
      site's when falsy. */
  lemma MetaTagsUrlsAndFallbacks(site: SiteMetadata, p: SeoProps)
    ensures var m := MetaTags(site, p);
      && m[4] == Rel("canonical", if p.pathname == "" then site.siteUrl else site.siteUrl + p.pathname)
      && m[16] == Property("og:url", site.siteUrl + Slugify(p.pathname))
      && m[15] == Property("og:title", if Truthy(p.title) then p.title.value else site.title)
      && m[8] == Named("description", Text(if Truthy(p.description) then p.description.value else site.description))
  {
    BaseEntries(site, p, Slugify(p.pathname));
  }

  lemma BaseEntries(site: SiteMetadata, p: SeoProps, slug: string)
    ensures var m := TagsForSlug(site, p, slug);
      && m[4] == Rel("canonical", if p.pathname == "" then site.siteUrl else site.siteUrl + p.pathname)
      && m[16] == Property("og:url", site.siteUrl + slug)
      && m[15] == Property("og:title", if Truthy(p.title) then p.title.value else site.title)
      && m[8] == Named("description", Text(if Truthy(p.description) then p.description.value else site.description))
  {
    var b := BaseTags(site, p, slug);
    assert b[4] == Rel("canonical", FullUrl(site.siteUrl, Some(p.pathname)));
  }

  /** The website type is declared exactly when the path slugifies to the root. */
  lemma WebsiteTypeIff(site: SiteMetadata, p: SeoProps)
    ensures WebsiteType in MetaTags(site, p) <==> Slugify(p.pathname) == "/"
  {
    WebsiteTypeIffSlug(site, p, Slugify(p.pathname));
  }

  lemma WebsiteTypeIffSlug(site: SiteMetadata, p: SeoProps, slug: string)
    ensures WebsiteType in TagsForSlug(site, p, slug) <==> slug == "/"
  {
    BaseTagsNotWebsite(site, p, slug);
    if Truthy(p.published) {
      ArticleTagsNotWebsite(p.published.value, p.tags);
    }
    var w := if slug == "/" then [WebsiteType] else [];
    var a := if Truthy(p.published) then ArticleTags(p.published.value, p.tags) else [];
    var r := if Truthy(p.readingTime) then ReadingTags(p.readingTime.value) else [];
    assert TagsForSlug(site, p, slug) == BaseTags(site, p, slug) + (w + a + r);
  }

  lemma BaseTagsNotWebsite(site: SiteMetadata, p: SeoProps, slug: string)
    ensures WebsiteType !in BaseTags(site, p, slug)
  {
    var base := BaseTags(site, p, slug);
    forall k | 0 <= k < |base| ensures base[k] != WebsiteType {
      if k >= 15 {
        assert base[k].Property? && base[k].property != "og:type";
      }
    }
  }

  lemma ArticleTagsNotWebsite(published: string, tags: seq<string>)
    ensures WebsiteType !in ArticleTags(published, tags)
  {
    var a := ArticleTags(published, tags);
    forall k | 0 <= k < |a| ensures a[k] != WebsiteType {
      if k >= 4 { assert a[k] == Named("article:tag", Text(tags[k - 4])); }
    }
  }

  /** An article's entries follow the base list (and the website type, if
      any) in order: type, publication time, author, section = first tag,
      then one tag entry per tag in tag order; this holds whatever the slug. */
  lemma ArticleTagsInOrder(site: SiteMetadata, p: SeoProps, slug: string)
    requires Truthy(p.published)
    ensures var m := TagsForSlug(site, p, slug);
      var k := 20 + (if slug == "/" then 1 else 0);
      && |m| >= k + 4 + |p.tags|
      && m[k] == Property("og:type", "article")
      && m[k + 1] == Named("article:published_time", Text(p.published.value))
      && m[k + 2] == Named("article:author", Text(Author))
      && m[k + 3] == Named("article:section", if p.tags != [] then Text(p.tags[0]) else Undefined)
      && forall i :: 0 <= i < |p.tags| ==> m[k + 4 + i] == Named("article:tag", Text(p.tags[i]))
  {
    ArticleTagsAfter(BaseTags(site, p, slug), p, slug);
  }

  /** The same, after any twenty base entries. */
  lemma ArticleTagsAfter(b: seq<MetaTag>, p: SeoProps, slug: string)
    requires |b| == 20 && Truthy(p.published)
    ensures var m, k := b + ExtraTags(p, slug), 20 + (if slug == "/" then 1 else 0);
      |m| >= k + 4 + |p.tags|
    ensures var m, k := b + ExtraTags(p, slug), 20 + (if slug == "/" then 1 else 0);
      && m[k] == Property("og:type", "article")
      && m[k + 1] == Named("article:published_time", Text(p.published.value))
      && m[k + 2] == Named("article:author", Text(Author))
      && m[k + 3] == Named("article:section", if p.tags != [] then Text(p.tags[0]) else Undefined)
    ensures var m, k := b + ExtraTags(p, slug), 20 + (if slug == "/" then 1 else 0);
      forall i :: 0 <= i < |p.tags| ==> m[k + 4 + i] == Named("article:tag", Text(p.tags[i]))
  {
    var w := if slug == "/" then [WebsiteType] else [];
    var a := ArticleTags(p.published.value, p.tags);
    var r := if Truthy(p.readingTime) then ReadingTags(p.readingTime.value) else [];
    var m, k := b + ExtraTags(p, slug), 20 + (if slug == "/" then 1 else 0);
    assert |b + w| == k;
    assert m == (b + w) + a + r by {
      assert ExtraTags(p, slug) == (w + a) + r;
      AppendAssoc(b, w + a, r);
      AppendAssoc(b, w, a);
    }
    assert forall j :: 0 <= j < |a| ==> m[k + j] == a[j] by {
      PartAt(b + w, a, r);
    }
    ArticleTagsShape(p.published.value, p.tags);
    assert |m| >= k + |a|;
    assert m[k] == a[0] && m[k + 1] == a[1] && m[k + 2] == a[2] && m[k + 3] == a[3];
    forall i | 0 <= i < |p.tags|
      ensures (b + ExtraTags(p, slug))[20 + (if slug == "/" then 1 else 0) + 4 + i] == Named("article:tag", Text(p.tags[i]))
    {
      assert m[k + (4 + i)] == a[4 + i];
    }
  }

  /** The article's own entries: four fixed ones, then one per tag in order. */
  lemma ArticleTagsShape(published: string, tags: seq<string>)
    ensures var a := ArticleTags(published, tags);
      && |a| == 4 + |tags|
      && a[0] == Property("og:type", "article")
      && a[1] == Named("article:published_time", Text(published))
      && a[2] == Named("article:author", Text(Author))
      && a[3] == Named("article:section", if tags != [] then Text(tags[0]) else Undefined)
      && forall i :: 0 <= i < |tags| ==> a[4 + i] == Named("article:tag", Text(tags[i]))
  {
  }

  /** Proof helper with no counterpart in the component: the middle part of a
      three-part list starts right after the first part. */
  lemma PartAt(x: seq<MetaTag>, y: seq<MetaTag>, z: seq<MetaTag>)
    ensures |x + y + z| == |x| + |y| + |z|
    ensures forall j :: 0 <= j < |y| ==> (x + y + z)[|x| + j] == y[j]
  {
  }

  /** With a reading time, its two entries close the list. */
  lemma ReadingTimeLast(site: SiteMetadata, p: SeoProps)
    requires Truthy(p.readingTime)
    ensures var m := MetaTags(site, p);
      && |m| >= 22
      && m[|m| - 2] == Named("twitter:label1", Text("Reading time"))
      && m[|m| - 1] == Named("twitter:data1", Text(p.readingTime.value))
  {
  }

  /** What the component hands to Helmet. */
  datatype Head = Head(title: string, lang: string, meta: seq<MetaTag>)

  function SeoHead(site: SiteMetadata, p: SeoProps): Head {
    Head(TitleOf(site, p), "en", MetaTags(site, p))
  }

  /** The document title is the page title, or the site title when the page has
      none; the language is English; the meta list is the one built above, and
      its `twitter:title` and `og:title` entries carry the same title. */
  lemma SeoHeadSpec(site: SiteMetadata, p: SeoProps)
    ensures var h := SeoHead(site, p);
      && h.title == (if Truthy(p.title) then p.title.value else site.title)
      && h.lang == "en"
      && h.meta == MetaTags(site, p)
      && h.meta[11] == Named("twitter:title", Text(h.title))
      && h.meta[15] == Property("og:title", h.title)
  {
    var slug := Slugify(p.pathname);
    BaseTitleEntries(site, p, slug);
    PrefixAt(BaseTags(site, p, slug), ExtraTags(p, slug));
  }

  /** The base list names the page title twice: for Twitter and for Open Graph. */
  lemma BaseTitleEntries(site: SiteMetadata, p: SeoProps, slug: string)
    ensures var b := BaseTags(site, p, slug);
      && b[11] == Named("twitter:title", Text(TitleOf(site, p)))
      && b[15] == Property("og:title", TitleOf(site, p))
  {
  }

  /** Proof helper with no counterpart in the component: the entries of the
      first part of a list keep their places. */
  lemma PrefixAt(x: seq<MetaTag>, y: seq<MetaTag>)
    ensures forall j :: 0 <= j < |x| ==> (x + y)[j] == x[j]
  {
  }
}
