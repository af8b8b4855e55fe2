/** The blog listing template: one page of post summaries with its SEO
    head, the tag header on the first page, the highlighted first post, the
    other posts as links, and the pagination bar. */
module PostsTemplate {
  import opened JsText
  import Seo
  import Pagination

  /** A post summary as the listing receives it. */
  datatype Summary = Summary(id: string, slug: string)

  /** The page context handed over by the paginating page creator. */
  datatype PageContext = PageContext(
    group: seq<Summary>, index: int, first: bool, last: bool, pageCount: int, allTags: seq<string>)

  /** The listing pages live at the site root and under `page/`. */
  const SitePath: string := ""

  /** `previousUrl`: the root for page 2, the number of the page before otherwise. */
  function PreviousUrl(index: int): string {
    if index - 1 == 1 then "/" else IntToString(index - 1)
  }

  /** `nextUrl`: the number of the page after. */
  function NextUrl(index: int): string {
    IntToString(index + 1)
  }

  /** The URL parts name the neighbouring pages: each reads back as the
      neighbour's number, except that page 2's previous is the root. */
  lemma ListingUrlsSpec(index: int)
    ensures ParseInt(NextUrl(index)) == Some(index + 1)
    ensures index == 2 ==> PreviousUrl(index) == "/"
    ensures index != 2 ==> ParseInt(PreviousUrl(index)) == Some(index - 1)
    ensures NextUrl(index) != "" && PreviousUrl(index) != ""
  {
    IntToStringRoundTrip(index + 1);
    IntToStringRoundTrip(index - 1);
  }

  /** The listing's SEO props: the empty path, an empty title and a fixed description. */
  function ListingSeoProps(): Seo.SeoProps {
    Seo.SeoProps(Some(""), Some("Blog overview"), SitePath, None, None, None, [])
  }

  function PaginationProps(ctx: PageContext): Pagination.Props {
    Pagination.Props(PreviousUrl(ctx.index), NextUrl(ctx.index), ctx.first, ctx.index, ctx.last,
                     ctx.pageCount, SitePath)
  }

  /** What the template renders. `highlight` is `group[0]`, absent for an
      empty group; `links` is `group.slice(1)`. */
  datatype ListingView = ListingView(
    seo: Seo.SeoProps, header: Option<seq<string>>, highlight: Option<Summary>,
    links: seq<Summary>, pagination: Option<Pagination.View>)

  function Render(ctx: PageContext): ListingView {
    ListingView(
      ListingSeoProps(),
      if ctx.first then Some(ctx.allTags) else None,
      if ctx.group != [] then Some(ctx.group[0]) else None,
      if ctx.group != [] then ctx.group[1..] else [],
      Pagination.Render(PaginationProps(ctx)))
  }

  /** Every post of the group is shown exactly once and in order: the
      highlight followed by the links is the group. The tag header appears
      exactly on the first page. */
  lemma RenderShowsGroup(ctx: PageContext)
    ensures var v := Render(ctx);
      && (v.highlight.Some? <==> ctx.group != [])
      && (if v.highlight.Some? then [v.highlight.value] + v.links else v.links) == ctx.group
      && (v.header.Some? <==> ctx.first)
  {
    if ctx.group != [] {
      assert [ctx.group[0]] + ctx.group[1..] == ctx.group;
    }
  }

  /** A listing page is announced as a website, under the site's own title
      and the fixed description, with the site URL as canonical link. */
  lemma ListingSeo(site: Seo.SiteMetadata)
    ensures var m := Seo.MetaTags(site, ListingSeoProps());
      && Seo.WebsiteType in m
      && m[15] == Seo.Property("og:title", site.title)
      && m[8] == Seo.Named("description", Seo.Text("Blog overview"))
      && m[4] == Seo.Rel("canonical", site.siteUrl)
  {
    Seo.SlugifyOfRoot();
    Seo.WebsiteTypeIff(site, ListingSeoProps());
    Seo.MetaTagsUrlsAndFallbacks(site, ListingSeoProps());
  }

  /** The bar of a listing with more than one page always shows the counter
      and links, since the next page's number is never empty. */
  lemma CounterAlwaysShown(ctx: PageContext)
    requires ctx.pageCount != 1
    ensures Pagination.Render(PaginationProps(ctx)).Some?
    ensures Pagination.Render(PaginationProps(ctx)).value.middle.Some?
  {
    ListingUrlsSpec(ctx.index);
  }

  /** The page numbering is consistent: first and last are the ends of 1..pageCount. */
  predicate Consistent(ctx: PageContext) {
    && 1 <= ctx.index <= ctx.pageCount
    && (ctx.first <==> ctx.index == 1)
    && (ctx.last <==> ctx.index == ctx.pageCount)
  }

  /** Prev leads to the numbered link of page `index - 1` and Next to that
      of page `index + 1`, whichever page this is. */
  lemma NeighbourTargets(ctx: PageContext)
    ensures ctx.index >= 2 ==>
      Pagination.LastPage(PaginationProps(ctx)) == Pagination.PageTarget(SitePath, ctx.index - 1)
    ensures ctx.index >= 1 ==>
      Pagination.NextPage(PaginationProps(ctx)) == Pagination.PageTarget(SitePath, ctx.index + 1)
  {
    var p := PaginationProps(ctx);
    if ctx.index >= 3 {
      assert p.previousUrl == IntToString(ctx.index - 1);
      assert Pagination.LastPage(p) == "/page/" + IntToString(ctx.index - 1);
    }
    assert Pagination.NextPage(p) == "/page/" + IntToString(ctx.index + 1);
  }

  /** On a consistent listing the bar only ever leads to pages that exist:
      Prev is shown exactly from page 2 on and leads to the page before,
      Next exactly up to the page before last and leads to the page after. */
  lemma ArrowsStayInside(ctx: PageContext)
    requires Consistent(ctx) && ctx.pageCount != 1
    ensures var v := Pagination.Render(PaginationProps(ctx)).value;
      && (v.prev.Some? <==> ctx.index >= 2)
      && (v.prev.Some? ==> v.prev.value == Pagination.PageTarget(SitePath, ctx.index - 1))
      && (v.next.Some? <==> ctx.index < ctx.pageCount)
      && (v.next.Some? ==> v.next.value == Pagination.PageTarget(SitePath, ctx.index + 1))
  {
    var p := PaginationProps(ctx);
    Pagination.RenderVisibility(p);
    NeighbourTargets(ctx);
  }
}
