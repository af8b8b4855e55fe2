/** The compact footer pagination: a `<` link, a "k of n" counter and a `>`
    link, for listings at the site root. */
module FooterPagination {
  import opened JsText
  import Pagination
  import PostsTemplate

  datatype Props = Props(
    previousUrl: string, nextUrl: string, first: bool, index: int, last: bool, pageCount: int)

  /** What the footer shows: each part absent when its condition fails. */
  datatype View = View(back: Option<string>, counter: Option<(int, int)>, forward: Option<string>)

  /** `nextPage`. */
  function NextPage(p: Props): string {
    "/" + "page" + "/" + p.nextUrl
  }

  /** `lastPage`, the `<` target. */
  function LastPage(p: Props): string {
    if p.index == 2 then "/" else "/" + "page" + "/" + p.previousUrl
  }

  /** The footer as written: the same visibility rules as the full bar, but
      with no guard for a listing of one page. */
  function RenderAsWritten(p: Props): View {
    View(
      if p.last || !p.first then Some(LastPage(p)) else None,
      if p.previousUrl != "" || p.nextUrl != "" then Some((p.index, p.pageCount)) else None,
      if p.first || !p.last then Some(NextPage(p)) else None)
  }

  /** The footer with the full bar's guard: nothing for a single page. */
  function Render(p: Props): Option<View> {
    if p.pageCount == 1 then None else Some(RenderAsWritten(p))
  }

  /** The footer props a listing page would hand over. */
  function PropsOf(ctx: PostsTemplate.PageContext): Props {
    Props(PostsTemplate.PreviousUrl(ctx.index), PostsTemplate.NextUrl(ctx.index),
          ctx.first, ctx.index, ctx.last, ctx.pageCount)
  }

  /** `<` is shown exactly when `last || !first`, `>` exactly when
      `first || !last`, and the counter exactly when a URL is truthy. These
      are the markup's own guards; SinglePageShowsBothArrows and
      ArrowsStayInside say where the arrows lead. */
  lemma RenderAsWrittenVisibility(p: Props)
    ensures var v := RenderAsWritten(p);
      && (v.back.Some? <==> p.last || !p.first) && (v.back.Some? ==> v.back.value == LastPage(p))
      && (v.forward.Some? <==> p.first || !p.last) && (v.forward.Some? ==> v.forward.value == NextPage(p))
      && (v.counter.Some? <==> p.previousUrl != "" || p.nextUrl != "")
  {
  }

  /** The only page of a one-page listing still gets both arrows, and they
      lead to pages 0 and 2, neither of which exists. */
  lemma SinglePageShowsBothArrows()
    ensures var ctx := PostsTemplate.PageContext([], 1, true, true, 1, []);
      && PostsTemplate.Consistent(ctx)
      && RenderAsWritten(PropsOf(ctx)).back == Some("/page/0")
      && RenderAsWritten(PropsOf(ctx)).forward == Some("/page/2")
  {
    assert DigitChar(0) == '0' && DigitChar(2) == '2';
    assert PostsTemplate.PreviousUrl(1) == "0";
    assert PostsTemplate.NextUrl(1) == "2";
    var ctx := PostsTemplate.PageContext([], 1, true, true, 1, []);
    assert LastPage(PropsOf(ctx)) == "/" + "page" + "/" + "0" == "/page/0";
    assert NextPage(PropsOf(ctx)) == "/" + "page" + "/" + "2" == "/page/2";
  }

  /** With the guard, on a consistent listing the footer only ever leads to
      pages that exist: `<` from page 2 on, to the page before, and `>` up to
      the page before last, to the page after; both match the full bar's
      numbered links. */
  lemma ArrowsStayInside(ctx: PostsTemplate.PageContext)
    requires PostsTemplate.Consistent(ctx)
    ensures Render(PropsOf(ctx)).Some? <==> ctx.pageCount != 1
    ensures Render(PropsOf(ctx)).Some? ==>
      var v := Render(PropsOf(ctx)).value;
      && (v.back.Some? <==> ctx.index >= 2)
      && (v.back.Some? ==> v.back.value == Pagination.PageTarget(PostsTemplate.SitePath, ctx.index - 1))
      && (v.forward.Some? <==> ctx.index < ctx.pageCount)
      && (v.forward.Some? ==> v.forward.value == Pagination.PageTarget(PostsTemplate.SitePath, ctx.index + 1))
  {
    PostsTemplate.NeighbourTargets(ctx);
    var full := PostsTemplate.PaginationProps(ctx);
    assert LastPage(PropsOf(ctx)) == Pagination.LastPage(full);
    assert NextPage(PropsOf(ctx)) == Pagination.NextPage(full);
  }
}
