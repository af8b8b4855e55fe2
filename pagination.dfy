/** The pagination bar under a listing page: Prev and Next links, a
    "k of n" counter and one link per page, the current one highlighted. */
module Pagination {
  import opened JsText

  /** The bar's props; the URL parts are strings, where `""` is falsy. */
  datatype Props = Props(
    previousUrl: string, nextUrl: string, first: bool, index: int, last: bool,
    pageCount: int, sitePath: string)

  /** One numbered link. */
  datatype PageLink = PageLink(target: string, number: int, highlighted: bool)

  /** The counter and page links, shown together. */
  datatype Middle = Middle(index: int, pageCount: int, links: seq<PageLink>)

  /** What the bar shows: each part absent when its condition fails. */
  datatype View = View(prev: Option<string>, middle: Option<Middle>, next: Option<string>)

  /** Where page `n` of a listing lives: the listing's own path for the first
      page, `page/n` under it for the others. */
  function PageTarget(sitePath: string, n: int): string {
    if n == 1 then "/" + sitePath else "/" + sitePath + "page/" + IntToString(n)
  }

  /** `nextPage`. */
  function NextPage(p: Props): string {
    "/" + p.sitePath + "page" + "/" + p.nextUrl
  }

  /** `lastPage`, the Prev target. */
  function LastPage(p: Props): string {
    if p.index == 2 then "/" + p.sitePath else "/" + p.sitePath + "page" + "/" + p.previousUrl
  }

  function PageLinks(p: Props): seq<PageLink> {
    var pages := Range(p.pageCount);
    seq(|pages|, i requires 0 <= i < |pages| => PageLink(PageTarget(p.sitePath, pages[i]), pages[i], p.index == pages[i]))
  }

  /** The rendered bar; nothing at all for a single page. */
  function Render(p: Props): Option<View> {
    if p.pageCount == 1 then None
    else Some(View(
      if p.last || !p.first then Some(LastPage(p)) else None,
      if p.previousUrl != "" || p.nextUrl != "" then Some(Middle(p.index, p.pageCount, PageLinks(p))) else None,
      if p.first || !p.last then Some(NextPage(p)) else None))
  }

  /** A single page renders nothing; otherwise Prev is shown exactly when
      `last || !first` and leads to `lastPage`, Next exactly when
      `first || !last` and leads to `nextPage`, and the counter and links
      exactly when one of the two URLs is truthy. These are the guards of
      the markup itself; what the links mean is stated by PageTargetInjective,
      PageLinksSpec and PostsTemplate.ArrowsStayInside. */
  lemma RenderVisibility(p: Props)
    ensures Render(p).None? <==> p.pageCount == 1
    ensures Render(p).Some? ==>
      var v := Render(p).value;
      && (v.prev.Some? <==> p.last || !p.first)
      && (v.prev.Some? ==> v.prev.value == LastPage(p))
      && (v.next.Some? <==> p.first || !p.last)
      && (v.next.Some? ==> v.next.value == NextPage(p))
      && (v.middle.Some? <==> p.previousUrl != "" || p.nextUrl != "")
  {
  }

  /** Different page numbers lead to different places. */
  lemma PageTargetInjective(sitePath: string, a: int, b: int)
    ensures PageTarget(sitePath, a) == PageTarget(sitePath, b) <==> a == b
  {
    var prefix := "/" + sitePath + "page/";
    if a != 1 && b != 1 && PageTarget(sitePath, a) == PageTarget(sitePath, b) {
      assert PageTarget(sitePath, a)[|prefix|..] == IntToString(a);
      assert PageTarget(sitePath, b)[|prefix|..] == IntToString(b);
      IntToStringInjective(a, b);
    }
    if a == 1 && b != 1 {
      assert |PageTarget(sitePath, a)| < |PageTarget(sitePath, b)|;
    }
    if a != 1 && b == 1 {
      assert |PageTarget(sitePath, a)| > |PageTarget(sitePath, b)|;
    }
  }

  /** There is one link per page, numbered 1 to `pageCount` in ascending
      order, each leading to its page and no two to the same place; the
      link of page `index`, and only that one, is highlighted. */
  lemma PageLinksSpec(p: Props)
    ensures |PageLinks(p)| == if p.pageCount < 0 then 0 else p.pageCount
    ensures forall i :: 0 <= i < |PageLinks(p)| ==>
      PageLinks(p)[i].number == i + 1 && PageLinks(p)[i].target == PageTarget(p.sitePath, i + 1)
      && (PageLinks(p)[i].highlighted <==> p.index == i + 1)
    ensures forall i, j :: 0 <= i < j < |PageLinks(p)| ==> PageLinks(p)[i].target != PageLinks(p)[j].target
  {
    var links := PageLinks(p);
    forall i, j | 0 <= i < j < |links| ensures links[i].target != links[j].target {
      PageTargetInjective(p.sitePath, i + 1, j + 1);
    }
  }
}
