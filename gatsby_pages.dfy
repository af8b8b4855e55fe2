/** Page creation (`createPages`): one detail page per blog post and per
    notebook, each linked to its neighbours in the date-sorted list, and one
    listing page for each of the two sections. The two GraphQL queries run
    outside the model; their results are the inputs. */
module GatsbyPages {
  import opened JsText
  import GatsbyNode

  const ImageMaxWidth: int := 1380

  /** What each query returns per node, already sorted by date and title, descending. */
  datatype Entry = Entry(id: string, slug: string)

  datatype QueryResult = QueryResult(errors: Option<string>, nodes: seq<Entry>)

  datatype Template = PostTemplate | PostsTemplate | NotebookTemplate | NotebooksTemplate

  datatype Context =
    | Detail(id: string, previousId: Option<string>, nextId: Option<string>, maxWidth: Option<int>)
    | Listing

  datatype Page = Page(path: string, component: Template, context: Context)

  /** `reporter.panic` ends the build; the pages created before it are kept
      for the record. */
  datatype Build = Panicked(errors: string, created: seq<Page>) | Built(pages: seq<Page>)

  /** The entry after `i` in the list (the older one), absent for the last entry. */
  function PreviousId(entries: seq<Entry>, i: nat): Option<string>
    requires i < |entries|
  {
    if i == |entries| - 1 then None else Some(entries[i + 1].id)
  }

  /** The entry before `i` in the list (the newer one), absent for the first entry. */
  function NextId(entries: seq<Entry>, i: nat): Option<string>
    requires i < |entries|
  {
    if i == 0 then None else Some(entries[i - 1].id)
  }

  function DetailPage(entries: seq<Entry>, i: nat, template: Template, maxWidth: Option<int>): Page
    requires i < |entries|
  {
    Page(entries[i].slug, template,
         Detail(entries[i].id, PreviousId(entries, i), NextId(entries, i), maxWidth))
  }

  /** The `forEach` over a section's nodes: one `createPage` per entry, in order. */
  method CreateDetailPages(entries: seq<Entry>, template: Template, maxWidth: Option<int>)
    returns (pages: seq<Page>)
    ensures |pages| == |entries|
    ensures forall i :: 0 <= i < |entries| ==> pages[i] == DetailPage(entries, i, template, maxWidth)
  {
    pages := [];
    for index := 0 to |entries|
      invariant |pages| == index
      invariant forall i :: 0 <= i < index ==> pages[i] == DetailPage(entries, i, template, maxWidth)
    {
      var previous := if index == |entries| - 1 then None else Some(entries[index + 1].id);
      var next := if index == 0 then None else Some(entries[index - 1].id);
      pages := pages + [Page(entries[index].slug, template, Detail(entries[index].id, previous, next, maxWidth))];
    }
  }

  /** Every page's neighbour ids point at distinct, adjacent entries: the
      first page has no next, the last no previous, and when the ids are
      distinct, entry `i` names `j` as its previous exactly when `j` names `i`
      as its next. */
  lemma NeighboursMutual(entries: seq<Entry>, i: nat, j: nat)
    requires i < |entries| && j < |entries|
    requires forall a, b :: 0 <= a < b < |entries| ==> entries[a].id != entries[b].id
    ensures NextId(entries, 0) == None && PreviousId(entries, |entries| - 1) == None
    ensures PreviousId(entries, i) == Some(entries[j].id) <==> j == i + 1
    ensures NextId(entries, j) == Some(entries[i].id) <==> i + 1 == j
  {
  }

  /** `createPages`: the posts query, its detail pages and the posts listing
      page at the base path, then the same for notebooks. A query that reports
      errors panics. */
  method CreatePages(blog: QueryResult, notebooks: QueryResult) returns (out: Build)
    ensures blog.errors.Some? ==> out == Panicked(blog.errors.value, [])
    ensures blog.errors.None? && notebooks.errors.Some? ==>
      var posts, n := blog.nodes, |blog.nodes|;
      && out.Panicked? && out.errors == notebooks.errors.value && |out.created| == n + 1
      && (forall i :: 0 <= i < n ==> out.created[i] == DetailPage(posts, i, PostTemplate, Some(ImageMaxWidth)))
      && out.created[n] == Page(GatsbyNode.BasePath, PostsTemplate, Listing)
    ensures out.Built? ==> blog.errors.None? && notebooks.errors.None?
    ensures blog.errors.None? && notebooks.errors.None? ==>
      var posts, books := blog.nodes, notebooks.nodes;
      var n, m := |posts|, |notebooks.nodes|;
      && out.Built? && |out.pages| == n + 1 + m + 1
      && (forall i :: 0 <= i < n ==> out.pages[i] == DetailPage(posts, i, PostTemplate, Some(ImageMaxWidth)))
      && out.pages[n] == Page(GatsbyNode.BasePath, PostsTemplate, Listing)
      && (forall i :: 0 <= i < m ==> out.pages[n + 1 + i] == DetailPage(books, i, NotebookTemplate, None))
      && out.pages[n + 1 + m] == Page(GatsbyNode.BaseNotebooksPath, NotebooksTemplate, Listing)
  {
    if blog.errors.Some? {
      return Panicked(blog.errors.value, []);
    }
    var created := CreateDetailPages(blog.nodes, PostTemplate, Some(ImageMaxWidth));
    created := created + [Page(GatsbyNode.BasePath, PostsTemplate, Listing)];
    if notebooks.errors.Some? {
      return Panicked(notebooks.errors.value, created);
    }
    var notebookPages := CreateDetailPages(notebooks.nodes, NotebookTemplate, None);
    created := created + notebookPages + [Page(GatsbyNode.BaseNotebooksPath, NotebooksTemplate, Listing)];
    return Built(created);
  }
}
