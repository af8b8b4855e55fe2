/** The node-level build hooks of the blog: how an Mdx source node becomes a
    derived blog-post or notebook node (slug choice, trailing-slash
    normalisation, defaults for missing frontmatter fields, the derived node's
    identity), and how the `image` / `socialImage` fields of a derived post are
    resolved to file nodes.

    The framework's helpers are not modelled; they enter as parameters:
    `urlResolve` and `createFilePath` (gatsby-core-utils,
    gatsby-source-filesystem), `createNodeId`, `slash(path.join(..))`, and the
    outcome of downloading a remote image. */
module GatsbyNode {
  import opened JsText

  // Site options (gatsby-meta-config.js)
  const ContentPath: string := "content/posts"
  const NotebookPath: string := "content/notebooks"
  const BasePath: string := "/"
  const BaseNotebooksPath: string := "/notebooks"

  // ---------------------------------------------------------------------------
  // Trailing-slash normalisation: `slug.replace(/\/*$/, '/')`

  /** `n` slashes. */
  function Slashes(n: nat): (r: string)
    ensures |r| == n && forall k :: 0 <= k < n ==> r[k] == '/'
  {
    seq(n, _ => '/')
  }

  /** Where the run of slashes that ends `s[..j]` begins. */
  function SlashRunStart(s: string, j: nat): (k: nat)
    requires j <= |s|
    ensures k <= j
    ensures forall m :: k <= m < j ==> s[m] == '/'
    ensures 0 < k ==> s[k - 1] != '/'
    decreases j
  {
    if 0 < j && s[j - 1] == '/' then SlashRunStart(s, j - 1) else j
  }

  /** The pattern "any number of slashes, then the end", replaced without the
      global flag, matches at the leftmost position from which only slashes
      follow, that is at the start of the trailing run of slashes; that run
      becomes a single slash. */
  function NormalizeTrailingSlash(s: string): string {
    s[..SlashRunStart(s, |s|)] + "/"
  }

  /** The normalised slug ends in a slash and not in two. */
  lemma NormalizeShape(s: string)
    ensures var r := NormalizeTrailingSlash(s);
      |r| >= 1 && r[|r| - 1] == '/' && (|r| >= 2 ==> r[|r| - 2] != '/')
  {
  }

  /** Whatever precedes the trailing slashes is kept unchanged, and the
      trailing run, of any length including none, becomes one slash. */
  lemma NormalizeKeepsStem(stem: string, n: nat)
    requires stem == [] || stem[|stem| - 1] != '/'
    ensures NormalizeTrailingSlash(stem + Slashes(n)) == stem + "/"
  {
    var s := stem + Slashes(n);
    var k := SlashRunStart(s, |s|);
    assert stem != [] ==> s[|stem| - 1] == stem[|stem| - 1];
    assert forall m :: |stem| <= m < |s| ==> s[m] == '/';
    assert k == |stem|;
    assert s[..k] == stem;
  }

  /** Normalising twice is normalising once. */
  lemma NormalizeIdempotent(s: string)
    ensures NormalizeTrailingSlash(NormalizeTrailingSlash(s)) == NormalizeTrailingSlash(s)
  {
    var stem := s[..SlashRunStart(s, |s|)];
    assert stem + Slashes(1) == NormalizeTrailingSlash(s);
    NormalizeKeepsStem(stem, 1);
  }

  /** The empty slug and a slug of slashes only both become the root. */
  lemma NormalizeRoot(n: nat)
    ensures NormalizeTrailingSlash(Slashes(n)) == "/"
  {
    NormalizeKeepsStem([], n);
    assert [] + Slashes(n) == Slashes(n);
  }

  // ---------------------------------------------------------------------------
  // Slug choice

  /** `path.isAbsolute` on POSIX. */
  predicate IsAbsolutePath(p: string) {
    |p| > 0 && p[0] == '/'
  }

  /** The slug before normalisation: an absolute frontmatter slug verbatim, a
      relative one resolved under `base`, and without one the file's path
      (what `createFilePath` gives for the node's file) resolved under `base`. */
  function ChooseSlug(frontmatterSlug: Option<string>, base: string, filePath: string,
                      urlResolve: (string, string) -> string): string
  {
    if Truthy(frontmatterSlug) then
      if IsAbsolutePath(frontmatterSlug.value) then frontmatterSlug.value
      else urlResolve(base, frontmatterSlug.value)
    else urlResolve(base, filePath)
  }

  function DeriveSlug(frontmatterSlug: Option<string>, base: string, filePath: string,
                      urlResolve: (string, string) -> string): string
  {
    NormalizeTrailingSlash(ChooseSlug(frontmatterSlug, base, filePath, urlResolve))
  }

  /** Whatever the source, the slug ends in exactly one slash; an absolute
      frontmatter slug is kept up to its trailing slashes and so still begins
      with a slash; the other two sources go through `urlResolve` under the
      base path, and the file path is consulted only without a frontmatter slug. */
  lemma DeriveSlugSpec(frontmatterSlug: Option<string>, base: string, filePath: string,
                       urlResolve: (string, string) -> string)
    ensures var r := DeriveSlug(frontmatterSlug, base, filePath, urlResolve);
      && |r| >= 1 && r[|r| - 1] == '/' && (|r| >= 2 ==> r[|r| - 2] != '/')
      && (Truthy(frontmatterSlug) && IsAbsolutePath(frontmatterSlug.value) ==>
            r[0] == '/' && NormalizeTrailingSlash(frontmatterSlug.value) == r)
      && (Truthy(frontmatterSlug) && !IsAbsolutePath(frontmatterSlug.value) ==>
            r == NormalizeTrailingSlash(urlResolve(base, frontmatterSlug.value)))
      && (!Truthy(frontmatterSlug) ==> r == NormalizeTrailingSlash(urlResolve(base, filePath)))
  {
    var s := ChooseSlug(frontmatterSlug, base, filePath, urlResolve);
    NormalizeShape(s);
    if Truthy(frontmatterSlug) && IsAbsolutePath(frontmatterSlug.value) {
      var k := SlashRunStart(s, |s|);
      if k == 0 {
        assert NormalizeTrailingSlash(s) == "/";
      } else {
        assert NormalizeTrailingSlash(s)[0] == s[0];
      }
    }
  }

  // ---------------------------------------------------------------------------
  // Node materialisation (onCreateNode)

  datatype Links = Links(colab: Option<string>, github: Option<string>)

  datatype Frontmatter = Frontmatter(
    title: Option<string>,
    slug: Option<string>,
    tags: Option<seq<string>>,
    links: Option<Links>,
    photograph: Option<string>,
    readingTime: Option<string>,
    date: Option<string>,
    dateForSEO: Option<string>,
    image: Option<string>,
    socialImage: Option<string>)

  /** A node handed to onCreateNode: its id, its `internal.type`, the id of its
      parent (the file node it was read from) and its frontmatter. */
  datatype SourceNode = SourceNode(id: string, internalType: string, parent: string, frontmatter: Frontmatter)

  /** The fields the derived node carries, per derived type. */
  datatype Fields =
    | PostFields(
        title: Option<string>, tags: seq<string>, links: Links, photograph: string,
        readingTime: Option<string>, slug: string, date: Option<string>, dateForSEO: Option<string>,
        image: Option<string>, socialImage: Option<string>,
        imageNode: Option<string>, socialImageNode: Option<string>)
    | NotebookFields(
        title: Option<string>, tags: seq<string>, links: Links, dateForSEO: Option<string>,
        slug: string, date: Option<string>)

  /** A node created by onCreateNode and linked as a child of its source node. */
  datatype DerivedNode = DerivedNode(
    id: string, parent: string, children: seq<string>, typeName: string, description: string, fields: Fields)

  datatype Outcome =
    | Ignored                       // the hook returns without creating anything
    | Materialized(node: DerivedNode)
    | TypeError                     // reading a property of `undefined` throws

  const PostTypeName: string := "MdxBlogPost"
  const NotebookTypeName: string := "MdxNotebook"

  /** The text handed to `createNodeId` for the node derived from `nodeId`. */
  function NodeIdSeed(nodeId: string, typeName: string): string {
    nodeId + " >>> " + typeName
  }

  /** Different source nodes, or different derived types, never hand the same
      text to `createNodeId`. */
  lemma NodeIdSeedInjective(a: string, ta: string, b: string, tb: string)
    requires ta in {PostTypeName, NotebookTypeName} && tb in {PostTypeName, NotebookTypeName}
    ensures NodeIdSeed(a, ta) == NodeIdSeed(b, tb) <==> a == b && ta == tb
  {
    var sa, sb := NodeIdSeed(a, ta), NodeIdSeed(b, tb);
    assert sa[|sa| - 1] == ta[|ta| - 1] && sb[|sb| - 1] == tb[|tb| - 1];
    assert a == sa[..|a|] && b == sb[..|b|];
  }

  const NoLinks: Links := Links(None, None)

  /** `tags || []` and `links || {}`: an array or object is truthy even when empty. */
  function TagsOrEmpty(tags: Option<seq<string>>): seq<string> {
    if tags.Some? then tags.value else []
  }

  function LinksOrEmpty(links: Option<Links>): Links {
    if links.Some? then links.value else NoLinks
  }

  /** The blog-post branch of onCreateNode (a node read from the posts
      directory). `fieldData` is built first and then receives the ids of any
      downloaded image files. */
  method MaterializePost(node: SourceNode, createFilePath: string -> string,
                         urlResolve: (string, string) -> string,
                         createNodeId: string -> string, remoteFile: string -> Option<string>)
    returns (d: DerivedNode)
    ensures d.parent == node.id && d.children == [] && d.typeName == PostTypeName
    ensures d.id == createNodeId(NodeIdSeed(node.id, PostTypeName))
    ensures var fm := node.frontmatter;
      d.fields == PostFields(
        fm.title, TagsOrEmpty(fm.tags), LinksOrEmpty(fm.links), OrElse(fm.photograph, ""),
        fm.readingTime, DeriveSlug(fm.slug, BasePath, createFilePath(ContentPath), urlResolve),
        fm.date, fm.dateForSEO, fm.image, fm.socialImage,
        if fm.image.Some? then remoteFile(fm.image.value) else None,
        if fm.socialImage.Some? then remoteFile(fm.socialImage.value) else None)
  {
    var fm := node.frontmatter;
    var slug := DeriveSlug(fm.slug, BasePath, createFilePath(ContentPath), urlResolve);
    var fieldData := PostFields(
      fm.title, TagsOrEmpty(fm.tags), LinksOrEmpty(fm.links), OrElse(fm.photograph, ""),
      fm.readingTime, slug, fm.date, fm.dateForSEO, fm.image, fm.socialImage, None, None);
    if fm.image.Some? {
      var remote := remoteFile(fm.image.value);
      if remote.Some? {
        fieldData := fieldData.(imageNode := remote);
      }
    }
    if fm.socialImage.Some? {
      var remote := remoteFile(fm.socialImage.value);
      if remote.Some? {
        fieldData := fieldData.(socialImageNode := remote);
      }
    }
    var id := createNodeId(NodeIdSeed(node.id, PostTypeName));
    d := DerivedNode(id, node.id, [], PostTypeName, "Mdx implementation of the BlogPost interface", fieldData);
  }

  /** The notebook branch of onCreateNode (a node read from the notebooks directory). */
  method MaterializeNotebook(node: SourceNode, createFilePath: string -> string,
                             urlResolve: (string, string) -> string, createNodeId: string -> string)
    returns (d: DerivedNode)
    ensures d.parent == node.id && d.children == [] && d.typeName == NotebookTypeName
    ensures d.id == createNodeId(NodeIdSeed(node.id, NotebookTypeName))
    ensures var fm := node.frontmatter;
      d.fields == NotebookFields(
        fm.title, TagsOrEmpty(fm.tags), LinksOrEmpty(fm.links), fm.dateForSEO,
        DeriveSlug(fm.slug, BaseNotebooksPath, createFilePath(NotebookPath), urlResolve), fm.date)
  {
    var fm := node.frontmatter;
    var slug := DeriveSlug(fm.slug, BaseNotebooksPath, createFilePath(NotebookPath), urlResolve);
    var fieldData := NotebookFields(fm.title, TagsOrEmpty(fm.tags), LinksOrEmpty(fm.links), fm.dateForSEO, slug, fm.date);
    var id := createNodeId(NodeIdSeed(node.id, NotebookTypeName));
    d := DerivedNode(id, node.id, [], NotebookTypeName, "Mdx implementation of the Notebook interface", fieldData);
  }

  /** `onCreateNode`. `parentFile` is `getNode(node.parent).sourceInstanceName`
      (None when there is no such node); `createFilePath(root)` is the path
      that gatsby-source-filesystem computes for the node's file under `root`;
      `remoteFile(url)` is the id of the file node that downloading `url`
      created, or None when `url` is not a valid URL or nothing was created. */
  method OnCreateNode(node: SourceNode, parentFile: Option<string>,
                      createFilePath: string -> string, urlResolve: (string, string) -> string,
                      createNodeId: string -> string, remoteFile: string -> Option<string>)
    returns (out: Outcome)
    ensures node.internalType != "Mdx" ==> out == Ignored
    ensures node.internalType == "Mdx" && parentFile == None ==> out == TypeError
    ensures (node.internalType == "Mdx" && parentFile.Some?
             && parentFile.value != ContentPath && parentFile.value != NotebookPath) ==> out == Ignored
    ensures out.Materialized? ==>
      var fm, d := node.frontmatter, out.node;
      && d.parent == node.id && d.children == []
      && d.fields.tags == TagsOrEmpty(fm.tags) && d.fields.links == LinksOrEmpty(fm.links)
      && d.fields.title == fm.title && d.fields.date == fm.date && d.fields.dateForSEO == fm.dateForSEO
    ensures node.internalType == "Mdx" && parentFile == Some(ContentPath) ==>
      var fm := node.frontmatter;
      && out.Materialized? && out.node.typeName == PostTypeName && out.node.fields.PostFields?
      && out.node.id == createNodeId(NodeIdSeed(node.id, PostTypeName))
      && out.node.fields == PostFields(
           fm.title, TagsOrEmpty(fm.tags), LinksOrEmpty(fm.links), OrElse(fm.photograph, ""),
           fm.readingTime, DeriveSlug(fm.slug, BasePath, createFilePath(ContentPath), urlResolve),
           fm.date, fm.dateForSEO, fm.image, fm.socialImage,
           if fm.image.Some? then remoteFile(fm.image.value) else None,
           if fm.socialImage.Some? then remoteFile(fm.socialImage.value) else None)
    ensures node.internalType == "Mdx" && parentFile == Some(NotebookPath) ==>
      var fm := node.frontmatter;
      && out.Materialized? && out.node.typeName == NotebookTypeName && out.node.fields.NotebookFields?
      && out.node.id == createNodeId(NodeIdSeed(node.id, NotebookTypeName))
      && out.node.fields == NotebookFields(
           fm.title, TagsOrEmpty(fm.tags), LinksOrEmpty(fm.links), fm.dateForSEO,
           DeriveSlug(fm.slug, BaseNotebooksPath, createFilePath(NotebookPath), urlResolve), fm.date)
  {
    if node.internalType != "Mdx" {
      return Ignored;
    }
    if parentFile == None {
      return TypeError;
    }
    var source := parentFile.value;
    out := Ignored;
    if source == ContentPath {
      var d := MaterializePost(node, createFilePath, urlResolve, createNodeId, remoteFile);
      out := Materialized(d);
    }
    if source == NotebookPath {
      var d := MaterializeNotebook(node, createFilePath, urlResolve, createNodeId);
      out := Materialized(d);
    }
  }

  // ---------------------------------------------------------------------------
  // Image resolution (processRelativeImage and the image / socialImage resolvers)

  datatype FileNode = FileNode(id: string, dir: string, absolutePath: string)

  /** The file a relative image path names: the first file node whose absolute
      path is `imagePath`, if any. */
  function FirstFileAt(files: seq<FileNode>, imagePath: string): (r: Option<FileNode>)
    ensures r.None? <==> forall k :: 0 <= k < |files| ==> files[k].absolutePath != imagePath
    ensures r.Some? ==> r.value.absolutePath == imagePath
    ensures r.Some? ==> exists k :: (0 <= k < |files| && files[k] == r.value
      && forall m :: 0 <= m < k ==> files[m].absolutePath != imagePath)
  {
    if files == [] then None
    else if files[0].absolutePath == imagePath then Some(files[0])
    else
      var r := FirstFileAt(files[1..], imagePath);
      FirstFileAtShift(files, imagePath, r);
      r
  }

  lemma FirstFileAtShift(files: seq<FileNode>, imagePath: string, r: Option<FileNode>)
    requires files != [] && files[0].absolutePath != imagePath
    requires r.Some? ==> exists k :: (0 <= k < |files| - 1 && files[1..][k] == r.value
      && forall m :: 0 <= m < k ==> files[1..][m].absolutePath != imagePath)
    ensures r.Some? ==> exists k :: (0 <= k < |files| && files[k] == r.value
      && forall m :: 0 <= m < k ==> files[m].absolutePath != imagePath)
  {
    if r.Some? {
      var k :| 0 <= k < |files| - 1 && files[1..][k] == r.value
        && forall m :: 0 <= m < k ==> files[1..][m].absolutePath != imagePath;
      assert files[k + 1] == r.value;
      forall m | 0 <= m < k + 1 ensures files[m].absolutePath != imagePath {
        if m > 0 { assert files[m] == files[1..][m - 1]; }
      }
    }
  }

  /** `processRelativeImage`: `ancestor` is the File node that
      `findRootNodeAncestor` returns for the derived node, `relative` the
      field's value, `files` every File node in store order, and
      `joinPath(dir, rel)` stands for `slash(path.join(dir, rel))`. */
  method ProcessRelativeImage(ancestor: Option<FileNode>, relative: string, files: seq<FileNode>,
                              joinPath: (string, string) -> string)
    returns (r: Option<FileNode>)
    ensures ancestor.None? ==> r.None?
    ensures ancestor.Some? ==> r == FirstFileAt(files, joinPath(ancestor.value.dir, relative))
  {
    if ancestor.None? {
      return None;
    }
    var imagePath := joinPath(ancestor.value.dir, relative);
    for i := 0 to |files|
      invariant FirstFileAt(files, imagePath) == FirstFileAt(files[i..], imagePath)
    {
      if files[i].absolutePath == imagePath {
        return Some(files[i]);
      }
      assert files[i..][1..] == files[i + 1..];
    }
    return None;
  }

  datatype ImageField = Image | SocialImage

  /** The `image` or `socialImage` resolver of MdxBlogPost. A downloaded file
      node (`image___NODE`) wins and is looked up by id in `nodesById`;
      otherwise a non-empty relative path is resolved with
      ProcessRelativeImage; otherwise the field resolves to nothing. */
  method ResolveImage(fields: Fields, which: ImageField, nodesById: map<string, FileNode>,
                      ancestor: Option<FileNode>, files: seq<FileNode>,
                      joinPath: (string, string) -> string)
    returns (r: Option<FileNode>)
    requires fields.PostFields?
    ensures var nodeRef := if which == Image then fields.imageNode else fields.socialImageNode;
      var rel := if which == Image then fields.image else fields.socialImage;
      && (Truthy(nodeRef) ==> r == (if nodeRef.value in nodesById then Some(nodesById[nodeRef.value]) else None))
      && (!Truthy(nodeRef) && Truthy(rel) ==>
            r == if ancestor.Some? then FirstFileAt(files, joinPath(ancestor.value.dir, rel.value)) else None)
      && (!Truthy(nodeRef) && !Truthy(rel) ==> r == None)
  {
    var nodeRef := if which == Image then fields.imageNode else fields.socialImageNode;
    var rel := if which == Image then fields.image else fields.socialImage;
    if Truthy(nodeRef) {
      r := if nodeRef.value in nodesById then Some(nodesById[nodeRef.value]) else None;
    } else if Truthy(rel) {
      r := ProcessRelativeImage(ancestor, rel.value, files, joinPath);
    } else {
      r := None;
    }
  }
}
