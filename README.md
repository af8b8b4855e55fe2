# A model of a Gatsby blog's build hooks and page components

This project models, in Dafny, the core of a Gatsby blog and notebook site:

- **Node derivation** (`GatsbyNode`, gatsby-node.js `onCreateNode`). Each MDX file read from the posts or notebooks directory becomes a derived `MdxBlogPost` or `MdxNotebook` node. The node gets a slug. That slug is the frontmatter slug when it is absolute, which is used as given; otherwise the relative frontmatter slug or the file path, resolved under the base path. Its trailing slashes are then normalised to exactly one.
- **Image resolution** (`GatsbyNode`). This covers `processRelativeImage` and the `image`/`socialImage` resolvers. A downloaded file node wins. Otherwise a relative path is looked up among the File nodes.
- **Page creation** (`GatsbyPages`, gatsby-node.js `createPages`). Each post and each notebook gets a detail page linked to its neighbours, and each section gets a listing page. A query error panics.
- **The SEO head** (`Seo`, SEO.tsx). This covers:
  - the `slugify` canonicaliser;
  - `fullURL`;
  - the list of meta tags, built by pushing entries in the component's order.
- **The article SEO** (`SeoPost`, SEO.Post.tsx). This covers the JSON-LD microdata, with the excerpt's quote escaping, and the props handed to the SEO component.
- **The two pagination bars.** The full bar (`Pagination`) has Prev/Next links, a counter and numbered links. The footer bar (`FooterPagination`) has `<`, a counter and `>`.
- **The listing template** (`PostsTemplate`, Posts.tsx). This covers:
  - the neighbour URLs;
  - the highlighted first post and the other links;
  - the header on the first page;
  - the SEO props.
- **Fenced code blocks** (`CodeBlock`, Code.Block.tsx). This covers:
  - `preToCodeBlock`, with its language match and trimmed code;
  - the Copy button as a class with a `hasCopied` flag, pending reset timers and a clipboard log.

`JsText` holds the JavaScript text semantics these rely on:

- truthiness of `undefined` and `""`;
- `toString` on integers, with `ParseInt`, a strict reader of exactly what `toString` writes: digits without a leading zero, optionally after a minus sign before a non-zero number. Unlike JavaScript's `parseInt` it refuses ` 5`, `5a`, `007` and `-0`. It is used only to state what the URLs mean;
- `Array.from({length: n}, (_, i) => i + 1)`;
- `String.prototype.trim` with its whitespace set;
- line terminators.

Functions from Gatsby and its plugins are parameters of the operations that use them:

- `createNodeId`, `createFilePath`, `urlResolve`, `path.join` and `slash`;
- `getNode`, whose result reaches the model only as the parent's `sourceInstanceName`;
- the remote download.

GraphQL query results, the site metadata and the listing page context are inputs.

The slug's trailing-slash normalisation (`slug.replace(/\/*$/, '/')`) replaces the whole run of trailing slashes with one slash. So `a//` becomes `a/`, `a` becomes `a/`, and the root `/` stays `/`.

## Model

| member | source | states |
|---|---|---|
| JsText.IntToString | src/templates/Posts.tsx:23-24 | `toString` of an integer: non-empty, and starting with a minus sign exactly for a negative number; IntToStringRoundTrip gives its meaning |
| JsText.IntToStringRoundTrip | src/templates/Posts.tsx:23-24 | reading back the decimal text that `toString` gives for any integer, negative ones included, yields that integer |
| JsText.ParseIntOnlyPrinted | src/templates/Posts.tsx:23-24 | the converse: any text the reader accepts is exactly the `toString` text of the value read, so the reader and `toString` are inverse bijections between integers and their canonical texts |
| JsText.IntToStringInjective | src/components/default/Pagination/Pagination.tsx:30 | two integers have the same decimal text only if they are equal |
| JsText.Trim | src/components/default/Code/Code.Block.tsx:12 | the result is the input with a leading and a trailing whitespace run cut off, and neither end of the result is whitespace |
| JsText.TrimUnique | src/components/default/Code/Code.Block.tsx:12 | any cut with only whitespace outside it and non-whitespace at both ends is the trimmed text, so trimming is determined |
| JsText.TrimIdempotent | src/components/default/Code/Code.Block.tsx:12 | trimming trimmed text changes nothing |
| GatsbyNode.NormalizeTrailingSlash | gatsby-node.js:262 | the non-global replacement of the trailing slash run by one slash; its contract is NormalizeShape, NormalizeKeepsStem and NormalizeIdempotent |
| GatsbyNode.NormalizeShape | gatsby-node.js:262 | after normalisation the slug ends in exactly one slash |
| GatsbyNode.NormalizeKeepsStem | gatsby-node.js:262 | a slug that is a stem not ending in `/` followed by any number of slashes normalises to the stem plus one slash |
| GatsbyNode.NormalizeIdempotent | gatsby-node.js:262 | normalising twice is normalising once |
| GatsbyNode.NormalizeRoot | gatsby-node.js:262 | a path of slashes only, or the empty path, normalises to `/` |
| GatsbyNode.DeriveSlug | gatsby-node.js:242-262 | the slug choice followed by normalisation; its contract is DeriveSlugSpec |
| GatsbyNode.DeriveSlugSpec | gatsby-node.js:242-262 | the slug ends in exactly one slash; an absolute frontmatter slug is kept up to its trailing slashes and still starts with `/`; a relative one is resolved under the base path; the file path is used only when the frontmatter slug is falsy |
| GatsbyNode.NodeIdSeedInjective | gatsby-node.js:309 | the text handed to `createNodeId` differs for different source nodes or derived types, so derived ids cannot collide through their seed |
| GatsbyNode.MaterializePost | gatsby-node.js:241-323 | the post node's id, parent, type and every field, with the defaults `[]`, `{}` and `''`, and the downloaded image ids present exactly when a download produced a node |
| GatsbyNode.MaterializeNotebook | gatsby-node.js:326-373 | the notebook node's id, parent, type and fields, with the slug resolved under the notebooks base path |
| GatsbyNode.OnCreateNode | gatsby-node.js:229-374 | non-MDX nodes are ignored; a missing parent file throws; MDX files from another source are ignored; posts and notebooks are materialised with the shared fields copied and their own slug and id |
| GatsbyNode.FirstFileAt | gatsby-node.js:210-215 | nothing is found exactly when no File node has the image's absolute path; otherwise the earliest node with that path is found |
| GatsbyNode.ProcessRelativeImage | gatsby-node.js:199-216 | without a File ancestor nothing is found; otherwise the loop returns the first File node whose path is the ancestor's directory joined with the relative path |
| GatsbyNode.ResolveImage | gatsby-node.js:104-128 | a downloaded node reference wins and is looked up by id; otherwise a truthy relative path is resolved relative to the post's file; otherwise nothing |
| GatsbyPages.CreateDetailPages | gatsby-node.js:406-420 | one page per entry in order, at the entry's slug, with previous the next-older entry and next the next-newer entry, each absent at the ends |
| GatsbyPages.NeighboursMutual | gatsby-node.js:407-408 | with distinct ids, entry `i` names `j` as previous exactly when `j` is `i + 1`, and `j` names `i` as next exactly then; the ends have no neighbour |
| GatsbyPages.CreatePages | gatsby-node.js:383-469 | a failing posts query panics before any page; a failing notebooks query panics after the post pages; otherwise the post pages with `maxWidth` 1380, the posts listing, the notebook pages and the notebooks listing, in that order |
| Seo.LowerCase | src/components/default/SEO/SEO.tsx:17 | same length, each ASCII capital lower-cased and every other character kept |
| Seo.StripMarks | src/components/default/SEO/SEO.tsx:19 | no combining mark (U+0300 to U+036F) is left |
| Seo.StripMarksSlugChars | src/components/default/SEO/SEO.tsx:19 | removing the marks keeps every ASCII letter and digit in order |
| Seo.ReplaceRuns | src/components/default/SEO/SEO.tsx:20 | only letters, digits and single dashes remain, and the letters and digits are exactly those of the input in order |
| Seo.TrimDashesCanonical | src/components/default/SEO/SEO.tsx:21 | dropping one leading and one trailing dash leaves a canonical slug: no dash at either end, no double dash, the same letters and digits |
| Seo.ReplaceRunsCanonical | src/components/default/SEO/SEO.tsx:20 | a text already in slug form passes through the run replacement unchanged |
| Seo.SquashSlashesNoop | src/components/default/SEO/SEO.tsx:23 | a text without a double slash is left unchanged by the slash squashing |
| Seo.StripMarksAppend | src/components/default/SEO/SEO.tsx:19 | mark removal works character by character: it distributes over concatenation, drops a single mark and keeps any other single character |
| Seo.ReplaceRunsWord | src/components/default/SEO/SEO.tsx:20 | a word of letters and digits passes through unchanged, and what follows is replaced as outside a run |
| Seo.ReplaceRunsKeepsWord | src/components/default/SEO/SEO.tsx:20 | a text of letters and digits alone is left unchanged |
| Seo.ReplaceRunsSeparator | src/components/default/SEO/SEO.tsx:20 | a whole run of other characters becomes exactly one dash, or nothing when a run has already begun |
| Seo.ReplaceRunsJoin | src/components/default/SEO/SEO.tsx:20 | two words with any non-empty separator run between them come out joined by exactly one dash |
| Seo.Slugify | src/components/default/SEO/SEO.tsx:15-24 | `slugify` as the chain of the five steps; its contract is SlugifyShape, SlugifyJoin and SlugifyIdempotent |
| Seo.SlugifyJoin | src/components/default/SEO/SEO.tsx:15-24 | two words separated by a run of other characters (no capitals, no marks) slugify to `/`, the lower-cased first word, one dash and the lower-cased second word |
| Seo.SlugifyHelloWorld | src/components/default/SEO/SEO.tsx:15-24 | `Hello World` slugifies to `/hello-world` |
| Seo.SlugifyShape | src/components/default/SEO/SEO.tsx:15-24 | every slug is `/` followed by a canonical slug that keeps exactly the ASCII letters and digits of the lower-cased input |
| Seo.SlugifyFixedPoint | src/components/default/SEO/SEO.tsx:15-24 | `/` followed by a canonical slug is its own slug |
| Seo.SlugifyIdempotent | src/components/default/SEO/SEO.tsx:15-24 | slugifying a slug changes nothing |
| Seo.SlugifyRootIff | src/components/default/SEO/SEO.tsx:15-24 | a path slugifies to the root exactly when it has no ASCII letter or digit |
| Seo.SlugifyOfRoot | src/components/default/SEO/SEO.tsx:15-24 | the empty path and `/` both slugify to the root |
| Seo.FullUrl | src/components/default/SEO/SEO.tsx:62 | the URL is the site URL followed by the path when the path is truthy, the site URL alone otherwise |
| Seo.BaseTags | src/components/default/SEO/SEO.tsx:64-102 | the literal list has twenty entries |
| Seo.BuildMetaTags | src/components/default/SEO/SEO.tsx:64-121 | pushing entries in the component's order yields the specified list |
| Seo.BuildTagsForSlug | src/components/default/SEO/SEO.tsx:64-121 | for a given slug, the literal list followed by the website, article and reading-time pushes, in that order |
| Seo.PushArticleTags | src/components/default/SEO/SEO.tsx:108-116 | the article pushes, one tag per iteration of the `forEach`, append exactly the article entries |
| Seo.MetaTags | src/components/default/SEO/SEO.tsx:64-121 | the whole list for a page; its contract is MetaTagsLength, MetaTagsUrlsAndFallbacks, WebsiteTypeIff, ArticleTagsInOrder and ReadingTimeLast, and BuildMetaTags shows the pushes produce it |
| Seo.MetaTagsLength | src/components/default/SEO/SEO.tsx:64-121 | twenty entries, one more on the root page, four plus one per tag for a published page, two more with a reading time |
| Seo.BaseEntries | src/components/default/SEO/SEO.tsx:78-101 | for any slug, the canonical link, og:url, og:title and description entries with their fallbacks |
| Seo.MetaTagsUrlsAndFallbacks | src/components/default/SEO/SEO.tsx:78-101 | the canonical link is the full URL of the path; og:url is the site URL plus the path's slug; title and description fall back to the site's when falsy |
| Seo.BaseTagsNotWebsite | src/components/default/SEO/SEO.tsx:64-102 | the literal list never declares the website type |
| Seo.ArticleTagsNotWebsite | src/components/default/SEO/SEO.tsx:108-116 | the article entries never declare the website type |
| Seo.WebsiteTypeIffSlug | src/components/default/SEO/SEO.tsx:104-106 | for any slug, the website type is in the list exactly when the slug is `/` |
| Seo.WebsiteTypeIff | src/components/default/SEO/SEO.tsx:104-106 | the website type is declared exactly when the path slugifies to the root |
| Seo.ArticleTagsInOrder | src/components/default/SEO/SEO.tsx:108-116 | a published page's entries follow the base list (and website type): type article, published time, author, section equal to the first tag (`undefined` for no tags), then one entry per tag in tag order |
| Seo.ReadingTimeLast | src/components/default/SEO/SEO.tsx:118-121 | with a truthy reading time the list ends with its label and value |
| Seo.SeoHead | src/components/default/SEO/SEO.tsx:123-127 | what the component hands to Helmet; its contract is SeoHeadSpec |
| Seo.SeoHeadSpec | src/components/default/SEO/SEO.tsx:123-127 | the document title is the page title, or the site title when the page title is falsy; the language is `en`; the meta list is MetaTags, whose `twitter:title` and `og:title` entries carry that same title |
| SeoPost.EscapeQuotes | src/components/default/SEO/SEO.Post.tsx:46 | the excerpt's `replace(/"/g, '\\"')`; its contract is EscapeQuotesLength, EscapeQuotesRoundTrip, EscapeQuotesValidJson and TrailingBackslashBreaksJson |
| SeoPost.EscapeQuotesLength | src/components/default/SEO/SEO.Post.tsx:46 | escaping adds exactly one character per double quote |
| SeoPost.EscapeQuotesHead | src/components/default/SEO/SEO.Post.tsx:46 | the escaped excerpt never starts with a bare quote, which is what lets the escaping be read back |
| SeoPost.EscapeQuotesRoundTrip | src/components/default/SEO/SEO.Post.tsx:46 | removing the inserted backslashes gives back the excerpt, so escaping loses nothing |
| SeoPost.EscapeQuotesValidJson | src/components/default/SEO/SEO.Post.tsx:46 | for an excerpt without backslashes or control characters, the escaped text is a JSON string body that decodes to the excerpt |
| SeoPost.TrailingBackslashBreaksJson | src/components/default/SEO/SEO.Post.tsx:46 | the excerpt `C:\` is left as it is and is not a JSON string body |
| SeoPost.JsonEscapeRoundTrip | src/components/default/SEO/SEO.Post.tsx:46 | the full JSON escaping decodes back to any text |
| SeoPost.JsonEscapeAgrees | src/components/default/SEO/SEO.Post.tsx:46 | where quote escaping was enough, the full escaping gives the same text |
| SeoPost.DecodeEscapedChar | src/components/default/SEO/SEO.Post.tsx:46 | each character's JSON escape decodes to that character followed by the rest |
| SeoPost.ArticleJsonLdAsWritten | src/components/default/SEO/SEO.Post.tsx:31-56 | the microdata as written; its contract is JsonLdFields, HeadlineQuoteBreaksJson and TrailingBackslashBreaksJson |
| SeoPost.JsonLdFields | src/components/default/SEO/SEO.Post.tsx:31-56 | the written microdata: page id and image under the site URL, both dates `dateForSEO`, headline unescaped, description un-escapable back to the excerpt |
| SeoPost.BareQuoteBreaksJson | src/components/default/SEO/SEO.Post.tsx:38-46 | a double quote with no backslash anywhere before it makes a text between the template's quotes an invalid JSON string |
| SeoPost.HeadlineQuoteBreaksJson | src/components/default/SEO/SEO.Post.tsx:38 | every title with a double quote that no backslash precedes, such as `Say "hi"`, makes the written headline an invalid JSON string |
| SeoPost.ArticleJsonLd | src/components/default/SEO/SEO.Post.tsx:31-56 | the corrected microdata: headline and description decode back to the title and excerpt for every input; the other fields are as written |
| SeoPost.JsonLdEscapingFixed | src/components/default/SEO/SEO.Post.tsx:38-46 | the corrected headline and description decode back for every input, and the description equals the written one wherever that one was valid |
| SeoPost.ArticleSeoPropsAsWritten | src/components/default/SEO/SEO.Post.tsx:63-71 | the props as written; their contract is ReadingTimeNeverReachesMeta: the reading time is passed as `timeToRead` and reaches the SEO component as `undefined` |
| SeoPost.ArticleSeoProps | src/components/default/SEO/SEO.Post.tsx:63-71 | the corrected prop set (the source passes `timeToRead`, see Findings): title, excerpt, image, publication date, slug as path, tags and the reading time under its right name |
| SeoPost.BaseTagsNoLabel | src/components/default/SEO/SEO.tsx:64-102 | no base entry is the reading-time label |
| SeoPost.ArticleTagsNoLabel | src/components/default/SEO/SEO.tsx:108-116 | no article entry is the reading-time label |
| SeoPost.NoReadingLabelForSlug | src/components/default/SEO/SEO.tsx:118-121 | without a truthy reading time the list has no reading-time label, whatever the slug |
| SeoPost.ReadingTimeNeverReachesMeta | src/components/default/SEO/SEO.Post.tsx:67 | as written, no article page's meta tags carry the reading-time label, whatever the article's reading time |
| SeoPost.ReadingTimeReachesMeta | src/components/default/SEO/SEO.Post.tsx:67 | with the prop passed by its right name, an article with a reading time ends its meta tags with it |
| JsText.Range | src/components/default/Pagination/Pagination.tsx:4 | the numbers 1 to `len` in order, and none for a length below one; these are also the code block's line numbers `i + 1` (src/components/default/Code/Code.Block.tsx:28-30) |
| Pagination.Render | src/components/default/Pagination/Pagination.tsx:6-45 | the bar as rendered; its contract is RenderVisibility and PageLinksSpec |
| Pagination.RenderVisibility | src/components/default/Pagination/Pagination.tsx:8-42 | nothing for a single page; otherwise Prev is shown exactly when `last` or not `first` and leads to `lastPage`, Next exactly when `first` or not `last` and leads to `nextPage`, and the counter and links exactly when a URL is truthy |
| Pagination.PageTarget | src/components/default/Pagination/Pagination.tsx:30 | where page `n` lives; its contract is PageTargetInjective and, for the arrows, PostsTemplate.NeighbourTargets |
| Pagination.PageTargetInjective | src/components/default/Pagination/Pagination.tsx:30 | two page numbers lead to the same place only if they are equal |
| Pagination.PageLinksSpec | src/components/default/Pagination/Pagination.tsx:25-35 | one link per page numbered 1 to `pageCount`, each to its page, no two to the same place, and exactly the current one highlighted |
| PostsTemplate.PreviousUrl | src/templates/Posts.tsx:23 | the previous page's URL part; its contract is ListingUrlsSpec |
| PostsTemplate.NextUrl | src/templates/Posts.tsx:24 | the next page's URL part; its contract is ListingUrlsSpec |
| PostsTemplate.ListingUrlsSpec | src/templates/Posts.tsx:23-24 | the next URL reads back as `index + 1`; the previous reads back as `index - 1`, except `/` on page 2; neither is empty |
| PostsTemplate.Render | src/templates/Posts.tsx:26-54 | the listing page as rendered; its contract is RenderShowsGroup, ListingSeo and ArrowsStayInside |
| PostsTemplate.RenderShowsGroup | src/templates/Posts.tsx:26-53 | the highlight followed by the links is exactly the page's group, and the tag header appears exactly on the first page |
| PostsTemplate.ListingSeo | src/templates/Posts.tsx:29 | a listing page is declared a website, titled with the site title, described as "Blog overview", with the site URL as canonical link |
| PostsTemplate.CounterAlwaysShown | src/templates/Posts.tsx:24 | with more than one page the bar is rendered and always shows the counter and links |
| PostsTemplate.NeighbourTargets | src/components/default/Pagination/Pagination.tsx:8-10 | from a listing page, Prev leads where the numbered link of `index - 1` leads, and Next where that of `index + 1` leads |
| PostsTemplate.ArrowsStayInside | src/components/default/Pagination/Pagination.tsx:12-42 | on a consistent multi-page listing Prev is shown exactly from page 2 on and Next exactly before the last page, each to the adjacent page |
| FooterPagination.RenderAsWritten | src/components/default/Footer/Pagination.tsx:4-19 | the footer as written; its contract is RenderAsWrittenVisibility and SinglePageShowsBothArrows |
| FooterPagination.Render | src/components/default/Footer/Pagination.tsx:8-18 | the footer with the single-page guard the full bar has (see Findings); its contract is ArrowsStayInside |
| FooterPagination.RenderAsWrittenVisibility | src/components/default/Footer/Pagination.tsx:4-19 | `<` is shown exactly when `last` or not `first`, `>` exactly when `first` or not `last`, and the counter exactly when a URL is truthy |
| FooterPagination.SinglePageShowsBothArrows | src/components/default/Footer/Pagination.tsx:8-18 | the only page of a one-page listing shows `<` to `/page/0` and `>` to `/page/2`, neither of which exists |
| FooterPagination.ArrowsStayInside | src/components/default/Footer/Pagination.tsx:8-18 | with the single-page guard, the footer is shown exactly for more than one page and its arrows go to the adjacent existing pages |
| CodeBlock.FindFrom | src/components/default/Code/Code.Block.tsx:9 | the first occurrence at or after a position, or none when there is none |
| CodeBlock.TakeLine | src/components/default/Code/Code.Block.tsx:9 | the longest prefix without a line terminator, which is what `.*` matches |
| CodeBlock.PreToCodeBlock | src/components/default/Code/Code.Block.tsx:5-18 | `preToCodeBlock`; its contract is PreToCodeBlockSpec and CodeStringTrimmed |
| CodeBlock.Language | src/components/default/Code/Code.Block.tsx:9-14 | the language taken from the class; its contract is LanguageSpec and LanguageOfClass |
| CodeBlock.PreToCodeBlockSpec | src/components/default/Code/Code.Block.tsx:5-18 | undefined unless the child is a code element; a throw when it has no text; otherwise the trimmed code, class (`''` by default) and language, overridden by the other props, which are all kept |
| CodeBlock.LanguageSpec | src/components/default/Code/Code.Block.tsx:9-14 | the language is the rest of the line after the first `language-` in the class, and `''` when there is none |
| CodeBlock.LanguageOfClass | src/components/default/Code/Code.Block.tsx:9-14 | the class `language-L` names the language `L` for any one-line `L` |
| CodeBlock.CodeStringTrimmed | src/components/default/Code/Code.Block.tsx:12 | the code shown and copied is already trimmed |
| CodeBlock.CopyButton.constructor | src/components/default/Code/Code.Block.tsx:42-43 | a new button has not copied, has no reset pending and has written nothing |
| CodeBlock.CopyButton.Label | src/components/default/Code/Code.Block.tsx:62-88 | the label is "Copied" exactly while the flag is set, "Copy" otherwise |
| CodeBlock.CopyButton.Click | src/components/default/Code/Code.Block.tsx:45-54 | a click while copied changes nothing; otherwise the text is written to the clipboard once, the flag is set and one reset is scheduled; at most one reset is pending, exactly while the flag is set |
| CodeBlock.CopyButton.CopyToClipboard | src/components/default/Code/Code.Block.tsx:93-103 | the text is appended to the clipboard log and nothing else changes |
| CodeBlock.CopyButton.ResetFires | src/components/default/Code/Code.Block.tsx:51-53 | the pending reset clears the flag, and the button may copy again |

## Left out

- The GraphQL schema customisation, the `excerpt` and `body` passthrough resolvers and `onPreBootstrap` are not modelled. They only declare types or delegate to the MDX plugin.
- Remote image downloads are not modelled. `validURL` and `createRemoteFileNode` are the parameter `remoteFile`, which answers the id of the created file node, or None for an invalid URL or a failed download.
- `createContentDigest`, the node's JSON `content` and `createParentChildLink` are not modelled. The derived node records its parent, but the parent's child list is not updated.
- GraphQL sorting (date and title, descending) and the 1000-node limit are not modelled. The query results arrive already sorted.
- Seo.SlugifyShape: the `normalize('NFD')` step and lower-casing beyond ASCII are not modelled. Letters with precomposed accents therefore count as separators, where the source would keep their base letter.
- The `social.find(...)` twitter lookup in SEO.tsx is not modelled because its result is never used. `useStaticQuery` is the `SiteMetadata` input, and Helmet's rendering is the `Head` record.
- Seo.SeoProps: `tags` is a list. The throw that `tags[0]` would raise on a published page without tags is not modelled.
- SeoPost.Article: `imageSrc` is a plain string. The throw that a post without an image would raise is not modelled. The `console.log` is left out.
- SeoPost.DecodeJsonString rejects `\u` escapes in the surrogate range rather than pairing them. Only the excerpt's and the title's own escapes matter here, and the corrected escaping never emits them.
- CodeBlock.PreToCodeBlockSpec: props are modelled as string-valued keys. A non-string `className` or `children` is not modelled. Neither is the code block component that destructures an `undefined` result.
- Prism tokenising and the rendering of token lines are not modelled. The number shown before line `i` is `i + 1`, the numbering `JsText.Range` gives.
- CodeBlock.CopyButton.Click: React's batched state updates are not modelled, so two clicks within one render both copying is not captured. The DOM clipboard becomes an append-only log, and the 2000 ms timer is a pending count fired by `ResetFires`.
- Listing pages are not chunked here. `PageContext` is an input, and the lemmas that need a well-formed one require `Consistent`.
- The notebook listing (src/templates/Notebooks.tsx), the filtered post listing (src/templates/Posts.Filtered.tsx), the notebook SEO component (src/components/default/SEO/SEO.Notebook.tsx) and the older code block (src/components/base/Code/Code.Block.jsx) are not part of this model. Only some of their logic repeats the modelled logic: the neighbour URLs of Notebooks.tsx:10-11 and Posts.Filtered.tsx:11-12 are those of Posts.tsx:23-24; SEO.Notebook.tsx:44 escapes the excerpt as SEO.Post.tsx:46 does; Code.Block.jsx:30-42 is the same Copy button.
- Notebooks.tsx:27 gives the full pagination bar no `sitePath`. JavaScript writes the missing value as `undefined`, so that bar's links read `/undefined` and `/undefinedpage/N`. `Pagination.Props.sitePath` is a string and cannot express this case.
- Notebooks.tsx:15 hands SEO the root path and shows no highlighted first item, and Posts.Filtered.tsx:16-17 renders two SEO heads, the second for the root path. Neither page is modelled.
- JsText.IntToString: JavaScript switches to exponent notation from 1e21 on; the model always writes plain digits, which is exact for page numbers.

## Findings

| source | as written | input that shows it | evidently intended | confidence | as-written member | corrected member |
|---|---|---|---|---|---|---|
| src/components/default/SEO/SEO.Post.tsx:67 | the reading time is passed as `timeToRead`, a prop the SEO component does not read | any article with `readingTime` "5 min" | pass it as `readingTime`, so that the `twitter:label1`/`twitter:data1` entries appear | not executed; high | SeoPost.ReadingTimeNeverReachesMeta | SeoPost.ReadingTimeReachesMeta |
| src/components/default/SEO/SEO.Post.tsx:46 | only double quotes in the excerpt are escaped before it is placed between quotes in the JSON-LD | the excerpt `C:\` (a trailing backslash escapes the closing quote) | escape the excerpt as a JSON string: backslashes, quotes and control characters | not executed; high | SeoPost.TrailingBackslashBreaksJson | SeoPost.ArticleJsonLd |
| src/components/default/SEO/SEO.Post.tsx:38 | the title is placed between quotes in the JSON-LD unescaped | the title `Say "hi"` (any title with a quote that no backslash precedes) | escape the headline like the description | not executed; high | SeoPost.HeadlineQuoteBreaksJson | SeoPost.ArticleJsonLd |
| src/components/default/Footer/Pagination.tsx:8-18 | the footer bar has no single-page guard, unlike the full bar | a one-page listing (index 1, first and last, pageCount 1) shows `<` to `/page/0` and `>` to `/page/2` | render nothing for a single page, as the full bar does | not executed; medium | FooterPagination.SinglePageShowsBothArrows | FooterPagination.ArrowsStayInside |
