# Article publishing routes, modelled in Dafny

This project models the two server routes of a small article-generation web
application:

- `POST /api/publish` (app/api/publish/route.ts) takes a Markdown-like text
  and an optional title and status. It turns the text into HTML with a
  line-by-line converter (`toHtml`, `escapeHtml`) and derives a title from
  the text when none is given (`deriveTitleFromContent`). It then sends one
  post request to WordPress and passes on WordPress's reply or shapes its
  error.
- `POST /api/workflow?key=…` (app/api/workflow/route.ts) is gated by a
  shared key. It asks a chat model for an article on a topic, asks an image
  model for a picture, and publishes both to WordPress
  (`publishToWordPress`). The post title is the article's first line with
  its tags removed, and the content is the remaining lines. The image is
  uploaded first, under a file name derived from the title, and becomes the
  post's featured media.

Modules:

| file | module | what it holds |
|---|---|---|
| results.dfy | `Results` | `Option` and `Result` |
| text.dfy | `Text` | `trim`, `split("\n")`, `join`, the trailing-slash strip, number printing |
| escape.dfy | `Escape` | `escapeHtml`, a one-pass reference definition and a decoder |
| markdown.dfy | `Markdown` | `toHtml` as an imperative method, proved against the function `Convert` |
| publish.dfy | `PublishRoute` | `deriveTitleFromContent` and the `POST` handler of the publish route |
| workflow.dfy | `Workflow` | the gate, `runWorkflow`, the article and image fallbacks, and `publishToWordPress` |

Every outbound HTTP request is answered by a function given as a parameter,
so the model does no I/O:

- In `PublishRoute.Post`, the WordPress endpoint is the function `cms`, and
  `JSON.parse` is the separate function `parse`.
- In `Workflow`, the four remote services make up the datatype `Remote`.
  There is no separate parser: each service answers with the reply already
  parsed into the shape the route reads (`ChatReply`, `ImageReply`,
  `MediaReply`, `PostReply`).

Each step returns the requests it made, in order. This lets a contract say
"no request is sent" and "article, then image, then upload, then post".
Environment variables are inputs of type `Option<string>`.

### Structure of the converter proof

`toHtml` is a `for` loop that pushes strings into `htmlChunks` and flips
`inList`. `Markdown.ToHtml` is the same loop, and one turn of it is
`Markdown.EmitLine`. The loop invariant ties the strings pushed so far to
`RenderLines`, a function that runs over the lines once each has been
classified (blank, list item, or heading/paragraph). The properties are
proved about that function and then carried over to `Convert(content)`:

- empty output exactly for blank input;
- well-nested `<ul>` and `</ul>`;
- one element per non-blank line;
- one list per run of list items;
- agreement with a block-by-block reference definition.

### Where the code and the app's own pages differ

The model follows the route code:

- The FAQ in app/docs/page.tsx:42 says a constant
  `IA_GENERATED_INLINE_STYLES` in app/api/workflow/route.ts holds the styles
  sent to WordPress. The route has no such constant and applies no wrapper:
  the post content is the article text after its first line, trimmed
  (app/api/workflow/route.ts:136).
- The flow page (app/flujo/page.tsx:29) says the post title is derived from
  the `<h1>`. The route takes the article's first line, removes every `<…>`
  segment and trims the result, using `"Nuevo artículo"` when nothing is
  left (app/api/workflow/route.ts:134-135). It does not look for an `<h1>`.

Two further facts about the post and the upload:

- The post body has exactly the fields `title`, `content`, `status` and,
  when the upload returned a non-zero id, `featured_media`
  (app/api/workflow/route.ts:176-181).
- The upload's file name is the title with each white-space run replaced by
  `_`, followed by `.jpg`. Letter case is kept
  (app/api/workflow/route.ts:146-149).

## Model

| member | source | states |
|---|---|---|
| Text.Trim | app/api/publish/route.ts:104 | the trimmed line starts and ends with a character that is not white space, and is no longer than the line |
| Text.TrimEmpty | app/api/publish/route.ts:14 | `s.trim()` is empty exactly when `s` is white space only (the `!body.content.trim()` guard) |
| Text.TrimInfix | app/api/publish/route.ts:104 | what `trim` keeps is one contiguous piece of its input |
| Text.TrimTwice | app/api/publish/route.ts:104 | trimming is idempotent |
| Text.TrimAfterTrimStart | app/api/publish/route.ts:107 | removing the leading white space after the `#` marker and then trimming is the same as trimming |
| Text.TrimStartAppend | app/api/workflow/route.ts:147 | the leading white space of `a + b` is that of `a` alone, or of `b` when `a` is all white space |
| Text.Split | app/api/publish/route.ts:102 | `split("\n")` yields at least one piece, and no piece contains a line feed |
| Text.JoinSplit | app/api/workflow/route.ts:134-136 | joining the pieces with `\n` gives the text back |
| Text.SplitAt | app/api/workflow/route.ts:134 | the first piece is everything before the first line feed, and the rest splits on its own |
| Text.SplitSingle | app/api/workflow/route.ts:134 | a text without line feeds is a single piece |
| Text.SplitJoin | app/api/workflow/route.ts:136 | splitting joined pieces that hold no line feed gives the pieces back |
| Text.BlankLines | app/api/publish/route.ts:102-105 | a text is white space only exactly when each of its lines is |
| Text.StripTrailingSlashes | app/api/publish/route.ts:23 | `replace(/\/+$/, "")` keeps a prefix, drops only `/` characters, and leaves no `/` at the end |
| Text.NatToString | app/api/publish/route.ts:82 | the status code is written in decimal digits that denote it, with no leading zero unless the code is 0 |
| Escape.ReplaceAll | app/api/publish/route.ts:168 | a global replacement yields only characters of the input other than the replaced one, or of the replacement |
| Escape.EscapeHtml | app/api/publish/route.ts:166-173 | the escaped text holds no raw `<`, `>`, `"` or `'` |
| Escape.EscapeHtmlIsEscapeEach | app/api/publish/route.ts:166-173 | because `&` is replaced first, the chain of five replacements equals escaping each character once, so no entity is escaped twice |
| Escape.AmpersandsBeginEntities | app/api/publish/route.ts:166-173 | every `&` in the output begins one of `&amp;`, `&lt;`, `&gt;`, `&quot;` or `&#39;` |
| Escape.UnescapeEscapeHtml | app/api/publish/route.ts:166-173 | escaping loses nothing: decoding the five entities gives the input back |
| Escape.EscapeHtmlAppend | app/api/publish/route.ts:166-173 | escaping distributes over concatenation |
| Escape.EscapeHtmlChar | app/api/publish/route.ts:166-173 | a single character becomes its entity or stays as it is |
| Markdown.ToHtml | app/api/publish/route.ts:117-164 | the loop's output is the serialization of `Convert(content)`, the specification about which the lemmas below are proved |
| Markdown.EmitLine | app/api/publish/route.ts:129-159 | one turn of the loop pushes exactly the HTML for the line's step and leaves `inList` as that step says |
| Markdown.CloseListIfNeeded | app/api/publish/route.ts:122-127 | pushes `</ul>` exactly when a list is open, and the flag is false afterwards |
| Markdown.LineElement | app/api/publish/route.ts:136-158 | a non-blank trimmed line yields an element whose text is escaped, and it is a list item exactly when the line starts with `- ` |
| Markdown.Classify | app/api/publish/route.ts:130-158 | the text a classified line carries is escaped |
| Markdown.ClassifyBlank | app/api/publish/route.ts:130-131 | a line is treated as blank exactly when it is white space only |
| Markdown.StepLine | app/api/publish/route.ts:130-158 | the HTML strings one line contributes and the new `inList`, branch by branch: `<h1>`/`<h2>`/`<p>` after closing an open list, `<ul>` only before a first item |
| Markdown.Advance | app/api/publish/route.ts:129-159 | one loop turn keeps the invariant linking the pushed strings to the remaining lines |
| Markdown.RenderAllBlank | app/api/publish/route.ts:131-134 | blank lines only close a list that is already open |
| Markdown.ToHtmlEmptyIffBlank | app/api/publish/route.ts:129-163 | `toHtml` returns `""` exactly when every line is blank, including for `""` |
| Markdown.SerializeEmpty | app/api/publish/route.ts:163 | the joined output is empty exactly when no chunk was pushed |
| Markdown.RenderElements | app/api/publish/route.ts:136-158 | the heading, item and paragraph chunks are exactly the elements of the non-blank lines, in order |
| Markdown.CarriedLines | app/api/publish/route.ts:130-158 | the k-th non-blank line carries the element of its trimmed text |
| Markdown.OneElementPerLine | app/api/publish/route.ts:136-158 | the number of h1/h2/li/p chunks equals the number of non-blank lines, and the k-th chunk is the k-th non-blank line's element |
| Markdown.ToHtmlEscaped | app/api/publish/route.ts:138-158 | every heading, item and paragraph emitted carries escaped text |
| Markdown.ClassifyAllBlank | app/api/publish/route.ts:130-134 | all lines are classified blank exactly when all are white space only |
| Markdown.CarriedEmpty | app/api/publish/route.ts:130-158 | no element is emitted exactly when every line is blank |
| Markdown.RenderWellNested | app/api/publish/route.ts:122-161 | from any state, `<ul>` and `</ul>` alternate strictly, items occur only inside a list, and the output ends with the list closed |
| Markdown.ToHtmlWellNested | app/api/publish/route.ts:122-161 | lists in the converter's output never nest, and every opened list is closed |
| Markdown.CloseBeforeNonList | app/api/publish/route.ts:131-157 | an open list is closed by a blank line, a heading, a paragraph or the end |
| Markdown.RenderInsideList | app/api/publish/route.ts:148-158 | inside an open list, a run of list lines yields its items, then `</ul>` before the next other line |
| Markdown.ListRunIsOneList | app/api/publish/route.ts:148-158 | a maximal run of `- ` lines yields exactly one `<ul>` holding one `<li>` per line, in order |
| Markdown.RenderIsBlocks | app/api/publish/route.ts:129-161 | the converter agrees with a block-by-block reference definition: blank lines vanish, headings and paragraphs stand alone, and each run of list lines becomes one list |
| PublishRoute.LineTitle | app/api/publish/route.ts:106-112 | the title of a non-blank line is non-empty and trimmed |
| PublishRoute.FirstTitle | app/api/publish/route.ts:103-114 | the loop always yields a non-empty trimmed title |
| PublishRoute.DeriveTitle | app/api/publish/route.ts:101-115 | the derived title is never empty and never has white space at either end |
| PublishRoute.FirstTitleAllBlank | app/api/publish/route.ts:103-114 | when every line is blank, the fallback `"Articulo generado"` is returned |
| PublishRoute.DeriveTitleBlank | app/api/publish/route.ts:101-115 | white-space-only content gets the fallback title |
| PublishRoute.FirstTitleIsFirstNonBlank | app/api/publish/route.ts:103-113 | otherwise the title comes from the first non-blank line: earlier lines are skipped and later lines are never read |
| PublishRoute.FirstTitleNonBlank | app/api/publish/route.ts:103-113 | the title is that of the first non-blank trimmed line |
| PublishRoute.LineTitleIsElementText | app/api/publish/route.ts:106-112 | a heading line's title is the heading text `toHtml` emits for it, before escaping, and a paragraph line's title is the whole line |
| PublishRoute.TitleMatchesFirstElement | app/api/publish/route.ts:38-42 | unless the first non-blank line is a list item, the first element of the post's HTML carries the escaped derived title |
| PublishRoute.BaseUrl | app/api/publish/route.ts:23 | the base URL never ends in `/` |
| PublishRoute.ChooseTitle | app/api/publish/route.ts:38-41 | the caller's title, trimmed, when it is a non-blank string, and the derived title otherwise; never empty |
| PublishRoute.ChooseStatus | app/api/publish/route.ts:57 | the caller's status, or `"draft"` when it is absent |
| PublishRoute.Post | app/api/publish/route.ts:11-99 | a bad body gets 400 before the settings are read, and missing settings get 500; in both cases no request is sent. Otherwise exactly one request is sent, with its URL, credentials, title, HTML content and status. A 2xx reply becomes `{post}` (`{}` when the body is not JSON). Any other reply keeps its status, with `"WordPress returned <status>"` and the message and detail rules |
| Workflow.ChatUrlShape | app/api/workflow/route.ts:64-67 | the chat URL is the trimmed base without trailing slashes, or the public endpoint when that leaves nothing, followed by the path, with no doubled slash |
| Workflow.Article | app/api/workflow/route.ts:89-94 | a non-2xx reply is an error carrying its text; otherwise the result is the trimmed content, or `"Artículo no generado."` when it is missing or blank; never empty |
| Workflow.ImageUrl | app/api/workflow/route.ts:112-118 | the URL is non-empty exactly when the reply is 2xx and carries a non-empty URL, and `""` otherwise |
| Workflow.StripTags | app/api/workflow/route.ts:135 | no `<…>` segment remains, and no character is added |
| Workflow.StripTagsTag | app/api/workflow/route.ts:135 | a `<…>` segment is removed with its brackets, and the text before it, which holds no `<`, is kept; stripping continues after the segment (with `StripTagsFixed`, this determines the result on every input) |
| Workflow.StripTagsFixed | app/api/workflow/route.ts:135 | text without tags is left unchanged |
| Workflow.StripTagsTwice | app/api/workflow/route.ts:135 | stripping tags is idempotent |
| Workflow.PostTitleShape | app/api/workflow/route.ts:135 | the post title is non-empty and trimmed, with no line break and no tag |
| Workflow.TitleAndContent | app/api/workflow/route.ts:134-136 | for `first + "\n" + rest`, the title comes from `first` alone and the content is `rest` trimmed: nothing of the first line reaches the content |
| Workflow.SingleLineArticle | app/api/workflow/route.ts:134-136 | a one-line article has empty content |
| Workflow.CollapseSpaces | app/api/workflow/route.ts:146-149 | no white space is left in the file name |
| Workflow.CollapseFixed | app/api/workflow/route.ts:146-149 | a title without white space is unchanged |
| Workflow.CollapseTwice | app/api/workflow/route.ts:146-149 | collapsing is idempotent |
| Workflow.CollapseRun | app/api/workflow/route.ts:146-149 | a maximal run of white space becomes exactly one `_`, and the text around it is kept |
| Workflow.FilenameEnds | app/api/workflow/route.ts:146-149 | for a post title, the name before `.jpg` starts and ends with the title's own first and last characters |
| Workflow.WpBase | app/api/workflow/route.ts:125 | the WordPress base URL never ends in `/` |
| Workflow.Featured | app/api/workflow/route.ts:180 | `featured_media` is present exactly when an id was obtained and it is non-zero, and then it is that id |
| Workflow.Publish | app/api/workflow/route.ts:121-190 | without settings, the result is `null` and no request is made; requests follow the pipeline order |
| Workflow.PublishSteps | app/api/workflow/route.ts:137-189 | an upload only for a non-empty image URL; its failure never stops the post; the post is the last request. The post request is determined completely: the base URL plus the posts path, the username and password as set (untrimmed), the split title and content, the status `publish`, and `featured_media` equal to the id the upload returned, present only when that id is non-zero. A rejected post is an error with the reply's text, and an accepted one yields its link |
| Workflow.PublishToWordPress | app/api/workflow/route.ts:121-190 | the imperative steps, which set `featuredImageId` and then branch on it, produce exactly `Publish`'s result and requests |
| Workflow.RunWorkflow | app/api/workflow/route.ts:33-45 | a missing API key, then a blank topic, fail before any request; all requests follow the order article, image, upload, post |
| Workflow.RunWorkflowSteps | app/api/workflow/route.ts:36-44 | the article is requested first with the trimmed topic; its failure stops the pipeline; otherwise the image follows with the same topic, and the result carries exactly the article, the image URL and the publish result |
| Workflow.HandleWorkflow | app/api/workflow/route.ts:3-31 | an unset public key gets 500 and a wrong or absent key gets 403, both with no request; an unparsable body gets 500 with the parser's message; otherwise the run's failure gets 500 with its message, and its success gets the success message with the run's outcome |
| Workflow.GateBeforeAnyRequest | app/api/workflow/route.ts:3-37 | no request leaves the route unless the key matches, the body parses, the API key is set and the topic is not blank; requests that do leave follow the pipeline order |

## Left out

- Network I/O: every `fetch` is an oracle function that maps a request to a reply. A request that rejects (a network failure) is not modelled, except for the image transfer (`TransferThrew`). In the workflow route, a rejected chat, image or post request would be caught at app/api/workflow/route.ts:19-29 and answered with a 500 carrying the error's message. In the publish route, the request at app/api/publish/route.ts:48-59 is not inside a `try`, so a rejection escapes `POST` uncaught and no response of the route's own is produced.
- A 2xx reply whose body is not JSON, in the workflow route: `response.json()` throws at app/api/workflow/route.ts:93, 117 and 187, and the catch turns that into a 500. `ChatReply`, `ImageReply` and `PostReply` cannot express such a reply. At line 117 this means a 2xx image reply with a bad body aborts the whole run, whereas the model proves that the image step never aborts. At line 187 it means the post has already been created when the 500 is returned. The publish route's own `.catch` on its 2xx body is modelled (`EmptyObject`).
- The image download and its upload to the media library are one request (`MediaRequest`), answered by one reply. A failed download therefore shows up as an attempted upload in the list of requests made.
- `JSON.parse`, `req.json()` and `response.json()`: the parsed shape is an input (`PublishRoute.Parsed`, `PublishRoute.Field`, `Workflow.WorkflowBody`, and the options inside the reply datatypes).
- Runtime `TypeError`s are not modelled. They arise when a field holds a non-string where a string method is called, for example a non-string `input_as_text` or chat `content`, or a JSON `null` workflow body. Such fields are read as `Option<string>`, absent or a string.
- A non-string image `url` or media `id`: the model takes the url as a string and the id as an integer.
- `response.text()` failures: the publish route's unreadable body is read as `""`, as its `.catch` does. In the workflow route, the non-2xx bodies read at app/api/workflow/route.ts:90, 113 and 184 are not modelled when they cannot be read. There `response.text()` is unguarded, and the error reaches the catch at lines 19-29, which answers 500. At line 113 this means an unreadable non-2xx image reply aborts the whole run, a second exception, beside line 117, to the proved rule that the image step never aborts.
- `new URL(req.url)`: the `key` query parameter is an input, absent or a string.
- Environment variables (`process.env`) are inputs.
- Basic authorization headers (`Buffer…toString("base64")`) and the image bytes: a request carries the username and password as they are.
- The prompt texts and model parameters (app/api/workflow/route.ts:47-59, 74-86, 98-110): a request carries only the topic the prompts are built from.
- Logging (`console.*`).
- White space is the ASCII set: space, tab, line feed, carriage return, vertical tab and form feed. `String.prototype.trim` and `\s` also treat the Unicode space separators, U+00A0, U+FEFF and the line and paragraph separators as white space.
- HTTP headers such as `Content-Type` and `Content-Disposition`: only the file name is modelled.
- app/api/chatkit-script/route.ts, the React components and the static pages are not part of this model.
