/** app/api/workflow/route.ts: an access-gated pipeline that asks a chat
    model for an article on a topic, asks an image model for a picture, and
    publishes both to WordPress.  Every outbound request is answered by the
    oracle `Remote`; each step returns the requests it made, in order, so that
    "no request is made" and "article, then image, then publish" can be
    stated. */
module Workflow {
  import opened Results
  import opened Text
  import PublishRoute

  const MissingPublicKeyMessage: string := "Missing PUBLIC_EXPERIMENT_KEY."
  const Unauthorized: string := "Acceso no autorizado"
  const MissingApiKeyMessage: string := "Missing OPENAI_API_KEY."
  const MissingTopicMessage: string := "The request body must include input_as_text."
  const ArticleFailurePrefix: string := "OpenAI article generation failed: "
  const PublishFailurePrefix: string := "WordPress API error: "
  const NoArticle: string := "Artículo no generado."
  const DefaultPostTitle: string := "Nuevo artículo"
  const SuccessMessage: string := "Artículo publicado con éxito"
  const DefaultApiBase: string := "https://api.openai.com"
  const ChatPath: string := "/v1/chat/completions"
  const MediaPath: string := "/wp-json/wp/v2/media"

  /** The environment variables the route reads, each possibly unset. */
  datatype Env = Env(
    publicKey: Option<string>,
    openAiKey: Option<string>,
    openAiBase: Option<string>,
    wpBaseUrl: Option<string>,
    wpUsername: Option<string>,
    wpAppPassword: Option<string>)

  // ---------------------------------------------------------------------
  // Requests, replies and the oracle that answers them

  /** The chat-completion request; the prompt is built from `topic`. */
  datatype ChatRequest = ChatRequest(url: string, apiKey: string, topic: string)
  /** A non-2xx reply with its text, or a 2xx reply with the content of the
      first choice's message, if any. */
  datatype ChatReply = ChatRejected(detail: string) | ChatAnswered(content: Option<string>)

  /** The image-generation request; the prompt is built from `topic`. */
  datatype ImageRequest = ImageRequest(apiKey: string, topic: string)
  /** A non-2xx reply, or a 2xx reply with the first image's URL, if any. */
  datatype ImageReply = ImageRejected | ImageCreated(url: Option<string>)

  /** Download of the image at `imageUrl` and its upload to the media
      library, under the attachment name `filename`. */
  datatype MediaRequest = MediaRequest(
    url: string, filename: string, imageUrl: string, username: string, appPassword: string)
  /** The download or the upload threw, the upload got a non-2xx reply, or
      it succeeded with the `id` of the new media item, if any. */
  datatype MediaReply = TransferThrew | UploadRejected | Uploaded(id: Option<int>)

  /** The post-creation request; `featuredMedia` is `None` when the field is
      left out of the JSON body. */
  datatype PostRequest = PostRequest(
    url: string, username: string, appPassword: string,
    title: string, content: string, status: string, featuredMedia: Option<int>)
  /** A non-2xx reply with its text, or a 2xx reply with the post's `link`. */
  datatype PostReply = PostRejected(text: string) | PostCreated(link: Option<string>)

  datatype Remote = Remote(
    chat: ChatRequest -> ChatReply,
    image: ImageRequest -> ImageReply,
    media: MediaRequest -> MediaReply,
    post: PostRequest -> PostReply)

  /** One outbound request. */
  datatype Call =
    | ChatCall(chatRequest: ChatRequest)
    | ImageCall(imageRequest: ImageRequest)
    | MediaCall(mediaRequest: MediaRequest)
    | PostCall(postRequest: PostRequest)

  /** The position of a request's step in the pipeline. */
  function Rank(c: Call): nat {
    match c
    case ChatCall(_) => 0
    case ImageCall(_) => 1
    case MediaCall(_) => 2
    case PostCall(_) => 3
  }

  /** Requests follow the pipeline's order, each step at most once. */
  predicate InOrder(calls: seq<Call>) {
    forall i, j :: 0 <= i < j < |calls| ==> Rank(calls[i]) < Rank(calls[j])
  }

  /** An error thrown inside the route. */
  datatype Fault =
    | MissingPublicKey
    | MissingApiKey
    | MissingTopic
    | ArticleFailed(detail: string)
    | PublishFailed(text: string)
    | BadBody(message: string)

  /** The `message` of the thrown error, which becomes the text of the 500
      response. */
  function FaultMessage(f: Fault): string {
    match f
    case MissingPublicKey => MissingPublicKeyMessage
    case MissingApiKey => MissingApiKeyMessage
    case MissingTopic => MissingTopicMessage
    case ArticleFailed(detail) => ArticleFailurePrefix + detail
    case PublishFailed(text) => PublishFailurePrefix + text
    case BadBody(message) => message
  }

  /** What a step yields, with the requests it made. */
  datatype Run<T> = Run(result: Result<T, Fault>, calls: seq<Call>)

  // ---------------------------------------------------------------------
  // generateStyledArticle and generateImage

  /** The chat-completions URL: the configured base, trimmed and without
      trailing slashes, or the public endpoint when that leaves nothing. */
  function ChatUrl(apiBase: Option<string>): string {
    var b := StripTrailingSlashes(Setting(apiBase));
    (if b == [] then DefaultApiBase else b) + ChatPath
  }

  /** The URL is a base followed by the chat path.  The base is the public
      endpoint when the setting is unset or only white space and slashes;
      otherwise it is the trimmed setting less its trailing slashes.  Either
      way it never ends in `/`, so the path is never preceded by a doubled
      slash. */
  lemma ChatUrlShape(apiBase: Option<string>)
    ensures var r := ChatUrl(apiBase);
            var s := Setting(apiBase);
            var base := r[..|r| - |ChatPath|];
            && |r| > |ChatPath| && r[|r| - |ChatPath|..] == ChatPath
            && base != [] && base[|base| - 1] != '/'
            && ((forall i :: 0 <= i < |s| ==> s[i] == '/') ==> base == DefaultApiBase)
            && (!(forall i :: 0 <= i < |s| ==> s[i] == '/') ==>
                  base <= s && forall i :: |base| <= i < |s| ==> s[i] == '/')
  {
    var b := StripTrailingSlashes(Setting(apiBase));
    var base := if b == [] then DefaultApiBase else b;
    assert ChatUrl(apiBase) == base + ChatPath;
    assert (base + ChatPath)[..|base|] == base;
    assert (base + ChatPath)[|base| - 1] == base[|base| - 1];
  }

  /** The article `generateStyledArticle` returns: an error carrying the
      reply's text when the reply is not 2xx; otherwise the trimmed content,
      or the placeholder when it is missing or blank.  An article is never
      empty and never has white space at either end. */
  function Article(reply: ChatReply): (r: Result<string, Fault>)
    ensures reply.ChatRejected? ==> r == Failure(ArticleFailed(reply.detail))
    ensures reply.ChatAnswered? ==> r.Success? && r.value != [] && Trimmed(r.value)
    ensures reply.ChatAnswered? && reply.content.Some? && !Blank(reply.content.value) ==>
              r == Success(Trim(reply.content.value))
    ensures reply.ChatAnswered? && (reply.content.None? || Blank(reply.content.value)) ==>
              r == Success(NoArticle)
  {
    match reply
    case ChatRejected(detail) => Failure(ArticleFailed(detail))
    case ChatAnswered(content) =>
      if content.None? then Success(NoArticle)
      else
        TrimEmpty(content.value);
        var text := Trim(content.value);
        Success(if text != [] then text else NoArticle)
  }

  /** The image URL `generateImage` returns: the first image's URL, or the
      empty string when the reply is not 2xx or carries none. */
  function ImageUrl(reply: ImageReply): (r: string)
    ensures r != [] <==> reply.ImageCreated? && reply.url.Some? && reply.url.value != []
    ensures r != [] ==> r == reply.url.value
  {
    match reply
    case ImageRejected => []
    case ImageCreated(url) => if url.Some? then url.value else []
  }

  // ---------------------------------------------------------------------
  // publishToWordPress: title, content and filename

  /** A `<` somewhere before a `>`: exactly the strings in which
      `/<[^>]*>/` finds a match. */
  predicate HasTag(s: string) {
    exists i, j :: 0 <= i < j < |s| && s[i] == '<' && s[j] == '>'
  }

  /** The index of the first `c` in `s`. */
  function IndexOf(s: string, c: char): (i: nat)
    requires c in s
    ensures i < |s| && s[i] == c && c !in s[..i]
  {
    if s[0] == c then 0
    else
      assert s == [s[0]] + s[1..];
      var i := IndexOf(s[1..], c);
      assert s[..i + 1] == [s[0]] + s[1..][..i];
      i + 1
  }

  /** `s.replace(/<[^>]*>/g, "")`: scanning left to right, each `<` that has a
      `>` somewhere after it is removed together with everything up to and
      including the first such `>`; an unmatched `<` stays. */
  function StripTags(s: string): (r: string)
    ensures !HasTag(r)
    ensures forall c :: c in r ==> c in s
    decreases |s|
  {
    if s == [] then []
    else if s[0] == '<' && '>' in s[1..] then
      StripTags(s[1..][IndexOf(s[1..], '>') + 1..])
    else
      var rest := StripTags(s[1..]);
      var r := [s[0]] + rest;
      assert forall c :: c in rest ==> c in s[1..];
      assert !HasTag(r) by {
        forall i, j | 0 <= i < j < |r| && r[i] == '<' ensures r[j] != '>' {
          assert r[j] == rest[j - 1] && rest[j - 1] in rest;
          if i > 0 {
            assert r[i] == rest[i - 1];
          }
        }
      }
      r
  }

  /** Text without tags is left as it is; in particular stripping twice is
      stripping once. */
  lemma {:induction false} StripTagsFixed(s: string)
    requires !HasTag(s)
    ensures StripTags(s) == s
  {
    if s != [] {
      if s[0] == '<' {
        forall j | 0 <= j < |s[1..]| ensures s[1..][j] != '>' {
          assert s[j + 1] == s[1..][j];
        }
      }
      assert !HasTag(s[1..]) by {
        forall i, j | 0 <= i < j < |s[1..]| && s[1..][i] == '<' ensures s[1..][j] != '>' {
          assert s[1..][i] == s[i + 1] && s[1..][j] == s[j + 1];
        }
      }
      StripTagsFixed(s[1..]);
    }
  }

  /** A `<…>` segment is removed together with its brackets, and the text
      before it, which holds no `<`, is kept as it is; stripping goes on
      after the segment.  With `StripTagsFixed` this determines `StripTags`
      on every input. */
  lemma {:induction false} StripTagsTag(a: string, t: string, b: string)
    requires '<' !in a && '>' !in t
    ensures StripTags(a + "<" + t + ">" + b) == a + StripTags(b)
  {
    var s := a + "<" + t + ">" + b;
    if a == [] {
      assert s == "<" + t + ">" + b;
      var rest := s[1..];
      assert rest == t + ">" + b;
      assert rest[|t|] == '>';
      var i := IndexOf(rest, '>');
      assert rest[i + 1..] == b;
    } else {
      assert s[0] == a[0];
      assert s[1..] == a[1..] + "<" + t + ">" + b;
      StripTagsTag(a[1..], t, b);
    }
  }

  lemma StripTagsTwice(s: string)
    ensures StripTags(StripTags(s)) == StripTags(s)
  {
    StripTagsFixed(StripTags(s));
  }

  /** The part of a string `Trim` keeps has no tag if the string has none. */
  lemma TrimNoTag(s: string)
    requires !HasTag(s)
    ensures !HasTag(Trim(s)) && (forall c :: c in Trim(s) ==> c in s)
  {
    var k := TrimInfix(s);
    var t := Trim(s);
    forall i, j | 0 <= i < j < |t| && t[i] == '<' ensures t[j] != '>' {
      assert t[i] == s[k + i] && t[j] == s[k + j];
    }
    forall c | c in t ensures c in s {
      var i :| 0 <= i < |t| && t[i] == c;
      assert s[k + i] == c;
    }
  }

  /** The first line of the article, `article.split("\n")[0]`. */
  function FirstLine(article: string): string {
    Split(article)[0]
  }

  /** The post title: the first line with its tags removed, trimmed, or the
      default title when that leaves nothing. */
  function PostTitle(article: string): string {
    var t := Trim(StripTags(FirstLine(article)));
    if t != [] then t else DefaultPostTitle
  }

  /** The post title is never empty, is trimmed, and holds no line break
      and no tag. */
  lemma PostTitleShape(article: string)
    ensures var r := PostTitle(article);
            r != [] && Trimmed(r) && '\n' !in r && !HasTag(r)
  {
    TrimNoTag(StripTags(FirstLine(article)));
    assert forall i :: 0 <= i < |DefaultPostTitle| ==> DefaultPostTitle[i] != '<';
  }

  /** The post content: the lines after the first, joined back with line
      breaks, trimmed. */
  function PostContent(article: string): string {
    Trim(JoinLines(Split(article)[1..]))
  }

  /** An article made of a first line and the text after its line break is
      split into a title taken from that first line alone and a content that
      is the trimmed text after the break: nothing of the first line reaches
      the content. */
  lemma {:induction false} TitleAndContent(first: string, rest: string)
    requires '\n' !in first
    ensures FirstLine(first + "\n" + rest) == first
    ensures PostContent(first + "\n" + rest) == Trim(rest)
  {
    SplitAt(first, rest);
    assert Split(first + "\n" + rest)[1..] == Split(rest);
    JoinSplit(rest);
  }

  /** A one-line article has empty content. */
  lemma SingleLineArticle(article: string)
    requires '\n' !in article
    ensures FirstLine(article) == article && PostContent(article) == []
  {
    SplitSingle(article);
  }

  /** No character of `s` is white space. */
  predicate NoSpace(s: string) {
    forall i :: 0 <= i < |s| ==> !IsSpace(s[i])
  }

  /** `s.replace(/\s+/g, "_")`: each maximal run of white space becomes one
      underscore. */
  function CollapseSpaces(s: string): (r: string)
    ensures NoSpace(r)
    decreases |s|
  {
    if s == [] then []
    else if IsSpace(s[0]) then "_" + CollapseSpaces(TrimStart(s[1..]))
    else [s[0]] + CollapseSpaces(s[1..])
  }

  /** A string without white space is left as it is. */
  lemma {:induction false} CollapseFixed(s: string)
    requires NoSpace(s)
    ensures CollapseSpaces(s) == s
  {
    if s != [] {
      CollapseFixed(s[1..]);
    }
  }

  /** Collapsing twice is collapsing once. */
  lemma CollapseTwice(s: string)
    ensures CollapseSpaces(CollapseSpaces(s)) == CollapseSpaces(s)
  {
    CollapseFixed(CollapseSpaces(s));
  }

  /** Text without white space is kept, and a whole run of white space
      before the next other character becomes a single underscore. */
  lemma {:induction false} CollapseRun(a: string, w: string, b: string)
    requires NoSpace(a) && w != [] && Blank(w)
    requires b == [] || !IsSpace(b[0])
    ensures CollapseSpaces(a + w + b) == a + "_" + CollapseSpaces(b)
  {
    if a == [] {
      assert a + w + b == w + b;
      assert (w + b)[1..] == w[1..] + b;
      TrimStartAppend(w[1..], b);
      assert TrimStart(b) == b;
    } else {
      assert (a + w + b)[1..] == a[1..] + w + b;
      CollapseRun(a[1..], w, b);
    }
  }

  /** The upload's attachment name. */
  function UploadFilename(title: string): string {
    CollapseSpaces(title) + ".jpg"
  }

  /** For a post title (trimmed, non-empty) the name starts and ends with the
      title's own first and last characters, never with an underscore made
      from white space. */
  lemma {:induction false} FilenameEnds(title: string)
    requires title != [] && Trimmed(title)
    ensures var c := CollapseSpaces(title);
            c != [] && c[0] == title[0] && c[|c| - 1] == title[|title| - 1]
  {
    CollapseLast(title);
  }

  lemma {:induction false} CollapseLast(s: string)
    requires s != [] && !IsSpace(s[|s| - 1])
    ensures var c := CollapseSpaces(s); c != [] && c[|c| - 1] == s[|s| - 1]
    decreases |s|
  {
    if |s| > 1 {
      if IsSpace(s[0]) {
        var t := TrimStart(s[1..]);
        TrimStartShape(s[1..]);
        assert t != [];
        CollapseLast(t);
        assert t[|t| - 1] == s[1..][|s| - 2];
      } else {
        CollapseLast(s[1..]);
      }
    }
  }

  // ---------------------------------------------------------------------
  // publishToWordPress

  /** `WORDPRESS_BASE_URL` without trailing slashes (not trimmed). */
  function WpBase(v: Option<string>): (r: string)
    ensures r == [] || r[|r| - 1] != '/'
  {
    if v.None? then [] else StripTrailingSlashes(v.value)
  }

  /** Base URL, username and application password all set and non-empty
      (the username and password are used as they are, untrimmed). */
  predicate WpConfigured(env: Env) {
    WpBase(env.wpBaseUrl) != []
    && env.wpUsername.Some? && env.wpUsername.value != []
    && env.wpAppPassword.Some? && env.wpAppPassword.value != []
  }

  /** What `publishToWordPress` resolves to: `null` when the settings are
      missing, or the created post's `link`. */
  datatype Published = Skipped | Posted(link: Option<string>)

  /** `featuredImageId || undefined`: an id of 0, or none, leaves the field out. */
  function Featured(id: Option<int>): (r: Option<int>)
    ensures r.Some? <==> id.Some? && id.value != 0
    ensures r.Some? ==> r == id
  {
    if id.Some? && id.value != 0 then id else None
  }

  /** The id the upload step leaves in `featuredImageId`. */
  function UploadedId(reply: MediaReply): Option<int> {
    if reply.Uploaded? then reply.id else None
  }

  function MediaRequestFor(article: string, imageUrl: string, env: Env): MediaRequest
    requires WpConfigured(env)
  {
    MediaRequest(WpBase(env.wpBaseUrl) + MediaPath, UploadFilename(PostTitle(article)),
                 imageUrl, env.wpUsername.value, env.wpAppPassword.value)
  }

  function PostRequestFor(article: string, env: Env, featured: Option<int>): PostRequest
    requires WpConfigured(env)
  {
    PostRequest(WpBase(env.wpBaseUrl) + PublishRoute.PostsPath, env.wpUsername.value, env.wpAppPassword.value,
                PostTitle(article), PostContent(article), "publish", featured)
  }

  /** The behaviour of `publishToWordPress`: without settings nothing is
      requested and the result is `null`; requests, when made, come after
      the article and image steps and in the pipeline's order. */
  function Publish(article: string, imageUrl: string, env: Env, remote: Remote): (r: Run<Published>)
    ensures !WpConfigured(env) ==> r == Run(Success(Skipped), [])
    ensures InOrder(r.calls)
    ensures forall k :: 0 <= k < |r.calls| ==> Rank(r.calls[k]) >= 2
  {
    if !WpConfigured(env) then Run(Success(Skipped), [])
    else
      var id := if imageUrl == [] then None else UploadedId(remote.media(MediaRequestFor(article, imageUrl, env)));
      var req := PostRequestFor(article, env, Featured(id));
      var result := match remote.post(req)
        case PostRejected(text) => Failure(PublishFailed(text))
        case PostCreated(link) => Success(Posted(link));
      var upload := MediaRequestFor(article, imageUrl, env);
      UploadThenPost(upload, req);
      if imageUrl == [] then Run(result, [PostCall(req)])
      else Run(result, [MediaCall(upload), PostCall(req)])
  }

  /** An upload, then a post, follow the pipeline's order. */
  lemma UploadThenPost(upload: MediaRequest, post: PostRequest)
    ensures var calls := [MediaCall(upload), PostCall(post)];
            InOrder(calls) && InOrder([PostCall(post)])
            && (forall k :: 0 <= k < |calls| ==> Rank(calls[k]) >= 2)
            && (forall k :: 0 <= k < 1 ==> Rank([PostCall(post)][k]) >= 2)
  {
  }

  /** With settings, an upload is attempted only for a non-empty image URL,
      its failure never stops the post, the post is always the last request,
      it carries the title and content split from the article with status
      `publish`, and its `featured_media` is present only when the upload
      returned a non-zero id.  A rejected post is an error carrying the
      reply's text; an accepted one yields its link. */
  lemma PublishSteps(article: string, imageUrl: string, env: Env, remote: Remote)
    requires WpConfigured(env)
    ensures var r := Publish(article, imageUrl, env, remote);
            && |r.calls| == (if imageUrl == [] then 1 else 2)
            && (imageUrl != [] ==> r.calls[0] == MediaCall(MediaRequestFor(article, imageUrl, env)))
            && r.calls[|r.calls| - 1].PostCall?
    ensures var r := Publish(article, imageUrl, env, remote);
            var req := r.calls[|r.calls| - 1].postRequest;
            var id := if imageUrl == [] then None else UploadedId(remote.media(MediaRequestFor(article, imageUrl, env)));
            && req == PostRequestFor(article, env, Featured(id))
            && req.username == env.wpUsername.value && req.appPassword == env.wpAppPassword.value
            && (req.featuredMedia.Some? ==> req.featuredMedia == id)
            && req.url == WpBase(env.wpBaseUrl) + PublishRoute.PostsPath
            && req.title == PostTitle(article)
            && req.content == PostContent(article)
            && req.status == "publish"
            && (req.featuredMedia.Some? <==>
                  imageUrl != [] && UploadedId(remote.media(MediaRequestFor(article, imageUrl, env))).Some?
                  && UploadedId(remote.media(MediaRequestFor(article, imageUrl, env))).value != 0)
            && (remote.post(req).PostRejected? ==> r.result == Failure(PublishFailed(remote.post(req).text)))
            && (remote.post(req).PostCreated? ==> r.result == Success(Posted(remote.post(req).link)))
  {
  }

  /** `publishToWordPress(article, imageUrl)`, step by step: the upload, when
      attempted, sets `featuredImageId`, which then decides `featured_media`. */
  method PublishToWordPress(article: string, imageUrl: string, env: Env, remote: Remote)
    returns (result: Result<Published, Fault>, calls: seq<Call>)
    ensures Run(result, calls) == Publish(article, imageUrl, env, remote)
  {
    var baseUrl := WpBase(env.wpBaseUrl);
    if baseUrl == [] || env.wpUsername.None? || env.wpUsername.value == []
       || env.wpAppPassword.None? || env.wpAppPassword.value == [] {
      return Success(Skipped), [];
    }
    var username := env.wpUsername.value;
    var appPassword := env.wpAppPassword.value;
    var title := PostTitle(article);
    var content := PostContent(article);
    var featuredImageId: Option<int> := None;
    calls := [];
    if imageUrl != [] {
      var upload := MediaRequest(baseUrl + MediaPath, UploadFilename(title), imageUrl, username, appPassword);
      calls := calls + [MediaCall(upload)];
      var uploadReply := remote.media(upload);
      if uploadReply.Uploaded? {
        featuredImageId := uploadReply.id;
      }
    }
    assert featuredImageId == if imageUrl == [] then None else UploadedId(remote.media(MediaRequestFor(article, imageUrl, env)));
    var request := PostRequest(baseUrl + PublishRoute.PostsPath, username, appPassword, title, content, "publish",
                               if featuredImageId.Some? && featuredImageId.value != 0 then featuredImageId else None);
    assert request == PostRequestFor(article, env, Featured(featuredImageId));
    calls := calls + [PostCall(request)];
    var postReply := remote.post(request);
    result := if postReply.PostRejected? then Failure(PublishFailed(postReply.text)) else Success(Posted(postReply.link));
  }

  // ---------------------------------------------------------------------
  // runWorkflow

  /** What `runWorkflow` returns. */
  datatype Outcome = Outcome(article: string, imageUrl: string, wordpressUrl: Published)

  /** `runWorkflow`: check the API key, then the topic, both before any
      request; then the article, the image and the publication, in that
      order, each step's result feeding the next. */
  function RunWorkflow(env: Env, inputAsText: Option<string>, remote: Remote): (r: Run<Outcome>)
    ensures Setting(env.openAiKey) == [] ==> r == Run(Failure(MissingApiKey), [])
    ensures Setting(env.openAiKey) != [] && Setting(inputAsText) == [] ==> r == Run(Failure(MissingTopic), [])
    ensures InOrder(r.calls)
  {
    var apiKey := Setting(env.openAiKey);
    if apiKey == [] then Run(Failure(MissingApiKey), [])
    else
      var topic := Setting(inputAsText);
      if topic == [] then Run(Failure(MissingTopic), [])
      else
        var chat := ChatRequest(ChatUrl(env.openAiBase), apiKey, topic);
        match Article(remote.chat(chat))
        case Failure(f) => Run(Failure(f), [ChatCall(chat)])
        case Success(article) =>
          var image := ImageRequest(apiKey, topic);
          var imageUrl := ImageUrl(remote.image(image));
          var publish := Publish(article, imageUrl, env, remote);
          var calls := [ChatCall(chat), ImageCall(image)] + publish.calls;
          ArticleAndImageFirst(chat, image, publish.calls);
          match publish.result
          case Failure(f) => Run(Failure(f), calls)
          case Success(wordpressUrl) => Run(Success(Outcome(article, imageUrl, wordpressUrl)), calls)
  }

  /** The article and image requests come before any publish request. */
  lemma ArticleAndImageFirst(chat: ChatRequest, image: ImageRequest, publish: seq<Call>)
    requires InOrder(publish) && forall k :: 0 <= k < |publish| ==> Rank(publish[k]) >= 2
    ensures InOrder([ChatCall(chat), ImageCall(image)] + publish)
  {
    var calls := [ChatCall(chat), ImageCall(image)] + publish;
    forall i, j | 0 <= i < j < |calls| ensures Rank(calls[i]) < Rank(calls[j]) {
      if j >= 2 {
        assert calls[j] == publish[j - 2];
        if i >= 2 { assert calls[i] == publish[i - 2]; }
      }
    }
  }

  /** Once the key and the topic are valid, the article is requested first,
      with the trimmed topic; a failed article stops the pipeline; otherwise
      the image is requested with the same topic and the article and image
      URL are handed to the publish step, whose requests and result are the
      pipeline's. */
  lemma RunWorkflowSteps(env: Env, inputAsText: Option<string>, remote: Remote)
    requires Setting(env.openAiKey) != [] && Setting(inputAsText) != []
    ensures var apiKey := Setting(env.openAiKey);
            var topic := Setting(inputAsText);
            var chat := ChatRequest(ChatUrl(env.openAiBase), apiKey, topic);
            var image := ImageRequest(apiKey, topic);
            var r := RunWorkflow(env, inputAsText, remote);
            && r.calls != [] && r.calls[0] == ChatCall(chat)
            && (Article(remote.chat(chat)).Failure? ==>
                  r == Run(Failure(Article(remote.chat(chat)).error), [ChatCall(chat)]))
            && (Article(remote.chat(chat)).Success? ==>
                  var article := Article(remote.chat(chat)).value;
                  var imageUrl := ImageUrl(remote.image(image));
                  var publish := Publish(article, imageUrl, env, remote);
                  && r.calls == [ChatCall(chat), ImageCall(image)] + publish.calls
                  && (publish.result.Failure? ==> r.result == Failure(publish.result.error))
                  && (publish.result.Success? ==>
                        r.result == Success(Outcome(article, imageUrl, publish.result.value))))
  {
  }

  // ---------------------------------------------------------------------
  // POST

  /** The parsed request body: its `input_as_text` (absent or `null` read as
      unset), or the error `req.json()` threw. */
  datatype WorkflowBody = Parsed(inputAsText: Option<string>) | Unparsable(message: string)

  datatype WorkflowResponse =
    | PlainText(status: nat, text: string)
    | Published200(message: string, outcome: Outcome)

  /** The route's reply to `POST /api/workflow?key=…`, with the requests made.
      `providedKey` is the `key` query parameter, `None` when absent. */
  function HandleWorkflow(env: Env, providedKey: Option<string>, body: WorkflowBody, remote: Remote)
    : (r: (WorkflowResponse, seq<Call>))
    // The configured key is read first.
    ensures env.publicKey.None? || env.publicKey.value == [] ==>
              r == (PlainText(500, MissingPublicKeyMessage), [])
    // Any other key, or none, is refused and nothing else happens.
    ensures env.publicKey.Some? && env.publicKey.value != [] && providedKey != env.publicKey ==>
              r == (PlainText(403, Unauthorized), [])
    ensures providedKey == env.publicKey && env.publicKey.Some? && env.publicKey.value != [] ==>
              match body
              case Unparsable(message) => r == (PlainText(500, message), [])
              case Parsed(input) =>
                var run := RunWorkflow(env, input, remote);
                && r.1 == run.calls
                && (run.result.Failure? ==> r.0 == PlainText(500, FaultMessage(run.result.error)))
                && (run.result.Success? ==> r.0 == Published200(SuccessMessage, run.result.value))
  {
    if env.publicKey.None? || env.publicKey.value == [] then
      (PlainText(500, FaultMessage(MissingPublicKey)), [])
    else if providedKey != env.publicKey then
      (PlainText(403, Unauthorized), [])
    else
      match body
      case Unparsable(message) => (PlainText(500, FaultMessage(BadBody(message))), [])
      case Parsed(input) =>
        var run := RunWorkflow(env, input, remote);
        match run.result
        case Failure(f) => (PlainText(500, FaultMessage(f)), run.calls)
        case Success(outcome) => (Published200(SuccessMessage, outcome), run.calls)
  }

  /** No request leaves the route unless the configured key is set and the
      caller supplied exactly that key, the API key is set and the topic is
      not blank; and the requests that do leave follow the pipeline's order. */
  lemma GateBeforeAnyRequest(env: Env, providedKey: Option<string>, body: WorkflowBody, remote: Remote)
    ensures var calls := HandleWorkflow(env, providedKey, body, remote).1;
            && (calls != [] ==>
                  && env.publicKey.Some? && env.publicKey.value != [] && providedKey == env.publicKey
                  && body.Parsed? && Setting(env.openAiKey) != [] && Setting(body.inputAsText) != [])
            && InOrder(calls)
  {
  }
}
