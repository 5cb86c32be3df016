/** The `POST` handler of app/api/publish/route.ts and its helper
    `deriveTitleFromContent`: validate the request body, read the WordPress
    settings, choose the title and status, convert the content to HTML, send
    one draft-post request and shape the reply.  The WordPress endpoint and
    `JSON.parse` are parameters: `cms` answers the request that was sent and
    `parse` says what a text parses to. */
module PublishRoute {
  import opened Results
  import opened Text
  import opened Escape
  import opened Markdown

  /** `DEFAULT_STATUS`. */
  const DefaultStatus: string := "draft"
  /** What `deriveTitleFromContent` returns when every line is blank. */
  const FallbackTitle: string := "Articulo generado"
  const MissingContent: string := "Missing content payload."
  const MissingConfig: string :=
    "Missing WordPress configuration. Set WORDPRESS_USERNAME, WORDPRESS_APP_PASSWORD and WORDPRESS_BASE_URL."
  const UnknownError: string := "Unknown error"
  const PostsPath: string := "/wp-json/wp/v2/posts"

  // ---------------------------------------------------------------------
  // deriveTitleFromContent

  /** The title a trimmed, non-blank line gives: a leading `#` or `##`
      followed by white space is dropped together with that white space and
      the rest is trimmed; any other line is the title as it is. */
  function LineTitle(line: string): (r: string)
    requires line != [] && Trimmed(line)
    ensures r != [] && Trimmed(r)
  {
    if StartsWith(line, "# ") then
      var r := Trim(TrimStart(line[1..]));
      TrimAfterTrimStart(line[1..]);
      NotBlankBeforeLast(line[1..]);
      TrimEmpty(line[1..]);
      r
    else if StartsWith(line, "## ") then
      var r := Trim(TrimStart(line[2..]));
      TrimAfterTrimStart(line[2..]);
      NotBlankBeforeLast(line[2..]);
      TrimEmpty(line[2..]);
      r
    else line
  }

  /** A string whose last character is not white space is not blank. */
  lemma NotBlankBeforeLast(s: string)
    requires s != [] && !IsSpace(s[|s| - 1])
    ensures !Blank(s)
  {
  }

  /** The loop of `deriveTitleFromContent`: the title of the first non-blank
      line, or the fallback when there is none. */
  function FirstTitle(lines: seq<string>): (r: string)
    ensures r != [] && Trimmed(r)
  {
    if lines == [] then FallbackTitle
    else
      var line := Trim(lines[0]);
      if line == [] then FirstTitle(lines[1..]) else LineTitle(line)
  }

  /** `deriveTitleFromContent(content)`. */
  function DeriveTitle(content: string): (r: string)
    ensures r != [] && Trimmed(r)
  {
    FirstTitle(Split(content))
  }

  /** When every line is blank the fallback is returned. */
  lemma {:induction false} FirstTitleAllBlank(lines: seq<string>)
    requires AllBlank(lines)
    ensures FirstTitle(lines) == FallbackTitle
  {
    if lines != [] {
      TrimEmpty(lines[0]);
      FirstTitleAllBlank(lines[1..]);
    }
  }

  /** Otherwise the title is that of the first non-blank line: lines before
      it are skipped, lines after it are never looked at. */
  lemma {:induction false} FirstTitleIsFirstNonBlank(lines: seq<string>, k: nat)
    requires k < |lines| && !Blank(lines[k])
    requires forall j :: 0 <= j < k ==> Blank(lines[j])
    ensures var line := Trim(lines[k]); line != [] && FirstTitle(lines) == LineTitle(line)
  {
    TrimEmpty(lines[0]);
    TrimEmpty(lines[k]);
    if k > 0 {
      FirstTitleIsFirstNonBlank(lines[1..], k - 1);
    }
  }

  /** The derived title is the fallback for white-space-only content. */
  lemma DeriveTitleBlank(content: string)
    requires Blank(content)
    ensures DeriveTitle(content) == FallbackTitle
  {
    BlankLines(content);
    FirstTitleAllBlank(Split(content));
  }

  /** For other content, the derived title is the title of the first
      non-blank line, the same line whose element `toHtml` emits first. */
  lemma {:induction false} FirstTitleNonBlank(lines: seq<string>)
    requires NonBlankLines(lines) != []
    ensures var line := NonBlankLines(lines)[0];
            line != [] && Trimmed(line) && FirstTitle(lines) == LineTitle(line)
  {
    var line := Trim(lines[0]);
    if line == [] {
      assert NonBlankLines(lines) == NonBlankLines(lines[1..]);
      FirstTitleNonBlank(lines[1..]);
    } else {
      assert NonBlankLines(lines)[0] == line;
    }
  }

  /** A heading line's title is the heading text `toHtml` emits for the same
      line, before escaping; a paragraph line's title is its whole text. */
  lemma LineTitleIsElementText(line: string)
    requires line != [] && Trimmed(line)
    requires !StartsWith(line, "- ")
    ensures LineElement(line).text == EscapeHtml(LineTitle(line))
  {
    if StartsWith(line, "# ") {
      SkipSpace(line[1..]);
      assert line[1..][1..] == line[2..];
      TrimAfterTrimStart(line[2..]);
    } else if StartsWith(line, "## ") {
      SkipSpace(line[2..]);
      assert line[2..][1..] == line[3..];
      TrimAfterTrimStart(line[3..]);
    }
  }

  lemma SkipSpace(s: string)
    requires s != [] && IsSpace(s[0])
    ensures TrimStart(s) == TrimStart(s[1..])
  {
  }

  /** Unless the first non-blank line is a list line, the first element
      `toHtml` emits carries the escaped derived title: the title of the
      post is the text of its first heading or paragraph. */
  lemma TitleMatchesFirstElement(content: string)
    requires NonBlankLines(Split(content)) != []
    requires !StartsWith(NonBlankLines(Split(content))[0], "- ")
    ensures Elements(Convert(content)) != []
    ensures var e := Elements(Convert(content))[0];
            e.IsElement() && e.text == EscapeHtml(DeriveTitle(content))
  {
    var lines := Split(content);
    OneElementPerLine(content);
    FirstTitleNonBlank(lines);
    NonBlankTrimmed(lines);
    LineTitleIsElementText(NonBlankLines(lines)[0]);
  }

  /** The lines `NonBlankLines` keeps are non-empty and trimmed. */
  lemma {:induction false} NonBlankTrimmed(lines: seq<string>)
    ensures forall k :: 0 <= k < |NonBlankLines(lines)| ==>
              NonBlankLines(lines)[k] != [] && Trimmed(NonBlankLines(lines)[k])
  {
    if lines != [] {
      NonBlankTrimmed(lines[1..]);
    }
  }

  // ---------------------------------------------------------------------
  // POST

  /** A field of the JSON body: absent (or `null`), a string, or some other
      JSON value. */
  datatype Field = Absent | Str(s: string) | NonString

  /** The request body once parsed as a JSON object. */
  datatype PublishBody = PublishBody(title: Field, content: Field, status: Field)

  /** The WordPress settings read from the environment, each possibly unset. */
  datatype WpEnv = WpEnv(username: Option<string>, appPassword: Option<string>, baseUrl: Option<string>)

  /** The draft-post request sent to WordPress.  The Basic authorization
      header is built from `username` and `appPassword`. */
  datatype DraftRequest = DraftRequest(
    url: string, username: string, appPassword: string,
    title: string, content: string, status: Field)

  /** The HTTP reply: its status code and its body as text (the empty text
      when the body cannot be read). */
  datatype HttpReply = HttpReply(status: nat, text: string)

  /** What `JSON.parse` makes of a text: not JSON at all, or a JSON value,
      together with its `message` field when that value is an object whose
      `message` is a string. */
  datatype Parsed = NotJson | Json(message: Option<string>)

  /** A JSON payload field: a raw text, the JSON value a text parses to, or `{}`. */
  datatype Detail = RawText(text: string) | JsonOf(text: string) | EmptyObject

  datatype Payload =
    | ErrorOnly(error: string)
    | CmsFailure(error: string, message: string, detail: Detail)
    | Created(post: Detail)

  datatype Response = Response(status: nat, payload: Payload)

  /** A 2xx status: `response.ok`. */
  predicate Ok(status: nat) {
    200 <= status <= 299
  }

  /** The first guard: a parsed object whose `content` is a non-blank string. */
  predicate ValidBody(body: Option<PublishBody>) {
    body.Some? && body.value.content.Str? && !Blank(body.value.content.s)
  }

  /** The base URL: trimmed, then with its trailing slashes removed. */
  function BaseUrl(v: Option<string>): (r: string)
    ensures r == [] || r[|r| - 1] != '/'
  {
    StripTrailingSlashes(Setting(v))
  }

  /** The second guard: username, application password and base URL all
      non-empty once trimmed. */
  predicate Configured(env: WpEnv) {
    Setting(env.username) != [] && Setting(env.appPassword) != [] && BaseUrl(env.baseUrl) != []
  }

  /** The post title: the caller's title, trimmed, when it is a string that is
      not blank; the title derived from the content otherwise. */
  function ChooseTitle(title: Field, content: string): (r: string)
    ensures r != [] && Trimmed(r)
    ensures title.Str? && !Blank(title.s) ==> r == Trim(title.s)
    ensures !(title.Str? && !Blank(title.s)) ==> r == DeriveTitle(content)
  {
    if !title.Str? then DeriveTitle(content)
    else
      TrimEmpty(title.s);
      if Trim(title.s) != [] then Trim(title.s) else DeriveTitle(content)
  }

  /** `body.status ?? DEFAULT_STATUS`. */
  function ChooseStatus(status: Field): (r: Field)
    ensures status.Absent? ==> r == Str(DefaultStatus)
    ensures !status.Absent? ==> r == status
  {
    if status.Absent? then Str(DefaultStatus) else status
  }

  /** `POST /api/publish`.  `sent` is the request made to WordPress, if any. */
  method Post(body: Option<PublishBody>, env: WpEnv,
              cms: DraftRequest -> HttpReply, parse: string -> Parsed)
    returns (response: Response, sent: Option<DraftRequest>)
    // The body is checked first, before the settings are looked at.
    ensures !ValidBody(body) ==> response == Response(400, ErrorOnly(MissingContent)) && sent == None
    ensures ValidBody(body) && !Configured(env) ==>
              response == Response(500, ErrorOnly(MissingConfig)) && sent == None
    // Otherwise exactly one request is sent, built as follows.
    ensures ValidBody(body) && Configured(env) ==>
              var b := body.value;
              && sent.Some?
              && sent.value.url == BaseUrl(env.baseUrl) + PostsPath
              && sent.value.username == Setting(env.username)
              && sent.value.appPassword == Setting(env.appPassword)
              && sent.value.title == ChooseTitle(b.title, b.content.s)
              && sent.value.content == Serialize(Convert(b.content.s))
              && sent.value.status == ChooseStatus(b.status)
    // A 2xx reply is passed on as the created post, or `{}` when its body is
    // not JSON.
    ensures sent.Some? && Ok(cms(sent.value).status) ==>
              var text := cms(sent.value).text;
              response == Response(200, Created(if parse(text).NotJson? then EmptyObject else JsonOf(text)))
    // Any other reply keeps its status; the message is the JSON `message`
    // string when there is one, else the raw text, else "Unknown error".
    ensures sent.Some? && !Ok(cms(sent.value).status) ==>
              var reply := cms(sent.value);
              && response.status == reply.status
              && response.payload.CmsFailure?
              && response.payload.error == "WordPress returned " + NatToString(reply.status)
              && (reply.text == [] ==> response.payload.message == UnknownError && response.payload.detail == RawText([]))
              && (reply.text != [] && parse(reply.text).Json? ==>
                    response.payload.detail == JsonOf(reply.text)
                    && response.payload.message ==
                       if parse(reply.text).message.Some? then parse(reply.text).message.value else reply.text)
              && (reply.text != [] && parse(reply.text).NotJson? ==>
                    response.payload.detail == RawText(reply.text) && response.payload.message == reply.text)
  {
    if body.None? || !body.value.content.Str? || Trim(body.value.content.s) == [] {
      if body.Some? && body.value.content.Str? {
        TrimEmpty(body.value.content.s);
      }
      return Response(400, ErrorOnly(MissingContent)), None;
    }
    var b := body.value;
    var content := b.content.s;
    TrimEmpty(content);

    var username := Setting(env.username);
    var appPassword := Setting(env.appPassword);
    var baseUrl := BaseUrl(env.baseUrl);
    if username == [] || appPassword == [] || baseUrl == [] {
      return Response(500, ErrorOnly(MissingConfig)), None;
    }

    var title := ChooseTitle(b.title, content);
    var contentHtml := ToHtml(content);
    var request := DraftRequest(baseUrl + PostsPath, username, appPassword, title, contentHtml, ChooseStatus(b.status));
    sent := Some(request);
    var reply := cms(request);

    if !Ok(reply.status) {
      var detailText := reply.text;
      var detail := RawText(detailText);
      var message := if detailText != [] then detailText else UnknownError;
      if detailText != [] {
        var json := parse(detailText);
        if json.Json? {
          if json.message.Some? {
            message := json.message.value;
          }
          detail := JsonOf(detailText);
        }
      }
      response := Response(reply.status, CmsFailure("WordPress returned " + NatToString(reply.status), message, detail));
      return;
    }

    var post := if parse(reply.text).NotJson? then EmptyObject else JsonOf(reply.text);
    response := Response(200, Created(post));
  }
}
