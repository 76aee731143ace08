/**
 * The `POST /api/analyze` handler: URL classification, identifier extraction,
 * one upstream page per platform normalised to `{id, username, text}`, the
 * empty short-circuit, the emoji strip and the merge of the scorer's output
 * by index.  The upstream services, the random fallback ids and the scorer
 * process are parameters of the handler.
 */
module Analyze {
  import opened Wrappers
  import opened JsText
  import opened UrlMatch
  import opened Emoji

  /** An error response: HTTP status and the `error` message of the body. */
  datatype HttpError = HttpError(status: nat, message: string)

  const URL_REQUIRED := HttpError(400, "URL required")
  const INVALID_INSTAGRAM := HttpError(400, "Invalid Instagram URL")
  const INVALID_YOUTUBE := HttpError(400, "Invalid YouTube URL")
  const UNSUPPORTED := HttpError(400, "Unsupported URL type")
  const FETCH_FAILED := HttpError(500, "Error fetching comments")
  const PARSE_FAILED := HttpError(500, "Failed to parse toxicity data")

  /** A supported post, with the identifier its upstream service is queried by. */
  datatype Platform = Instagram(code: JsString) | YouTube(videoId: JsString) | Facebook(link: JsString)

  /** Classification followed by extraction; each failure has its own error. */
  function Dispatch(url: JsString): (r: Result<Platform, HttpError>)
    ensures r == Err(UNSUPPORTED) <==> HostOf(url) == OtherHost
    ensures r == Err(INVALID_INSTAGRAM) <==> HostOf(url) == InstagramHost && InstagramShortcode(url).None?
    ensures r == Err(INVALID_YOUTUBE) <==> HostOf(url) == YouTubeHost && YouTubeVideoId(url).None?
    ensures r.Ok? && r.value.Instagram? ==> HostOf(url) == InstagramHost && r.value.code != [] && AllIdUnits(r.value.code)
    ensures r.Ok? && r.value.YouTube? ==> HostOf(url) == YouTubeHost && |r.value.videoId| == 11 && AllIdUnits(r.value.videoId)
    ensures r.Ok? && r.value.Facebook? ==> HostOf(url) == FacebookHost && r.value.link == url
    ensures r.Ok? && r.value.Instagram? ==> InstagramShortcode(url) == Some(r.value.code)
    ensures r.Ok? && r.value.YouTube? ==> YouTubeVideoId(url) == Some(r.value.videoId)
    ensures r.Err? ==> r.error in {UNSUPPORTED, INVALID_INSTAGRAM, INVALID_YOUTUBE}
  {
    match HostOf(url)
    case InstagramHost =>
      (match InstagramShortcode(url)
       case None => Err(INVALID_INSTAGRAM)
       case Some(code) => Ok(Instagram(code)))
    case YouTubeHost =>
      (match YouTubeVideoId(url)
       case None => Err(INVALID_YOUTUBE)
       case Some(id) => Ok(YouTube(id)))
    case FacebookHost => Ok(Facebook(url))
    case OtherHost => Err(UNSUPPORTED)
  }

  // ---------------------------------------------------------------------------
  // Upstream requests and responses

  /** The query string of an upstream request, as key-value pairs. */
  type Params = seq<(string, JsString)>

  predicate HasParam(q: Params, key: string)
  {
    exists k :: 0 <= k < |q| && q[k].0 == key
  }

  /**
   * The query of a paginated platform: the content id under `idKey`, and the
   * client's token under `tokenKey` only when that token is truthy.
   */
  function PagedParams(idKey: string, id: JsString, tokenKey: string, nextToken: Option<JsString>): (q: Params)
    requires idKey != tokenKey
    ensures (idKey, id) in q
    ensures HasParam(q, tokenKey) <==> Truthy(nextToken)
    ensures Truthy(nextToken) ==> (tokenKey, nextToken.value) in q
    ensures |q| == (if Truthy(nextToken) then 2 else 1)
  {
    if Truthy(nextToken) then
      var q := [(idKey, id), (tokenKey, nextToken.value)];
      assert q[1].0 == tokenKey;
      q
    else [(idKey, id)]
  }

  /** Instagram takes the shortcode as `code` and the token as `pagination_token`. */
  function InstagramParams(code: JsString, nextToken: Option<JsString>): Params
  {
    PagedParams("code", code, "pagination_token", nextToken)
  }

  /** YouTube takes the video id as `id` and the token as `token`. */
  function YouTubeParams(videoId: JsString, nextToken: Option<JsString>): Params
  {
    PagedParams("id", videoId, "token", nextToken)
  }

  /**
   * Facebook is queried by the whole URL and never paginated: the query is
   * this one constant entry whatever token the client sent, which is why the
   * function takes no token.
   */
  function FacebookParams(url: JsString): (q: Params)
    ensures q == [("link", url)]
  {
    [("link", url)]
  }

  /** The outcome of one upstream GET: its JSON body, or a transport or HTTP failure. */
  datatype Fetch<T> = Fetched(data: T) | FetchFailed

  /** `c.pk`, `c.text` and `c.user?.username` of an Instagram comment. */
  datatype IgComment = IgComment(pk: Option<JsString>, text: Option<JsString>, username: Option<JsString>)

  /** `data.body` and `data.meta?.pagination_token`. */
  datatype IgResponse = IgResponse(body: Option<seq<IgComment>>, paginationToken: Option<JsString>)

  datatype YtItem = YtItem(commentId: Option<JsString>, authorText: Option<JsString>, textDisplay: Option<JsString>)

  /** `data.data` and `data.continuation`. */
  datatype YtResponse = YtResponse(data: Option<seq<YtItem>>, continuation: Option<JsString>)

  /** `c.comment_id`, `c.id`, `c.comment_text`, `c.text`, `c.author?.name`, `c.user_name`. */
  datatype FbComment = FbComment(commentId: Option<JsString>, id: Option<JsString>,
                                 commentText: Option<JsString>, text: Option<JsString>,
                                 authorName: Option<JsString>, userName: Option<JsString>)

  /** `data.data.comments`. */
  datatype FbResponse = FbResponse(comments: Option<seq<FbComment>>)

  // ---------------------------------------------------------------------------
  // Normalisation to the common record

  /** A normalised comment; Instagram leaves `id` and `text` as the upstream gave them, possibly absent. */
  datatype Comment = Comment(id: Option<JsString>, username: JsString, text: Option<JsString>)


  function NormalizeInstagram(items: seq<IgComment>): (r: seq<Comment>)
    ensures |r| == |items|
    ensures forall i :: 0 <= i < |items| ==>
              r[i].id == items[i].pk && r[i].text == items[i].text
              && r[i].username == Or(items[i].username, UNKNOWN_USER)
  {
    seq(|items|, i requires 0 <= i < |items| =>
      Comment(items[i].pk, Or(items[i].username, UNKNOWN_USER), items[i].text))
  }

  /** `randomId(i)` is the random string drawn for the i-th comment when it has no id. */
  function NormalizeYouTube(items: seq<YtItem>, randomId: nat -> JsString): (r: seq<Comment>)
    ensures |r| == |items|
    ensures forall i :: 0 <= i < |items| ==>
              r[i].id == Some(Or(items[i].commentId, randomId(i)))
              && r[i].username == Or(items[i].authorText, UNKNOWN_USER)
              && r[i].text == Some(Or(items[i].textDisplay, []))
  {
    seq(|items|, i requires 0 <= i < |items| =>
      Comment(Some(Or(items[i].commentId, randomId(i))), Or(items[i].authorText, UNKNOWN_USER),
              Some(Or(items[i].textDisplay, []))))
  }

  function NormalizeFacebook(items: seq<FbComment>, randomId: nat -> JsString): (r: seq<Comment>)
    ensures |r| == |items|
    ensures forall i :: 0 <= i < |items| ==>
              r[i].id == Some(Or(items[i].commentId, Or(items[i].id, randomId(i))))
              && r[i].username == Or(items[i].authorName, Or(items[i].userName, UNKNOWN_USER))
              && r[i].text == Some(Or(items[i].commentText, Or(items[i].text, [])))
  {
    seq(|items|, i requires 0 <= i < |items| =>
      Comment(Some(Or(items[i].commentId, Or(items[i].id, randomId(i)))),
              Or(items[i].authorName, Or(items[i].userName, UNKNOWN_USER)),
              Some(Or(items[i].commentText, Or(items[i].text, [])))))
  }

  /** One normalised page and the token for the next one (`null` when there is none). */
  datatype Page = Page(comments: seq<Comment>, nextToken: Option<JsString>)

  /** The page a platform's upstream yields for the client's token, or None when the fetch fails. */
  function FetchPage(p: Platform, nextToken: Option<JsString>,
                     instagram: Params -> Fetch<IgResponse>, youtube: Params -> Fetch<YtResponse>,
                     facebook: Params -> Fetch<FbResponse>, randomId: nat -> JsString): (r: Option<Page>)
    ensures r.Some? ==> forall c :: c in r.value.comments ==> c.username != []
    ensures r.Some? && r.value.nextToken.Some? ==> r.value.nextToken.value != []
    ensures r.Some? && p.Facebook? ==> r.value.nextToken.None?
    ensures r.Some? && !p.Instagram? ==> forall c :: c in r.value.comments ==> c.text.Some? && c.id.Some?
    ensures p.Instagram? ==> (r.None? <==> instagram(InstagramParams(p.code, nextToken)).FetchFailed?)
    ensures p.YouTube? ==> (r.None? <==> youtube(YouTubeParams(p.videoId, nextToken)).FetchFailed?)
    ensures p.Facebook? ==> (r.None? <==> facebook(FacebookParams(p.link)).FetchFailed?)
    ensures p.Instagram? && r.Some? ==>
              var d := instagram(InstagramParams(p.code, nextToken)).data;
              r.value == Page(NormalizeInstagram(ListOr(d.body)), OrNull(d.paginationToken))
    ensures p.YouTube? && r.Some? ==>
              var d := youtube(YouTubeParams(p.videoId, nextToken)).data;
              r.value == Page(NormalizeYouTube(ListOr(d.data), randomId), OrNull(d.continuation))
    ensures p.Facebook? && r.Some? ==>
              var d := facebook(FacebookParams(p.link)).data;
              r.value == Page(NormalizeFacebook(ListOr(d.comments), randomId), None)
  {
    assert |UNKNOWN_USER| == 12;
    match p
    case Instagram(code) =>
      (match instagram(InstagramParams(code, nextToken))
       case FetchFailed => None
       case Fetched(data) => Some(Page(NormalizeInstagram(ListOr(data.body)), OrNull(data.paginationToken))))
    case YouTube(videoId) =>
      (match youtube(YouTubeParams(videoId, nextToken))
       case FetchFailed => None
       case Fetched(data) => Some(Page(NormalizeYouTube(ListOr(data.data), randomId), OrNull(data.continuation))))
    case Facebook(link) =>
      (match facebook(FacebookParams(link))
       case FetchFailed => None
       case Fetched(data) => Some(Page(NormalizeFacebook(ListOr(data.comments), randomId), None)))
  }

  // ---------------------------------------------------------------------------
  // Cleaning and scoring

  datatype CleanComment = CleanComment(id: Option<JsString>, username: JsString, text: JsString)

  /**
   * The emoji strip applied to every comment.  A comment without text makes
   * `text.replace` throw, which the handler reports as a fetch failure.
   */
  function CleanComments(cs: seq<Comment>): (r: Option<seq<CleanComment>>)
    ensures r.None? <==> exists i :: 0 <= i < |cs| && cs[i].text.None?
    ensures r.Some? ==> |r.value| == |cs|
    ensures r.Some? ==> forall i :: 0 <= i < |cs| ==>
              r.value[i].id == cs[i].id && r.value[i].username == cs[i].username
              && r.value[i].text == Clean(cs[i].text.value)
  {
    if forall i :: 0 <= i < |cs| ==> cs[i].text.Some? then
      Some(seq(|cs|, i requires 0 <= i < |cs| => CleanComment(cs[i].id, cs[i].username, Clean(cs[i].text.value))))
    else None
  }

  /** The texts sent to the scorer, in comment order. */
  function Texts(cs: seq<CleanComment>): (r: seq<JsString>)
    ensures |r| == |cs| && forall i :: 0 <= i < |cs| ==> r[i] == cs[i].text
  {
    seq(|cs|, i requires 0 <= i < |cs| => cs[i].text)
  }

  /** A comment of the response: the cleaned comment and its score, absent past the end of `scores`. */
  datatype ScoredComment = ScoredComment(id: Option<JsString>, username: JsString, text: JsString, toxicity: Option<real>)

  /** Element i gains `scores[i]`. */
  function MergeScores(cs: seq<CleanComment>, scores: seq<real>): (r: seq<ScoredComment>)
    ensures |r| == |cs|
    ensures forall i :: 0 <= i < |cs| ==>
              r[i].id == cs[i].id && r[i].username == cs[i].username && r[i].text == cs[i].text
    ensures forall i :: 0 <= i < |cs| ==> r[i].toxicity == (if i < |scores| then Some(scores[i]) else None)
  {
    seq(|cs|, i requires 0 <= i < |cs| =>
      ScoredComment(cs[i].id, cs[i].username, cs[i].text, if i < |scores| then Some(scores[i]) else None))
  }

  /** What the scorer's output parses to: `parsed.scores` and `parsed.avgToxicity`, each possibly absent. */
  datatype ScorerOutput = ScorerOutput(scores: Option<seq<real>>, avgToxicity: Option<real>)

  /** A response of the route. */
  datatype Reply =
    | Failed(error: HttpError)
    | Analysis(comments: seq<ScoredComment>, avgToxicity: Option<real>, nextToken: Option<JsString>)

  /**
   * The response once the scorer has exited: output that does not parse, or
   * parses to something without `scores`, is a parse failure.
   */
  function ScoredReply(clean: seq<CleanComment>, token: Option<JsString>, parsed: Option<ScorerOutput>): (r: Reply)
    ensures r == Failed(PARSE_FAILED) <==> parsed.None? || parsed.value.scores.None?
    ensures r.Failed? <==> parsed.None? || parsed.value.scores.None?
    ensures r.Analysis? ==> r.comments == MergeScores(clean, parsed.value.scores.value)
                            && r.avgToxicity == parsed.value.avgToxicity && r.nextToken == token
  {
    match parsed
    case None => Failed(PARSE_FAILED)
    case Some(out) =>
      (match out.scores
       case None => Failed(PARSE_FAILED)
       case Some(scores) => Analysis(MergeScores(clean, scores), out.avgToxicity, token))
  }

  /**
   * The scorer scores one text per comment, so every comment of the reply
   * carries its own score.
   */
  lemma OneScorePerComment(clean: seq<CleanComment>, token: Option<JsString>, out: ScorerOutput)
    requires out.scores.Some? && |out.scores.value| == |clean|
    ensures var r := ScoredReply(clean, token, Some(out));
            r.Analysis? && |r.comments| == |clean|
            && forall i :: 0 <= i < |clean| ==> r.comments[i].toxicity == Some(out.scores.value[i])
  {
  }

  /** A reply comment with a non-empty username and no dingbat or private-use code unit in its text. */
  predicate Tidy(c: ScoredComment)
  {
    c.username != [] && forall k :: 0 <= k < |c.text| ==> !IsSymbolUnit(c.text[k])
  }

  /**
   * Every comment of a successful scored reply has a username and a text
   * without the stripped symbol units.
   */
  lemma ScoredCommentsAreClean(comments: seq<Comment>, token: Option<JsString>, parsed: Option<ScorerOutput>)
    requires forall c :: c in comments ==> c.username != []
    requires CleanComments(comments).Some?
    ensures var r := ScoredReply(CleanComments(comments).value, token, parsed);
            r.Analysis? ==> forall c :: c in r.comments ==> Tidy(c)
  {
    var clean := CleanComments(comments).value;
    var r := ScoredReply(clean, token, parsed);
    if r.Analysis? {
      var merged := MergeScores(clean, parsed.value.scores.value);
      forall j | 0 <= j < |merged| ensures Tidy(merged[j]) {
        assert comments[j] in comments;
        assert merged[j].username == clean[j].username == comments[j].username;
        assert merged[j].text == clean[j].text == Clean(comments[j].text.value);
      }
      forall c | c in merged ensures Tidy(c) {
        var j :| 0 <= j < |merged| && merged[j] == c;
      }
    }
  }

  // ---------------------------------------------------------------------------
  // The handler

  /** The route's steps up to the fetched page: classification, extraction, the upstream GET. */
  method FetchComments(u: JsString, nextToken: Option<JsString>,
                       instagram: Params -> Fetch<IgResponse>, youtube: Params -> Fetch<YtResponse>,
                       facebook: Params -> Fetch<FbResponse>, randomId: nat -> JsString)
    returns (r: Result<Page, HttpError>)
    ensures Dispatch(u).Err? ==> r == Err(Dispatch(u).error)
    ensures Dispatch(u).Ok? ==>
              var page := FetchPage(Dispatch(u).value, nextToken, instagram, youtube, facebook, randomId);
              (page.None? ==> r == Err(FETCH_FAILED)) && (page.Some? ==> r == Ok(page.value))
  {
    var host := HostOf(u);
    if host == InstagramHost {
      var code := InstagramShortcode(u);
      if code.None? {
        return Err(INVALID_INSTAGRAM);
      }
      var response := instagram(InstagramParams(code.value, nextToken));
      if response.FetchFailed? {
        return Err(FETCH_FAILED);
      }
      var newNextToken := OrNull(response.data.paginationToken);
      var comments := NormalizeInstagram(ListOr(response.data.body));
      r := Ok(Page(comments, newNextToken));
    } else if host == YouTubeHost {
      var videoId := YouTubeVideoId(u);
      if videoId.None? {
        return Err(INVALID_YOUTUBE);
      }
      var response := youtube(YouTubeParams(videoId.value, nextToken));
      if response.FetchFailed? {
        return Err(FETCH_FAILED);
      }
      var comments := NormalizeYouTube(ListOr(response.data.data), randomId);
      var newNextToken := OrNull(response.data.continuation);
      r := Ok(Page(comments, newNextToken));
    } else if host == FacebookHost {
      var response := facebook(FacebookParams(u));
      if response.FetchFailed? {
        return Err(FETCH_FAILED);
      }
      var comments := NormalizeFacebook(ListOr(response.data.comments), randomId);
      r := Ok(Page(comments, None));
    } else {
      r := Err(UNSUPPORTED);
    }
  }

  /**
   * Spawns the scorer with the texts, accumulates its standard output chunk
   * by chunk and, on exit, parses the whole and merges the scores.
   */
  method RunScorer(clean: seq<CleanComment>, token: Option<JsString>,
                   scorer: seq<JsString> -> seq<JsString>, parse: JsString -> Option<ScorerOutput>)
    returns (reply: Reply)
    ensures reply == ScoredReply(clean, token, parse(Concat(scorer(Texts(clean)))))
  {
    var chunks := scorer(Texts(clean));
    var result: JsString := [];
    var i := 0;
    while i < |chunks|
      invariant 0 <= i <= |chunks|
      invariant result == Concat(chunks[..i])
    {
      assert chunks[..i + 1][..i] == chunks[..i];
      result := result + chunks[i];
      i := i + 1;
    }
    assert chunks[..|chunks|] == chunks;
    reply := ScoredReply(clean, token, parse(result));
  }

  /**
   * `router.post("/")`.  `randomId` stands for `Math.random()`; `scorer`
   * gives the chunks the scoring process writes to its standard output for
   * the texts it is sent, and `parse` is `JSON.parse` of their concatenation.
   * `scorerRan` says whether the process was spawned.
   */
  method HandleAnalyze(url: Option<JsString>, nextToken: Option<JsString>,
                       instagram: Params -> Fetch<IgResponse>, youtube: Params -> Fetch<YtResponse>,
                       facebook: Params -> Fetch<FbResponse>, randomId: nat -> JsString,
                       scorer: seq<JsString> -> seq<JsString>, parse: JsString -> Option<ScorerOutput>)
    returns (reply: Reply, scorerRan: bool)
    ensures !Truthy(url) ==> reply == Failed(URL_REQUIRED) && !scorerRan
    ensures Truthy(url) && Dispatch(url.value).Err? ==> reply == Failed(Dispatch(url.value).error) && !scorerRan
    ensures Truthy(url) && Dispatch(url.value).Ok? ==>
              var page := FetchPage(Dispatch(url.value).value, nextToken, instagram, youtube, facebook, randomId);
              && (page.None? ==> reply == Failed(FETCH_FAILED) && !scorerRan)
              && (page.Some? && page.value.comments == [] ==>
                    reply == Analysis([], Some(0.0), page.value.nextToken) && !scorerRan)
              && (page.Some? && page.value.comments != [] && CleanComments(page.value.comments).None? ==>
                    reply == Failed(FETCH_FAILED) && !scorerRan)
              && (page.Some? && page.value.comments != [] && CleanComments(page.value.comments).Some? ==>
                    var clean := CleanComments(page.value.comments).value;
                    scorerRan && reply == ScoredReply(clean, page.value.nextToken, parse(Concat(scorer(Texts(clean))))))
    ensures Truthy(url) && HostOf(url.value) == FacebookHost && reply.Analysis? ==> reply.nextToken.None?
    ensures reply.Analysis? ==> forall c :: c in reply.comments ==> Tidy(c)
  {
    scorerRan := false;
    if !Truthy(url) {
      reply := Failed(URL_REQUIRED);
      return;
    }
    var fetched := FetchComments(url.value, nextToken, instagram, youtube, facebook, randomId);
    if fetched.Err? {
      reply := Failed(fetched.error);
      return;
    }
    var comments := fetched.value.comments;
    var newNextToken := fetched.value.nextToken;
    if |comments| == 0 {
      reply := Analysis([], Some(0.0), newNextToken);
      return;
    }
    var cleaned := CleanComments(comments);
    if cleaned.None? {
      reply := Failed(FETCH_FAILED);
      return;
    }
    scorerRan := true;
    reply := RunScorer(cleaned.value, newNextToken, scorer, parse);
    ScoredCommentsAreClean(comments, newNextToken, parse(Concat(scorer(Texts(cleaned.value)))));
  }
}
