# AI Comment Analysis System — a Dafny model of its core

This project models the logic at the heart of the AI Comment Analysis System:

- **The analysis route** (`POST /api/analyze`). It classifies a post URL as Instagram, YouTube or Facebook, and extracts the shortcode or video id. It fetches one page of comments from the platform's scraping service and normalises it to `{id, username, text}`. An empty page returns at once. Otherwise it strips emoji and trims each text, runs the toxicity scorer, and merges the scores back by index.
- **The dashboard** (`ReelAnalyzer`). This is a class with the component's state. It covers analysing a URL, "load more" with de-duplication by id, Clear, and the toxicity header. It includes the queued hide with its undo, its ten-second timer and unhide. It also covers the visible-comments filter and sort, the five-bucket histogram, and the clean/toxic pie counts.
- **The save and history routes.** Save formats comments into stored records and rejects an empty save. History returns the caller's records, newest first, at most 100.

JavaScript strings are sequences of UTF-16 code units (`JsText.JsString`), because the emoji pattern works on code units. Toxicity values are exact reals. JavaScript's `||`, `??`, `typeof x === "number"` and `!!` are written out as functions in `JsText`.

When verifying a contract, the project found one defect in the dashboard's timer cleanup; see "## Findings".

Modules, in dependency order:

- `Wrappers`: `Option` and `Result`.
- `JsText`: the JavaScript string and value operations.
- `Sorting`: the stable sort that stands for `Array.prototype.sort` and the store's `sort`.
- `UrlMatch`: host priority and the hand-written matchers for the fixed patterns.
- `Emoji`: the cleaner.
- `Analyze`: the analysis route.
- `CommentView`: the dashboard's pure computations.
- `Dashboard`: the component class.
- `SaveHistory`: the save and history routes.
- `Wire`: the links between the route's reply and the dashboard, and between the client-side URL check and the route.

External inputs become parameters:

- the three upstream services (`Params -> Fetch<...>`);
- `Math.random()` and `crypto.randomUUID()` (a function from the comment's index to an id);
- the scorer process: the output chunks it writes for the texts it is sent, and `JSON.parse` of their concatenation;
- the reply an axios request resolves to;
- the authenticated user id, the insertion clock and the outcome of the store's insert and query.

## Model

| member | source | states |
|---|---|---|
| UrlMatch.HostOf | backend/routes/analyze.js:17-113 | The host is Instagram exactly when the URL mentions `instagram.com` anywhere. It is YouTube exactly when it does not, but mentions `youtube.com` or `youtu.be`. It is Facebook exactly when it mentions none of those but does mention `facebook.com`. |
| UrlMatch.RunFrom | backend/routes/analyze.js:19-21 | The greedy `[a-zA-Z0-9_-]+` run: a slice of the input made only of id characters. It is maximal (the next unit is not an id character, or the input ends) and non-empty when it starts on an id character. |
| UrlMatch.FirstSegment | backend/routes/analyze.js:19-21 | Finds the leftmost position at or after `i` where the prefix is followed by an id character; None exactly when there is none. |
| UrlMatch.MatchSegment | backend/routes/analyze.js:19-21 | `url.match(/\/prefix\/([a-zA-Z0-9_-]+)/)`: None exactly when no position matches. Otherwise the capture is non-empty, made only of id characters, and taken at a matching position. |
| UrlMatch.InstagramShortcode | backend/routes/analyze.js:18-24 | Tries `/reel/`, then `/p/`, then `/tv/`: the result is the `/reel/` capture when it matches, else the `/p/` capture when that matches, else the `/tv/` capture. It is None exactly when all three fail. A shortcode is non-empty and made only of `[A-Za-z0-9_-]`. |
| UrlMatch.VideoIdStart | backend/routes/analyze.js:59 | At position `i`, `v=` and then `/` is tried. A match starts right after the `v=` or `/` found at `i`, and the result is none exactly when neither alternative matches there. The 11 id characters that follow must be followed by the end of input, or by `?` or `&` and a tail with no line terminator. |
| UrlMatch.FirstVideoIdMatch | backend/routes/analyze.js:59 | Finds the leftmost matching start at or after `i`; None exactly when no later position matches. |
| UrlMatch.YouTubeVideoId | backend/routes/analyze.js:59-62 | None exactly when no position matches the video-id pattern. Otherwise the id has exactly 11 characters from `[0-9A-Za-z_-]` and is taken from the leftmost matching position, right after its `v=` or `/`. The id ends the URL or is followed by `?` or `&`. |
| Analyze.Dispatch | backend/routes/analyze.js:17-113 | The host checks of lines 17-24 and the per-platform extraction and error branches of lines 58-62, 85 and 111-113. Gives 400 "Unsupported URL type" exactly for an unrecognised host. Gives 400 "Invalid Instagram URL" or "Invalid YouTube URL" exactly when that host's extraction fails; no other error is possible. The Instagram code is the shortcode matcher's capture, the YouTube id the video-id matcher's capture, and the Facebook link the whole URL. |
| Analyze.PagedParams | backend/routes/analyze.js:28-30 | The query holds the content id under its key (`code` for Instagram here, `id` for YouTube at line 66). It has the token key (`pagination_token`, `token`) exactly when the client's token is truthy, and then with the token itself. It has no other entries: two with a truthy token, one without. |
| Analyze.FacebookParams | backend/routes/analyze.js:91 | Facebook is queried by `link` only, whatever the client's token. |
| Analyze.NormalizeInstagram | backend/routes/analyze.js:43-50 | One comment per upstream item, in order. The id and text are `pk` and `text` as given (possibly absent); the username is `user.username`, or "unknown_user" when that is empty or absent. |
| Analyze.NormalizeYouTube | backend/routes/analyze.js:73-78 | One comment per item, in order. The id is `commentId` or a random one; the username is `authorText` or "unknown_user"; the text is `textDisplay` or "". |
| Analyze.NormalizeFacebook | backend/routes/analyze.js:99-104 | One comment per item, in order. The id is `comment_id`, then `id`, then a random one; the text is `comment_text`, then `text`, then ""; the username is `author.name`, then `user_name`, then "unknown_user". |
| Analyze.FetchPage | backend/routes/analyze.js:28-108 | The page fails exactly when the platform's fetch fails. Otherwise its comments are the platform's normalisation of `body \|\| []`, `data \|\| []` or `comments \|\| []`, and its token is `meta?.pagination_token \|\| null` for Instagram, `continuation \|\| null` for YouTube and null for Facebook. Every username is non-empty, and YouTube and Facebook comments always have an id and a text. |
| Analyze.CleanComments | backend/routes/analyze.js:119-125 | Fails (the `text.replace` TypeError) exactly when some comment has no text. Otherwise it keeps count, order, id and username, and every text is cleaned. |
| Analyze.Texts | backend/routes/analyze.js:129 | The scorer's input: one text per comment, in order. |
| Analyze.MergeScores | backend/routes/analyze.js:146-149 | Same length and order. Element i keeps its id, username and text and gains `scores[i]`, or no score when `scores` is shorter. |
| Analyze.ScoredReply | backend/routes/analyze.js:144-159 | Gives 500 "Failed to parse toxicity data" exactly when the output does not parse or has no `scores`, and no other failure is possible. Otherwise it returns the merged comments, the scorer's `avgToxicity` and the page's token. |
| Analyze.OneScorePerComment | backend/ml/toxicity_model.py:17-32 | When the scorer gives one score per text, every comment of the reply carries its own score. |
| Analyze.ScoredCommentsAreClean | backend/routes/analyze.js:119-155 | Every comment of a scored reply has a non-empty username and no dingbat or private-use code unit in its text. |
| Analyze.FetchComments | backend/routes/analyze.js:12-113 | The branch-by-branch fetch, with its reassigned locals, returns Dispatch's error, 500 "Error fetching comments" on a failed fetch, or exactly FetchPage's page. |
| Analyze.RunScorer | backend/routes/analyze.js:128-160 | The loop that accumulates the scorer's output chunk by chunk yields the reply for the parse of their concatenation. |
| Analyze.HandleAnalyze | backend/routes/analyze.js:7-165 | A missing or empty `url` gives 400 "URL required", and classification errors are passed through; neither runs the scorer. A failed fetch, or a comment with no text, gives 500 "Error fetching comments". An empty page gives `{comments: [], avgToxicity: 0, nextToken}` without running the scorer. Otherwise the scorer runs once and the reply is ScoredReply of its output. Facebook replies have no token. Every returned comment has a username and a symbol-free text. |
| Emoji.StripEmoji | backend/routes/analyze.js:121-123 | The strip never lengthens the text, and no dingbat or private-use code unit survives it. StripEmojiAppend and KeepsUnmatchedUnit state that the units outside the matches are kept, in order. |
| Emoji.Clean | backend/routes/analyze.js:121-124 | The cleaned text is no longer than the input, has no JavaScript whitespace at either end, and has no dingbat or private-use unit. |
| Emoji.StripEmojiClean | backend/routes/analyze.js:122 | On well-formed UTF-16 the strip leaves well-formed text in which no position starts a match: no symbol unit and none of the removed surrogate pairs. |
| Emoji.StripEmojiAppend | backend/routes/analyze.js:121-123 | A cut anywhere except inside a removed surrogate pair splits the strip: the strip of `a + b` is the strip of `a` followed by the strip of `b`. |
| Emoji.StripEmojiAppendStep | backend/routes/analyze.js:121-123 | Let `n` be the length of the first match of `a`, or 1 for an unmatched first unit. If the strip of `a[n..] + b` splits at the cut, then so does the strip of `a + b`, because `a + b` starts with the same match or unit. |
| Emoji.StripEmojiStep | backend/routes/analyze.js:121-123 | One step of the global replace: a match of one or two units at the front is dropped, and an unmatched first unit is kept before the strip of the rest. |
| Emoji.KeepsUnmatchedUnit | backend/routes/analyze.js:121-123 | A unit that is not a symbol and does not start a removed pair with the next unit survives in front of the strip of the rest. |
| Emoji.StripEmojiIdentity | backend/routes/analyze.js:122 | Text with no match is left unchanged by the strip. |
| Emoji.TrimStartKeepsClean | backend/routes/analyze.js:124 | Trimming the start keeps well-formed, emoji-free text so. |
| Emoji.DropLastKeepsClean | backend/routes/analyze.js:124 | Dropping a trailing whitespace unit keeps well-formed, emoji-free text so. |
| Emoji.TrimEndKeepsClean | backend/routes/analyze.js:124 | Trimming the end keeps well-formed, emoji-free text so. |
| Emoji.CleanIsClean | backend/routes/analyze.js:121-124 | A cleaned well-formed text is well-formed and emoji-free. |
| Emoji.CleanIdempotent | backend/routes/analyze.js:121-124 | On well-formed input, cleaning twice equals cleaning once. |
| Emoji.StripNotIdempotentOnLoneSurrogates | backend/routes/analyze.js:122 | Without well-formedness the strip is not idempotent: on D83C 2700 DC00 the second pass removes the pair the first pass created. |
| JsText.Or | backend/routes/analyze.js:49 | `s \|\| d` is `s` when it is a non-empty string and `d` otherwise. It is non-empty when `d` is. |
| JsText.MessageOr | frontend/src/components/ReelAnalyzer.jsx:167 | `a \|\| b \|\| d` is `a` when it is a non-empty string, else `b` when that is, else `d`; it is non-empty when `d` is. |
| JsText.OrNull | backend/routes/analyze.js:44 | `s \|\| null` keeps a truthy string and turns an absent or empty one into null, so the result is never the empty string. |
| JsText.Coalesce | frontend/src/components/ReelAnalyzer.jsx:151-152 | `s ?? d` falls back only when `s` is absent, so an empty string is kept. |
| JsText.NumberOr | frontend/src/components/ReelAnalyzer.jsx:153-158 | Gives `a` if it is a number, else `b` if that is a number, else 0. |
| JsText.IncludesSpec | frontend/src/components/ReelAnalyzer.jsx:141 | The scanning `includes` holds exactly when the pattern occurs at some index. |
| JsText.ToLower | frontend/src/components/ReelAnalyzer.jsx:227-228 | Lower-casing keeps the length, maps each ASCII capital to its small letter and keeps every other code unit. |
| JsText.ToLowerIdempotent | frontend/src/components/ReelAnalyzer.jsx:227-228 | Lower-casing an already lower-cased text changes nothing. |
| JsText.ToLowerKeepsOthers | frontend/src/components/ReelAnalyzer.jsx:227-228 | A text without ASCII capitals is its own lower-case form. |
| JsText.TrimStart | backend/routes/analyze.js:124 | Gives a suffix of the input. Every dropped unit is whitespace, and the result is empty or starts with a non-space. |
| JsText.TrimEnd | backend/routes/analyze.js:124 | Gives a prefix of the input. Every dropped unit is whitespace, and the result is empty or ends with a non-space. |
| JsText.Trim | backend/routes/analyze.js:124 | The trimmed text is no longer than the input and has no whitespace at either end. |
| JsText.TrimOfTrimmed | backend/routes/analyze.js:124 | Text with no whitespace at either end is its own trim. |
| JsText.TrimIdempotent | backend/routes/analyze.js:124 | Trimming twice equals trimming once. |
| JsText.TrimIsSlice | backend/routes/analyze.js:124 | The trim is a contiguous slice of the input. |
| Wrappers.ListOr | backend/routes/analyze.js:43 | `xs \|\| []` on an optional array: the array itself, or empty when it is absent. |
| Sorting.Insert | frontend/src/components/ReelAnalyzer.jsx:232-235 | Inserting adds exactly the one element to the multiset. |
| Sorting.SortBy | frontend/src/components/ReelAnalyzer.jsx:232-235 | Sorting is a permutation of the input. |
| Sorting.InsertSorted | frontend/src/components/ReelAnalyzer.jsx:232-235 | Under a total preorder, insertion into a sorted list keeps it sorted. |
| Sorting.SortBySorted | frontend/src/components/ReelAnalyzer.jsx:232-235 | Under a total preorder, the result of SortBy is sorted. |
| CommentView.CoalesceChain | frontend/src/components/ReelAnalyzer.jsx:150 | `a ?? b ?? c ?? d`: the first present value, else `d`. |
| CommentView.NormalizeAnalyzed | frontend/src/components/ReelAnalyzer.jsx:149-160 | Keeps count and order. The id is `id ?? _id ?? igCommentId ?? uuid`; the username is `?? "unknown_user"`; the text is `?? ""`. The toxicity is `toxicity` if it is a number, else `overallToxicity` if that is a number, else 0. `hidden` is `!!hidden`. |
| CommentView.NormalizePage | frontend/src/components/ReelAnalyzer.jsx:368-374 | Like NormalizeAnalyzed, except that the username is `username \|\| author \|\| user.username \|\| "unknown_user"` and is never empty, and the text falls back to `textDisplay` before "". |
| CommentView.Ids | frontend/src/components/ReelAnalyzer.jsx:378 | The id set has exactly the ids of the list. |
| CommentView.Unseen | frontend/src/components/ReelAnalyzer.jsx:379 | The filtered page is never longer than the page; which comments it keeps, and how often, is stated by CommentView.UnseenCounts. |
| CommentView.UnseenCounts | frontend/src/components/ReelAnalyzer.jsx:379 | Exactly the page's comments whose id is not already present are kept, each as often as the page has it. |
| CommentView.UnseenSnoc | frontend/src/components/ReelAnalyzer.jsx:379 | A comment added at the end of the page is kept, at the end, exactly when its id is unseen. |
| CommentView.UnseenAppend | frontend/src/components/ReelAnalyzer.jsx:379 | Filtering distributes over concatenation, so the kept comments stay in page order. |
| CommentView.UnseenDistinct | frontend/src/components/ReelAnalyzer.jsx:379 | Filtering a page with distinct ids keeps them distinct. |
| CommentView.MergePage | frontend/src/components/ReelAnalyzer.jsx:377-385 | The previous list is a prefix of the result, and what follows it is exactly the page's comments with an unseen id, in page order. If the page brings nothing new, the result is exactly the previous list. Afterwards every id of the page is present. |
| CommentView.MergePageIdempotent | frontend/src/components/ReelAnalyzer.jsx:377-385 | Merging the same page twice equals merging it once. |
| CommentView.MergePageDistinct | frontend/src/components/ReelAnalyzer.jsx:377-385 | If the list and the page each have distinct ids, so does the result. |
| CommentView.LengthFiltersPartition | frontend/src/components/ReelAnalyzer.jsx:217-223 | "short", "medium" and "long" are pairwise disjoint and together cover every non-zero length. An empty text passes only under "all". |
| CommentView.FilterVisible | frontend/src/components/ReelAnalyzer.jsx:207-229 | A comment is in the result exactly when it is in the list and passes every filter: not hidden, not pending, not above 0.6 when toxic comments are hidden, toxicity within [min, max], length and search. Each passing comment keeps its multiplicity. |
| CommentView.LexLeTotal | frontend/src/components/ReelAnalyzer.jsx:233 | The code-unit order standing for `localeCompare` is total. |
| CommentView.LexLeTransitive | frontend/src/components/ReelAnalyzer.jsx:233 | The code-unit order is transitive. |
| CommentView.LexLeAntisymmetric | frontend/src/components/ReelAnalyzer.jsx:233 | The code-unit order is antisymmetric. |
| CommentView.OrderIsTotalPreorder | frontend/src/components/ReelAnalyzer.jsx:232-235 | Each of the four comparators (toxicity or username, ascending or descending) gives a total preorder, so sorting by it is well defined. |
| CommentView.Clamp | frontend/src/components/ReelAnalyzer.jsx:243 | The clamped value lies in [0, 1] and equals the input when the input is already there. It is 0 below the range and 1 above it. |
| CommentView.Bucket | frontend/src/components/ReelAnalyzer.jsx:243-244 | The bucket is in 0..4, and the clamped toxicity lies in its fifth of [0, 1]. Toxicity 1 or more lands in bucket 4, and toxicity 0 or less in bucket 0. |
| CommentView.SortedVisible | frontend/src/components/ReelAnalyzer.jsx:206-237 | Sorting the filtered comments keeps exactly the comments that pass every filter, each as often as in the list, and leaves them ordered by the selected key and direction. |
| CommentView.CountInBucketStep | frontend/src/components/ReelAnalyzer.jsx:241-246 | Counting one more comment raises its own bucket's count by one and leaves the other buckets unchanged. |
| CommentView.BucketsCoverAll | frontend/src/components/ReelAnalyzer.jsx:241-246 | The five bucket counts sum to the number of comments. |
| CommentView.PieCounts | frontend/src/components/ReelAnalyzer.jsx:256-263 | Gives toxic + clean = the number of comments, where toxic counts toxicity above 0.6. |
| CommentView.PieIsPartition | frontend/src/components/ReelAnalyzer.jsx:256-263 | The clean slice counts exactly the comments at or below the threshold. |
| CommentView.HeaderClick | frontend/src/components/ReelAnalyzer.jsx:650-653 | The toxicity header selects the toxicity order. It is ascending exactly when the order was toxicity/descending, and descending otherwise; the other filters are unchanged. |
| CommentView.HeaderClickTwice | frontend/src/components/ReelAnalyzer.jsx:650-653 | On the toxicity order, two clicks restore the direction. |
| CommentView.SetHidden | frontend/src/components/ReelAnalyzer.jsx:301-338 | The `prev.map` of lines 301 and 338: Only comments with the given id change, and only in their `hidden` flag. |
| Dashboard.ReelAnalyzer.constructor | frontend/src/components/ReelAnalyzer.jsx:100-116 | The initial state: empty URL, list and error; null average and token; toxicity order descending; range [0, 1]; all lengths; no pending hides. |
| Dashboard.ReelAnalyzer.AnalyzeUrl | frontend/src/components/ReelAnalyzer.jsx:136-171 | A request is sent exactly when the URL is non-empty and names one of the four hosts; otherwise the error is "Enter a valid Instagram or YouTube URL." and nothing else changes. On a reply, it stores the normalised comments, `avgToxicity ?? 0` and `nextToken \|\| null`, and clears the error. On a failure, the error is the server's error, else the exception's message, else "Analysis failed", and the list is kept. |
| Dashboard.ReelAnalyzer.LoadMore | frontend/src/components/ReelAnalyzer.jsx:357-392 | On a reply, the list becomes MergePage of the old list and the normalised page, and the token becomes `nextToken \|\| null`. A failure changes nothing. The old list is always a prefix, and distinct ids stay distinct. |
| Dashboard.ReelAnalyzer.Clear | frontend/src/components/ReelAnalyzer.jsx:447 | Resets the URL, list, average and error; it leaves the token and the pending hides alone. |
| Dashboard.ReelAnalyzer.ClickToxicityHeader | frontend/src/components/ReelAnalyzer.jsx:650-653 | The filters become HeaderClick of the old ones. |
| Dashboard.ReelAnalyzer.ClearPendingHide | frontend/src/components/ReelAnalyzer.jsx:285-295 | Removes the id from the pending hides and clears its timer. It keeps the timer invariant, and afterwards no armed timer hides that id. |
| Dashboard.ReelAnalyzer.StartHideComment | frontend/src/components/ReelAnalyzer.jsx:297-330 | Replaces any pending hide of the id with a new one whose fresh timer is armed. Exactly one armed timer then hides that id. |
| Dashboard.ReelAnalyzer.UndoHideComment | frontend/src/components/ReelAnalyzer.jsx:332-335 | Removes the id from the pending hides and disarms its timer; the comment list is untouched. |
| Dashboard.ReelAnalyzer.TimerFires | frontend/src/components/ReelAnalyzer.jsx:300-310 | An armed timer sets `hidden` only on the comments with its id, and removes that id from the pending hides. A cleared timer does nothing. The invariant is kept. |
| Dashboard.ReelAnalyzer.UnhideComment | frontend/src/components/ReelAnalyzer.jsx:337-340 | Sets `hidden = false` only on that id. |
| Dashboard.ReelAnalyzer.ToggleHideComment | frontend/src/components/ReelAnalyzer.jsx:342-348 | Dispatches on `currentlyHidden`: unhide, or queue a hide with a fresh armed timer. |
| Dashboard.ReelAnalyzer.Unmount | frontend/src/components/ReelAnalyzer.jsx:351-355 | The unmount cleanup clears the timers of all pending hides; in a valid state no timer is left armed. |
| Dashboard.ReelAnalyzer.RunEffectsAsWritten | frontend/src/components/ReelAnalyzer.jsx:351-355 | With `pendingHides` as a dependency, every change runs the previous run's cleanup, which clears the timers of the map it captured. |
| Dashboard.ReelAnalyzer.VisibleComments | frontend/src/components/ReelAnalyzer.jsx:206-237 | The filter loop and sort yield exactly the comments passing every filter, each with its multiplicity, sorted by the selected key and direction. |
| Dashboard.ReelAnalyzer.Histogram | frontend/src/components/ReelAnalyzer.jsx:240-254 | There are exactly five counters; counter b counts the comments in bucket b, and they sum to the number of comments. |
| Dashboard.LostHideAsWritten | frontend/src/components/ReelAnalyzer.jsx:297-355 | As written, after hiding A and then B, A stays pending with no armed timer and is never shown again. |
| Dashboard.TwoHidesBothFire | frontend/src/components/ReelAnalyzer.jsx:297-348 | Without the cleanup on change, both queued hides take effect. |
| SaveHistory.Format | backend/routes/analyzeRoutes.js:21-33 | One record per item, in order, each with the caller's id and the insertion time. Defaults are "Anonymous", "" and "Unknown URL". The toxicity is `toxicity` if it is a number, else `toxicityScore` if that is a number, else 0. |
| SaveHistory.Save | backend/routes/analyzeRoutes.js:10-45 | A missing or empty list gives 400 "No comments provided" and inserts nothing. A failed insert gives 500 "Server error while saving comments" with the store unchanged. Otherwise it returns 201, the store grows by exactly the formatted records, and `count` is the number saved. |
| SaveHistory.SaveKeepsRecords | backend/routes/analyzeRoutes.js:21-35 | A save keeps every existing record in place, and every new record belongs to the caller. |
| SaveHistory.OwnedBy | backend/routes/analyzeRoutes.js:52 | Gives exactly the caller's records, each with its multiplicity. |
| SaveHistory.PrefixPrecedesRest | backend/routes/analyzeRoutes.js:53-54 | In a sorted list, everything left out of a prefix may follow every element of the prefix. |
| SaveHistory.NewestFromOwned | backend/routes/analyzeRoutes.js:53-54 | A prefix of the sorted list takes every record at most as often as the caller has it, and all of them when nothing is cut. |
| SaveHistory.NewestOrdered | backend/routes/analyzeRoutes.js:53 | A prefix of the list sorted newest first is itself newest first. |
| SaveHistory.NewestCutoff | backend/routes/analyzeRoutes.js:53-54 | A record dropped by the limit of 100 is no newer than any record kept, and a record is dropped only when 100 are kept. |
| SaveHistory.NewestFacts | backend/routes/analyzeRoutes.js:53-54 | The first hundred by recency are a sub-multiset of the input, the whole input when it has at most 100 records, in non-increasing order, and none is older than a left-out record. |
| SaveHistory.History | backend/routes/analyzeRoutes.js:49-60 | At most 100 of the caller's own records, each at most as often as stored and all of them when the caller has at most 100, in non-increasing `analyzedAt`. A record of the caller that is left out is no newer than any returned one. |
| SaveHistory.HistoryRoute | backend/routes/analyzeRoutes.js:49-60 | A failed query gives 500 "Server error"; otherwise the reply is History. |
| Wire.ToWire | backend/routes/analyze.js:146-155 | The JSON form of a scored comment. It carries its username and text. An absent id or score is dropped. |
| Wire.BodyOf | backend/routes/analyze.js:151-155 | A body is present exactly for a successful reply. It carries the comments, the average and the token. |
| Wire.AnalysisReachesDashboard | frontend/src/components/ReelAnalyzer.jsx:149-160 | The dashboard keeps every analysed comment in order. Username and text are kept. The toxicity is the route's score, or 0 when it has none. The comment is shown, and keeps its own id or gets a random one. |
| Wire.NormalisationsAgreeOnReplies | frontend/src/components/ReelAnalyzer.jsx:149-374 | The mapping of lines 149-160 and the one of lines 368-374. The two mappings agree on every reply of the analysis route. |
| Wire.NormalisationsDifferOnEmptyUsername | frontend/src/components/ReelAnalyzer.jsx:151-370 | The username fallbacks of lines 151 and 370: On an empty username, the first mapping keeps "" and the second gives "unknown_user". |
| Wire.ClientCheckMatchesRoute | frontend/src/components/ReelAnalyzer.jsx:141 | The client sends exactly the URLs the route assigns to a supported platform. |
| Dashboard.UrlAccepted | frontend/src/components/ReelAnalyzer.jsx:141 | The client accepts a URL exactly when it is non-empty and mentions instagram.com, youtube.com, youtu.be or facebook.com. |

## Left out

- The HTTP transport and the scraping services' endpoints, headers and API key (backend/routes/analyze.js:32-41, 65-71, 88-97). Each upstream call is a parameter returning a parsed body or a failure.
- The scorer process: spawn, stdin, stderr logging and the classifier in backend/ml/toxicity_model.py. It is a parameter giving the stdout chunks, and parsing is a parameter. Its one-score-per-text behaviour is only a hypothesis of Analyze.OneScorePerComment.
- Random ids (`Math.random()`, `crypto.randomUUID()`) are parameters indexed by position, so their freshness is not modelled.
- Floating point: toxicity is an exact real, so NaN, the infinities and `parseFloat` of the range inputs are not modelled; `formatPct` is presentation.
- JSON values of unexpected types, such as a numeric `url` or id, or a non-array `comments` or `scores`: the model types these fields as strings and lists.
- `toLowerCase` is ASCII-only, and `localeCompare` is taken as code-unit order (a total order).
- Dashboard.ReelAnalyzer.VisibleComments: the in-place `arr.sort` is modelled by the stable insertion sort `Sorting.SortBy` on a sequence, and stability itself is not stated. The JavaScript applies the four filters in successive passes; the model filters once by their conjunction, which keeps the same elements in the same order.
- SaveHistory.History: the document store's tie order among equal `analyzedAt` values is not specified. The model breaks ties by store order.
- SaveHistory.Save: a failed `insertMany` is modelled as all-or-nothing, though an ordered insert may keep a prefix. The `createdAt` field is dropped, because the schema (backend/models/comment.js:4-16) does not declare it. The stored time is the schema's `analyzedAt` default.
- Loading flags, toasts, dark mode, charts, CSV export, clipboard and rendering (frontend/src/components/ReelAnalyzer.jsx:396-797) are presentation.
- The setters of the URL input, search box, range selects, length select and "hide toxic" checkbox are not modelled as methods; they only assign `url` or a field of `filters`.
- Authentication (the bearer token and the 401 responses), the auth routes, server wiring and the commented-out code are not part of this model.

## Findings

| source | as written | input that shows it | evidently intended | confidence | as-written member | corrected member |
|---|---|---|---|---|---|---|
| frontend/src/components/ReelAnalyzer.jsx:351-355 | The "cleanup on unmount" effect lists `pendingHides` as a dependency. Its cleanup therefore also runs on every change of `pendingHides`, and clears every timer of the previous map. | Hide comment A, then hide comment B within ten seconds. A's timer is cleared, so A stays in `pendingHides`, is filtered out of the visible list, and is never hidden or restored. | Timers are cleared only when the component unmounts, so every queued hide takes effect after ten seconds unless undone. | not executed | Dashboard.LostHideAsWritten | Dashboard.TwoHidesBothFire |
