/**
 * The `/save` and `/history` routes: formatting of saved comments with their
 * defaults and toxicity chain, the empty-save check, and the history query
 * over the stored records (own records, newest first, at most 100).  The
 * document store is a sequence of records; the caller's id comes from the
 * authentication middleware and the clock from the store's insertion.
 */
module SaveHistory {
  import opened Wrappers
  import opened JsText
  import opened Sorting

  /** One element of the request's `comments`: `username`, `text`, `toxicity`, `toxicityScore`. */
  datatype SaveItem = SaveItem(username: Option<JsString>, text: Option<JsString>, toxicity: JsValue, toxicityScore: JsValue)

  datatype SaveRequest = SaveRequest(comments: Option<seq<SaveItem>>, url: Option<JsString>)

  /**
   * A stored record as the schema keeps it; `analyzedAt` is the schema's
   * default, the insertion time.
   */
  datatype StoredComment = StoredComment(userId: JsString, username: JsString, text: JsString,
                                         toxicityScore: real, url: JsString, analyzedAt: int)

  /** A response: status, `message`, and `count` on success. */
  datatype SaveReply = SaveReply(status: nat, message: string, count: Option<nat>)

  const ANONYMOUS: JsString := Lit("Anonymous")
  const UNKNOWN_URL: JsString := Lit("Unknown URL")
  const NO_COMMENTS := SaveReply(400, "No comments provided", None)
  const SAVE_FAILED := SaveReply(500, "Server error while saving comments", None)

  /** `formattedComments`: one record per item, in order, all owned by the caller. */
  function Format(items: seq<SaveItem>, userId: JsString, url: Option<JsString>, now: int): (r: seq<StoredComment>)
    ensures |r| == |items|
    ensures forall i :: 0 <= i < |items| ==>
              && r[i].userId == userId && r[i].analyzedAt == now
              && r[i].username == Or(items[i].username, ANONYMOUS) && r[i].username != []
              && r[i].text == Or(items[i].text, [])
              && r[i].toxicityScore == NumberOr(items[i].toxicity, items[i].toxicityScore)
              && r[i].url == Or(url, UNKNOWN_URL) && r[i].url != []
  {
    assert |ANONYMOUS| == 9 && |UNKNOWN_URL| == 11;
    seq(|items|, i requires 0 <= i < |items| =>
      StoredComment(userId, Or(items[i].username, ANONYMOUS), Or(items[i].text, []),
                    NumberOr(items[i].toxicity, items[i].toxicityScore), Or(url, UNKNOWN_URL), now))
  }

  /**
   * `POST /save`: the reply and the store afterwards.  `insertSucceeds` is
   * the outcome of `insertMany`; a failed insert leaves the store as it was.
   */
  function Save(store: seq<StoredComment>, req: SaveRequest, userId: JsString, now: int, insertSucceeds: bool)
    : (r: (SaveReply, seq<StoredComment>))
    ensures req.comments.None? || req.comments.value == [] ==> r == (NO_COMMENTS, store)
    ensures req.comments.Some? && req.comments.value != [] && !insertSucceeds ==> r == (SAVE_FAILED, store)
    ensures req.comments.Some? && req.comments.value != [] && insertSucceeds ==>
              && r.0.status == 201 && r.0.count == Some(|req.comments.value|)
              && store <= r.1 && |r.1| == |store| + |req.comments.value|
              && r.1[|store|..] == Format(req.comments.value, userId, req.url, now)
    ensures r.0.status == 201 <==> req.comments.Some? && req.comments.value != [] && insertSucceeds
  {
    if req.comments.None? || |req.comments.value| == 0 then (NO_COMMENTS, store)
    else
      var formatted := Format(req.comments.value, userId, req.url, now);
      if !insertSucceeds then (SAVE_FAILED, store)
      else
        var saved := store + formatted;
        assert saved[|store|..] == formatted;
        (SaveReply(201, " Comments saved successfully", Some(|formatted|)), saved)
  }

  /** Saving for one user never changes or drops anybody's records. */
  lemma SaveKeepsRecords(store: seq<StoredComment>, req: SaveRequest, userId: JsString, now: int, ok: bool)
    ensures var after := Save(store, req, userId, now, ok).1;
            store <= after && forall k :: |store| <= k < |after| ==> after[k].userId == userId
  {
    var after := Save(store, req, userId, now, ok).1;
    if after != store {
      forall k | |store| <= k < |after| ensures after[k].userId == userId {
        assert after[k] == after[|store|..][k - |store|];
      }
    }
  }

  // ---------------------------------------------------------------------------
  // History

  /** `find({userId})`: the caller's records in store order. */
  function OwnedBy(store: seq<StoredComment>, userId: JsString): (r: seq<StoredComment>)
    ensures forall c :: c in r <==> c in store && c.userId == userId
    ensures forall c :: multiset(r)[c] == if c.userId == userId then multiset(store)[c] else 0
  {
    if store == [] then []
    else
      var init := store[..|store| - 1];
      var last := store[|store| - 1];
      assert store == init + [last];
      var rest := OwnedBy(init, userId);
      if last.userId == userId then rest + [last] else rest
  }

  /** `sort({analyzedAt: -1})`: a record may come first when it is at least as recent. */
  predicate NewerFirst(a: StoredComment, b: StoredComment)
  {
    a.analyzedAt >= b.analyzedAt
  }

  function ByRecency(): (StoredComment, StoredComment) -> bool
  {
    (a: StoredComment, b: StoredComment) => NewerFirst(a, b)
  }

  lemma ByRecencyIsTotalPreorder()
    ensures TotalPreorder(ByRecency())
  {
  }

  /** In a sorted sequence, whatever is left out of a prefix may follow every element of it. */
  lemma PrefixPrecedesRest<T>(s: seq<T>, le: (T, T) -> bool, n: nat, c: T)
    requires SortedBy(s, le) && n <= |s|
    requires c in s && c !in s[..n]
    ensures forall k :: 0 <= k < n ==> le(s[k], c)
  {
    var m :| 0 <= m < |s| && s[m] == c;
  }

  const HISTORY_LIMIT := 100

  /** The first hundred of `owned` by recency. */
  function Newest(owned: seq<StoredComment>): seq<StoredComment>
  {
    var sorted := SortBy(owned, ByRecency());
    sorted[..if |sorted| < HISTORY_LIMIT then |sorted| else HISTORY_LIMIT]
  }

  lemma NewestFacts(owned: seq<StoredComment>)
    ensures var r := Newest(owned);
            && |r| == (if |owned| < HISTORY_LIMIT then |owned| else HISTORY_LIMIT)
            && (forall c :: c in r ==> c in owned)
            && multiset(r) <= multiset(owned)
            && (|owned| <= HISTORY_LIMIT ==> multiset(r) == multiset(owned))
            && (forall i, j :: 0 <= i < j < |r| ==> r[i].analyzedAt >= r[j].analyzedAt)
            && (forall c :: c in owned && c !in r ==>
                  |r| == HISTORY_LIMIT && forall k :: 0 <= k < |r| ==> r[k].analyzedAt >= c.analyzedAt)
  {
    var sorted := SortBy(owned, ByRecency());
    ByRecencyIsTotalPreorder();
    SortBySorted(owned, ByRecency());
    var n := if |sorted| < HISTORY_LIMIT then |sorted| else HISTORY_LIMIT;
    NewestFromOwned(owned, sorted, n);
    NewestOrdered(sorted, n);
    NewestCutoff(owned, sorted, n);
  }

  /**
   * A prefix of a permutation of `owned` takes each record of `owned` at most
   * as often as it occurs there, and all of them when nothing is cut.
   */
  lemma NewestFromOwned(owned: seq<StoredComment>, sorted: seq<StoredComment>, n: nat)
    requires multiset(sorted) == multiset(owned) && n <= |sorted|
    ensures forall c :: c in sorted[..n] ==> c in owned
    ensures multiset(sorted[..n]) <= multiset(owned)
    ensures n == |sorted| ==> multiset(sorted[..n]) == multiset(owned)
  {
    assert sorted == sorted[..n] + sorted[n..];
    assert multiset(sorted) == multiset(sorted[..n]) + multiset(sorted[n..]);
    forall c | c in sorted[..n] ensures c in owned {
      assert c in multiset(sorted);
    }
  }

  /** A prefix of a list sorted newest first is sorted newest first. */
  lemma NewestOrdered(sorted: seq<StoredComment>, n: nat)
    requires SortedBy(sorted, ByRecency()) && n <= |sorted|
    ensures forall i, j :: 0 <= i < j < n ==> sorted[..n][i].analyzedAt >= sorted[..n][j].analyzedAt
  {
    forall i, j | 0 <= i < j < n ensures sorted[i].analyzedAt >= sorted[j].analyzedAt {
      assert ByRecency()(sorted[i], sorted[j]);
    }
  }

  /** A record cut off by the limit is no newer than any record kept. */
  lemma NewestCutoff(owned: seq<StoredComment>, sorted: seq<StoredComment>, n: nat)
    requires multiset(sorted) == multiset(owned) && SortedBy(sorted, ByRecency())
    requires n == if |sorted| < HISTORY_LIMIT then |sorted| else HISTORY_LIMIT
    ensures forall c :: c in owned && c !in sorted[..n] ==>
              n == HISTORY_LIMIT && forall k :: 0 <= k < n ==> sorted[..n][k].analyzedAt >= c.analyzedAt
  {
    forall c | c in owned && c !in sorted[..n]
      ensures n == HISTORY_LIMIT && forall k :: 0 <= k < n ==> sorted[..n][k].analyzedAt >= c.analyzedAt
    {
      assert c in multiset(owned);
      assert c in sorted;
      PrefixPrecedesRest(sorted, ByRecency(), n, c);
    }
  }

  /** `GET /history`: the caller's records, newest first, at most a hundred. */
  function History(store: seq<StoredComment>, userId: JsString): (r: seq<StoredComment>)
    ensures |r| <= HISTORY_LIMIT
    ensures forall c :: c in r ==> c in store && c.userId == userId
    ensures forall i, j :: 0 <= i < j < |r| ==> r[i].analyzedAt >= r[j].analyzedAt
    ensures multiset(r) <= multiset(OwnedBy(store, userId))
    ensures |OwnedBy(store, userId)| <= HISTORY_LIMIT ==> multiset(r) == multiset(OwnedBy(store, userId))
    ensures |r| == if |OwnedBy(store, userId)| < HISTORY_LIMIT then |OwnedBy(store, userId)| else HISTORY_LIMIT
    ensures forall c :: c in store && c.userId == userId && c !in r ==>
              |r| == HISTORY_LIMIT && forall k :: 0 <= k < |r| ==> r[k].analyzedAt >= c.analyzedAt
  {
    NewestFacts(OwnedBy(store, userId));
    Newest(OwnedBy(store, userId))
  }

  /** The response of `GET /history`: the records, or 500 "Server error" when the query fails. */
  function HistoryRoute(store: seq<StoredComment>, userId: JsString, queryOk: bool): (r: Result<seq<StoredComment>, SaveReply>)
    ensures r.Err? <==> !queryOk
    ensures r.Err? ==> r.error == SaveReply(500, "Server error", None)
    ensures r.Ok? ==> r.value == History(store, userId)
  {
    if queryOk then Ok(History(store, userId)) else Err(SaveReply(500, "Server error", None))
  }
}
