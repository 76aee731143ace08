/**
 * The `ReelAnalyzer` component's state and the handlers that change it:
 * analysing a URL, loading more comments, clearing, the toxicity header,
 * and the queued hide with its undo and its ten-second timer.  Timers are
 * events: `armed` maps every scheduled and not yet cleared timer to the
 * comment id its callback hides, and `TimerFires` runs a callback.
 */
module Dashboard {
  import opened Wrappers
  import opened JsText
  import opened Sorting
  import opened CommentView
  import opened UrlMatch

  /** A `setTimeout` handle; browsers hand out positive ones. */
  type Timer = nat

  /** The JSON body of a successful `POST /api/analyze`, as the component reads it. */
  datatype WireBody = WireBody(comments: Option<seq<WireComment>>, avgToxicity: Option<real>, nextToken: Option<JsString>)

  /**
   * What the request resolves to: a body, or a rejection carrying the
   * server's `error` field (when there was a response) and the error's `message`.
   */
  datatype HttpReply = Replied(body: WireBody) | RequestFailed(serverError: Option<string>, message: Option<string>)

  const INVALID_URL_MESSAGE := "Enter a valid Instagram or YouTube URL."
  const ANALYSIS_FAILED := "Analysis failed"

  /** The client-side check of `analyzeUrl`: non-empty and naming one of the four hosts. */
  function UrlAccepted(url: JsString): (ok: bool)
    ensures ok <==> url != [] && (Mentions(url, "instagram.com") || Mentions(url, "youtube.com")
                                  || Mentions(url, "youtu.be") || Mentions(url, "facebook.com"))
  {
    IncludesSpec(url, Lit("instagram.com"));
    IncludesSpec(url, Lit("youtube.com"));
    IncludesSpec(url, Lit("youtu.be"));
    IncludesSpec(url, Lit("facebook.com"));
    !(url == [] || (!Includes(url, Lit("instagram.com")) && !Includes(url, Lit("youtube.com"))
                    && !Includes(url, Lit("youtu.be")) && !Includes(url, Lit("facebook.com"))))
  }

  class ReelAnalyzer {
    var url: JsString
    var comments: seq<UiComment>
    var avgToxicity: Option<real>
    var error: string
    var filters: Filters
    var nextToken: Option<JsString>
    var pendingHides: map<JsString, Timer>
    var armed: map<Timer, JsString>
    var nextTimer: Timer
    /** The `pendingHides` the cleanup of the last effect run closed over. */
    var effectSnapshot: map<JsString, Timer>

    /**
     * Every pending hide owns exactly one armed timer, every armed timer
     * belongs to the pending hide of its id, and handles are positive and
     * below the next one to be handed out.
     */
    predicate Valid()
      reads this`pendingHides, this`armed, this`nextTimer
    {
      && nextTimer >= 1
      && (forall id :: id in pendingHides ==> pendingHides[id] in armed && armed[pendingHides[id]] == id)
      && (forall t :: t in armed ==> armed[t] in pendingHides && pendingHides[armed[t]] == t)
      && (forall t :: t in armed ==> 1 <= t < nextTimer)
    }

    /** The initial `useState` values. */
    constructor()
      ensures url == [] && comments == [] && avgToxicity == None && error == "" && nextToken == None
      ensures filters == Filters([], false, ByToxicity, Desc, 0.0, 1.0, AllLengths)
      ensures pendingHides == map[] && armed == map[] && nextTimer == 1 && effectSnapshot == map[]
      ensures Valid()
    {
      url := [];
      comments := [];
      avgToxicity := None;
      error := "";
      filters := Filters([], false, ByToxicity, Desc, 0.0, 1.0, AllLengths);
      nextToken := None;
      pendingHides := map[];
      armed := map[];
      nextTimer := 1;
      effectSnapshot := map[];
    }

    /**
     * `analyzeUrl`: `requested` says whether the request was sent; `reply` is
     * what it resolved to and `uuid(i)` the random id for the i-th comment.
     */
    method AnalyzeUrl(reply: HttpReply, uuid: nat -> JsString) returns (requested: bool)
      modifies this`error, this`comments, this`avgToxicity, this`nextToken
      ensures requested == UrlAccepted(url)
      ensures !requested ==> error == INVALID_URL_MESSAGE
      ensures !requested || reply.RequestFailed? ==>
                comments == old(comments) && avgToxicity == old(avgToxicity) && nextToken == old(nextToken)
      ensures requested && reply.RequestFailed? ==>
                error == MessageOr(reply.serverError, reply.message, ANALYSIS_FAILED)
      ensures requested && reply.Replied? ==>
                && comments == NormalizeAnalyzed(ListOr(reply.body.comments), uuid)
                && avgToxicity == Some(if reply.body.avgToxicity.Some? then reply.body.avgToxicity.value else 0.0)
                && nextToken == OrNull(reply.body.nextToken)
                && error == ""
    {
      error := "";
      if !UrlAccepted(url) {
        error := INVALID_URL_MESSAGE;
        return false;
      }
      requested := true;
      match reply
      case RequestFailed(serverError, message) =>
        error := MessageOr(serverError, message, ANALYSIS_FAILED);
      case Replied(body) =>
        comments := NormalizeAnalyzed(ListOr(body.comments), uuid);
        avgToxicity := Some(if body.avgToxicity.Some? then body.avgToxicity.value else 0.0);
        nextToken := OrNull(body.nextToken);
    }

    /** `fetchComments(nextToken)`, the "Load More" button; a failed request changes nothing. */
    method LoadMore(reply: HttpReply, uuid: nat -> JsString)
      modifies this`comments, this`nextToken
      ensures reply.RequestFailed? ==> comments == old(comments) && nextToken == old(nextToken)
      ensures reply.Replied? ==>
                && comments == MergePage(old(comments), NormalizePage(ListOr(reply.body.comments), uuid))
                && nextToken == OrNull(reply.body.nextToken)
      ensures old(comments) <= comments
      ensures (DistinctIds(old(comments)) && reply.Replied?
               && DistinctIds(NormalizePage(ListOr(reply.body.comments), uuid))) ==> DistinctIds(comments)
    {
      if reply.Replied? {
        var page := NormalizePage(ListOr(reply.body.comments), uuid);
        if DistinctIds(comments) && DistinctIds(page) {
          MergePageDistinct(comments, page);
        }
        comments := MergePage(comments, page);
        nextToken := OrNull(reply.body.nextToken);
      }
    }

    /** The Clear button resets the input, the list, the average and the error, and nothing else. */
    method Clear()
      modifies this`url, this`comments, this`avgToxicity, this`error
      ensures url == [] && comments == [] && avgToxicity == None && error == ""
      ensures nextToken == old(nextToken) && pendingHides == old(pendingHides) && armed == old(armed)
    {
      url := [];
      comments := [];
      avgToxicity := None;
      error := "";
    }

    /** The toxicity column header. */
    method ClickToxicityHeader()
      modifies this`filters
      ensures filters == HeaderClick(old(filters))
    {
      filters := HeaderClick(filters);
    }

    /** `clearPendingHide`: forgets the pending hide of `id` and clears its timer. */
    method ClearPendingHide(id: JsString)
      modifies this`pendingHides, this`armed
      ensures pendingHides == old(pendingHides) - {id}
      ensures armed == if id in old(pendingHides) && old(pendingHides)[id] > 0
                       then old(armed) - {old(pendingHides)[id]} else old(armed)
      ensures old(Valid()) ==> Valid() && forall t :: t in armed ==> armed[t] != id
    {
      if id in pendingHides && pendingHides[id] > 0 {
        armed := armed - {pendingHides[id]};
      }
      pendingHides := pendingHides - {id};
    }

    /**
     * `startHideComment`: replaces any pending hide of `id` by a new one whose
     * timer `t` is armed to hide it.
     */
    method StartHideComment(id: JsString) returns (t: Timer)
      modifies this`pendingHides, this`armed, this`nextTimer
      ensures t == old(nextTimer) && nextTimer == t + 1
      ensures pendingHides == old(pendingHides)[id := t]
      ensures armed == (if id in old(pendingHides) && old(pendingHides)[id] > 0
                        then old(armed) - {old(pendingHides)[id]} else old(armed))[t := id]
      ensures old(Valid()) ==> Valid() && forall u :: u in armed && armed[u] == id ==> u == t
    {
      ClearPendingHide(id);
      t := nextTimer;
      nextTimer := nextTimer + 1;
      armed := armed[t := id];
      pendingHides := pendingHides[id := t];
    }

    /** `undoHideComment`: the comment list is left as it is. */
    method UndoHideComment(id: JsString)
      modifies this`pendingHides, this`armed
      ensures pendingHides == old(pendingHides) - {id}
      ensures comments == old(comments)
      ensures old(Valid()) ==> Valid() && forall t :: t in armed ==> armed[t] != id
    {
      ClearPendingHide(id);
    }

    /**
     * Timer `t` fires: its callback hides the comments with its id and drops
     * the id from the pending hides.  A cleared timer never fires.
     */
    method TimerFires(t: Timer)
      modifies this`comments, this`pendingHides, this`armed
      ensures t !in old(armed) ==>
                comments == old(comments) && pendingHides == old(pendingHides) && armed == old(armed)
      ensures t in old(armed) ==>
                && comments == SetHidden(old(comments), old(armed)[t], true)
                && pendingHides == old(pendingHides) - {old(armed)[t]}
                && armed == old(armed) - {t}
      ensures old(Valid()) ==> Valid()
    {
      if t in armed {
        var id := armed[t];
        armed := armed - {t};
        comments := SetHidden(comments, id, true);
        pendingHides := pendingHides - {id};
      }
    }

    /** `unhideComment`. */
    method UnhideComment(id: JsString)
      modifies this`comments
      ensures comments == SetHidden(old(comments), id, false)
    {
      comments := SetHidden(comments, id, false);
    }

    /** `toggleHideComment`: unhide a hidden comment, queue the hide of a shown one. */
    method ToggleHideComment(id: JsString, currentlyHidden: bool)
      modifies this`comments, this`pendingHides, this`armed, this`nextTimer
      ensures currentlyHidden ==>
                && comments == SetHidden(old(comments), id, false)
                && pendingHides == old(pendingHides) && armed == old(armed)
      ensures !currentlyHidden ==>
                && comments == old(comments)
                && pendingHides == old(pendingHides)[id := old(nextTimer)]
                && old(nextTimer) in armed && armed[old(nextTimer)] == id
      ensures old(Valid()) ==> Valid()
    {
      if currentlyHidden {
        UnhideComment(id);
      } else {
        var _ := StartHideComment(id);
      }
    }

    /** The cleanup when the component goes away: every pending timer is cleared. */
    method Unmount()
      modifies this`armed
      ensures armed == old(armed) - pendingHides.Values
      ensures old(Valid()) ==> armed == map[]
    {
      armed := armed - pendingHides.Values;
      if old(Valid()) {
        forall t | t in old(armed) ensures t in pendingHides.Values {
          assert pendingHides[old(armed)[t]] == t;
        }
      }
    }

    /**
     * The effect as written, with `pendingHides` among its dependencies:
     * after every change of `pendingHides` the previous run's cleanup clears
     * the timers of the map it closed over.
     */
    method RunEffectsAsWritten()
      modifies this`armed, this`effectSnapshot
      ensures armed == old(armed) - old(effectSnapshot).Values
      ensures effectSnapshot == pendingHides
    {
      armed := armed - effectSnapshot.Values;
      effectSnapshot := pendingHides;
    }

    /**
     * `visibleComments`: the comments passing every filter, ordered by the
     * selected key and direction.
     */
    method VisibleComments() returns (arr: seq<UiComment>)
      ensures arr == SortBy(FilterVisible(comments, filters, pendingHides.Keys), Order(filters.sortKey, filters.sortDir))
      ensures forall c :: c in arr <==> c in comments && Visible(filters, pendingHides.Keys, c)
      ensures forall c :: Visible(filters, pendingHides.Keys, c) ==> multiset(arr)[c] == multiset(comments)[c]
      ensures SortedBy(arr, Order(filters.sortKey, filters.sortDir))
    {
      var cs := comments;
      var f := filters;
      var pending := pendingHides.Keys;
      var kept := [];
      var i := 0;
      while i < |cs|
        invariant 0 <= i <= |cs|
        invariant kept == FilterVisible(cs[..i], f, pending)
      {
        assert cs[..i + 1][..i] == cs[..i];
        if Visible(f, pending, cs[i]) {
          kept := kept + [cs[i]];
        }
        i := i + 1;
      }
      assert cs[..|cs|] == cs;
      arr := SortBy(kept, Order(f.sortKey, f.sortDir));
      SortedVisible(cs, f, pending);
    }

    /** `histData`: five counters, one per fifth of the toxicity range. */
    method Histogram() returns (counts: seq<nat>)
      ensures |counts| == 5
      ensures forall b :: 0 <= b < 5 ==> counts[b] == CountInBucket(comments, b)
      ensures Sum(counts) == |comments|
    {
      var cs := comments;
      var buckets := new nat[5](_ => 0);
      var i := 0;
      while i < |cs|
        invariant 0 <= i <= |cs|
        invariant forall b :: 0 <= b < 5 ==> buckets[b] == CountInBucket(cs[..i], b)
      {
        var idx := Bucket(cs[i].toxicity);
        CountInBucketStep(cs, i);
        buckets[idx] := buckets[idx] + 1;
        i := i + 1;
      }
      assert cs[..|cs|] == cs;
      counts := buckets[..];
      BucketsCoverAll(cs);
      SumOfFive(counts);
    }
  }

  /**
   * As written, hiding A and then B loses A: the effect run after B's hide
   * clears A's timer, so A stays pending, and therefore invisible, with no
   * timer left that could ever hide it.
   */
  method LostHideAsWritten() returns (stuck: bool)
    ensures stuck
  {
    var r := new ReelAnalyzer();
    var a: JsString := [0x61];
    var b: JsString := [0x62];
    r.comments := [UiComment(a, [0x75], [0x68, 0x69], 0.1, false), UiComment(b, [0x76], [0x68, 0x6F], 0.2, false)];
    var tA := r.StartHideComment(a);
    assert tA == 1 && r.pendingHides == map[a := 1] && r.armed == map[1 := a];
    r.RunEffectsAsWritten();
    var tB := r.StartHideComment(b);
    assert tB == 2 && r.effectSnapshot == map[a := 1];
    assert r.effectSnapshot.Values == {1};
    assert 1 in r.armed && 2 in r.armed && r.armed[2] == b;
    r.RunEffectsAsWritten();
    assert 1 !in r.armed && 2 in r.armed && r.armed[2] == b;
    r.TimerFires(tA);
    r.TimerFires(tB);
    assert r.armed.Keys == {} && a in r.pendingHides;
    r.RunEffectsAsWritten();
    assert r.comments[0].hidden == false;
    var shown := r.VisibleComments();
    stuck := a in r.pendingHides && !r.comments[0].hidden && r.comments[0] !in shown && r.armed.Keys == {};
  }

  /** Without the cleanup on change, both queued hides take effect when their timers fire. */
  method TwoHidesBothFire() returns (hiddenA: bool, hiddenB: bool)
    ensures hiddenA && hiddenB
  {
    var r := new ReelAnalyzer();
    var a: JsString := [0x61];
    var b: JsString := [0x62];
    r.comments := [UiComment(a, [0x75], [0x68, 0x69], 0.1, false), UiComment(b, [0x76], [0x68, 0x6F], 0.2, false)];
    assert a[0] != b[0];
    var tA := r.StartHideComment(a);
    assert r.armed == map[1 := a];
    var tB := r.StartHideComment(b);
    assert r.armed[1] == a && r.armed[2] == b && tA == 1 && tB == 2;
    r.TimerFires(tA);
    assert r.comments[0].hidden && r.comments[1].id == b && 2 in r.armed && r.armed[2] == b;
    assert r.pendingHides == map[b := 2];
    r.TimerFires(tB);
    assert r.comments[0].id == a && r.comments[0].hidden;
    hiddenA := r.comments[0].hidden && a !in r.pendingHides;
    hiddenB := r.comments[1].hidden && b !in r.pendingHides;
  }
}
