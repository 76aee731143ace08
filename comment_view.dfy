/**
 * The pure part of the dashboard: the comment record it keeps, the two
 * response normalisations, the "load more" merge, the visible-comments
 * filter and order, and the histogram and pie counts.
 */
module CommentView {
  import opened Wrappers
  import opened JsText
  import opened Sorting

  /** A comment as the dashboard keeps it in its `comments` state. */
  datatype UiComment = UiComment(id: JsString, username: JsString, text: JsString, toxicity: real, hidden: bool)

  /**
   * A comment of a response body as the dashboard reads it: `id`, `_id`,
   * `igCommentId`, `username`, `author`, `user?.username`, `text`,
   * `textDisplay`, `toxicity`, `overallToxicity` and `hidden`.
   */
  datatype WireComment = WireComment(
    id: Option<JsString>, mongoId: Option<JsString>, igCommentId: Option<JsString>,
    username: Option<JsString>, author: Option<JsString>, userUsername: Option<JsString>,
    text: Option<JsString>, textDisplay: Option<JsString>,
    toxicity: JsValue, overallToxicity: JsValue, hidden: JsValue)


  /** `a ?? b ?? c ?? d` over optional strings. */
  function CoalesceChain(a: Option<JsString>, b: Option<JsString>, c: Option<JsString>, d: JsString): (r: JsString)
    ensures a.Some? ==> r == a.value
    ensures a.None? && b.Some? ==> r == b.value
    ensures a.None? && b.None? && c.Some? ==> r == c.value
    ensures a.None? && b.None? && c.None? ==> r == d
  {
    Coalesce(a, Coalesce(b, Coalesce(c, d)))
  }

  /**
   * The mapping of `analyzeUrl`; `uuid(i)` is the random id drawn for the i-th
   * comment when it has none.
   */
  function NormalizeAnalyzed(cs: seq<WireComment>, uuid: nat -> JsString): (r: seq<UiComment>)
    ensures |r| == |cs|
    ensures forall i :: 0 <= i < |cs| ==>
              && r[i].id == CoalesceChain(cs[i].id, cs[i].mongoId, cs[i].igCommentId, uuid(i))
              && r[i].username == Coalesce(cs[i].username, UNKNOWN_USER)
              && r[i].text == Coalesce(cs[i].text, [])
              && r[i].toxicity == NumberOr(cs[i].toxicity, cs[i].overallToxicity)
              && r[i].hidden == ToBoolean(cs[i].hidden)
  {
    seq(|cs|, i requires 0 <= i < |cs| =>
      UiComment(CoalesceChain(cs[i].id, cs[i].mongoId, cs[i].igCommentId, uuid(i)),
                Coalesce(cs[i].username, UNKNOWN_USER), Coalesce(cs[i].text, []),
                NumberOr(cs[i].toxicity, cs[i].overallToxicity), ToBoolean(cs[i].hidden)))
  }

  /**
   * The mapping of `fetchComments`: the username is found with `||`, so an
   * empty one falls through, and `textDisplay` stands in for a missing text.
   */
  function NormalizePage(cs: seq<WireComment>, uuid: nat -> JsString): (r: seq<UiComment>)
    ensures |r| == |cs|
    ensures forall i :: 0 <= i < |cs| ==>
              && r[i].id == CoalesceChain(cs[i].id, cs[i].mongoId, cs[i].igCommentId, uuid(i))
              && r[i].username == Or(cs[i].username, Or(cs[i].author, Or(cs[i].userUsername, UNKNOWN_USER)))
              && r[i].username != []
              && r[i].text == Coalesce(cs[i].text, Coalesce(cs[i].textDisplay, []))
              && r[i].toxicity == NumberOr(cs[i].toxicity, cs[i].overallToxicity)
              && r[i].hidden == ToBoolean(cs[i].hidden)
  {
    assert |UNKNOWN_USER| == 12;
    seq(|cs|, i requires 0 <= i < |cs| =>
      UiComment(CoalesceChain(cs[i].id, cs[i].mongoId, cs[i].igCommentId, uuid(i)),
                Or(cs[i].username, Or(cs[i].author, Or(cs[i].userUsername, UNKNOWN_USER))),
                Coalesce(cs[i].text, Coalesce(cs[i].textDisplay, [])),
                NumberOr(cs[i].toxicity, cs[i].overallToxicity), ToBoolean(cs[i].hidden)))
  }

  // ---------------------------------------------------------------------------
  // Load more

  function Ids(cs: seq<UiComment>): (r: set<JsString>)
    ensures forall c :: c in cs ==> c.id in r
    ensures forall id :: id in r ==> exists c :: c in cs && c.id == id
  {
    set c | c in cs :: c.id
  }

  /** No two comments share an id. */
  predicate DistinctIds(cs: seq<UiComment>)
  {
    forall i, j :: 0 <= i < j < |cs| ==> cs[i].id != cs[j].id
  }

  /** The comments of `page` whose id is not in `ids`, in page order. */
  function Unseen(page: seq<UiComment>, ids: set<JsString>): (r: seq<UiComment>)
    ensures |r| <= |page|
  {
    if page == [] then []
    else
      var init := page[..|page| - 1];
      var last := page[|page| - 1];
      var rest := Unseen(init, ids);
      if last.id in ids then rest else rest + [last]
  }

  /**
   * Unseen keeps exactly the comments with an unseen id, each as often as the
   * page has it.
   */
  lemma {:induction false} UnseenCounts(page: seq<UiComment>, ids: set<JsString>)
    ensures forall c :: multiset(Unseen(page, ids))[c] == if c.id in ids then 0 else multiset(page)[c]
    ensures forall c :: c in Unseen(page, ids) <==> c in page && c.id !in ids
  {
    if page != [] {
      var init := page[..|page| - 1];
      var last := page[|page| - 1];
      assert page == init + [last];
      UnseenCounts(init, ids);
    }
    forall c ensures c in Unseen(page, ids) <==> c in page && c.id !in ids {
      assert c in Unseen(page, ids) <==> c in multiset(Unseen(page, ids));
      assert c in page <==> c in multiset(page);
    }
  }

  /** Unseen of a page with one more comment: that comment is kept exactly when its id is unseen. */
  lemma UnseenSnoc(page: seq<UiComment>, c: UiComment, ids: set<JsString>)
    ensures Unseen(page + [c], ids) == if c.id in ids then Unseen(page, ids) else Unseen(page, ids) + [c]
  {
    assert (page + [c])[..|page|] == page;
  }

  /** Unseen is a filter: it distributes over concatenation, so page order is kept. */
  lemma {:induction false} UnseenAppend(a: seq<UiComment>, b: seq<UiComment>, ids: set<JsString>)
    ensures Unseen(a + b, ids) == Unseen(a, ids) + Unseen(b, ids)
    decreases |b|
  {
    if b == [] {
      assert a + b == a;
    } else {
      var init, last := b[..|b| - 1], b[|b| - 1];
      var kept := if last.id in ids then [] else [last];
      calc {
        Unseen(a + b, ids);
        { assert a + b == (a + init) + [last]; }
        Unseen((a + init) + [last], ids);
        { UnseenSnoc(a + init, last, ids); }
        Unseen(a + init, ids) + kept;
        { UnseenAppend(a, init, ids); }
        (Unseen(a, ids) + Unseen(init, ids)) + kept;
        Unseen(a, ids) + (Unseen(init, ids) + kept);
        { assert b == init + [last]; UnseenSnoc(init, last, ids); }
        Unseen(a, ids) + Unseen(b, ids);
      }
    }
  }

  /** Unseen keeps ids distinct when the page's are. */
  lemma {:induction false} UnseenDistinct(page: seq<UiComment>, ids: set<JsString>)
    requires DistinctIds(page)
    ensures DistinctIds(Unseen(page, ids))
  {
    if page != [] {
      var init := page[..|page| - 1];
      var last := page[|page| - 1];
      assert DistinctIds(init) by {
        forall i, j | 0 <= i < j < |init| ensures init[i].id != init[j].id {
          assert init[i] == page[i] && init[j] == page[j];
        }
      }
      UnseenDistinct(init, ids);
      UnseenCounts(init, ids);
      var rest := Unseen(init, ids);
      if last.id !in ids {
        var r := rest + [last];
        forall i, j | 0 <= i < j < |r| ensures r[i].id != r[j].id {
          if j == |rest| {
            assert r[i] in rest;
            var k :| 0 <= k < |init| && init[k] == r[i];
            assert page[k] == r[i];
          } else {
            assert r[i] == rest[i] && r[j] == rest[j];
          }
        }
      }
    }
  }

  /**
   * The `setComments` updater of `fetchComments`: the page's comments with
   * an unseen id are appended, and the previous list itself is kept when
   * there are none.
   */
  function MergePage(prev: seq<UiComment>, page: seq<UiComment>): (r: seq<UiComment>)
    ensures prev <= r
    ensures forall k :: |prev| <= k < |r| ==> r[k] in page && r[k].id !in Ids(prev)
    ensures (forall c :: c in page ==> c.id in Ids(prev)) ==> r == prev
    ensures forall c :: c in page ==> c.id in Ids(r)
    ensures r[|prev|..] == Unseen(page, Ids(prev))
  {
    var unseen := Unseen(page, Ids(prev));
    UnseenCounts(page, Ids(prev));
    if |unseen| == 0 then prev
    else
      assert unseen[0] in unseen;
      var r := prev + unseen;
      assert forall k :: |prev| <= k < |r| ==> r[k] == unseen[k - |prev|];
      assert forall c :: c in unseen ==> c in r;
      r
  }

  /** Merging the same page a second time changes nothing. */
  lemma MergePageIdempotent(prev: seq<UiComment>, page: seq<UiComment>)
    ensures MergePage(MergePage(prev, page), page) == MergePage(prev, page)
  {
  }

  /** The merge keeps ids distinct when the list and the page each have distinct ids. */
  lemma MergePageDistinct(prev: seq<UiComment>, page: seq<UiComment>)
    requires DistinctIds(prev) && DistinctIds(page)
    ensures DistinctIds(MergePage(prev, page))
  {
    var unseen := Unseen(page, Ids(prev));
    UnseenDistinct(page, Ids(prev));
    UnseenCounts(page, Ids(prev));
    if |unseen| != 0 {
      var r := prev + unseen;
      forall i, j | 0 <= i < j < |r| ensures r[i].id != r[j].id {
        if j >= |prev| {
          assert r[j] == unseen[j - |prev|];
          if i < |prev| {
            assert r[i] in prev;
            assert r[j] in unseen;
          } else {
            assert r[i] == unseen[i - |prev|];
          }
        }
      }
    }
  }

  // ---------------------------------------------------------------------------
  // Visible comments

  const TOXIC_THRESH: real := 0.6

  datatype LengthFilter = AllLengths | Short | Medium | Long
  datatype SortKey = ByToxicity | ByUsername
  datatype SortDir = Asc | Desc

  /** The filter and sort controls of the comment table. */
  datatype Filters = Filters(search: JsString, hideToxic: bool, sortKey: SortKey, sortDir: SortDir,
                             minToxicity: real, maxToxicity: real, length: LengthFilter)

  predicate PassesLength(f: LengthFilter, len: nat)
  {
    match f
    case Short => 1 <= len <= 20
    case Medium => 20 < len <= 80
    case Long => len > 80
    case AllLengths => true
  }

  /**
   * The three bounded choices split the non-zero lengths between them, and
   * an empty text passes only when every length is allowed.
   */
  lemma LengthFiltersPartition(len: nat)
    ensures len > 0 ==> (PassesLength(Short, len) || PassesLength(Medium, len) || PassesLength(Long, len))
    ensures !(PassesLength(Short, len) && PassesLength(Medium, len))
    ensures !(PassesLength(Short, len) && PassesLength(Long, len))
    ensures !(PassesLength(Medium, len) && PassesLength(Long, len))
    ensures len == 0 ==> forall f :: PassesLength(f, len) <==> f == AllLengths
  {
  }

  /** The search box: lower-cased text or username, or the id as it is, contains the lower-cased query. */
  predicate PassesSearch(search: JsString, c: UiComment)
  {
    var s := ToLower(search);
    search == [] || Includes(ToLower(c.text), s) || Includes(ToLower(c.username), s) || Includes(c.id, s)
  }

  /** The conjunction of the filters of `visibleComments`. */
  predicate Visible(f: Filters, pending: set<JsString>, c: UiComment)
  {
    && !c.hidden
    && c.id !in pending
    && !(f.hideToxic && c.toxicity > TOXIC_THRESH)
    && f.minToxicity <= c.toxicity <= f.maxToxicity
    && PassesLength(f.length, |c.text|)
    && PassesSearch(f.search, c)
  }

  /** The comments passing the filters, in list order. */
  function FilterVisible(cs: seq<UiComment>, f: Filters, pending: set<JsString>): (r: seq<UiComment>)
    ensures |r| <= |cs|
    ensures forall c :: c in r <==> c in cs && Visible(f, pending, c)
    ensures forall c :: multiset(r)[c] == if Visible(f, pending, c) then multiset(cs)[c] else 0
  {
    if cs == [] then []
    else
      var init := cs[..|cs| - 1];
      var last := cs[|cs| - 1];
      assert cs == init + [last];
      assert forall c :: c in cs <==> c in init || c == last;
      var rest := FilterVisible(init, f, pending);
      if Visible(f, pending, last) then rest + [last] else rest
  }

  /** `a.localeCompare(b) <= 0`, with the collation taken to be code-unit order. */
  predicate LexLe(a: JsString, b: JsString)
  {
    a == [] || (b != [] && (a[0] < b[0] || (a[0] == b[0] && LexLe(a[1..], b[1..]))))
  }

  lemma {:induction false} LexLeTotal(a: JsString, b: JsString)
    ensures LexLe(a, b) || LexLe(b, a)
  {
    if a != [] && b != [] && a[0] == b[0] {
      LexLeTotal(a[1..], b[1..]);
    }
  }

  lemma {:induction false} LexLeTransitive(a: JsString, b: JsString, c: JsString)
    requires LexLe(a, b) && LexLe(b, c)
    ensures LexLe(a, c)
  {
    if a != [] && a[0] == b[0] && b[0] == c[0] {
      LexLeTransitive(a[1..], b[1..], c[1..]);
    }
  }

  lemma {:induction false} LexLeAntisymmetric(a: JsString, b: JsString)
    requires LexLe(a, b) && LexLe(b, a)
    ensures a == b
  {
    if a != [] {
      LexLeAntisymmetric(a[1..], b[1..]);
      assert a == [a[0]] + a[1..] && b == [b[0]] + b[1..];
    }
  }

  /**
   * `a` may come before `b` under the comparator of `visibleComments`, that
   * is, the comparator gives a value `<= 0` for them.
   */
  predicate Precedes(key: SortKey, dir: SortDir, a: UiComment, b: UiComment)
  {
    match (key, dir)
    case (ByToxicity, Asc) => a.toxicity <= b.toxicity
    case (ByToxicity, Desc) => a.toxicity >= b.toxicity
    case (ByUsername, Asc) => LexLe(a.username, b.username)
    case (ByUsername, Desc) => LexLe(b.username, a.username)
  }

  function Order(key: SortKey, dir: SortDir): (UiComment, UiComment) -> bool
  {
    (a: UiComment, b: UiComment) => Precedes(key, dir, a, b)
  }

  /** Each of the four orders is a total preorder, so sorting by it is well defined. */
  lemma OrderIsTotalPreorder(key: SortKey, dir: SortDir)
    ensures TotalPreorder(Order(key, dir))
  {
    var le := Order(key, dir);
    forall a, b ensures le(a, b) || le(b, a) {
      LexLeTotal(a.username, b.username);
    }
    forall a, b, c | le(a, b) && le(b, c) ensures le(a, c) {
      if key == ByUsername {
        if dir == Asc {
          LexLeTransitive(a.username, b.username, c.username);
        } else {
          LexLeTransitive(c.username, b.username, a.username);
        }
      }
    }
  }

  /**
   * The visible comments in the selected order: exactly the comments passing
   * the filters, each as often as in the list, and sorted.
   */
  lemma SortedVisible(cs: seq<UiComment>, f: Filters, pending: set<JsString>)
    ensures var r := SortBy(FilterVisible(cs, f, pending), Order(f.sortKey, f.sortDir));
            && (forall c :: c in r <==> c in cs && Visible(f, pending, c))
            && (forall c :: Visible(f, pending, c) ==> multiset(r)[c] == multiset(cs)[c])
            && SortedBy(r, Order(f.sortKey, f.sortDir))
  {
    var kept := FilterVisible(cs, f, pending);
    var r := SortBy(kept, Order(f.sortKey, f.sortDir));
    assert multiset(r) == multiset(kept);
    forall c ensures c in r <==> c in cs && Visible(f, pending, c) {
      assert c in r <==> c in multiset(r);
      assert c in kept <==> c in multiset(kept);
    }
    OrderIsTotalPreorder(f.sortKey, f.sortDir);
    SortBySorted(kept, Order(f.sortKey, f.sortDir));
  }

  // ---------------------------------------------------------------------------
  // Charts

  function Clamp(t: real): (r: real)
    ensures 0.0 <= r <= 1.0
    ensures 0.0 <= t <= 1.0 ==> r == t
    ensures t < 0.0 ==> r == 0.0
    ensures t > 1.0 ==> r == 1.0
  {
    if t < 0.0 then 0.0 else if t > 1.0 then 1.0 else t
  }

  /** `Math.min(4, Math.floor(t * 5))` for the clamped toxicity: the fifth of [0, 1] it falls in. */
  function Bucket(t: real): (b: nat)
    ensures b < 5
    ensures (b as real) * 0.2 <= Clamp(t)
    ensures b < 4 ==> Clamp(t) < (b as real + 1.0) * 0.2
    ensures t >= 1.0 ==> b == 4
    ensures t <= 0.0 ==> b == 0
  {
    var k := (Clamp(t) * 5.0).Floor;
    if k < 4 then k else 4
  }

  /** How many comments land in bucket `b`. */
  function CountInBucket(cs: seq<UiComment>, b: nat): (n: nat)
    ensures n <= |cs|
  {
    if cs == [] then 0
    else CountInBucket(cs[..|cs| - 1], b) + (if Bucket(cs[|cs| - 1].toxicity) == b then 1 else 0)
  }

  function Sum(xs: seq<nat>): nat
  {
    if xs == [] then 0 else xs[0] + Sum(xs[1..])
  }

  lemma SumOfFive(xs: seq<nat>)
    requires |xs| == 5
    ensures Sum(xs) == xs[0] + xs[1] + xs[2] + xs[3] + xs[4]
  {
    assert xs[1..][1..] == xs[2..] && xs[2..][1..] == xs[3..] && xs[3..][1..] == xs[4..];
    assert xs[4..][1..] == [];
    assert Sum(xs[4..]) == xs[4];
    assert Sum(xs[3..]) == xs[3] + xs[4];
    assert Sum(xs[2..]) == xs[2] + xs[3] + xs[4];
    assert Sum(xs[1..]) == xs[1] + xs[2] + xs[3] + xs[4];
  }

  /** Counting one more comment adds one to its own bucket only. */
  lemma CountInBucketStep(cs: seq<UiComment>, i: nat)
    requires i < |cs|
    ensures forall b :: CountInBucket(cs[..i + 1], b)
                        == CountInBucket(cs[..i], b) + (if Bucket(cs[i].toxicity) == b then 1 else 0)
  {
    assert cs[..i + 1][..i] == cs[..i];
  }

  /** Every comment lands in exactly one of the five buckets. */
  lemma {:induction false} BucketsCoverAll(cs: seq<UiComment>)
    ensures CountInBucket(cs, 0) + CountInBucket(cs, 1) + CountInBucket(cs, 2)
            + CountInBucket(cs, 3) + CountInBucket(cs, 4) == |cs|
  {
    if cs != [] {
      BucketsCoverAll(cs[..|cs| - 1]);
    }
  }

  predicate IsToxic(c: UiComment)
  {
    c.toxicity > TOXIC_THRESH
  }

  function CountToxic(cs: seq<UiComment>): (n: nat)
    ensures n <= |cs|
  {
    if cs == [] then 0 else (if IsToxic(cs[0]) then 1 else 0) + CountToxic(cs[1..])
  }

  function CountClean(cs: seq<UiComment>): (n: nat)
    ensures n <= |cs|
  {
    if cs == [] then 0 else (if IsToxic(cs[0]) then 0 else 1) + CountClean(cs[1..])
  }

  /** `pieData`: the clean count is the length minus the toxic count. */
  function PieCounts(cs: seq<UiComment>): (r: (nat, nat))
    ensures r.0 + r.1 == |cs|
    ensures r.1 == CountToxic(cs)
  {
    (|cs| - CountToxic(cs), CountToxic(cs))
  }

  /** The pie's clean slice counts exactly the comments at or below the threshold. */
  lemma {:induction false} PieIsPartition(cs: seq<UiComment>)
    ensures PieCounts(cs).0 == CountClean(cs)
  {
    if cs != [] {
      PieIsPartition(cs[1..]);
    }
  }

  /**
   * The toxicity column header: it selects the toxicity order, ascending
   * exactly when that order was already selected descending.
   */
  function HeaderClick(f: Filters): (r: Filters)
    ensures r.sortKey == ByToxicity
    ensures r.sortDir == Asc <==> f.sortKey == ByToxicity && f.sortDir == Desc
    ensures r.(sortKey := f.sortKey, sortDir := f.sortDir) == f
  {
    f.(sortKey := ByToxicity, sortDir := if f.sortKey == ByToxicity && f.sortDir == Desc then Asc else Desc)
  }

  /** On the toxicity order two clicks restore the direction. */
  lemma HeaderClickTwice(f: Filters)
    requires f.sortKey == ByToxicity
    ensures HeaderClick(HeaderClick(f)) == f
  {
  }

  /** `prev.map(c => c.id === id ? {...c, hidden: flag} : c)`. */
  function SetHidden(cs: seq<UiComment>, id: JsString, flag: bool): (r: seq<UiComment>)
    ensures |r| == |cs|
    ensures forall i :: 0 <= i < |cs| ==> r[i] == if cs[i].id == id then cs[i].(hidden := flag) else cs[i]
  {
    seq(|cs|, i requires 0 <= i < |cs| => if cs[i].id == id then cs[i].(hidden := flag) else cs[i])
  }
}
