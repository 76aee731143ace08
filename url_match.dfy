/**
 * Classification of a post URL by substring priority and the three fixed
 * identifier patterns of the analyze route, written as scanners over code
 * units: `/\/reel\/([a-zA-Z0-9_-]+)/` and its `/p/` and `/tv/` siblings for
 * Instagram, and `/(?:v=|\/)([0-9A-Za-z_-]{11})(?:[?&].*)?$/` for YouTube.
 * Each scanner returns the leftmost match, as `String.prototype.match` does.
 */
module UrlMatch {
  import opened Wrappers
  import opened JsText

  /** Which upstream service a URL is routed to. */
  datatype Host = InstagramHost | YouTubeHost | FacebookHost | OtherHost

  /** `p` occurs somewhere in `s`. */
  ghost predicate Mentions(s: JsString, p: string)
  {
    exists i :: OccursAt(s, Lit(p), i)
  }

  /**
   * Instagram first, then YouTube (either domain), then Facebook: the first
   * host, in that order, that the URL
   * mentions anywhere; a URL mentioning Instagram is Instagram's whatever
   * else it contains.
   */
  function HostOf(url: JsString): (h: Host)
    ensures h == InstagramHost <==> Mentions(url, "instagram.com")
    ensures h == YouTubeHost <==>
              !Mentions(url, "instagram.com") && (Mentions(url, "youtube.com") || Mentions(url, "youtu.be"))
    ensures h == FacebookHost <==>
              !Mentions(url, "instagram.com") && !Mentions(url, "youtube.com") && !Mentions(url, "youtu.be")
              && Mentions(url, "facebook.com")
  {
    IncludesSpec(url, Lit("instagram.com"));
    IncludesSpec(url, Lit("youtube.com"));
    IncludesSpec(url, Lit("youtu.be"));
    IncludesSpec(url, Lit("facebook.com"));
    if Includes(url, Lit("instagram.com")) then InstagramHost
    else if Includes(url, Lit("youtube.com")) || Includes(url, Lit("youtu.be")) then YouTubeHost
    else if Includes(url, Lit("facebook.com")) then FacebookHost
    else OtherHost
  }

  /** `[a-zA-Z0-9_-]`, the character class of both patterns. */
  predicate IsIdUnit(u: CodeUnit)
  {
    ('a' as int <= u <= 'z' as int) || ('A' as int <= u <= 'Z' as int)
    || ('0' as int <= u <= '9' as int) || u == '_' as int || u == '-' as int
  }

  predicate AllIdUnits(s: JsString)
  {
    forall k :: 0 <= k < |s| ==> IsIdUnit(s[k])
  }

  // ---------------------------------------------------------------------------
  // Instagram: a fixed segment followed by one or more identifier units

  /** The pattern `prefix` + `[a-zA-Z0-9_-]+` can start matching at index `i`. */
  predicate SegmentAt(s: JsString, prefix: JsString, i: int)
  {
    OccursAt(s, prefix, i) && i + |prefix| < |s| && IsIdUnit(s[i + |prefix|])
  }

  /** The greedy run of identifier units that starts at `j`. */
  function RunFrom(s: JsString, j: nat): (r: JsString)
    requires j <= |s|
    ensures j + |r| <= |s| && r == s[j..j + |r|]
    ensures AllIdUnits(r)
    ensures j + |r| == |s| || !IsIdUnit(s[j + |r|])
    ensures j < |s| && IsIdUnit(s[j]) ==> r != []
    decreases |s| - j
  {
    if j < |s| && IsIdUnit(s[j]) then [s[j]] + RunFrom(s, j + 1) else []
  }

  /** The leftmost index at or after `i` where the segment pattern matches. */
  function FirstSegment(s: JsString, prefix: JsString, i: nat): (r: Option<nat>)
    requires i <= |s|
    ensures r.Some? ==> i <= r.value <= |s| && SegmentAt(s, prefix, r.value)
                        && forall j :: i <= j < r.value ==> !SegmentAt(s, prefix, j)
    ensures r.None? ==> forall j :: i <= j <= |s| ==> !SegmentAt(s, prefix, j)
    decreases |s| - i
  {
    if SegmentAt(s, prefix, i) then Some(i)
    else if i == |s| then None
    else FirstSegment(s, prefix, i + 1)
  }

  /** The capture group of the leftmost match of `prefix` + `([a-zA-Z0-9_-]+)`. */
  function MatchSegment(s: JsString, prefix: JsString): (r: Option<JsString>)
    ensures r.None? <==> forall j :: 0 <= j <= |s| ==> !SegmentAt(s, prefix, j)
    ensures r.Some? ==> r.value != [] && AllIdUnits(r.value)
    ensures r.Some? ==> exists i :: 0 <= i <= |s| && SegmentAt(s, prefix, i)
                                    && (forall j :: 0 <= j < i ==> !SegmentAt(s, prefix, j))
                                    && r.value == RunFrom(s, i + |prefix|)
  {
    match FirstSegment(s, prefix, 0)
    case None => None
    case Some(i) => Some(RunFrom(s, i + |prefix|))
  }

  /** `/reel/` is tried first, then `/p/`, then `/tv/`; each over the whole URL. */
  function InstagramShortcode(url: JsString): (r: Option<JsString>)
    ensures r.Some? ==> r.value != [] && AllIdUnits(r.value)
    ensures r.None? <==> MatchSegment(url, Lit("/reel/")).None? && MatchSegment(url, Lit("/p/")).None?
                         && MatchSegment(url, Lit("/tv/")).None?
    ensures MatchSegment(url, Lit("/reel/")).Some? ==> r == MatchSegment(url, Lit("/reel/"))
    ensures MatchSegment(url, Lit("/reel/")).None? && MatchSegment(url, Lit("/p/")).Some? ==>
              r == MatchSegment(url, Lit("/p/"))
    ensures MatchSegment(url, Lit("/reel/")).None? && MatchSegment(url, Lit("/p/")).None? ==>
              r == MatchSegment(url, Lit("/tv/"))
  {
    var reel := MatchSegment(url, Lit("/reel/"));
    if reel.Some? then reel
    else
      var post := MatchSegment(url, Lit("/p/"));
      if post.Some? then post else MatchSegment(url, Lit("/tv/"))
  }

  // ---------------------------------------------------------------------------
  // YouTube: `(?:v=|\/)`, exactly eleven identifier units, then the end of the
  // URL or `?`/`&` followed by a line without terminators (`.` stops at them)

  /** The code units `.` does not match. */
  predicate IsLineTerminator(u: CodeUnit)
  {
    u == 0x0A || u == 0x0D || u == 0x2028 || u == 0x2029
  }

  /** `([0-9A-Za-z_-]{11})(?:[?&].*)?$` matches from index `j`. */
  predicate VideoIdTailAt(s: JsString, j: nat)
  {
    && j + 11 <= |s|
    && (forall k :: j <= k < j + 11 ==> IsIdUnit(s[k]))
    && (j + 11 == |s|
        || ((s[j + 11] == '?' as int || s[j + 11] == '&' as int)
            && forall k :: j + 12 <= k < |s| ==> !IsLineTerminator(s[k])))
  }

  /** Where the capture group starts when the whole pattern matches from index `i`. */
  function VideoIdStart(s: JsString, i: nat): (r: Option<nat>)
    ensures r.Some? ==> r.value + 11 <= |s| && VideoIdTailAt(s, r.value)
    ensures r.Some? ==> (r.value == i + 2 && s[i] == 'v' as int && s[i + 1] == '=' as int)
                        || (r.value == i + 1 && s[i] == '/' as int)
    ensures r.None? ==> !(i + 1 < |s| && s[i] == 'v' as int && s[i + 1] == '=' as int && VideoIdTailAt(s, i + 2))
                        && !(i < |s| && s[i] == '/' as int && VideoIdTailAt(s, i + 1))
  {
    if i + 1 < |s| && s[i] == 'v' as int && s[i + 1] == '=' as int && VideoIdTailAt(s, i + 2) then Some(i + 2)
    else if i < |s| && s[i] == '/' as int && VideoIdTailAt(s, i + 1) then Some(i + 1)
    else None
  }

  /** The leftmost index at or after `i` where the YouTube pattern matches. */
  function FirstVideoIdMatch(s: JsString, i: nat): (r: Option<nat>)
    requires i <= |s|
    ensures r.Some? ==> i <= r.value <= |s| && VideoIdStart(s, r.value).Some?
                        && forall j :: i <= j < r.value ==> VideoIdStart(s, j).None?
    ensures r.None? ==> forall j :: i <= j <= |s| ==> VideoIdStart(s, j).None?
    decreases |s| - i
  {
    if VideoIdStart(s, i).Some? then Some(i)
    else if i == |s| then None
    else FirstVideoIdMatch(s, i + 1)
  }

  /** The capture group of the YouTube pattern, if the URL matches it. */
  function YouTubeVideoId(url: JsString): (r: Option<JsString>)
    ensures r.None? <==> forall j :: 0 <= j <= |url| ==> VideoIdStart(url, j).None?
    ensures r.Some? ==> |r.value| == 11 && AllIdUnits(r.value)
    ensures r.Some? ==> exists i, c :: 0 <= i <= |url| && VideoIdStart(url, i) == Some(c)
                                       && (forall j :: 0 <= j < i ==> VideoIdStart(url, j).None?)
                                       && ((c >= 2 && url[c - 2] == 'v' as int && url[c - 1] == '=' as int)
                                           || (c >= 1 && url[c - 1] == '/' as int))
                                       && r.value == url[c..c + 11]
                                       && (c + 11 == |url| || url[c + 11] == '?' as int || url[c + 11] == '&' as int)
  {
    match FirstVideoIdMatch(url, 0)
    case None => None
    case Some(i) =>
      var c := VideoIdStart(url, i).value;
      Some(url[c..c + 11])
  }
}
