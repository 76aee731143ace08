/**
 * How the analysis route's reply reaches the dashboard: the JSON encoding
 * of a scored comment, read back by the dashboard's two normalisations, and
 * the agreement between the client-side URL check and the route's host
 * classification.
 */
module Wire {
  import opened Wrappers
  import opened JsText
  import opened UrlMatch
  import opened Analyze
  import opened CommentView
  import opened Dashboard

  /**
   * The JSON form of a scored comment: an absent id or score is dropped by
   * the encoder, so the dashboard sees them as undefined.
   */
  function ToWire(c: ScoredComment): (w: WireComment)
    ensures w.username == Some(c.username) && w.text == Some(c.text) && w.id == c.id
    ensures w.hidden == Undefined && w.overallToxicity == Undefined
    ensures w.toxicity.Number? <==> c.toxicity.Some?
  {
    WireComment(c.id, None, None, Some(c.username), None, None, Some(c.text), None,
                if c.toxicity.Some? then Number(c.toxicity.value) else Undefined, Undefined, Undefined)
  }

  function ToWireList(cs: seq<ScoredComment>): (ws: seq<WireComment>)
    ensures |ws| == |cs| && forall i :: 0 <= i < |cs| ==> ws[i] == ToWire(cs[i])
  {
    seq(|cs|, i requires 0 <= i < |cs| => ToWire(cs[i]))
  }

  /** The body of a successful analysis reply; a failure carries no body. */
  function BodyOf(r: Reply): (b: Option<WireBody>)
    ensures b.Some? <==> r.Analysis?
    ensures r.Analysis? ==> b.value.comments == Some(ToWireList(r.comments))
                            && b.value.avgToxicity == r.avgToxicity && b.value.nextToken == r.nextToken
  {
    match r
    case Failed(_) => None
    case Analysis(cs, avg, token) => Some(WireBody(Some(ToWireList(cs)), avg, token))
  }

  /**
   * The dashboard keeps every analysed comment in order with its username,
   * text and score (0 when the scorer gave none), shown, and with its own id
   * or a fresh one when it had none.
   */
  lemma AnalysisReachesDashboard(cs: seq<ScoredComment>, uuid: nat -> JsString)
    ensures var ui := NormalizeAnalyzed(ToWireList(cs), uuid);
            && |ui| == |cs|
            && forall i :: 0 <= i < |cs| ==>
                 && ui[i].id == (if cs[i].id.Some? then cs[i].id.value else uuid(i))
                 && ui[i].username == cs[i].username && ui[i].text == cs[i].text
                 && ui[i].toxicity == (if cs[i].toxicity.Some? then cs[i].toxicity.value else 0.0)
                 && !ui[i].hidden
  {
    var ws := ToWireList(cs);
    var ui := NormalizeAnalyzed(ws, uuid);
    forall i | 0 <= i < |cs|
      ensures ui[i].toxicity == (if cs[i].toxicity.Some? then cs[i].toxicity.value else 0.0)
    {
      assert ws[i] == ToWire(cs[i]);
    }
  }

  /**
   * The initial analysis and "load more" map comments differently (`??`
   * against `||` for the username, `textDisplay` as a fallback), but agree
   * on every reply of the analysis route, whose usernames are never empty.
   */
  lemma NormalisationsAgreeOnReplies(cs: seq<ScoredComment>, uuid: nat -> JsString)
    requires forall c :: c in cs ==> c.username != []
    ensures NormalizePage(ToWireList(cs), uuid) == NormalizeAnalyzed(ToWireList(cs), uuid)
  {
    var ws := ToWireList(cs);
    var p := NormalizePage(ws, uuid);
    var a := NormalizeAnalyzed(ws, uuid);
    forall i | 0 <= i < |cs| ensures p[i] == a[i] {
      assert cs[i] in cs;
      assert ws[i] == ToWire(cs[i]);
    }
  }

  /** On a comment with an empty username the two mappings do differ. */
  lemma NormalisationsDifferOnEmptyUsername()
    ensures var w := WireComment(Some([0x31]), None, None, Some([]), None, None, Some([]), None,
                                 Undefined, Undefined, Undefined);
            var uuid := (i: nat) => [0x78];
            NormalizeAnalyzed([w], uuid)[0].username == [] && NormalizePage([w], uuid)[0].username == UNKNOWN_USER
  {
    var w := WireComment(Some([0x31]), None, None, Some([]), None, None, Some([]), None,
                         Undefined, Undefined, Undefined);
    var uuid := (i: nat) => [0x78];
    assert NormalizeAnalyzed([w], uuid)[0].username == Coalesce(Some([]), UNKNOWN_USER);
    assert NormalizePage([w], uuid)[0].username == Or(Some([]), Or(None, Or(None, UNKNOWN_USER)));
  }

  /** The client sends exactly the URLs the route assigns to a supported platform. */
  lemma ClientCheckMatchesRoute(url: JsString)
    ensures UrlAccepted(url) <==> HostOf(url) != OtherHost
  {
  }
}
