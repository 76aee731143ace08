/**
 * The text cleaner of the analyze route: a global replace that deletes the
 * dingbat and private-use code units and three families of emoji surrogate
 * pairs, followed by `trim()`.  The pattern has no `u` flag, so it is
 * matched on UTF-16 code units.
 */
module Emoji {
  import opened JsText

  /** Dingbats (U+2700-27BF) and the Private Use Area (U+E000-F8FF). */
  predicate IsSymbolUnit(u: CodeUnit)
  {
    (0x2700 <= u <= 0x27BF) || (0xE000 <= u <= 0xF8FF)
  }

  /**
   * The surrogate pairs the pattern removes: U+1F000-1F7FF (high surrogate
   * D83C or D83D) and U+1F900-1F9FF (D83E followed by DD00-DDFF).
   */
  predicate IsEmojiPair(h: CodeUnit, l: CodeUnit)
  {
    ((h == 0xD83C || h == 0xD83D) && 0xDC00 <= l <= 0xDFFF) || (h == 0xD83E && 0xDD00 <= l <= 0xDDFF)
  }

  predicate IsHighSurrogate(u: CodeUnit) { 0xD800 <= u <= 0xDBFF }

  predicate IsLowSurrogate(u: CodeUnit) { 0xDC00 <= u <= 0xDFFF }

  /** Well-formed UTF-16: every high surrogate is followed by a low one, and no low one stands alone. */
  predicate WellFormed(s: JsString)
    decreases |s|
  {
    if |s| == 0 then true
    else if IsHighSurrogate(s[0]) then |s| >= 2 && IsLowSurrogate(s[1]) && WellFormed(s[2..])
    else !IsLowSurrogate(s[0]) && WellFormed(s[1..])
  }

  /** No position of `s` starts a match of the pattern. */
  predicate EmojiFree(s: JsString)
    decreases |s|
  {
    |s| == 0 || (!IsSymbolUnit(s[0]) && !(|s| >= 2 && IsEmojiPair(s[0], s[1])) && EmojiFree(s[1..]))
  }

  /**
   * The global replace, scanning left to right: at each position the
   * one-unit alternatives are tried, then the pairs; a match is dropped and
   * the scan resumes after it.
   */
  function StripEmoji(s: JsString): (r: JsString)
    ensures |r| <= |s|
    ensures forall i :: 0 <= i < |r| ==> !IsSymbolUnit(r[i])
    decreases |s|
  {
    if |s| == 0 then []
    else if IsSymbolUnit(s[0]) then StripEmoji(s[1..])
    else if |s| >= 2 && IsEmojiPair(s[0], s[1]) then StripEmoji(s[2..])
    else [s[0]] + StripEmoji(s[1..])
  }

  /** The cleaned text the route sends to the scorer: stripped, then trimmed. */
  function Clean(s: JsString): (r: JsString)
    ensures |r| <= |s|
    ensures r == [] || (!IsJsSpace(r[0]) && !IsJsSpace(r[|r| - 1]))
    ensures forall i :: 0 <= i < |r| ==> !IsSymbolUnit(r[i])
  {
    var t := StripEmoji(s);
    TrimIsSlice(t);
    Trim(t)
  }

  /**
   * On well-formed input the strip leaves well-formed, emoji-free text: no
   * dingbat or private-use unit and none of the removed pairs survives.
   */
  lemma {:induction false} StripEmojiClean(s: JsString)
    requires WellFormed(s)
    ensures WellFormed(StripEmoji(s)) && EmojiFree(StripEmoji(s))
    decreases |s|
  {
    if |s| == 0 {
    } else if IsSymbolUnit(s[0]) {
      StripEmojiClean(s[1..]);
    } else if |s| >= 2 && IsEmojiPair(s[0], s[1]) {
      StripEmojiClean(s[2..]);
    } else if IsHighSurrogate(s[0]) {
      // a kept high surrogate carries its low surrogate along
      var tail := StripEmoji(s[2..]);
      assert s[1..][1..] == s[2..];
      assert StripEmoji(s[1..]) == [s[1]] + tail;
      StripEmojiClean(s[2..]);
      var r := [s[0], s[1]] + tail;
      assert r[1..] == [s[1]] + tail && r[1..][1..] == tail && r[2..] == tail;
      assert EmojiFree(r[1..]);
      assert StripEmoji(s) == r;
    } else {
      var tail := StripEmoji(s[1..]);
      StripEmojiClean(s[1..]);
      var r := [s[0]] + tail;
      assert r[1..] == tail;
      assert StripEmoji(s) == r;
    }
  }

  /**
   * The strip works match by match: cut anywhere but inside a removed pair,
   * the two parts are stripped independently.  With StripEmojiIdentity this
   * says that every code unit outside a match is kept, in order.
   */
  lemma {:induction false} StripEmojiAppend(a: JsString, b: JsString)
    requires |a| == 0 || |b| == 0 || !IsEmojiPair(a[|a| - 1], b[0])
    ensures StripEmoji(a + b) == StripEmoji(a) + StripEmoji(b)
    decreases |a|
  {
    if |a| == 0 {
      assert a + b == b;
    } else {
      var n := if IsSymbolUnit(a[0]) then 1 else if |a| >= 2 && IsEmojiPair(a[0], a[1]) then 2 else 1;
      var rest := a[n..];
      assert |rest| > 0 ==> rest[|rest| - 1] == a[|a| - 1];
      StripEmojiAppend(rest, b);
      StripEmojiAppendStep(a, b, n);
    }
  }

  /**
   * The inductive step of StripEmojiAppend: the first match or unmatched unit
   * of `a` is handled the same way in `a + b`.
   */
  lemma StripEmojiAppendStep(a: JsString, b: JsString, n: nat)
    requires |a| > 0 && (|b| == 0 || !IsEmojiPair(a[|a| - 1], b[0]))
    requires n == if IsSymbolUnit(a[0]) then 1 else if |a| >= 2 && IsEmojiPair(a[0], a[1]) then 2 else 1
    requires StripEmoji(a[n..] + b) == StripEmoji(a[n..]) + StripEmoji(b)
    ensures StripEmoji(a + b) == StripEmoji(a) + StripEmoji(b)
  {
    var ab := a + b;
    var kept: JsString := if IsSymbolUnit(a[0]) || n == 2 then [] else [a[0]];
    assert ab[0] == a[0];
    assert |ab| >= 2 ==> ab[1] == if |a| >= 2 then a[1] else b[0];
    StripEmojiStep(ab, n, kept);
    StripEmojiStep(a, n, kept);
    SplitAfterPrefix(a, b, n, kept, StripEmoji(a[n..]), StripEmoji(b));
  }

  /** The sequence algebra of the step, kept away from the unfoldings of StripEmoji. */
  lemma SplitAfterPrefix(a: JsString, b: JsString, n: nat, kept: JsString, x: JsString, y: JsString)
    requires n <= |a|
    ensures (a + b)[n..] == a[n..] + b
    ensures kept + (x + y) == (kept + x) + y
  {
  }

  /** One step of the scan: a match of length `n` is dropped, an unmatched unit kept. */
  lemma StripEmojiStep(s: JsString, n: nat, kept: JsString)
    requires 0 < |s|
    requires n == if IsSymbolUnit(s[0]) then 1 else if |s| >= 2 && IsEmojiPair(s[0], s[1]) then 2 else 1
    requires kept == if IsSymbolUnit(s[0]) || n == 2 then [] else [s[0]]
    ensures StripEmoji(s) == kept + StripEmoji(s[n..])
  {
  }

  /** Text between matches survives the strip: a unit that starts no match is kept in front of the rest. */
  lemma KeepsUnmatchedUnit(u: CodeUnit, b: JsString)
    requires !IsSymbolUnit(u) && (|b| == 0 || !IsEmojiPair(u, b[0]))
    ensures StripEmoji([u] + b) == [u] + StripEmoji(b)
  {
    assert ([u] + b)[1..] == b;
  }

  /** Emoji-free text passes the strip unchanged. */
  lemma {:induction false} StripEmojiIdentity(s: JsString)
    requires EmojiFree(s)
    ensures StripEmoji(s) == s
    decreases |s|
  {
    if |s| > 0 {
      StripEmojiIdentity(s[1..]);
      assert s == [s[0]] + s[1..];
    }
  }

  /** Leading white space is neither a surrogate nor part of a match, so trimming it keeps both properties. */
  lemma {:induction false} TrimStartKeepsClean(s: JsString)
    requires WellFormed(s) && EmojiFree(s)
    ensures WellFormed(TrimStart(s)) && EmojiFree(TrimStart(s))
    decreases |s|
  {
    if |s| > 0 && IsJsSpace(s[0]) {
      TrimStartKeepsClean(s[1..]);
    }
  }

  /** Dropping a last unit that is not a surrogate keeps both properties. */
  lemma {:induction false} DropLastKeepsClean(s: JsString)
    requires WellFormed(s) && EmojiFree(s) && |s| > 0
    requires !IsHighSurrogate(s[|s| - 1]) && !IsLowSurrogate(s[|s| - 1])
    ensures WellFormed(s[..|s| - 1]) && EmojiFree(s[..|s| - 1])
    decreases |s|
  {
    var p := s[..|s| - 1];
    if |s| == 1 {
    } else if IsHighSurrogate(s[0]) {
      assert |s| > 2 && IsLowSurrogate(s[1]);
      assert EmojiFree(s[1..]) && s[1..][1..] == s[2..];
      DropLastKeepsClean(s[2..]);
      assert s[2..][..|s| - 3] == p[2..];
      assert p[1..][1..] == p[2..];
      assert EmojiFree(p[1..]);
    } else {
      DropLastKeepsClean(s[1..]);
      assert s[1..][..|s| - 2] == p[1..];
    }
  }

  /** Trailing white space is neither a surrogate nor part of a match, so trimming it keeps both properties. */
  lemma {:induction false} TrimEndKeepsClean(s: JsString)
    requires WellFormed(s) && EmojiFree(s)
    ensures WellFormed(TrimEnd(s)) && EmojiFree(TrimEnd(s))
    decreases |s|
  {
    if |s| > 0 && IsJsSpace(s[|s| - 1]) {
      DropLastKeepsClean(s);
      TrimEndKeepsClean(s[..|s| - 1]);
    }
  }

  /** Cleaning leaves well-formed, emoji-free text. */
  lemma CleanIsClean(s: JsString)
    requires WellFormed(s)
    ensures WellFormed(Clean(s)) && EmojiFree(Clean(s))
  {
    var t := StripEmoji(s);
    StripEmojiClean(s);
    TrimStartKeepsClean(t);
    TrimEndKeepsClean(TrimStart(t));
  }

  /** Cleaning twice is cleaning once, on well-formed input. */
  lemma CleanIdempotent(s: JsString)
    requires WellFormed(s)
    ensures Clean(Clean(s)) == Clean(s)
  {
    var c := Clean(s);
    CleanIsClean(s);
    StripEmojiIdentity(c);
    TrimOfTrimmed(c);
  }

  /**
   * Without well-formedness the strip is not idempotent: removing a dingbat
   * between a lone high surrogate and a low one creates a pair the next pass
   * removes.
   */
  lemma StripNotIdempotentOnLoneSurrogates()
    ensures var s: JsString := [0xD83C, 0x2700, 0xDC00];
            !WellFormed(s) && StripEmoji(StripEmoji(s)) != StripEmoji(s)
  {
    var s: JsString := [0xD83C, 0x2700, 0xDC00];
    assert s[1..] == [0x2700, 0xDC00];
    assert s[1..][1..] == [0xDC00];
    assert StripEmoji([0xDC00]) == [0xDC00];
    assert StripEmoji(s[1..]) == [0xDC00];
    assert StripEmoji(s) == [0xD83C, 0xDC00];
    var t: JsString := [0xD83C, 0xDC00];
    assert t[2..] == [];
    assert StripEmoji(t) == [];
  }
}
