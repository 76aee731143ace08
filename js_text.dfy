/**
 * The few JavaScript built-ins the core relies on, over UTF-16 code units:
 * `includes`, `trim`, `toLowerCase` (ASCII letters only), the `||` and `??`
 * defaulting operators on optional strings, `typeof x === "number"` and `!!x`.
 */
module JsText {
  import opened Wrappers

  /** One UTF-16 code unit; a JavaScript string is a sequence of them. */
  type CodeUnit = x: int | 0 <= x < 0x1_0000

  type JsString = seq<CodeUnit>

  /** The code unit of a character of the Basic Multilingual Plane (U+FFFD for any other). */
  function Unit(c: char): CodeUnit
  {
    if (c as int) < 0x1_0000 then c as int else 0xFFFD
  }

  /** A string literal of the source, as code units. */
  function Lit(s: string): JsString
  {
    seq(|s|, i requires 0 <= i < |s| => Unit(s[i]))
  }

  // ---------------------------------------------------------------------------
  // Truthiness and defaulting

  /** The placeholder username of both the analysis route and the dashboard. */
  const UNKNOWN_USER: JsString := Lit("unknown_user")

  /** A string value is truthy when it is present and non-empty. */
  predicate Truthy(s: Option<JsString>)
  {
    s.Some? && s.value != []
  }

  /** `s || d` for an optional string `s` and a string `d`. */
  function Or(s: Option<JsString>, d: JsString): (r: JsString)
    ensures Truthy(s) ==> r == s.value
    ensures !Truthy(s) ==> r == d
    ensures d != [] ==> r != []
  {
    if Truthy(s) then s.value else d
  }

  /** `s || null`: the empty string collapses to null. */
  function OrNull(s: Option<JsString>): (r: Option<JsString>)
    ensures r.None? || r.value != []
    ensures Truthy(s) ==> r == s
    ensures !Truthy(s) ==> r.None?
  {
    if Truthy(s) then s else None
  }

  /** `s ?? d`: only an absent value falls back, the empty string is kept. */
  function Coalesce(s: Option<JsString>, d: JsString): (r: JsString)
    ensures s.Some? ==> r == s.value
    ensures s.None? ==> r == d
  {
    if s.Some? then s.value else d
  }

  /** `a || b || d` on Dafny strings (protocol messages). */
  function MessageOr(a: Option<string>, b: Option<string>, d: string): (r: string)
    ensures a.Some? && a.value != "" ==> r == a.value
    ensures !(a.Some? && a.value != "") && b.Some? && b.value != "" ==> r == b.value
    ensures !(a.Some? && a.value != "") && !(b.Some? && b.value != "") ==> r == d
    ensures d != "" ==> r != ""
  {
    if a.Some? && a.value != "" then a.value
    else if b.Some? && b.value != "" then b.value
    else d
  }

  // ---------------------------------------------------------------------------
  // JSON values

  /**
   * A JSON value as far as the core inspects it.  Numbers are exact reals, so
   * NaN and the infinities are not modelled.
   */
  datatype JsValue = Undefined | Null | Boolean(b: bool) | Number(n: real) | Str(s: JsString) | Object

  /** `!!v`, JavaScript's boolean coercion. */
  predicate ToBoolean(v: JsValue)
  {
    match v
    case Undefined => false
    case Null => false
    case Boolean(b) => b
    case Number(n) => n != 0.0
    case Str(s) => s != []
    case Object => true
  }

  /**
   * `typeof a === "number" ? a : typeof b === "number" ? b : 0`: the toxicity
   * resolution chain shared by the dashboard and the save route.
   */
  function NumberOr(a: JsValue, b: JsValue): (r: real)
    ensures a.Number? ==> r == a.n
    ensures !a.Number? && b.Number? ==> r == b.n
    ensures !a.Number? && !b.Number? ==> r == 0.0
  {
    if a.Number? then a.n else if b.Number? then b.n else 0.0
  }

  // ---------------------------------------------------------------------------
  // Searching

  /** `p` occurs in `s` starting at index `i`. */
  predicate OccursAt(s: JsString, p: JsString, i: int)
  {
    0 <= i && i + |p| <= |s| && s[i..i + |p|] == p
  }

  /** `s.includes(p)`, found by scanning from the left. */
  function Includes(s: JsString, p: JsString): bool
    decreases |s|
  {
    if |p| <= |s| && s[..|p|] == p then true
    else if |s| == 0 then false
    else Includes(s[1..], p)
  }

  /** Includes agrees with the occurrence relation, in both directions. */
  lemma {:induction false} IncludesSpec(s: JsString, p: JsString)
    ensures Includes(s, p) <==> exists i :: OccursAt(s, p, i)
    decreases |s|
  {
    if |p| <= |s| && s[..|p|] == p {
      assert OccursAt(s, p, 0);
    } else if |s| == 0 {
      forall i | OccursAt(s, p, i) ensures false {
      }
    } else {
      IncludesSpec(s[1..], p);
      if Includes(s, p) {
        var i :| OccursAt(s[1..], p, i);
        assert s[1..][i..i + |p|] == s[i + 1..i + 1 + |p|];
        assert OccursAt(s, p, i + 1);
      } else {
        forall i | OccursAt(s, p, i) ensures false {
          assert i != 0;
          assert s[1..][i - 1..i - 1 + |p|] == s[i..i + |p|];
          assert OccursAt(s[1..], p, i - 1);
        }
      }
    }
  }

  /** ASCII `toLowerCase` of one code unit; other units are left as they are. */
  function LowerUnit(u: CodeUnit): CodeUnit
  {
    if 'A' as int <= u <= 'Z' as int then u + 32 else u
  }

  /** `s.toLowerCase()` restricted to ASCII letters. */
  function ToLower(s: JsString): (r: JsString)
    ensures |r| == |s|
    ensures forall i :: 0 <= i < |s| ==> !('A' as int <= r[i] <= 'Z' as int)
    ensures forall i :: 0 <= i < |s| ==> r[i] == if 'A' as int <= s[i] <= 'Z' as int then s[i] + 32 else s[i]
  {
    seq(|s|, i requires 0 <= i < |s| => LowerUnit(s[i]))
  }

  /** Lower-casing twice is lower-casing once. */
  lemma ToLowerIdempotent(s: JsString)
    ensures ToLower(ToLower(s)) == ToLower(s)
  {
    var t := ToLower(s);
    assert forall i :: 0 <= i < |t| ==> ToLower(t)[i] == t[i];
  }

  /** Lower-casing keeps every code unit that is not an ASCII capital. */
  lemma ToLowerKeepsOthers(s: JsString)
    requires forall i :: 0 <= i < |s| ==> !('A' as int <= s[i] <= 'Z' as int)
    ensures ToLower(s) == s
  {
    assert forall i :: 0 <= i < |s| ==> ToLower(s)[i] == s[i];
  }

  // ---------------------------------------------------------------------------
  // Trimming

  /**
   * The code units `String.prototype.trim` removes: the ECMAScript WhiteSpace
   * (tab, vertical tab, form feed, the byte order mark and the Zs space
   * separators) and LineTerminator (LF, CR, U+2028, U+2029) characters.
   */
  predicate IsJsSpace(u: CodeUnit)
  {
    u == 0x09 || u == 0x0A || u == 0x0B || u == 0x0C || u == 0x0D || u == 0x20
    || u == 0xA0 || u == 0x1680 || (0x2000 <= u <= 0x200A) || u == 0x2028 || u == 0x2029
    || u == 0x202F || u == 0x205F || u == 0x3000 || u == 0xFEFF
  }

  /** `trimStart`: drops the leading white space and keeps a suffix of `s`. */
  function TrimStart(s: JsString): (r: JsString)
    ensures |r| <= |s| && r == s[|s| - |r|..]
    ensures forall k :: 0 <= k < |s| - |r| ==> IsJsSpace(s[k])
    ensures r == [] || !IsJsSpace(r[0])
    decreases |s|
  {
    if |s| > 0 && IsJsSpace(s[0]) then TrimStart(s[1..]) else s
  }

  /** `trimEnd`: drops the trailing white space and keeps a prefix of `s`. */
  function TrimEnd(s: JsString): (r: JsString)
    ensures |r| <= |s| && r == s[..|r|]
    ensures forall k :: |r| <= k < |s| ==> IsJsSpace(s[k])
    ensures r == [] || !IsJsSpace(r[|r| - 1])
    decreases |s|
  {
    if |s| > 0 && IsJsSpace(s[|s| - 1]) then TrimEnd(s[..|s| - 1]) else s
  }

  /** `s.trim()`. */
  function Trim(s: JsString): (r: JsString)
    ensures |r| <= |s|
    ensures r == [] || (!IsJsSpace(r[0]) && !IsJsSpace(r[|r| - 1]))
  {
    TrimEnd(TrimStart(s))
  }

  /** A string with no white space at either end is its own trim. */
  lemma TrimOfTrimmed(s: JsString)
    requires s == [] || (!IsJsSpace(s[0]) && !IsJsSpace(s[|s| - 1]))
    ensures Trim(s) == s
  {
  }

  /** Trimming is idempotent. */
  lemma TrimIdempotent(s: JsString)
    ensures Trim(Trim(s)) == Trim(s)
  {
    TrimOfTrimmed(Trim(s));
  }

  /** The trim of `s` is a contiguous slice of `s` with only white space cut on either side. */
  lemma TrimIsSlice(s: JsString)
    ensures exists a, b :: 0 <= a <= b <= |s| && Trim(s) == s[a..b]
                           && (forall k :: 0 <= k < a ==> IsJsSpace(s[k]))
                           && (forall k :: b <= k < |s| ==> IsJsSpace(s[k]))
  {
    var t := TrimStart(s);
    var a := |s| - |t|;
    var b := a + |Trim(s)|;
    assert Trim(s) == t[..|Trim(s)|];
    assert t[..|Trim(s)|] == s[a..b];
    forall k | b <= k < |s| ensures IsJsSpace(s[k]) {
      assert s[k] == t[k - a];
    }
  }

  // ---------------------------------------------------------------------------
  // Accumulation

  /** The concatenation of the chunks a stream delivered, in order. */
  function Concat(chunks: seq<JsString>): (r: JsString)
  {
    if chunks == [] then [] else Concat(chunks[..|chunks| - 1]) + chunks[|chunks| - 1]
  }
}
