/**
 * The JavaScript values that reach the request handlers of src/server.js
 * (JSON body fields, query parameters, route parameters) and the few
 * built-in coercions the handlers apply to them: Number() with a
 * finiteness test, strict comparison with "true"/"false", and
 * String.prototype.trim.
 */
module JsValues {
  import opened Wrappers

  /** The instant a Date holds; Date construction, parsing and ISO formatting are not modelled. */
  type Time = int

  /**
   * A value as a handler sees it. The numeric coercion Number(v) of strings
   * and of arrays/objects is not computed here: such values carry the finite
   * number Number(v) yields, or None when it yields NaN or an infinity.
   * JSON numbers are finite except overflowing literals, which JSON.parse
   * turns into an infinity (NonFinite).
   */
  datatype JsValue =
    | Undefined
    | Null
    | Bool(b: bool)
    | Num(x: real)
    | NonFinite
    | Str(s: string, asNumber: Option<real>)
    | Composite(asNumber: Option<real>)

  /**
   * toNumberOrNull: Number(value), or null (None) when that is NaN or infinite.
   * Number(undefined) is NaN, Number(null) is 0, booleans become 0 and 1.
   */
  function ToNumberOrNull(v: JsValue): (r: Option<real>)
    ensures v.Undefined? || v.NonFinite? ==> r.None?
    ensures v.Null? ==> r == Some(0.0)
    ensures v.Bool? ==> r == Some(if v.b then 1.0 else 0.0)
    ensures v.Num? ==> r == Some(v.x)
  {
    match v
    case Undefined => None
    case Null => Some(0.0)
    case Bool(b) => Some(if b then 1.0 else 0.0)
    case Num(x) => Some(x)
    case NonFinite => None
    case Str(_, n) => n
    case Composite(n) => n
  }

  /** The three answers of parseBool: undefined, true/false, or null for anything else. */
  datatype BoolQuery = Unset | Parsed(b: bool) | Invalid

  /** parseBool: only the exact strings "true" and "false" are booleans. */
  function ParseBool(v: JsValue): (r: BoolQuery)
    ensures r.Unset? <==> v.Undefined?
    ensures r == Parsed(true) <==> v.Str? && v.s == "true"
    ensures r == Parsed(false) <==> v.Str? && v.s == "false"
  {
    if v.Undefined? then Unset
    else if v.Str? && v.s == "true" then Parsed(true)
    else if v.Str? && v.s == "false" then Parsed(false)
    else Invalid
  }

  /** The characters String.prototype.trim removes: ECMAScript WhiteSpace and LineTerminator. */
  predicate IsJsWhitespace(c: char) {
    || c == '\t' || c == '\n' || c == '\U{000B}' || c == '\U{000C}' || c == '\r' || c == ' '
    || c == '\U{00A0}' || c == '\U{1680}' || ('\U{2000}' <= c <= '\U{200A}')
    || c == '\U{2028}' || c == '\U{2029}' || c == '\U{202F}' || c == '\U{205F}'
    || c == '\U{3000}' || c == '\U{FEFF}'
  }

  predicate AllWhitespace(s: string) {
    forall k :: 0 <= k < |s| ==> IsJsWhitespace(s[k])
  }

  /** Position of the first non-whitespace character at or after i, or |s|. */
  function TrimStartIndex(s: string, i: nat): (j: nat)
    requires i <= |s|
    ensures i <= j <= |s|
    ensures forall k :: i <= k < j ==> IsJsWhitespace(s[k])
    ensures j < |s| ==> !IsJsWhitespace(s[j])
    decreases |s| - i
  {
    if i < |s| && IsJsWhitespace(s[i]) then TrimStartIndex(s, i + 1) else i
  }

  /** End of the last non-whitespace character before e and not before lo, or lo. */
  function TrimEndIndex(s: string, lo: nat, e: nat): (j: nat)
    requires lo <= e <= |s|
    ensures lo <= j <= e
    ensures forall k :: j <= k < e ==> IsJsWhitespace(s[k])
    ensures j > lo ==> !IsJsWhitespace(s[j - 1])
  {
    if lo < e && IsJsWhitespace(s[e - 1]) then TrimEndIndex(s, lo, e - 1) else e
  }

  /** Number of leading whitespace characters of s. */
  function Leading(s: string): nat
    ensures Leading(s) <= |s|
  {
    TrimStartIndex(s, 0)
  }

  /**
   * String.prototype.trim: the longest infix of s that neither starts nor ends
   * with whitespace, everything around it being whitespace; empty exactly when
   * s is all whitespace.
   */
  function Trim(s: string): (r: string)
    ensures Leading(s) + |r| <= |s| && r == s[Leading(s)..Leading(s) + |r|]
    ensures forall k :: 0 <= k < |s| && !(Leading(s) <= k < Leading(s) + |r|) ==> IsJsWhitespace(s[k])
    ensures r != [] ==> !IsJsWhitespace(r[0]) && !IsJsWhitespace(r[|r| - 1])
    ensures r == [] <==> AllWhitespace(s)
  {
    var start := Leading(s);
    var end := TrimEndIndex(s, start, |s|);
    assert start < |s| ==> start < end;
    s[start..end]
  }

  /** Trimming twice is trimming once. */
  lemma TrimIdempotent(s: string)
    ensures Trim(Trim(s)) == Trim(s)
  {
    var r := Trim(s);
    if r != [] {
      TrimOfTrimmed(r);
    }
  }

  /** A string with no whitespace at either end is its own trim. */
  lemma TrimOfTrimmed(r: string)
    requires r != [] && !IsJsWhitespace(r[0]) && !IsJsWhitespace(r[|r| - 1])
    ensures Trim(r) == r
  {
    assert Leading(r) == 0;
    assert TrimEndIndex(r, 0, |r|) == |r|;
  }

  /**
   * normalizeDeviceId: a string is trimmed and kept when something is left;
   * a blank string and every value that is not a string give null (None).
   */
  function NormalizeDeviceId(v: JsValue): (r: Option<string>)
    ensures r.None? <==> !v.Str? || AllWhitespace(v.s)
    ensures r.Some? ==> r.value != [] && r.value == Trim(v.s)
    ensures r.Some? ==> !IsJsWhitespace(r.value[0]) && !IsJsWhitespace(r.value[|r.value| - 1])
  {
    if !v.Str? then None
    else
      var trimmed := Trim(v.s);
      if |trimmed| > 0 then Some(trimmed) else None
  }
}
