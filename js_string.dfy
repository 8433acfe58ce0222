/**
  The two JavaScript built-ins the chat handler applies to sequences:
  `slice` (shared by arrays and strings, with negative positions counted from
  the end) and `String.prototype.trim`, which removes the characters of the
  ECMAScript WhiteSpace and LineTerminator productions from both ends.
 */
module JsString {

  function Min(a: int, b: int): int {
    if a < b then a else b
  }

  /** A slice position as `slice` resolves it: negative counts from the end, then clamped to [0, len]. */
  function ClampIndex(len: nat, rel: int): (k: nat)
    ensures k <= len
  {
    if rel < 0 then (if len + rel < 0 then 0 else len + rel)
    else if rel < len then rel else len
  }

  /** `s.slice(start, end)`; a missing `end` is written `|s|`. */
  function Slice<T>(s: seq<T>, start: int, end: int): (r: seq<T>)
    ensures |r| <= |s|
    ensures var from, to := ClampIndex(|s|, start), ClampIndex(|s|, end);
            && |r| == (if from < to then to - from else 0)
            && forall i :: 0 <= i < |r| ==> r[i] == s[from + i]
  {
    var from, to := ClampIndex(|s|, start), ClampIndex(|s|, end);
    if from < to then s[from..to] else []
  }

  /** `s.slice(-k)` keeps the last min(k, |s|) elements, in order. */
  lemma SliceLast<T>(s: seq<T>, k: int)
    requires k > 0
    ensures |Slice(s, -k, |s|)| == Min(k, |s|)
    ensures Slice(s, -k, |s|) == s[|s| - Min(k, |s|)..]
  {
  }

  /** `s.slice(0, n)` keeps the first min(n, |s|) elements. */
  lemma SlicePrefix<T>(s: seq<T>, n: nat)
    ensures |Slice(s, 0, n)| == Min(n, |s|)
    ensures Slice(s, 0, n) == s[..Min(n, |s|)]
  {
  }

  /** The characters `trim` removes: WhiteSpace and LineTerminator of ECMA-262. */
  predicate IsWhitespace(c: char) {
    || c == '\t' || c == '\n' || c == '\U{B}' || c == '\U{C}' || c == '\r'
    || c == ' ' || c == '\U{A0}' || c == '\U{1680}'
    || ('\U{2000}' <= c <= '\U{200A}')
    || c == '\U{2028}' || c == '\U{2029}' || c == '\U{202F}' || c == '\U{205F}'
    || c == '\U{3000}' || c == '\U{FEFF}'
  }

  /** Every character of `s` from position `lo` up to (not including) `hi` is whitespace. */
  predicate WhitespaceBetween(s: string, lo: nat, hi: nat)
    requires lo <= hi <= |s|
  {
    forall i :: lo <= i < hi ==> IsWhitespace(s[i])
  }

  predicate AllWhitespace(s: string) {
    WhitespaceBetween(s, 0, |s|)
  }

  /**
    The position of the first character at or after `i` that is not
    whitespace (`|s|` when there is none).
   */
  function SkipLeading(s: string, i: nat): (k: nat)
    requires i <= |s|
    ensures i <= k <= |s|
    ensures WhitespaceBetween(s, i, k)
    ensures k == |s| || !IsWhitespace(s[k])
    decreases |s| - i
  {
    if i < |s| && IsWhitespace(s[i]) then SkipLeading(s, i + 1) else i
  }

  /**
    The position just after the last character before `j`, and not before
    `lo`, that is not whitespace (`lo` when there is none).
   */
  function SkipTrailing(s: string, lo: nat, j: nat): (k: nat)
    requires lo <= j <= |s|
    ensures lo <= k <= j
    ensures WhitespaceBetween(s, k, j)
    ensures k == lo || !IsWhitespace(s[k - 1])
  {
    if lo < j && IsWhitespace(s[j - 1]) then SkipTrailing(s, lo, j - 1) else j
  }

  /**
    Where `trim` cuts `s`: the kept part `s[a..b]` is empty or starts and
    ends with a non-whitespace character, and everything outside it is
    whitespace.
   */
  function TrimBounds(s: string): (ab: (nat, nat))
    ensures ab.0 <= ab.1 <= |s|
    ensures WhitespaceBetween(s, 0, ab.0) && WhitespaceBetween(s, ab.1, |s|)
    ensures ab.0 < ab.1 ==> !IsWhitespace(s[ab.0]) && !IsWhitespace(s[ab.1 - 1])
  {
    var a := SkipLeading(s, 0);
    (a, SkipTrailing(s, a, |s|))
  }

  /** `s.trim()`: the part of `s` between the bounds. */
  function Trim(s: string): (r: string)
    ensures |r| <= |s|
    ensures r == [] || (!IsWhitespace(r[0]) && !IsWhitespace(r[|r| - 1]))
  {
    var (a, b) := TrimBounds(s);
    s[a..b]
  }

  /** `trim` gives the empty string exactly when every character is whitespace. */
  lemma TrimEmptyIff(s: string)
    ensures Trim(s) == [] <==> AllWhitespace(s)
  {
  }

  /** Trimming a trimmed string changes nothing. */
  lemma TrimIdempotent(s: string)
    ensures Trim(Trim(s)) == Trim(s)
  {
  }
}
