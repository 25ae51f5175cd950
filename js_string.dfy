/**
 * The few JavaScript string built-ins the server relies on: truthiness of an
 * optional string, `String.prototype.trim`, `split(sep)[0]`, `split(pat)[1]`
 * and `includes`. Strings are sequences of characters.
 */
module JsString {
  import opened Wrappers

  /** `if (s)` on a value that is either a string or `undefined`: only a non-empty string is truthy. */
  predicate Truthy(s: Option<string>) {
    s.Some? && s.value != ""
  }

  /** `s || fallback` on an optional string. */
  function OrElse(s: Option<string>, fallback: string): (r: string)
    ensures Truthy(s) ==> r == s.value
    ensures !Truthy(s) ==> r == fallback
  {
    if Truthy(s) then s.value else fallback
  }

  /** The characters ECMAScript counts as WhiteSpace or LineTerminator, which `trim` removes. */
  predicate IsWhiteSpace(c: char) {
    || c == '\t' || c == '\n' || c == '\U{B}' || c == '\U{C}' || c == '\r' || c == ' '
    || c == '\U{A0}' || c == '\U{1680}' || ('\U{2000}' <= c <= '\U{200A}')
    || c == '\U{2028}' || c == '\U{2029}' || c == '\U{202F}' || c == '\U{205F}'
    || c == '\U{3000}' || c == '\U{FEFF}'
  }

  predicate AllWhiteSpace(s: string) {
    forall i :: 0 <= i < |s| ==> IsWhiteSpace(s[i])
  }

  /** Drops leading white space: what is removed is white space and what is kept is a suffix. */
  function TrimStart(s: string): (r: string)
    ensures |r| <= |s| && r == s[|s| - |r|..]
    ensures AllWhiteSpace(s[..|s| - |r|])
    ensures r != [] ==> !IsWhiteSpace(r[0])
  {
    if |s| > 0 && IsWhiteSpace(s[0]) then TrimStart(s[1..]) else s
  }

  /** Drops trailing white space: what is removed is white space and what is kept is a prefix. */
  function TrimEnd(s: string): (r: string)
    ensures |r| <= |s| && r == s[..|r|]
    ensures AllWhiteSpace(s[|r|..])
    ensures r != [] ==> !IsWhiteSpace(r[|r| - 1])
  {
    if |s| > 0 && IsWhiteSpace(s[|s| - 1]) then TrimEnd(s[..|s| - 1]) else s
  }

  /** `String.prototype.trim`. */
  function Trim(s: string): (r: string)
    ensures |r| <= |s|
    ensures r != [] ==> !IsWhiteSpace(r[0]) && !IsWhiteSpace(r[|r| - 1])
    ensures r == [] <==> AllWhiteSpace(s)
  {
    var t := TrimStart(s);
    var r := TrimEnd(t);
    assert r == [] ==> AllWhiteSpace(s) by {
      if r == [] {
        assert s == s[..|s| - |t|] + t;
        assert t == t[|r|..];
      }
    }
    r
  }

  /** Trimming is a slice: some window `s[i..j]` with only white space outside it. */
  lemma {:induction false} TrimIsWindow(s: string)
    ensures exists i, j :: 0 <= i <= j <= |s| && Trim(s) == s[i..j]
                           && AllWhiteSpace(s[..i]) && AllWhiteSpace(s[j..])
  {
    var t := TrimStart(s);
    var r := TrimEnd(t);
    var i := |s| - |t|;
    var j := i + |r|;
    assert t == s[i..];
    assert r == s[i..j];
    assert s[j..] == t[|r|..];
  }

  /** Trimming twice is trimming once. */
  lemma {:induction false} TrimIdempotent(s: string)
    ensures Trim(Trim(s)) == Trim(s)
  {
    var r := Trim(s);
    if r != [] {
      assert TrimStart(r) == r;
      assert TrimEnd(r) == r;
    }
  }

  /** `s.split(sep)[0]` for a one-character separator: everything before the first `sep`. */
  function BeforeFirst(s: string, sep: char): (r: string)
    ensures |r| <= |s| && r == s[..|r|]
    ensures sep !in r
    ensures |r| < |s| ==> s[|r|] == sep
  {
    if s == [] || s[0] == sep then [] else [s[0]] + BeforeFirst(s[1..], sep)
  }

  /** Whether `pat` occurs in `s` at position `i`. */
  predicate OccursAt(s: string, pat: string, i: nat) {
    i + |pat| <= |s| && s[i..i + |pat|] == pat
  }

  /** The position of the first occurrence of a non-empty `pat` in `s`, if any (`indexOf`). */
  function IndexOf(s: string, pat: string): (r: Option<nat>)
    requires pat != []
    ensures r.Some? ==> OccursAt(s, pat, r.value)
    ensures r.Some? ==> forall k :: 0 <= k < r.value ==> !OccursAt(s, pat, k)
    ensures r.None? ==> forall k :: 0 <= k <= |s| ==> !OccursAt(s, pat, k)
    decreases |s|
  {
    if |s| < |pat| then None
    else if s[..|pat|] == pat then Some(0)
    else
      match IndexOf(s[1..], pat)
      case None =>
        assert forall k :: 1 <= k <= |s| ==> (OccursAt(s, pat, k) ==> OccursAt(s[1..], pat, k - 1));
        None
      case Some(i) =>
        assert forall k :: 1 <= k <= i ==> (OccursAt(s, pat, k) ==> OccursAt(s[1..], pat, k - 1));
        Some(i + 1)
  }

  /** `s.includes(pat)`. */
  predicate Includes(s: string, pat: string)
    requires pat != []
  {
    IndexOf(s, pat).Some?
  }

  /** A prefix cut before the first occurrence holds no occurrence. */
  lemma NoOccurrenceBefore(s: string, pat: string, j: nat)
    requires pat != [] && j <= |s| && forall k :: 0 <= k < j ==> !OccursAt(s, pat, k)
    ensures forall k :: 0 <= k <= j ==> !OccursAt(s[..j], pat, k)
  {
    forall k | 0 <= k <= j && OccursAt(s[..j], pat, k)
      ensures false
    {
      assert s[..j][k..k + |pat|] == s[k..k + |pat|];
      assert OccursAt(s, pat, k);
    }
  }

  /** The text of `t` before the first occurrence of a non-empty `pat`, or all of `t` when there is none. */
  function BeforePattern(t: string, pat: string): (r: string)
    requires pat != []
    ensures r <= t
    ensures |r| == |t| || OccursAt(t, pat, |r|)
    ensures forall k :: 0 <= k < |r| ==> !OccursAt(t, pat, k)
    ensures forall k :: 0 <= k <= |r| ==> !OccursAt(r, pat, k)
  {
    match IndexOf(t, pat)
    case None => t
    case Some(j) =>
      NoOccurrenceBefore(t, pat, j);
      t[..j]
  }

  /**
   * `s.split(pat)[1]` when `s` includes `pat`: the text after the first occurrence,
   * up to the next occurrence or the end.
   */
  function SecondField(s: string, pat: string): (r: string)
    requires pat != [] && Includes(s, pat)
    ensures var rest := s[IndexOf(s, pat).value + |pat|..];
            r <= rest && (|r| == |rest| || OccursAt(rest, pat, |r|))
    ensures var rest := s[IndexOf(s, pat).value + |pat|..];
            forall k :: 0 <= k < |r| ==> !OccursAt(rest, pat, k)
    ensures forall k :: 0 <= k <= |r| ==> !OccursAt(r, pat, k)
  {
    BeforePattern(s[IndexOf(s, pat).value + |pat|..], pat)
  }
}
