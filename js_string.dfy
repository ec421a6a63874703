/**
 * The JavaScript string operations the server code relies on, given their
 * ECMAScript meaning on Dafny strings.  Dafny characters are Unicode scalar
 * values; where the code-unit view of JavaScript shows through, it is
 * modelled explicitly (Utf16Length).
 */
module JsString {
  import opened Wrappers

  /** ECMAScript WhiteSpace and LineTerminator code points: what
      `String.prototype.trim` strips and `Number.parseInt` skips. */
  predicate IsWhiteSpace(c: char) {
    || c == '\t' || c == '\n' || c == '\U{B}' || c == '\U{C}' || c == '\r' || c == ' '
    || c == '\U{A0}' || c == '\U{1680}' || ('\U{2000}' <= c <= '\U{200A}')
    || c == '\U{2028}' || c == '\U{2029}' || c == '\U{202F}' || c == '\U{205F}'
    || c == '\U{3000}' || c == '\U{FEFF}'
  }

  /** The code points a regular-expression `.` does not match. */
  predicate IsLineTerminator(c: char) {
    c == '\n' || c == '\r' || c == '\U{2028}' || c == '\U{2029}'
  }

  /** JavaScript truthiness of an optional string: present and non-empty. */
  predicate Truthy(s: Option<string>) {
    s.Some? && s.value != ""
  }

  /** `s || fallback` for an optional string. */
  function OrElse(s: Option<string>, fallback: string): (r: string)
    ensures Truthy(s) ==> r == s.value
    ensures !Truthy(s) ==> r == fallback
  {
    if Truthy(s) then s.value else fallback
  }

  /** Neither end of `s` is white space. */
  predicate NoOuterWhiteSpace(s: string) {
    s == [] || (!IsWhiteSpace(s[0]) && !IsWhiteSpace(s[|s| - 1]))
  }

  /** The characters of `s` from `lo` to `hi` are all white space. */
  predicate WhiteSpaceBetween(s: string, lo: int, hi: int) {
    forall k :: 0 <= lo <= k < hi <= |s| ==> IsWhiteSpace(s[k])
  }

  /** Leading white space removed. */
  function TrimStart(s: string): (r: string)
    ensures |r| <= |s| && r == s[|s| - |r|..]
    ensures r == [] || !IsWhiteSpace(r[0])
    ensures WhiteSpaceBetween(s, 0, |s| - |r|)
  {
    if s == [] || !IsWhiteSpace(s[0]) then s else TrimStart(s[1..])
  }

  /** Trailing white space removed. */
  function TrimEnd(s: string): (r: string)
    ensures |r| <= |s| && r == s[..|r|]
    ensures r == [] || !IsWhiteSpace(r[|r| - 1])
    ensures WhiteSpaceBetween(s, |r|, |s|)
  {
    if s == [] || !IsWhiteSpace(s[|s| - 1]) then s else TrimEnd(s[..|s| - 1])
  }

  /** `r` is the piece of `s` that starts at `i`, with only white space
      before it and after it in `s`. */
  predicate TrimAt(s: string, r: string, i: int) {
    && 0 <= i <= |s| - |r|
    && r == s[i..i + |r|]
    && WhiteSpaceBetween(s, 0, i)
    && WhiteSpaceBetween(s, i + |r|, |s|)
  }

  /** `s.trim()`: `s` without its leading and trailing white space, and
      nothing else removed. */
  function Trim(s: string): (r: string)
    ensures |r| <= |s|
    ensures forall c :: c in r ==> c in s
    ensures NoOuterWhiteSpace(r)
    ensures exists i :: TrimAt(s, r, i)
  {
    TrimFacts(s);
    TrimEnd(TrimStart(s))
  }

  /** The contract of `Trim`, for the two passes. */
  lemma TrimFacts(s: string)
    ensures var r := TrimEnd(TrimStart(s));
      && |r| <= |s|
      && (forall c :: c in r ==> c in s)
      && NoOuterWhiteSpace(r)
      && exists i :: TrimAt(s, r, i)
  {
    var t := TrimStart(s);
    var r := TrimEnd(t);
    var i := |s| - |t|;
    TrimPiece(s);
    SliceChars(s, i, i + |r|);
    assert r == [] || r[0] == t[0];
    assert TrimAt(s, r, i);
  }

  /** Trimming both ends leaves the piece of `s` after its leading white
      space and before its trailing white space. */
  lemma TrimPiece(s: string)
    ensures TrimAt(s, TrimEnd(TrimStart(s)), |s| - |TrimStart(s)|)
  {
    TrimEndOfSuffix(s, TrimStart(s), |s| - |TrimStart(s)|);
  }

  /** Trimming the end of the suffix `t` of `s` that starts at `i` leaves
      a piece of `s` followed only by white space. */
  lemma TrimEndOfSuffix(s: string, t: string, i: int)
    requires 0 <= i <= |s| && t == s[i..]
    ensures var r := TrimEnd(t);
      && r == s[i..i + |r|]
      && WhiteSpaceBetween(s, i + |r|, |s|)
  {
    var r := TrimEnd(t);
    forall k | 0 <= i + |r| <= k < |s|
      ensures IsWhiteSpace(s[k])
    {
      assert s[k] == t[k - i];
    }
  }

  lemma SliceChars(s: string, i: int, j: int)
    requires 0 <= i <= j <= |s|
    ensures forall c :: c in s[i..j] ==> c in s
  {
    forall c | c in s[i..j]
      ensures c in s
    {
      var k :| i <= k < j && s[k] == c;
    }
  }

  /** `s.startsWith(prefix)`. */
  predicate StartsWith(s: string, prefix: string) {
    |prefix| <= |s| && s[..|prefix|] == prefix
  }

  /** `s.includes(sub)`. */
  predicate Contains(s: string, sub: string)
    decreases |s|
  {
    StartsWith(s, sub) || (s != [] && Contains(s[1..], sub))
  }

  /** `s.split(sep)[0]`: the text before the first `sep`. */
  function BeforeFirst(s: string, sep: char): (r: string)
    ensures |r| <= |s| && r == s[..|r|]
    ensures sep !in r
    ensures |r| < |s| ==> s[|r|] == sep
  {
    if s == [] || s[0] == sep then [] else [s[0]] + BeforeFirst(s[1..], sep)
  }

  /** `s.lastIndexOf(c)`, -1 when `c` does not occur. */
  function LastIndexOf(s: string, c: char): (i: int)
    ensures -1 <= i < |s|
    ensures i >= 0 ==> s[i] == c
    ensures forall k :: i < k < |s| ==> s[k] != c
  {
    if s == [] then -1
    else if s[|s| - 1] == c then |s| - 1
    else LastIndexOf(s[..|s| - 1], c)
  }

  /** The number of UTF-16 code units JavaScript stores for `s`. */
  function Utf16Length(s: string): nat {
    if s == [] then 0 else (if s[0] as int > 0xFFFF then 2 else 1) + Utf16Length(s[1..])
  }

  lemma {:induction false} Utf16LengthAppend(a: string, b: string)
    ensures Utf16Length(a + b) == Utf16Length(a) + Utf16Length(b)
  {
    if a != [] {
      assert (a + b)[1..] == a[1..] + b;
      Utf16LengthAppend(a[1..], b);
    } else {
      assert a + b == b;
    }
  }
}
