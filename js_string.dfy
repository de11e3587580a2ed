/**
  The JavaScript string built-ins that the prefix-command pipeline relies on:
  `toLowerCase`, `startsWith`, `substring`, `trim`, `split(" ")[0]` and `join`.
  A Dafny `char` stands for one code unit of the JavaScript string, for text
  inside the Basic Multilingual Plane.
 */
module JsString {

  /** LineTerminator code points (ECMA-262, section 12.3): what the regular
      expression `.` does not match. */
  predicate IsLineTerminator(c: char) {
    c == '\n' || c == '\r' || c == '\U{2028}' || c == '\U{2029}'
  }

  /** WhiteSpace code points (ECMA-262, section 12.2): TAB, VT, FF, ZWNBSP and
      the space separators of category Zs. */
  predicate IsWhiteSpace(c: char) {
    || c == '\t' || c == '\U{000B}' || c == '\U{000C}' || c == '\U{FEFF}'
    || c == ' ' || c == '\U{00A0}' || c == '\U{1680}'
    || ('\U{2000}' <= c <= '\U{200A}')
    || c == '\U{202F}' || c == '\U{205F}' || c == '\U{3000}'
  }

  /** What `String.prototype.trim` strips: WhiteSpace and LineTerminator. */
  predicate IsTrimmable(c: char) {
    IsWhiteSpace(c) || IsLineTerminator(c)
  }

  predicate IsUpper(c: char) {
    'A' <= c <= 'Z'
  }

  /** One character of `toLowerCase`: `A`-`Z` become `a`-`z`, letter for
      letter, and every other character stays as it is. */
  function ToLowerChar(c: char): (r: char)
    ensures !IsUpper(r)
    ensures !IsUpper(c) ==> r == c
    ensures IsUpper(c) ==> 'a' <= r <= 'z' && r as int - 'a' as int == c as int - 'A' as int
  {
    if IsUpper(c) then (c as int + 32) as char else c
  }

  /** `s.toLowerCase()`, on the ASCII letters. */
  function ToLower(s: string): (r: string)
    ensures |r| == |s|
    ensures forall i :: 0 <= i < |s| ==> r[i] == ToLowerChar(s[i])
    ensures forall i :: 0 <= i < |s| && IsUpper(s[i]) ==> r[i] as int == s[i] as int + 32
    ensures forall i :: 0 <= i < |s| && !IsUpper(s[i]) ==> r[i] == s[i]
  {
    seq(|s|, i requires 0 <= i < |s| => ToLowerChar(s[i]))
  }

  /** `s.startsWith(p)`. */
  predicate StartsWith(s: string, p: string) {
    p <= s
  }

  /** `s.substring(start)` for a non-negative start: the index is clamped to the length. */
  function Substring(s: string, start: nat): (r: string)
    ensures start <= |s| ==> s == s[..start] + r
    ensures start >= |s| ==> r == []
  {
    if start <= |s| then s[start..] else []
  }

  /** The leading part that `trim` removes is gone, and only trimmable characters went. */
  function TrimStart(s: string): (r: string)
    ensures |r| <= |s| && r == s[|s| - |r|..]
    ensures forall i :: 0 <= i < |s| - |r| ==> IsTrimmable(s[i])
    ensures r != [] ==> !IsTrimmable(r[0])
  {
    if s != [] && IsTrimmable(s[0]) then TrimStart(s[1..]) else s
  }

  function TrimEnd(s: string): (r: string)
    ensures |r| <= |s| && r == s[..|r|]
    ensures forall i :: |r| <= i < |s| ==> IsTrimmable(s[i])
    ensures r != [] ==> !IsTrimmable(r[|r| - 1])
  {
    if s != [] && IsTrimmable(s[|s| - 1]) then TrimEnd(s[..|s| - 1]) else s
  }

  /** `s.trim()`: `r` is the slice of `s` that neither begins nor ends with a
      trimmable character, and everything cut away on either side is trimmable. */
  function Trim(s: string): (r: string)
    ensures TrimStartLength(s) + |r| <= |s|
    ensures r != [] ==> !IsTrimmable(r[0]) && !IsTrimmable(r[|r| - 1])
    ensures r == s[TrimStartLength(s)..TrimStartLength(s) + |r|]
    ensures forall i :: 0 <= i < TrimStartLength(s) ==> IsTrimmable(s[i])
    ensures forall i :: TrimStartLength(s) + |r| <= i < |s| ==> IsTrimmable(s[i])
  {
    TrimEnd(TrimStart(s))
  }

  /** How many characters `trim` removes from the front of `s`. */
  function TrimStartLength(s: string): (n: nat)
    ensures n <= |s|
  {
    |s| - |TrimStart(s)|
  }

  /** A string that neither begins nor ends with a trimmable character is its own trim. */
  lemma TrimKeepsTrimmed(s: string)
    requires s == [] || (!IsTrimmable(s[0]) && !IsTrimmable(s[|s| - 1]))
    ensures Trim(s) == s
  {
    assert TrimStart(s) == s;
  }

  /** Trailing trimmable characters after a word make no difference to `trim`. */
  lemma TrimIgnoresTrailing(s: string, c: char)
    requires s != [] && !IsTrimmable(s[0]) && IsTrimmable(c)
    ensures Trim(s + [c]) == Trim(s)
  {
    var t := s + [c];
    assert TrimStart(t) == t && TrimStart(s) == s;
    assert t[..|t| - 1] == s;
    assert TrimEnd(t) == TrimEnd(s);
  }

  /** `s.split(" ")[0]`: the text before the first space character (U+0020 only). */
  function FirstSpaceToken(s: string): (r: string)
    ensures r <= s
    ensures ' ' !in r
    ensures |r| < |s| ==> s[|r|] == ' '
  {
    if s == [] || s[0] == ' ' then [] else [s[0]] + FirstSpaceToken(s[1..])
  }

  /** The total length of the strings of `xs`. */
  function TotalLength(xs: seq<string>): nat {
    if xs == [] then 0 else |xs[0]| + TotalLength(xs[1..])
  }

  /** `xs.join(sep)`: the strings in order with `sep` between neighbours, so
      the first string opens the result, the last one closes it, and exactly
      one separator sits between each pair. */
  function Join(xs: seq<string>, sep: string): (r: string)
    ensures |xs| == 0 ==> r == ""
    ensures |xs| > 0 ==> xs[0] <= r
    ensures |xs| > 0 ==> |xs[|xs| - 1]| <= |r| && r[|r| - |xs[|xs| - 1]|..] == xs[|xs| - 1]
    ensures |xs| > 0 ==> |r| == TotalLength(xs) + (|xs| - 1) * |sep|
  {
    if |xs| == 0 then ""
    else if |xs| == 1 then xs[0]
    else
      var tail := Join(xs[1..], sep);
      assert xs[1..][|xs[1..]| - 1] == xs[|xs| - 1];
      var r := xs[0] + sep + tail;
      assert r[|r| - |tail|..] == tail;
      assert r[|r| - |xs[|xs| - 1]|..] == tail[|tail| - |xs[|xs| - 1]|..];
      r
  }

  /** Appending a string to a non-empty list appends the separator and it. */
  lemma {:induction false} JoinAppend(xs: seq<string>, x: string, sep: string)
    requires xs != []
    ensures Join(xs + [x], sep) == Join(xs, sep) + sep + x
  {
    if |xs| == 1 {
      assert (xs + [x])[1..] == [x];
    } else {
      assert (xs + [x])[1..] == xs[1..] + [x];
      JoinAppend(xs[1..], x, sep);
    }
  }
}
