/**
 * The parts of Apache Commons `StringUtils` and `java.lang.Character` that the
 * header normaliser relies on: `strip` (remove leading and trailing white space
 * as `Character.isWhitespace` defines it) and `lowerCase`.
 */
module StringUtils {

  /** `Character.isWhitespace`: the ASCII controls TAB..CR and FS..US, SPACE, and the
      Unicode space, line and paragraph separators other than the non-breaking ones
      (U+00A0, U+2007, U+202F). */
  predicate IsWhitespace(c: char) {
    var n := c as int;
    || 0x09 <= n <= 0x0D
    || 0x1C <= n <= 0x20
    || n == 0x1680
    || 0x2000 <= n <= 0x2006
    || 0x2008 <= n <= 0x200A
    || n == 0x2028 || n == 0x2029 || n == 0x205F || n == 0x3000
  }

  /** No white space at either end. */
  predicate IsStripped(s: string) {
    s == [] || (!IsWhitespace(s[0]) && !IsWhitespace(s[|s| - 1]))
  }

  predicate AllWhitespace(s: string) {
    forall i :: 0 <= i < |s| ==> IsWhitespace(s[i])
  }

  /** `StringUtils.stripStart(s, null)`: drops the leading white space. */
  function StripStart(s: string): (r: string)
    ensures |r| <= |s| && r == s[|s| - |r|..]
    ensures AllWhitespace(s[..|s| - |r|])
    ensures r == [] || !IsWhitespace(r[0])
  {
    if s != [] && IsWhitespace(s[0]) then StripStart(s[1..]) else s
  }

  /** `StringUtils.stripEnd(s, null)`: drops the trailing white space. */
  function StripEnd(s: string): (r: string)
    ensures |r| <= |s| && r == s[..|r|]
    ensures AllWhitespace(s[|r|..])
    ensures r == [] || !IsWhitespace(r[|r| - 1])
  {
    if s != [] && IsWhitespace(s[|s| - 1]) then StripEnd(s[..|s| - 1]) else s
  }

  /** `StringUtils.strip(s)`: the string without white space at either end. */
  function Strip(s: string): (r: string)
    ensures IsStripped(r) && |r| <= |s|
  {
    StripEnd(StripStart(s))
  }

  /** What `strip` returns is a slice of its argument with only white space
      before and after it. */
  lemma StripIsSlice(s: string)
    ensures var r := Strip(s);
      exists i, j :: 0 <= i <= j <= |s| && r == s[i..j] && AllWhitespace(s[..i]) && AllWhitespace(s[j..])
  {
    var t := StripStart(s);
    var r := StripEnd(t);
    Recut(s, t, r);
    var i := |s| - |t|;
    assert r == s[i..i + |r|] && AllWhitespace(s[..i]) && AllWhitespace(s[i + |r|..]);
  }

  /** A piece cut from the end of a piece cut from the end of `s`, with
      white space in both cuts, is a slice of `s` between white space. */
  lemma Recut(s: string, t: string, r: string)
    requires |t| <= |s| && t == s[|s| - |t|..] && AllWhitespace(s[..|s| - |t|])
    requires |r| <= |t| && r == t[..|r|] && AllWhitespace(t[|r|..])
    ensures var i := |s| - |t|;
      && r == s[i..i + |r|]
      && AllWhitespace(s[..i]) && AllWhitespace(s[i + |r|..])
  {
    SliceOfSuffix(s, |s| - |t|, |r|);
  }

  lemma SliceOfSuffix(s: string, i: nat, k: nat)
    requires i + k <= |s|
    ensures s[i..][..k] == s[i..i + k] && s[i..][k..] == s[i + k..]
  {
  }

  /** The default-locale lower-case mapping of one character, restricted to the
      ASCII and Latin-1 upper-case letters. */
  function LowerChar(c: char): (r: char)
    ensures IsWhitespace(r) == IsWhitespace(c)
  {
    if 'A' <= c <= 'Z' || ('\U{00C0}' <= c <= '\U{00DE}' && c != '\U{00D7}') then
      (c as int + 32) as char
    else
      c
  }

  predicate IsLowerCase(s: string) {
    forall i :: 0 <= i < |s| ==> LowerChar(s[i]) == s[i]
  }

  /** `StringUtils.lowerCase(s)`, i.e. `String.toLowerCase()`, character by character. */
  function LowerCase(s: string): (r: string)
    ensures |r| == |s|
    ensures forall i :: 0 <= i < |s| ==> r[i] == LowerChar(s[i])
  {
    if s == [] then [] else [LowerChar(s[0])] + LowerCase(s[1..])
  }

  /** Lower-casing is idempotent and leaves lower-case strings alone. */
  lemma LowerCaseIsLower(s: string)
    ensures IsLowerCase(LowerCase(s))
    ensures IsLowerCase(s) ==> LowerCase(s) == s
  {
  }

  /** Lower-casing neither creates nor removes white space at the ends. */
  lemma LowerCaseKeepsStripped(s: string)
    ensures IsStripped(LowerCase(s)) == IsStripped(s)
  {
  }

  /** Stripping a stripped string changes nothing. */
  lemma StripStripped(s: string)
    requires IsStripped(s)
    ensures Strip(s) == s
  {
  }

  /** Lower-casing and stripping commute: case never turns a character into white space. */
  lemma {:induction false} StripStartLower(s: string)
    ensures StripStart(LowerCase(s)) == LowerCase(StripStart(s))
  {
    if s != [] {
      assert LowerCase(s)[1..] == LowerCase(s[1..]);
      StripStartLower(s[1..]);
    }
  }

  lemma {:induction false} StripEndLower(s: string)
    ensures StripEnd(LowerCase(s)) == LowerCase(StripEnd(s))
  {
    if s != [] {
      assert LowerCase(s)[..|s| - 1] == LowerCase(s[..|s| - 1]);
      StripEndLower(s[..|s| - 1]);
    }
  }

  lemma StripLower(s: string)
    ensures Strip(LowerCase(s)) == LowerCase(Strip(s))
  {
    StripStartLower(s);
    StripEndLower(StripStart(s));
  }

  /** White space added in front is stripped again. */
  lemma {:induction false} StripStartPadded(pre: string, s: string)
    requires AllWhitespace(pre)
    ensures StripStart(pre + s) == StripStart(s)
  {
    if pre != [] {
      assert (pre + s)[1..] == pre[1..] + s;
      StripStartPadded(pre[1..], s);
    } else {
      assert pre + s == s;
    }
  }

  /** White space added at the end is stripped again. */
  lemma {:induction false} StripEndPadded(s: string, post: string)
    requires AllWhitespace(post)
    ensures StripEnd(s + post) == StripEnd(s)
  {
    if post != [] {
      assert (s + post)[..|s + post| - 1] == s + post[..|post| - 1];
      StripEndPadded(s, post[..|post| - 1]);
    } else {
      assert s + post == s;
    }
  }

  /** Trailing white space does not change where the leading white space ends,
      unless the string is white space throughout. */
  lemma {:induction false} StripStartAppend(s: string, post: string)
    requires AllWhitespace(post)
    ensures StripStart(s) != [] ==> StripStart(s + post) == StripStart(s) + post
    ensures StripStart(s) == [] ==> StripStart(s + post) == []
  {
    if s == [] {
      assert s + post == post;
      StripStartPadded(post, []);
      assert post + [] == post;
    } else if IsWhitespace(s[0]) {
      assert (s + post)[1..] == s[1..] + post;
      StripStartAppend(s[1..], post);
    }
  }

  /** `strip` ignores any white space around its argument. */
  lemma StripPadded(pre: string, s: string, post: string)
    requires AllWhitespace(pre) && AllWhitespace(post)
    ensures Strip(pre + s + post) == Strip(s)
  {
    assert pre + s + post == pre + (s + post);
    StripStartPadded(pre, s + post);
    StripStartAppend(s, post);
    if StripStart(s) != [] {
      StripEndPadded(StripStart(s), post);
    }
  }
}
