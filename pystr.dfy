/**
 * The handful of Python `str` built-ins the resolver and the argument builder
 * rely on: `isspace`, `strip`, `startswith`, `endswith` and `split(sep, 1)`.
 * Each is defined here once and characterised by its contract, so that the
 * modules above can reason about what a line or a file name looks like
 * without unfolding these definitions.
 */
module PyStr {

  /** `c.isspace()`: the characters Python's `str.strip()` removes by default. */
  predicate IsSpace(c: char) {
    c == ' '
    || ('\t' <= c && c <= '\r')                 // \t \n \v \f \r
    || ('\U{1c}' <= c && c <= '\U{1f}')         // file, group, record, unit separators
    || c == '\U{85}' || c == '\U{a0}' || c == '\U{1680}'
    || ('\U{2000}' <= c && c <= '\U{200a}')
    || c == '\U{2028}' || c == '\U{2029}' || c == '\U{202f}' || c == '\U{205f}'
    || c == '\U{3000}'
  }

  predicate StartsWith(s: string, prefix: string) {
    |prefix| <= |s| && s[..|prefix|] == prefix
  }

  predicate EndsWith(s: string, suffix: string) {
    |suffix| <= |s| && s[|s| - |suffix|..] == suffix
  }

  /** `s.lstrip()`: the longest suffix of `s` that does not start with whitespace. */
  function TrimStart(s: string): (r: string)
    ensures |r| <= |s| && r == s[|s| - |r|..]
    ensures forall i :: 0 <= i < |s| - |r| ==> IsSpace(s[i])
    ensures r != [] ==> !IsSpace(r[0])
  {
    if s != [] && IsSpace(s[0]) then TrimStart(s[1..]) else s
  }

  /** `s.rstrip()`: the longest prefix of `s` that does not end with whitespace. */
  function TrimEnd(s: string): (r: string)
    ensures |r| <= |s| && r == s[..|r|]
    ensures forall i :: |r| <= i < |s| ==> IsSpace(s[i])
    ensures r != [] ==> !IsSpace(r[|r| - 1])
  {
    if s != [] && IsSpace(s[|s| - 1]) then TrimEnd(s[..|s| - 1]) else s
  }

  /**
   * `s.strip()`: the contiguous piece of `s` that starts where `s.lstrip()`
   * starts, with only whitespace cut away on either side; it is empty exactly
   * when `s` is all whitespace, and otherwise starts and ends with a non-space
   * character.
   */
  function Strip(s: string): (r: string)
    ensures |s| - |TrimStart(s)| + |r| <= |s|
    ensures r == s[|s| - |TrimStart(s)|..|s| - |TrimStart(s)| + |r|]
    ensures forall i :: 0 <= i < |s| - |TrimStart(s)| ==> IsSpace(s[i])
    ensures forall i :: |s| - |TrimStart(s)| + |r| <= i < |s| ==> IsSpace(s[i])
    ensures r == [] <==> forall i :: 0 <= i < |s| ==> IsSpace(s[i])
    ensures r != [] ==> !IsSpace(r[0]) && !IsSpace(r[|r| - 1])
  {
    var t := TrimStart(s);
    var r := TrimEnd(t);
    TrimBoth(s, t, r);
    r
  }

  /**
   * The facts behind `Strip`'s contract: cutting leading whitespace to get `t`
   * and then trailing whitespace to get `r` leaves one slice of `s`, with only
   * whitespace outside it, that is empty exactly when `s` is all whitespace.
   */
  lemma TrimBoth(s: string, t: string, r: string)
    requires |t| <= |s| && t == s[|s| - |t|..]
    requires forall i :: 0 <= i < |s| - |t| ==> IsSpace(s[i])
    requires t != [] ==> !IsSpace(t[0])
    requires |r| <= |t| && r == t[..|r|]
    requires forall i :: |r| <= i < |t| ==> IsSpace(t[i])
    ensures |s| - |t| + |r| <= |s|
    ensures r == s[|s| - |t|..|s| - |t| + |r|]
    ensures forall i :: |s| - |t| + |r| <= i < |s| ==> IsSpace(s[i])
    ensures r == [] <==> forall i :: 0 <= i < |s| ==> IsSpace(s[i])
    ensures r != [] ==> !IsSpace(r[0])
  {
    var lead := |s| - |t|;
    assert r == s[lead..lead + |r|];
    forall i | lead + |r| <= i < |s|
      ensures IsSpace(s[i])
    {
      assert s[i] == t[i - lead];
    }
    if r != [] {
      assert r[0] == t[0];
    }
  }

  /**
   * Stripping gives back a string that starts and ends with non-space
   * characters, whatever whitespace (a line terminator, say) follows it.
   */
  lemma StripPadded(s: string, pad: string)
    requires s != [] && !IsSpace(s[0]) && !IsSpace(s[|s| - 1])
    requires forall i :: 0 <= i < |pad| ==> IsSpace(pad[i])
    ensures Strip(s + pad) == s
  {
    assert (s + pad)[0] == s[0];
    assert TrimStart(s + pad) == s + pad;
    TrimEndPadded(s, pad);
  }

  lemma {:induction false} TrimEndPadded(s: string, pad: string)
    requires s != [] && !IsSpace(s[|s| - 1])
    requires forall i :: 0 <= i < |pad| ==> IsSpace(pad[i])
    ensures TrimEnd(s + pad) == s
  {
    if pad == [] {
      assert s + pad == s;
    } else {
      var shorter := pad[..|pad| - 1];
      assert (s + pad)[..|s + pad| - 1] == s + shorter;
      assert (s + pad)[|s + pad| - 1] == pad[|pad| - 1];
      TrimEndPadded(s, shorter);
    }
  }

  /** `s.find(c)`, except that "absent" is `|s|` rather than -1. */
  function IndexOf(s: string, c: char): (i: nat)
    ensures i <= |s|
    ensures i < |s| ==> s[i] == c
    ensures forall j :: 0 <= j < i ==> s[j] != c
  {
    if s == [] then 0
    else if s[0] == c then 0
    else 1 + IndexOf(s[1..], c)
  }

  /**
   * `s.split(sep, 1)` for a one-character separator: the whole string when
   * `sep` does not occur, otherwise the text before the FIRST `sep` and
   * everything after it (later separators included).
   */
  function SplitOnce(s: string, sep: char): (parts: seq<string>)
    ensures 1 <= |parts| <= 2
    ensures |parts| == 1 <==> sep !in s
    ensures |parts| == 1 ==> parts[0] == s
    ensures |parts| == 2 ==> sep !in parts[0] && parts[0] + [sep] + parts[1] == s
  {
    var i := IndexOf(s, sep);
    if i == |s| then [s]
    else
      assert s == s[..i] + [sep] + s[i + 1..];
      [s[..i], s[i + 1..]]
  }

  /** A string splits at its first separator in one way only. */
  lemma {:induction false} SplitUnique(a: string, b: string, x: string, y: string, sep: char)
    requires sep !in a && sep !in x
    requires a + [sep] + b == x + [sep] + y
    ensures a == x && b == y
  {
    var s := a + [sep] + b;
    assert forall j :: 0 <= j < |a| ==> s[j] == a[j] && s[j] != sep;
    assert forall j :: 0 <= j < |x| ==> s[j] == x[j] && s[j] != sep;
    assert s[|a|] == sep;
    assert s[|x|] == (x + [sep] + y)[|x|] == sep;
    var i := IndexOf(s, sep);
    assert i == |a| && i == |x|;
    assert a == s[..i] == x;
    assert b == s[i + 1..] == y;
  }
}
