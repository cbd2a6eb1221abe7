/**
 * The parts of java.lang.String that the service relies on, restricted to
 * ASCII: case mapping, `trim`, `isBlank`, `indexOf`, `lastIndexOf`, and the
 * way `String.format("%s", …)` renders a null reference.
 */
module Text {
  import opened Wrappers

  /** How `String.format("%s", s)` and string `+` render a possibly-null string. */
  function Str(s: Option<string>): string
  {
    if s.None? then "null" else s.value
  }

  predicate IsAsciiUpper(c: char) { 'A' <= c <= 'Z' }

  predicate IsAsciiLower(c: char) { 'a' <= c <= 'z' }

  function UpperChar(c: char): char
  {
    if IsAsciiLower(c) then (c as int - 32) as char else c
  }

  function LowerChar(c: char): char
  {
    if IsAsciiUpper(c) then (c as int + 32) as char else c
  }

  /** `String.toUpperCase`, ASCII letters only. */
  function ToUpper(s: string): (r: string)
    ensures |r| == |s| && forall i {:trigger r[i]} :: 0 <= i < |s| ==> r[i] == UpperChar(s[i])
  {
    seq(|s|, i requires 0 <= i < |s| => UpperChar(s[i]))
  }

  /** `String.toLowerCase`, ASCII letters only. */
  function ToLower(s: string): (r: string)
    ensures |r| == |s| && forall i {:trigger r[i]} :: 0 <= i < |s| ==> r[i] == LowerChar(s[i])
  {
    seq(|s|, i requires 0 <= i < |s| => LowerChar(s[i]))
  }

  /** `String.equalsIgnoreCase` on non-null strings, ASCII letters only. */
  predicate EqualsIgnoreCase(a: string, b: string)
  {
    ToLower(a) == ToLower(b)
  }

  /** `\s` in a Java regular expression: space, tab, line feed, vertical tab, form feed, carriage return. */
  predicate IsRegexSpace(c: char)
  {
    c == ' ' || '\t' <= c <= '\r'
  }

  /** `Character.isWhitespace` on ASCII: tab to carriage return, the four separators 0x1C-0x1F, and space. */
  predicate IsWhitespace(c: char)
  {
    '\t' <= c <= '\r' || '\U{1C}' <= c <= ' '
  }

  /** `String.isBlank`. */
  predicate IsBlank(s: string)
  {
    forall i :: 0 <= i < |s| ==> IsWhitespace(s[i])
  }

  /** Removes the leading characters that `String.trim` removes (every character up to U+0020). */
  function TrimStart(s: string): (r: string)
    ensures |r| <= |s|
    ensures r != [] ==> r[0] > ' '
  {
    if s != [] && s[0] <= ' ' then TrimStart(s[1..]) else s
  }

  /** `TrimStart` removes exactly the leading run of characters at or below U+0020, keeping the rest. */
  lemma {:induction false} TrimStartSpec(s: string)
    ensures TrimStart(s) == s[|s| - |TrimStart(s)|..]
    ensures forall i :: 0 <= i < |s| - |TrimStart(s)| ==> s[i] <= ' '
    decreases |s|
  {
    if s != [] && s[0] <= ' ' {
      var t := s[1..];
      TrimStartSpec(t);
      assert t[|t| - |TrimStart(t)|..] == s[|s| - |TrimStart(s)|..];
      forall i | 0 < i < |s| - |TrimStart(s)|
        ensures s[i] <= ' '
      {
        assert s[i] == t[i - 1];
      }
    }
  }

  /** Removes the trailing characters that `String.trim` removes. */
  function TrimEnd(s: string): (r: string)
    ensures |r| <= |s|
    ensures r != [] ==> r[|r| - 1] > ' '
  {
    if s != [] && s[|s| - 1] <= ' ' then TrimEnd(s[..|s| - 1]) else s
  }

  /** `TrimEnd` removes exactly the trailing run of characters at or below U+0020, keeping the rest. */
  lemma {:induction false} TrimEndSpec(s: string)
    ensures TrimEnd(s) == s[..|TrimEnd(s)|]
    ensures forall i :: |TrimEnd(s)| <= i < |s| ==> s[i] <= ' '
    decreases |s|
  {
    if s != [] && s[|s| - 1] <= ' ' {
      var t := s[..|s| - 1];
      TrimEndSpec(t);
      assert t[..|TrimEnd(t)|] == s[..|TrimEnd(s)|];
      forall i | |TrimEnd(s)| <= i < |s| - 1
        ensures s[i] <= ' '
      {
        assert s[i] == t[i];
      }
    }
  }

  /**
   * `String.trim`: the text between the leading and the trailing characters up
   * to U+0020; empty exactly when every character is at or below U+0020.
   */
  function Trim(s: string): string
  {
    TrimEnd(TrimStart(s))
  }

  /**
   * `Trim` keeps exactly the text between the leading and the trailing runs of
   * characters at or below U+0020; it is empty exactly when every character is
   * at or below U+0020.
   */
  lemma TrimSpec(s: string)
    ensures var k := |s| - |TrimStart(s)|;
      && k + |Trim(s)| <= |s| && Trim(s) == s[k..k + |Trim(s)|]
      && (forall i :: 0 <= i < k ==> s[i] <= ' ')
      && (forall i :: k + |Trim(s)| <= i < |s| ==> s[i] <= ' ')
  {
    TrimStartSpec(s);
    TrimEndSpec(TrimStart(s));
    SliceOfSuffix(s, TrimStart(s), Trim(s));
  }

  /** A prefix of a suffix of `s` is a slice of `s`, and what the prefix drops is what the slice leaves at the back. */
  lemma SliceOfSuffix(s: string, a: string, r: string)
    requires |a| <= |s| && a == s[|s| - |a|..] && |r| <= |a| && r == a[..|r|]
    requires forall i :: |r| <= i < |a| ==> a[i] <= ' '
    ensures var k := |s| - |a|; r == s[k..k + |r|] && forall i :: k + |r| <= i < |s| ==> s[i] <= ' '
  {
    var k := |s| - |a|;
    forall i | k + |r| <= i < |s|
      ensures s[i] <= ' '
    {
      assert s[i] == a[i - k];
    }
  }

  /** The trim is empty exactly when every character is at or below U+0020. */
  lemma TrimEmpty(s: string)
    ensures Trim(s) == [] <==> forall i :: 0 <= i < |s| ==> s[i] <= ' '
  {
    var k := |s| - |TrimStart(s)|;
    TrimSpec(s);
    if Trim(s) != [] {
      TrimEndSpec(TrimStart(s));
      assert s[k] == Trim(s)[0];
    }
  }

  /** Trimming twice trims nothing more. */
  lemma TrimIdempotent(s: string)
    ensures Trim(Trim(s)) == Trim(s)
  {
    var a := TrimStart(s);
    var x := TrimEnd(a);
    TrimEndSpec(a);
    if x != [] {
      assert x[0] == a[0];
      assert TrimStart(x) == x;
    }
  }

  /** A string that starts and ends above U+0020 is its own trim. */
  lemma TrimKeepsVisibleEnds(s: string)
    requires s != [] && s[0] > ' ' && s[|s| - 1] > ' '
    ensures Trim(s) == s
  {
  }

  /** `String.indexOf(c)`: the first index of `c`, or -1. */
  function IndexOf(s: string, c: char): (i: int)
    ensures -1 <= i < |s|
    ensures i >= 0 ==> s[i] == c && c !in s[..i]
    ensures i == -1 <==> c !in s
  {
    if s == [] then -1
    else if s[0] == c then 0
    else
      var j := IndexOf(s[1..], c);
      assert s[1..][..j + 1] == s[1..j + 2] by { assert j + 2 <= |s| || j == -1; }
      if j < 0 then -1 else j + 1
  }

  /** `String.lastIndexOf(c)`: the last index of `c`, or -1. */
  function LastIndexOf(s: string, c: char): (i: int)
    ensures -1 <= i < |s|
    ensures i >= 0 ==> s[i] == c && c !in s[i + 1..]
    ensures i == -1 <==> c !in s
  {
    if s == [] then -1
    else if s[|s| - 1] == c then |s| - 1
    else
      var p := s[..|s| - 1];
      assert s == p + [s[|s| - 1]];
      var i := LastIndexOf(p, c);
      assert i >= 0 ==> s[i + 1..] == p[i + 1..] + [s[|s| - 1]];
      i
  }
}
