/**
 * The string operations of the JavaScript standard library that the
 * components use: `trim`, `toLowerCase`, `includes`, `join` and
 * single-character `replace(/x/g, y)`.
 */
module Strings {

  /** ECMAScript WhiteSpace and LineTerminator code points, the set `trim` removes. */
  predicate IsWhitespace(c: char)
  {
    c == ' ' || c == '\t' || c == '\n' || c == '\r' || c == '\U{B}' || c == '\U{C}'
    || c == '\U{A0}' || c == '\U{1680}' || ('\U{2000}' <= c <= '\U{200A}')
    || c == '\U{2028}' || c == '\U{2029}' || c == '\U{202F}' || c == '\U{205F}'
    || c == '\U{3000}' || c == '\U{FEFF}'
  }

  /** Empty or made only of whitespace. */
  predicate IsBlank(s: string)
  {
    forall i :: 0 <= i < |s| ==> IsWhitespace(s[i])
  }

  /** `s.trimEnd()`: the longest prefix of `s` that does not end in whitespace. */
  function TrimEnd(s: string): (r: string)
    ensures |r| <= |s| && r == s[..|r|]
    ensures IsBlank(s[|r|..])
    ensures r != [] ==> !IsWhitespace(r[|r| - 1])
  {
    if s == [] || !IsWhitespace(s[|s| - 1]) then s
    else
      var r := TrimEnd(s[..|s| - 1]);
      assert s[|r|..] == s[..|s| - 1][|r|..] + [s[|s| - 1]];
      r
  }

  /** Trimming never eats into a prefix that ends in a non-whitespace character. */
  lemma {:induction false} TrimEndKeepsPrefix(a: string, b: string)
    requires a != [] && !IsWhitespace(a[|a| - 1])
    ensures |TrimEnd(a + b)| >= |a| && TrimEnd(a + b)[..|a|] == a
    ensures IsBlank(b) ==> TrimEnd(a + b) == a
    decreases |b|
  {
    var s := a + b;
    if b == [] {
      assert s == a;
    } else if IsWhitespace(b[|b| - 1]) {
      assert s[..|s| - 1] == a + b[..|b| - 1];
      TrimEndKeepsPrefix(a, b[..|b| - 1]);
    } else {
      assert s[..|a|] == a;
      assert !IsBlank(b) by { assert !IsWhitespace(b[|b| - 1]); }
    }
  }

  /** `s.trimStart()`: the longest suffix of `s` that does not start with whitespace. */
  function TrimStart(s: string): (r: string)
    ensures |r| <= |s| && r == s[|s| - |r|..]
    ensures IsBlank(s[..|s| - |r|])
    ensures r != [] ==> !IsWhitespace(r[0])
  {
    if s == [] || !IsWhitespace(s[0]) then s
    else
      var r := TrimStart(s[1..]);
      assert s[..|s| - |r|] == [s[0]] + s[1..][..|s[1..]| - |r|];
      r
  }


  /** `s.trim()` */
  function Trim(s: string): (r: string)
    ensures r != [] ==> !IsWhitespace(r[0]) && !IsWhitespace(r[|r| - 1])
  {
    TrimStart(TrimEnd(s))
  }

  /**
   * A string that starts with a non-whitespace character and has another at
   * index `k`: `trim()` only removes trailing whitespace, and keeps index `k`.
   */
  lemma TrimSolidStart(t: string, k: int)
    requires 0 <= k < |t| && !IsWhitespace(t[0]) && !IsWhitespace(t[k])
    ensures Trim(t) == TrimEnd(t)
    ensures |TrimEnd(t)| > k
  {
    assert t == t[..k + 1] + t[k + 1..];
    TrimEndKeepsPrefix(t[..k + 1], t[k + 1..]);
    var e := TrimEnd(t);
    assert e[0] == t[0];
    assert TrimStart(e) == e;
  }

  /** `!s.trim()` holds exactly of the blank strings. */
  lemma TrimEmptyIffBlank(s: string)
    ensures Trim(s) == "" <==> IsBlank(s)
  {
    var e := TrimEnd(s);
    if Trim(s) == "" {
      assert IsBlank(e[..|e|]);
    }
  }

  function LowerChar(c: char): char
  {
    if 'A' <= c <= 'Z' then (c as int + 32) as char else c
  }

  /** `s.toLowerCase()`, for the ASCII letters. */
  function Lower(s: string): (r: string)
    ensures |r| == |s|
    ensures forall i :: 0 <= i < |s| ==> r[i] == LowerChar(s[i])
  {
    seq(|s|, i requires 0 <= i < |s| => LowerChar(s[i]))
  }

  /** `sub` occurs in `s` starting at index `i`. */
  predicate OccursAt(s: string, sub: string, i: int)
  {
    0 <= i <= |s| - |sub| && s[i..i + |sub|] == sub
  }

  /** `s.includes(sub)` */
  predicate Contains(s: string, sub: string)
  {
    exists i | 0 <= i <= |s| - |sub| :: OccursAt(s, sub, i)
  }

  /** `parts.join(sep)` */
  function Join(parts: seq<string>, sep: string): string
  {
    if parts == [] then ""
    else if |parts| == 1 then parts[0]
    else parts[0] + sep + Join(parts[1..], sep)
  }

  /** `s.replace(/x/g, y)` for a single character `x` and a single character `y`. */
  function ReplaceChar(s: string, x: char, y: char): (r: string)
    ensures |r| == |s|
    ensures forall i :: 0 <= i < |s| ==> r[i] == (if s[i] == x then y else s[i])
  {
    seq(|s|, i requires 0 <= i < |s| => if s[i] == x then y else s[i])
  }

  /** `s.indexOf(sub)`: the first index at which `sub` occurs in `s`, or -1. */
  function IndexOf(s: string, sub: string): (r: int)
    ensures r == -1 || 0 <= r <= |s| - |sub|
    decreases |s|
  {
    if |s| < |sub| then -1
    else if s[..|sub|] == sub then 0
    else
      var k := IndexOf(s[1..], sub);
      if k == -1 then -1 else k + 1
  }

  /** `IndexOf` finds the first occurrence, and -1 exactly when there is none. */
  lemma {:induction false} IndexOfFirst(s: string, sub: string)
    ensures IndexOf(s, sub) == -1 <==> !Contains(s, sub)
    ensures IndexOf(s, sub) >= 0 ==> OccursAt(s, sub, IndexOf(s, sub))
    ensures forall j :: 0 <= j < IndexOf(s, sub) ==> !OccursAt(s, sub, j)
    decreases |s|
  {
    if |s| < |sub| {
    } else if s[..|sub|] == sub {
      assert OccursAt(s, sub, 0);
    } else {
      IndexOfFirst(s[1..], sub);
      forall j | 1 <= j <= |s| - |sub|
        ensures OccursAt(s, sub, j) == OccursAt(s[1..], sub, j - 1)
      {
        assert s[1..][j - 1..j - 1 + |sub|] == s[j..j + |sub|];
      }
      var k := IndexOf(s[1..], sub);
      if k >= 0 {
        assert OccursAt(s, sub, k + 1);
      }
      if Contains(s, sub) {
        var i :| 0 <= i <= |s| - |sub| && OccursAt(s, sub, i);
        assert i >= 1 && OccursAt(s[1..], sub, i - 1);
      }
    }
  }
}
