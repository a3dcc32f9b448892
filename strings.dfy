/**
 * The JavaScript string built-ins the exporter and the preview rely on:
 * `startsWith`, `endsWith`, `includes`, `trim`, `split` on one character,
 * `join` and `repeat`. Strings are sequences of characters.
 */
module Strings {

  /** `s.startsWith(prefix)` */
  predicate StartsWith(s: string, prefix: string) {
    |prefix| <= |s| && s[..|prefix|] == prefix
  }

  lemma StartsWithAt(s: string, prefix: string, i: nat)
    requires StartsWith(s, prefix) && i < |prefix|
    ensures s[i] == prefix[i]
  {
    assert s[..|prefix|][i] == s[i];
  }

  /** `s.endsWith(suffix)` */
  predicate EndsWith(s: string, suffix: string) {
    |suffix| <= |s| && s[|s| - |suffix|..] == suffix
  }

  /** `s.includes(sub)`: `sub` occurs at some position of `s`. */
  predicate Contains(s: string, sub: string)
    decreases |s|
  {
    StartsWith(s, sub) || (|s| > 0 && Contains(s[1..], sub))
  }

  /** A string that occurs in `s` starts with a character of `s`. */
  lemma {:induction false} ContainsHead(s: string, sub: string)
    requires Contains(s, sub) && |sub| > 0
    ensures sub[0] in s
    decreases |s|
  {
    if StartsWith(s, sub) {
      StartsWithAt(s, sub, 0);
    } else {
      ContainsHead(s[1..], sub);
    }
  }

  /** The characters `String.prototype.trim` removes: white space and line terminators. */
  predicate IsWhitespace(c: char) {
    c == '\t' || c == '\n' || c == '\U{000B}' || c == '\U{000C}' || c == '\r' || c == ' '
    || c == '\U{00A0}' || c == '\U{1680}' || ('\U{2000}' <= c <= '\U{200A}')
    || c == '\U{2028}' || c == '\U{2029}' || c == '\U{202F}' || c == '\U{205F}'
    || c == '\U{3000}' || c == '\U{FEFF}'
  }

  /** Drops leading white space. */
  function TrimStart(s: string): (r: string)
    ensures |r| <= |s|
    decreases |s|
  {
    if |s| > 0 && IsWhitespace(s[0]) then TrimStart(s[1..]) else s
  }

  /** Drops trailing white space. */
  function TrimEnd(s: string): (r: string)
    ensures |r| <= |s|
    decreases |s|
  {
    if |s| > 0 && IsWhitespace(s[|s| - 1]) then TrimEnd(s[..|s| - 1]) else s
  }

  /** What is left after `TrimStart` is a suffix of `s` that does not start with white space, and all it drops is white space. */
  lemma {:induction false} TrimStartSpec(s: string)
    ensures TrimStart(s) == s[|s| - |TrimStart(s)|..]
    ensures TrimStart(s) == [] || !IsWhitespace(TrimStart(s)[0])
    ensures forall k :: 0 <= k < |s| - |TrimStart(s)| ==> IsWhitespace(s[k])
    decreases |s|
  {
    if |s| > 0 && IsWhitespace(s[0]) {
      TrimStartSpec(s[1..]);
      assert s[1..][|s| - 1 - |TrimStart(s)|..] == s[|s| - |TrimStart(s)|..];
      forall k | 1 <= k < |s| - |TrimStart(s)| ensures IsWhitespace(s[k]) {
        assert s[k] == s[1..][k - 1];
      }
    }
  }

  /** What is left after `TrimEnd` is a prefix of `s` that does not end with white space, and all it drops is white space. */
  lemma {:induction false} TrimEndSpec(s: string)
    ensures TrimEnd(s) == s[..|TrimEnd(s)|]
    ensures TrimEnd(s) == [] || !IsWhitespace(TrimEnd(s)[|TrimEnd(s)| - 1])
    ensures forall k :: |TrimEnd(s)| <= k < |s| ==> IsWhitespace(s[k])
    decreases |s|
  {
    if |s| > 0 && IsWhitespace(s[|s| - 1]) {
      var p := s[..|s| - 1];
      TrimEndSpec(p);
      assert p[..|TrimEnd(s)|] == s[..|TrimEnd(s)|];
      forall k | |TrimEnd(s)| <= k < |s| - 1 ensures IsWhitespace(s[k]) {
        assert s[k] == p[k];
      }
    }
  }

  /** The number of white-space characters `trim` removes at the front. */
  function LeadingWhitespace(s: string): nat {
    |s| - |TrimStart(s)|
  }

  /** `s.trim()` */
  function Trim(s: string): (r: string)
    ensures |r| <= |s|
  {
    TrimEnd(TrimStart(s))
  }

  /**
   * `trim` keeps the slice of `s` left after removing white space at both
   * ends: everything removed is white space and the slice neither starts nor
   * ends with it.
   */
  lemma TrimSpec(s: string)
    ensures LeadingWhitespace(s) + |Trim(s)| <= |s|
    ensures Trim(s) == s[LeadingWhitespace(s)..LeadingWhitespace(s) + |Trim(s)|]
    ensures Trim(s) == [] || (!IsWhitespace(Trim(s)[0]) && !IsWhitespace(Trim(s)[|Trim(s)| - 1]))
    ensures forall k :: 0 <= k < LeadingWhitespace(s) ==> IsWhitespace(s[k])
    ensures forall k :: LeadingWhitespace(s) + |Trim(s)| <= k < |s| ==> IsWhitespace(s[k])
  {
    var t := TrimStart(s);
    var lead := LeadingWhitespace(s);
    var r := Trim(s);
    TrimStartSpec(s);
    TrimEndSpec(t);
    assert t == s[lead..];
    assert r == t[..|r|];
    if r != [] {
      assert r[0] == t[0];
    }
    forall k | lead + |r| <= k < |s| ensures IsWhitespace(s[k]) {
      assert s[k] == t[k - lead];
    }
  }

  lemma TrimIdempotent(s: string)
    ensures Trim(Trim(s)) == Trim(s)
  {
    TrimSpec(s);
    var r := Trim(s);
    assert TrimStart(r) == r;
    assert TrimEnd(r) == r;
  }

  /** `s.trim() === ''` exactly when every character of `s` is white space. */
  lemma TrimEmptyIff(s: string)
    ensures Trim(s) == [] <==> forall k :: 0 <= k < |s| ==> IsWhitespace(s[k])
  {
    TrimSpec(s);
    if Trim(s) != [] {
      var k := LeadingWhitespace(s);
      assert s[k] == Trim(s)[0];
    }
  }

  /** A non-blank line either starts with white space or with the first character of its trim. */
  lemma TrimHead(s: string)
    requires Trim(s) != []
    ensures IsWhitespace(s[0]) || s[0] == Trim(s)[0]
  {
    TrimSpec(s);
    if LeadingWhitespace(s) > 0 {
      assert IsWhitespace(s[0]);
    }
  }

  /** A character padded with one space on each side trims to itself. */
  lemma TrimPadded(c: char)
    requires !IsWhitespace(c)
    ensures Trim([' ', c, ' ']) == [c]
  {
    assert [' ', c, ' '][1..] == [c, ' '];
    assert TrimStart([c, ' ']) == [c, ' '];
    assert TrimStart([' ', c, ' ']) == [c, ' '];
    assert [c, ' '][..1] == [c];
    assert TrimEnd([c]) == [c];
    assert TrimEnd([c, ' ']) == TrimEnd([c]);
  }

  /** `s.split(sep)` for a one-character separator: always at least one piece, none holding `sep`. */
  function Split(s: string, sep: char): (r: seq<string>)
    ensures |r| > 0
    ensures forall i :: 0 <= i < |r| ==> sep !in r[i]
    decreases |s|
  {
    if |s| == 0 then [""]
    else if s[0] == sep then [""] + Split(s[1..], sep)
    else
      var rest := Split(s[1..], sep);
      [[s[0]] + rest[0]] + rest[1..]
  }

  /** `parts.join(sep)` */
  function Join(parts: seq<string>, sep: string): string
    decreases |parts|
  {
    if |parts| == 0 then ""
    else if |parts| == 1 then parts[0]
    else parts[0] + sep + Join(parts[1..], sep)
  }

  /** Joining the pieces of a split with the same separator gives the string back. */
  lemma {:induction false} JoinSplit(s: string, sep: char)
    ensures Join(Split(s, sep), [sep]) == s
    decreases |s|
  {
    if |s| == 0 {
    } else if s[0] == sep {
      JoinSplit(s[1..], sep);
      assert s == [sep] + s[1..];
    } else {
      var rest := Split(s[1..], sep);
      JoinSplit(s[1..], sep);
      var r := [[s[0]] + rest[0]] + rest[1..];
      assert Split(s, sep) == r;
      if |rest| == 1 {
        assert s == [s[0]] + s[1..];
      } else {
        assert r[1..] == rest[1..];
        assert Join(rest, [sep]) == rest[0] + [sep] + Join(rest[1..], [sep]);
        assert s == [s[0]] + s[1..];
      }
    }
  }

  lemma {:induction false} SplitNoSeparator(p: string, sep: char)
    requires sep !in p
    ensures Split(p, sep) == [p]
    decreases |p|
  {
    if |p| > 0 {
      SplitNoSeparator(p[1..], sep);
      assert [p[0]] + p[1..] == p;
    }
  }

  lemma {:induction false} SplitCons(p: string, sep: char, rest: string)
    requires sep !in p
    ensures Split(p + [sep] + rest, sep) == [p] + Split(rest, sep)
    decreases |p|
  {
    var s := p + [sep] + rest;
    if |p| == 0 {
      assert s[1..] == rest;
    } else {
      assert s[1..] == p[1..] + [sep] + rest;
      SplitCons(p[1..], sep, rest);
      assert [p[0]] + p[1..] == p;
    }
  }

  /** Splitting a join of separator-free pieces gives the pieces back. */
  lemma {:induction false} SplitJoin(parts: seq<string>, sep: char)
    requires |parts| > 0
    requires forall i :: 0 <= i < |parts| ==> sep !in parts[i]
    ensures Split(Join(parts, [sep]), sep) == parts
    decreases |parts|
  {
    if |parts| == 1 {
      SplitNoSeparator(parts[0], sep);
    } else {
      SplitJoin(parts[1..], sep);
      SplitCons(parts[0], sep, Join(parts[1..], [sep]));
      assert [parts[0]] + parts[1..] == parts;
    }
  }

  /** `s.repeat(n)` */
  function Repeat(s: string, n: nat): (r: string)
    ensures |r| == n * |s|
  {
    if n == 0 then "" else s + Repeat(s, n - 1)
  }
}
