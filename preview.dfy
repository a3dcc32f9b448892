/**
 * The live preview's own logic: the rewrite of `>>…<<` notes into block
 * quotes before the markdown is rendered, the badge character of a level-1
 * heading, and the per-theme class strings.
 */
module Preview {
  import opened Wrappers
  import opened Strings
  import opened Themes

  // ---------------------------------------------------------------------------
  // The note rewrite: each `>>`, a non-empty stretch free of `<`, and `<<`
  // becomes a block quote

  /** The length of the longest run of characters other than `<` at the front of `s`. */
  function RunLen(s: string): (n: nat)
    ensures n <= |s|
    ensures forall k :: 0 <= k < n ==> s[k] != '<'
    ensures n == |s| || s[n] == '<'
    decreases |s|
  {
    if |s| > 0 && s[0] != '<' then 1 + RunLen(s[1..]) else 0
  }

  /**
   * The length of the note match at the front of `s`, if there is one: `>>`,
   * one or more characters other than `<`, then `<<`. The greedy run stops at
   * the first `<`; a shorter content would be followed by a character other
   * than `<`, so backtracking never helps.
   */
  function MatchAt(s: string): (m: Option<nat>)
    ensures m.Some? ==>
              && 5 <= m.value <= |s|
              && s[..2] == ">>" && s[m.value - 2..m.value] == "<<"
              && forall k :: 2 <= k < m.value - 2 ==> s[k] != '<'
  {
    if StartsWith(s, ">>") then
      var k := RunLen(s[2..]);
      if k > 0 && StartsWith(s[2 + k..], "<<") then Some(k + 4) else None
    else None
  }

  /** The lines of a note's content, each prefixed with `> `. */
  function QuoteLines(lines: seq<string>): (r: seq<string>)
    ensures |r| == |lines|
    ensures forall i :: 0 <= i < |lines| ==> r[i] == "> " + lines[i]
  {
    seq(|lines|, i requires 0 <= i < |lines| => "> " + lines[i])
  }

  /**
   * The replacement of one match: the content is cut at its newlines, each
   * line gets the prefix `> `, and the lines are joined by newlines again.
   */
  function Quote(content: string): string {
    Join(QuoteLines(Split(content, '\n')), "\n")
  }

  /**
   * `replace` with a global regular expression: scanning from the left, a
   * match is replaced and the scan resumes after it; elsewhere one character
   * is kept and the scan moves on.
   */
  function Rewrite(s: string): string
    decreases |s|
  {
    if s == [] then []
    else match MatchAt(s)
      case Some(n) => Quote(s[2..n - 2]) + Rewrite(s[n..])
      case None => [s[0]] + Rewrite(s[1..])
  }

  lemma ContainsCons(c: char, t: string, sub: string)
    ensures Contains([c] + t, sub) <==> StartsWith([c] + t, sub) || Contains(t, sub)
  {
    assert ([c] + t)[1..] == t;
  }

  /** A source without `>>` is left as it is. */
  lemma {:induction false} RewriteNoMarker(s: string)
    requires !Contains(s, ">>")
    ensures Rewrite(s) == s
    decreases |s|
  {
    if s != [] {
      assert MatchAt(s) == None;
      RewriteNoMarker(s[1..]);
      assert [s[0]] + s[1..] == s;
    }
  }

  /**
   * Text in which no match can start is kept as it is: it holds no `>>`, and
   * it does not end in `>` where the rest begins with `>`.
   */
  lemma {:induction false} RewriteKeepsPrefix(u: string, v: string)
    requires !Contains(u, ">>")
    requires u == [] || v == [] || u[|u| - 1] != '>' || v[0] != '>'
    ensures Rewrite(u + v) == u + Rewrite(v)
    decreases |u|
  {
    if u != [] {
      var s := u + v;
      assert s[0] == u[0];
      assert !StartsWith(s, ">>") by {
        if |u| >= 2 {
          assert !StartsWith(u, ">>");
          assert s[..2] == u[..2];
        } else if v != [] {
          assert s[0] == u[|u| - 1] && s[1] == v[0];
        } else {
          assert |s| == 1;
        }
      }
      assert s[1..] == u[1..] + v;
      assert u[1..] == [] || u[1..][|u[1..]| - 1] == u[|u| - 1];
      RewriteKeepsPrefix(u[1..], v);
      assert [u[0]] + u[1..] == u;
    } else {
      assert u + v == v;
    }
  }

  /** `>>C<<` with a non-empty content free of `<` matches, the whole of it and no more. */
  lemma MatchComplete(content: string, rest: string)
    requires content != [] && '<' !in content
    ensures MatchAt(">>" + content + "<<" + rest) == Some(|content| + 4)
  {
    var s := ">>" + content + "<<" + rest;
    assert s[..2] == ">>";
    var t := s[2..];
    assert t == content + "<<" + rest;
    RunLenStops(content, "<<" + rest);
    assert s[2 + |content|..] == "<<" + rest;
    assert ("<<" + rest)[..2] == "<<";
  }

  lemma {:induction false} RunLenStops(content: string, rest: string)
    requires '<' !in content && |rest| > 0 && rest[0] == '<'
    ensures RunLen(content + rest) == |content|
    decreases |content|
  {
    if content == [] {
      assert content + rest == rest;
    } else {
      assert (content + rest)[1..] == content[1..] + rest;
      RunLenStops(content[1..], rest);
    }
  }

  /** `>><<`: an empty content is no match; the scan moves on by one character. */
  lemma NoMatchEmpty(rest: string)
    ensures MatchAt(">><<" + rest) == None
    ensures Rewrite(">><<" + rest) == ">" + Rewrite("><<" + rest)
  {
    var s := ">><<" + rest;
    assert s[2..][0] == '<';
    assert s[1..] == "><<" + rest;
  }

  /** `sub` found at position `i` of `s`. */
  lemma {:induction false} ContainsAt(s: string, sub: string, i: nat)
    requires i + |sub| <= |s| && s[i..i + |sub|] == sub
    ensures Contains(s, sub)
    decreases i
  {
    if i == 0 {
      assert s[..|sub|] == sub;
    } else {
      assert s[1..][i - 1..i - 1 + |sub|] == s[i..i + |sub|];
      ContainsAt(s[1..], sub, i - 1);
    }
  }

  /**
   * A content that holds `<` but no `<<` and does not end in `<` is no match:
   * `[^<]+` stops at its first `<`, which is not followed by another.
   */
  lemma NoMatchAngle(content: string, rest: string)
    requires '<' in content && !Contains(content, "<<") && content[|content| - 1] != '<'
    ensures MatchAt(">>" + content + "<<" + rest).None?
  {
    var s := ">>" + content + "<<" + rest;
    assert !StartsWith(s[2 + RunLen(s[2..])..], "<<") by {
      var t := content + "<<" + rest;
      assert s[2..] == t;
      FirstAngleSingle(content, rest);
      var k := RunLen(t);
      assert s[2 + k..][1] == t[k + 1];
    }
  }

  /** In such a content, the run of non-`<` characters stops at a `<` that is not followed by another. */
  lemma FirstAngleSingle(content: string, rest: string)
    requires '<' in content && !Contains(content, "<<") && content[|content| - 1] != '<'
    ensures RunLen(content + "<<" + rest) + 1 < |content|
    ensures (content + "<<" + rest)[RunLen(content + "<<" + rest) + 1] != '<'
  {
    var t := content + "<<" + rest;
    var k := RunLen(t);
    var j :| 0 <= j < |content| && content[j] == '<';
    assert t[j] == '<';
    assert k < |content| && content[k] == t[k] == '<';
    if content[k + 1] == '<' {
      assert content[k..k + 2] == "<<";
      ContainsAt(content, "<<", k);
    }
    assert t[k + 1] == content[k + 1];
  }

  /**
   * One note in the middle of text: what precedes it is kept, the note is
   * replaced by its quoted lines, and the scan resumes after the closing `<<`.
   */
  lemma RewriteSpan(before: string, content: string, after: string)
    requires !Contains(before, ">>") && (before == [] || before[|before| - 1] != '>')
    requires content != [] && '<' !in content
    ensures Rewrite(before + ">>" + content + "<<" + after) == before + Quote(content) + Rewrite(after)
  {
    var s := ">>" + content + "<<" + after;
    assert before + ">>" + content + "<<" + after == before + s;
    RewriteKeepsPrefix(before, s);
    RewriteMatch(content, after);
  }

  /** A note at the front is replaced, and the scan resumes after its `<<`. */
  lemma RewriteMatch(content: string, after: string)
    requires content != [] && '<' !in content
    ensures Rewrite(">>" + content + "<<" + after) == Quote(content) + Rewrite(after)
  {
    var s := ">>" + content + "<<" + after;
    MatchComplete(content, after);
    var n := |content| + 4;
    assert s[2..n - 2] == content;
    assert s[n..] == after;
  }

  /** The replacement has one line per line of the content: `> ` and that line. */
  lemma QuoteSplit(content: string)
    ensures Split(Quote(content), '\n') == QuoteLines(Split(content, '\n'))
  {
    var lines := QuoteLines(Split(content, '\n'));
    forall i | 0 <= i < |lines| ensures '\n' !in lines[i] {
      assert lines[i] == "> " + Split(content, '\n')[i];
    }
    SplitJoin(lines, '\n');
  }

  /** Dropping the `> ` of every line of a quote. */
  function Unquote(quoted: string): string {
    var lines := Split(quoted, '\n');
    Join(seq(|lines|, i requires 0 <= i < |lines| => if |lines[i]| >= 2 then lines[i][2..] else lines[i]), "\n")
  }

  /** Stripping the prefixes and rejoining gives the content back. */
  lemma UnquoteQuote(content: string)
    ensures Unquote(Quote(content)) == content
  {
    QuoteSplit(content);
    var pieces := Split(content, '\n');
    var lines := Split(Quote(content), '\n');
    var stripped := seq(|lines|, i requires 0 <= i < |lines| => if |lines[i]| >= 2 then lines[i][2..] else lines[i]);
    assert stripped == pieces by {
      forall i | 0 <= i < |pieces| ensures stripped[i] == pieces[i] {
        assert lines[i] == "> " + pieces[i];
      }
    }
    JoinSplit(content, '\n');
  }

  lemma {:induction false} NoAngleInJoin(parts: seq<string>, sep: string)
    requires '<' !in sep
    requires forall i :: 0 <= i < |parts| ==> '<' !in parts[i]
    ensures '<' !in Join(parts, sep)
    decreases |parts|
  {
    if |parts| > 1 {
      NoAngleInJoin(parts[1..], sep);
    }
  }

  /** A content free of `<` quotes to text free of `<`: the replacement holds no `<<`. */
  lemma QuoteNoClose(content: string)
    requires '<' !in content
    ensures '<' !in Quote(content)
    ensures !Contains(Quote(content), "<<")
  {
    var pieces := Split(content, '\n');
    var lines := QuoteLines(pieces);
    JoinSplit(content, '\n');
    forall i | 0 <= i < |pieces| ensures '<' !in pieces[i] {
      NoAngleInPiece(content, i);
    }
    NoAngleInJoin(lines, "\n");
    if Contains(Quote(content), "<<") {
      ContainsHead(Quote(content), "<<");
    }
  }

  /** Every piece of a split is part of the string split. */
  lemma {:induction false} NoAngleInPiece(s: string, i: nat)
    requires '<' !in s && i < |Split(s, '\n')|
    ensures '<' !in Split(s, '\n')[i]
    decreases |s|
  {
    if |s| > 0 {
      var rest := Split(s[1..], '\n');
      assert '<' !in s[1..] by {
        forall k | 0 <= k < |s[1..]| ensures s[1..][k] != '<' {
          assert s[1..][k] == s[k + 1];
        }
      }
      if s[0] == '\n' {
        if i > 0 {
          NoAngleInPiece(s[1..], i - 1);
        }
      } else if i == 0 {
        NoAngleInPiece(s[1..], 0);
        assert s[0] != '<';
      } else {
        NoAngleInPiece(s[1..], i);
      }
    }
  }

  // ---------------------------------------------------------------------------
  // The `>>` marker in a quote

  /** The quote written character by character: each line break continues with `> `. */
  function QuoteTail(content: string): string
    decreases |content|
  {
    if content == [] then []
    else if content[0] == '\n' then "\n> " + QuoteTail(content[1..])
    else [content[0]] + QuoteTail(content[1..])
  }

  /** What follows the first quoted line: nothing, or a line break and the other quoted lines. */
  function LaterLines(lines: seq<string>): string
    requires |lines| > 0
  {
    if |lines| == 1 then "" else "\n" + Join(QuoteLines(lines[1..]), "\n")
  }

  lemma JoinQuoted(lines: seq<string>)
    requires |lines| > 0
    ensures Join(QuoteLines(lines), "\n") == "> " + lines[0] + LaterLines(lines)
  {
    if |lines| > 1 {
      assert QuoteLines(lines)[1..] == QuoteLines(lines[1..]);
    }
  }

  /** A content starting with a line break: an empty first line, then the rest. */
  lemma QuoteNewline(rest: string)
    ensures Quote(['\n'] + rest) == "> " + "\n" + Quote(rest)
  {
    var r := Split(rest, '\n');
    assert (['\n'] + rest)[1..] == rest;
    var lines := [""] + r;
    assert Split(['\n'] + rest, '\n') == lines;
    JoinQuoted(lines);
    assert lines[1..] == r;
  }

  /** A content starting with another character: it opens the first line. */
  lemma QuoteChar(c: char, rest: string)
    requires c != '\n'
    ensures Quote([c] + rest) == "> " + [c] + Quote(rest)[2..]
  {
    var r := Split(rest, '\n');
    QuoteCons(c, rest);
    JoinQuoted(r);
    assert Quote(rest)[2..] == r[0] + LaterLines(r);
  }

  lemma QuoteCons(c: char, rest: string)
    requires c != '\n'
    ensures Quote([c] + rest) == "> " + ([c] + Split(rest, '\n')[0]) + LaterLines(Split(rest, '\n'))
  {
    var r := Split(rest, '\n');
    assert ([c] + rest)[1..] == rest;
    var lines := [[c] + r[0]] + r[1..];
    assert Split([c] + rest, '\n') == lines;
    JoinQuoted(lines);
    if |r| > 1 {
      assert lines[1..] == r[1..];
    }
  }

  lemma {:induction false} QuoteIsTail(content: string)
    ensures Quote(content) == "> " + QuoteTail(content)
    decreases |content|
  {
    if content != [] {
      var rest := content[1..];
      QuoteIsTail(rest);
      assert content == [content[0]] + rest;
      if content[0] == '\n' {
        QuoteNewline(rest);
      } else {
        QuoteChar(content[0], rest);
        assert Quote(rest)[2..] == QuoteTail(rest);
      }
    }
  }

  /** A character put in front of text without `>>` forms none unless both it and the next are `>`. */
  lemma NoOpenCons(c: char, t: string)
    requires !Contains(t, ">>")
    requires c != '>' || t == [] || t[0] != '>'
    ensures !Contains([c] + t, ">>")
  {
    ContainsCons(c, t, ">>");
    if StartsWith([c] + t, ">>") {
      StartsWithAt([c] + t, ">>", 0);
      StartsWithAt([c] + t, ">>", 1);
      assert false;
    }
  }

  lemma QuoteTailHead(content: string)
    requires QuoteTail(content) != [] && QuoteTail(content)[0] == '>'
    ensures content != [] && content[0] == '>'
  {
  }

  lemma {:induction false} QuoteTailNoOpen(content: string)
    requires !Contains(content, ">>")
    ensures !Contains(QuoteTail(content), ">>")
    decreases |content|
  {
    if content != [] {
      var rest := content[1..];
      assert !Contains(rest, ">>");
      QuoteTailNoOpen(rest);
      var t := QuoteTail(rest);
      if content[0] == '\n' {
        assert "\n> " + t == ['\n'] + (['>'] + ([' '] + t));
        NoOpenCons(' ', t);
        NoOpenCons('>', [' '] + t);
        NoOpenCons('\n', ['>'] + ([' '] + t));
      } else {
        if t != [] && t[0] == '>' {
          QuoteTailHead(rest);
          assert rest[0] == content[1];
        }
        NoOpenCons(content[0], t);
      }
    }
  }

  /**
   * The replacement carries a `>>` only when the content does: the `> `
   * prefixes never form one.
   */
  lemma QuoteNoOpen(content: string)
    requires !Contains(content, ">>")
    ensures !Contains(Quote(content), ">>")
  {
    var t := QuoteTail(content);
    assert Quote(content) == ['>'] + ([' '] + t) by {
      QuoteIsTail(content);
      assert "> " + t == ['>'] + ([' '] + t);
    }
    QuoteTailNoOpen(content);
    NoOpenCons(' ', t);
    NoOpenCons('>', [' '] + t);
  }

  /** A content that holds `>>` keeps it in the replacement: `>>>>a<<` becomes `> >>a`. */
  lemma NestedOpenSurvives()
    ensures Rewrite(">>>>a<<") == "> >>a"
  {
    MatchComplete(">>a", "");
    assert ">>" + ">>a" + "<<" + "" == ">>>>a<<";
    var s := ">>>>a<<";
    assert s[2..5] == ">>a" && s[7..] == [];
    SplitNoSeparator(">>a", '\n');
  }

  // ---------------------------------------------------------------------------
  // The badge of a level-1 heading

  predicate IsAsciiAlnum(c: char) {
    ('A' <= c <= 'Z') || ('a' <= c <= 'z') || ('0' <= c <= '9')
  }

  lemma AlnumNotWhitespace(c: char)
    requires IsAsciiAlnum(c)
    ensures !IsWhitespace(c)
  {
  }

  /** The leftmost match of `[A-Za-z0-9]`, if any. */
  function FirstAlnum(s: string): (r: Option<char>)
    ensures r.None? <==> forall k :: 0 <= k < |s| ==> !IsAsciiAlnum(s[k])
    ensures r.Some? ==> IsAsciiAlnum(r.value)
    decreases |s|
  {
    if s == [] then None
    else if IsAsciiAlnum(s[0]) then Some(s[0])
    else FirstAlnum(s[1..])
  }

  /**
   * The badge of a level-1 heading: the leftmost ASCII letter or digit of the
   * trimmed heading text (the pattern's anchored and unanchored alternatives
   * both find that one), or `1` when the text has none.
   */
  function BadgeChar(text: string): (c: char)
    ensures c == '1' || IsAsciiAlnum(c)
  {
    FirstAlnum(Trim(text)).GetOr('1')
  }

  lemma {:induction false} FirstAlnumAt(s: string, k: nat)
    requires k < |s| && IsAsciiAlnum(s[k])
    requires forall j :: 0 <= j < k ==> !IsAsciiAlnum(s[j])
    ensures FirstAlnum(s) == Some(s[k])
    decreases k
  {
    if k > 0 {
      FirstAlnumAt(s[1..], k - 1);
    }
  }

  /**
   * The badge is the first ASCII letter or digit of the heading text; the
   * white space `trim` removes is never one.
   */
  lemma BadgeIsFirstAlnum(text: string, k: nat)
    requires k < |text| && IsAsciiAlnum(text[k])
    requires forall j :: 0 <= j < k ==> !IsAsciiAlnum(text[j])
    ensures BadgeChar(text) == text[k]
  {
    var t := Trim(text);
    var lead := LeadingWhitespace(text);
    TrimSpec(text);
    AlnumNotWhitespace(text[k]);
    assert lead <= k;
    assert k - lead < |t|;
    assert t[k - lead] == text[k];
    forall j | 0 <= j < k - lead ensures !IsAsciiAlnum(t[j]) {
      assert t[j] == text[lead + j];
    }
    FirstAlnumAt(t, k - lead);
  }

  /** Without an ASCII letter or digit the badge is `1`. */
  lemma BadgeDefault(text: string)
    requires forall k :: 0 <= k < |text| ==> !IsAsciiAlnum(text[k])
    ensures BadgeChar(text) == '1'
  {
    var t := Trim(text);
    var lead := LeadingWhitespace(text);
    TrimSpec(text);
    forall j | 0 <= j < |t| ensures !IsAsciiAlnum(t[j]) {
      assert t[j] == text[lead + j];
    }
  }

  // ---------------------------------------------------------------------------
  // The preview's class strings

  datatype H1Classes = H1Classes(wrapper: string, number: string, text: string)
  datatype TableClasses = TableClasses(header: string, cell: string, row: string)
  datatype PreviewStyle = PreviewStyle(h1: H1Classes, h2: string, h3: string, blockquote: string, table: TableClasses)

  predicate Populated(s: PreviewStyle) {
    && |s.h1.wrapper| > 0 && |s.h1.number| > 0 && |s.h1.text| > 0
    && |s.h2| > 0 && |s.h3| > 0 && |s.blockquote| > 0
    && |s.table.header| > 0 && |s.table.cell| > 0 && |s.table.row| > 0
  }

  /**
   * The preview's `themeStyles` table, total over the themes; each entry,
   * given by its own function, has every class string set.
   */
  function PreviewStyles(theme: Theme): PreviewStyle {
    match theme
    case Modern => ModernPreview()
    case Vintage => VintagePreview()
    case Minimal => MinimalPreview()
    case Nature => NaturePreview()
  }

  /** The `modern` entry of the table. */
  function ModernPreview(): (s: PreviewStyle)
    ensures Populated(s)
  {
    PreviewStyle(
      H1Classes("bg-gradient-to-r from-purple-600 to-pink-600", "bg-purple-800", "text-white"),
      "bg-purple-50 dark:bg-purple-900/20 pl-4 py-2 rounded-lg",
      "border-l-4 border-purple-600 pl-4",
      "border-l-4 border-pink-500 bg-pink-50 dark:bg-pink-900/20",
      TableClasses("bg-purple-100 dark:bg-purple-900/40", "border-purple-200 dark:border-purple-700",
                   "hover:bg-purple-50 dark:hover:bg-purple-900/20"))
  }

  /** The `vintage` entry of the table. */
  function VintagePreview(): (s: PreviewStyle)
    ensures Populated(s)
  {
    PreviewStyle(
      H1Classes("bg-gradient-to-r from-amber-700 to-brown-800", "bg-brown-900", "text-amber-100"),
      "bg-amber-50 dark:bg-amber-900/20 pl-4 py-2 rounded-lg",
      "border-l-4 border-amber-600 pl-4",
      "border-l-4 border-amber-500 bg-amber-50 dark:bg-amber-900/20",
      TableClasses("bg-amber-100 dark:bg-amber-900/40", "border-amber-200 dark:border-amber-700",
                   "hover:bg-amber-50 dark:hover:bg-amber-900/20"))
  }

  /** The `minimal` entry of the table. */
  function MinimalPreview(): (s: PreviewStyle)
    ensures Populated(s)
  {
    PreviewStyle(
      H1Classes("bg-gray-100 dark:bg-gray-800", "bg-gray-700 dark:bg-gray-900", "text-gray-900 dark:text-gray-100"),
      "bg-gray-50 dark:bg-gray-800/50 pl-4 py-2 rounded-lg",
      "border-l-4 border-gray-300 pl-4",
      "border-l-4 border-gray-300 bg-gray-50 dark:bg-gray-800",
      TableClasses("bg-gray-100 dark:bg-gray-800/40", "border-gray-200 dark:border-gray-700",
                   "hover:bg-gray-50 dark:hover:bg-gray-800/20"))
  }

  /** The `nature` entry of the table. */
  function NaturePreview(): (s: PreviewStyle)
    ensures Populated(s)
  {
    PreviewStyle(
      H1Classes("bg-gradient-to-r from-green-600 to-emerald-600", "bg-green-800", "text-white"),
      "bg-green-50 dark:bg-green-900/20 pl-4 py-2 rounded-lg",
      "border-l-4 border-green-600 pl-4",
      "border-l-4 border-green-500 bg-green-50 dark:bg-green-900/20",
      TableClasses("bg-green-100 dark:bg-green-900/40", "border-green-200 dark:border-green-700",
                   "hover:bg-green-50 dark:hover:bg-green-900/20"))
  }
}
