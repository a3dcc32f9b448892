/**
 * The inline-style resolver of the document exporter: each token of the
 * markdown lexer becomes one styled text run. The lexer itself is not part
 * of this model; its tokens are an input.
 */
module InlineStyles {
  import opened Wrappers

  /** The tokens `processToken` distinguishes, tagged by their `type` field. */
  datatype Token =
    | Text(text: string)
    | Strong(text: string)
    | Em(text: string)
    | Del(text: string)
    | Codespan(text: string)
    | ParagraphToken(raw: string, children: seq<Token>)  // `tokens` absent is the empty sequence
    | Other(raw: string)

  /** A `TextRun` of the document library, with the options the exporter sets. */
  datatype Run = Run(
    text: string,
    size: nat,
    bold: bool,
    italics: bool,
    strike: bool,
    font: Option<string>,
    color: Option<string>)

  /** Half-points: every run is 12 point. */
  const RUN_SIZE: nat := 24
  const CODE_FONT: string := "Consolas"
  const CODE_COLOR: string := "6B7280"

  /** The text a token shows: its `text` for the five inline kinds, its raw source otherwise. */
  function TokenText(t: Token): string {
    match t
    case Text(s) => s
    case Strong(s) => s
    case Em(s) => s
    case Del(s) => s
    case Codespan(s) => s
    case ParagraphToken(raw, _) => raw
    case Other(raw) => raw
  }

  /** `processToken`: one run per token, carrying exactly the style of its kind. */
  function ProcessToken(t: Token): (r: seq<Run>)
    ensures |r| == 1
    ensures r[0].text == TokenText(t) && r[0].size == RUN_SIZE
    ensures r[0].bold <==> t.Strong?
    ensures r[0].italics <==> t.Em?
    ensures r[0].strike <==> t.Del?
    ensures r[0].font.Some? <==> t.Codespan?
    ensures r[0].color.Some? <==> t.Codespan?
    ensures t.Codespan? ==> r[0].font == Some(CODE_FONT) && r[0].color == Some(CODE_COLOR)
  {
    var plain := Run(TokenText(t), RUN_SIZE, false, false, false, None, None);
    match t
    case Text(s) => [plain]
    case Strong(s) => [plain.(bold := true)]
    case Em(s) => [plain.(italics := true)]
    case Del(s) => [plain.(strike := true)]
    case Codespan(s) => [plain.(font := Some(CODE_FONT), color := Some(CODE_COLOR))]
    case ParagraphToken(raw, _) => [plain]
    case Other(raw) => [plain]
  }

  /** The runs of a sequence of inline tokens, in order. */
  function ChildRuns(ts: seq<Token>): seq<Run>
    decreases |ts|
  {
    if ts == [] then [] else ProcessToken(ts[0]) + ChildRuns(ts[1..])
  }

  /** The runs of one top-level token: a paragraph contributes its children's runs. */
  function TopLevelRuns(t: Token): seq<Run> {
    if t.ParagraphToken? then ChildRuns(t.children) else ProcessToken(t)
  }

  /** What `parseInlineStyles` returns for the tokens the lexer produced. */
  function InlineRuns(tokens: seq<Token>): seq<Run>
    decreases |tokens|
  {
    if tokens == [] then [] else TopLevelRuns(tokens[0]) + InlineRuns(tokens[1..])
  }

  /** The inline units the runs come from: each paragraph replaced by its children. */
  function Units(tokens: seq<Token>): seq<Token>
    decreases |tokens|
  {
    if tokens == [] then []
    else (if tokens[0].ParagraphToken? then tokens[0].children else [tokens[0]]) + Units(tokens[1..])
  }

  lemma {:induction false} ChildRunsAppend(a: seq<Token>, b: seq<Token>)
    ensures ChildRuns(a + b) == ChildRuns(a) + ChildRuns(b)
    decreases |a|
  {
    if a != [] {
      assert (a + b)[1..] == a[1..] + b;
      ChildRunsAppend(a[1..], b);
    } else {
      assert a + b == b;
    }
  }

  lemma {:induction false} InlineRunsAppend(a: seq<Token>, b: seq<Token>)
    ensures InlineRuns(a + b) == InlineRuns(a) + InlineRuns(b)
    decreases |a|
  {
    if a != [] {
      assert (a + b)[0] == a[0] && (a + b)[1..] == a[1..] + b;
      InlineRunsAppend(a[1..], b);
      assert InlineRuns(a + b) == TopLevelRuns(a[0]) + InlineRuns(a[1..] + b);
    } else {
      assert a + b == b;
    }
  }

  lemma ChildRunsSnoc(ts: seq<Token>, t: Token)
    ensures ChildRuns(ts + [t]) == ChildRuns(ts) + ProcessToken(t)
  {
    ChildRunsAppend(ts, [t]);
    assert [t][1..] == [];
  }

  lemma InlineRunsSnoc(ts: seq<Token>, t: Token)
    ensures InlineRuns(ts + [t]) == InlineRuns(ts) + TopLevelRuns(t)
  {
    InlineRunsAppend(ts, [t]);
    assert [t][1..] == [];
  }

  /** The i-th run is the run of the i-th inline unit, and there is one run per unit. */
  lemma {:induction false} ChildRunsAt(us: seq<Token>)
    ensures |ChildRuns(us)| == |us|
    ensures forall i :: 0 <= i < |us| ==> ChildRuns(us)[i] == ProcessToken(us[i])[0]
    decreases |us|
  {
    if us != [] {
      ChildRunsAt(us[1..]);
      assert forall i :: 1 <= i < |us| ==> us[i] == us[1..][i - 1];
    }
  }

  /** Flattening: the runs of the top-level tokens are the runs of their inline units, in order. */
  lemma {:induction false} InlineRunsAreUnitRuns(tokens: seq<Token>)
    ensures InlineRuns(tokens) == ChildRuns(Units(tokens))
    ensures |InlineRuns(tokens)| == |Units(tokens)|
    ensures forall i :: 0 <= i < |Units(tokens)| ==>
              InlineRuns(tokens)[i] == ProcessToken(Units(tokens)[i])[0]
    decreases |tokens|
  {
    if tokens != [] {
      InlineRunsAreUnitRuns(tokens[1..]);
      var head := if tokens[0].ParagraphToken? then tokens[0].children else [tokens[0]];
      ChildRunsAppend(head, Units(tokens[1..]));
      if !tokens[0].ParagraphToken? {
        assert ChildRuns([tokens[0]]) == ProcessToken(tokens[0]) + ChildRuns([]);
      }
    }
    ChildRunsAt(Units(tokens));
  }

  /** Every run the resolver produces is 12 point. */
  lemma AllRunsSized(tokens: seq<Token>)
    ensures forall r :: r in InlineRuns(tokens) ==> r.size == RUN_SIZE
  {
    InlineRunsAreUnitRuns(tokens);
    forall r | r in InlineRuns(tokens) ensures r.size == RUN_SIZE {
      var i :| 0 <= i < |InlineRuns(tokens)| && InlineRuns(tokens)[i] == r;
    }
  }

  /** `parseInlineStyles` over the lexer's tokens: the loop pushes the runs of each token. */
  method ParseInlineStyles(tokens: seq<Token>) returns (runs: seq<Run>)
    ensures runs == InlineRuns(tokens)
  {
    runs := [];
    for i := 0 to |tokens|
      invariant runs == InlineRuns(tokens[..i])
    {
      var token := tokens[i];
      ghost var before := runs;
      if token.ParagraphToken? {
        runs := PushChildRuns(runs, token.children);
      } else {
        runs := runs + ProcessToken(token);
      }
      assert runs == before + TopLevelRuns(token);
      InlineRunsSnoc(tokens[..i], token);
      assert tokens[..i + 1] == tokens[..i] + [token];
    }
    assert tokens[..|tokens|] == tokens;
  }

  /** The paragraph branch of `parseInlineStyles`: the runs of each child, pushed in order. */
  method PushChildRuns(runs0: seq<Run>, children: seq<Token>) returns (runs: seq<Run>)
    ensures runs == runs0 + ChildRuns(children)
  {
    runs := runs0;
    for j := 0 to |children|
      invariant runs == runs0 + ChildRuns(children[..j])
    {
      ChildRunsSnoc(children[..j], children[j]);
      assert children[..j + 1] == children[..j] + [children[j]];
      runs := runs + ProcessToken(children[j]);
    }
    assert children[..|children|] == children;
  }
}
