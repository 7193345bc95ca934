/** The entry points for one expression: from a text to its tree and back. */
module Entry {
  import opened Token
  import opened Ast
  import opened Engine
  import opened Layout
  import opened Keywords
  import opened Scanner
  import Lexer
  import P = Parser
  import Renderer
  import opened RoundTrip
  import opened Spacing

  /** ParseExpr(src): the text is split into tokens, and these are parsed as one expression. */
  method ParseExpr(index: KeywordIndex, src: string) returns (r: P.Result<Node>)
    requires index.Valid()
    ensures InputOf(index.words, src).WellFormed()
    ensures var input := InputOf(index.words, src);
            match ParseText(index.words, src, P.MAX_DEPTH)
            case Ok(e, _) => r == P.Success(input.Place(e, input.From(0)))
            case Err(e) => r.Failure? && r.error.msg == e.msg && r.error.offset <= |src|
  {
    hide KeywordIndex.Valid, Input.Place, Grammar.ParseWhole, Lexing.Tokens;
    KnownWords(index);
    LexedInput(index.words, src);
    var toks := Lexer.Lex(index, src);
    r := P.ParseExpression(src, toks);
  }

  lemma KnownWords(index: KeywordIndex)
    requires index.Valid()
    ensures Scanner.Keywords(index.words)
  {
  }

  /** roundtrip.Check: renders a tree that was parsed from some text, parses the rendering,
      compares the trees, and renders once more. It never finds a difference. */
  method Check(index: KeywordIndex, e: Expr, ghost src: string) returns (ok: bool, rendered: string)
    requires index.Valid() && Speaks(index.words) && Scanner.Keywords(index.words)
    requires ParseText(index.words, src, P.MAX_DEPTH).Ok? && ParseText(index.words, src, P.MAX_DEPTH).value == e
    ensures ok && rendered == Renderer.RenderText(e)
  {
    hide KeywordIndex.Valid, Input.Place, ParseText, Speaks, Renderer.RenderText;
    RenderedParses(index.words, src, P.MAX_DEPTH);
    rendered := Renderer.String(e);
    var again := ParseExpr(index, rendered);
    PlacedExpr(InputOf(index.words, rendered), e, InputOf(index.words, rendered).From(0));
    if again.Failure? || again.value.expr != e {
      return false, rendered;
    }
    var twice := Renderer.String(again.value.expr);
    ok := twice == rendered;
  }
}
