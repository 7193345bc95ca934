/** Parsing what the renderer writes for a parsed tree gives the tree back: the renderer's
    promise (ast/render.go:5-13), from source text to source text. */
module RoundTrip {
  import opened Token
  import opened Ast
  import opened Engine
  import opened Grammar
  import opened Canonical
  import C = Completeness
  import Image
  import Spans
  import opened ExactImage
  import opened Emission
  import opened Links
  import opened Renderer
  import opened Scanner
  import opened Locality
  import opened Windows
  import opened Lexing
  import opened Layout
  import opened Spacing

  /** A text with its tokens. */
  function InputOf(words: map<string, Kind>, src: string): Input {
    Input(src, Tokens(words, src))
  }

  /** The tokens as scanned, before the window words are resolved. */
  function Raws(words: map<string, Kind>, src: string): seq<SourceToken> {
    Kept(RawLex(words, src, 0))
  }

  /** `t` is the token that scanning at its position gives. */
  ghost predicate ScannedAt(words: map<string, Kind>, src: string, t: SourceToken) {
    && t.pos < t.end <= |src| && src[t.pos] != NUL
    && Scan(words, src[t.pos..]) == Scanned(t.kind, t.end - t.pos)
    && !IsTrivia(t.kind)
  }

  lemma {:induction false} KeptScanned(words: map<string, Kind>, src: string, i: nat)
    requires i <= |src|
    ensures forall j :: 0 <= j < |Kept(RawLex(words, src, i))| ==> ScannedAt(words, src, Kept(RawLex(words, src, i))[j])
    decreases |src| - i
  {
    hide Scan, EndOf;
    if i < |src| && src[i] != NUL {
      var raws := RawLex(words, src, i);
      var s := Scan(words, src[i..]);
      assert raws[1..] == RawLex(words, src, i + s.n);
      KeptScanned(words, src, i + s.n);
    }
  }

  /** What the lexer returns is what the parser expects. */
  lemma {:induction false} LexedInput(words: map<string, Kind>, src: string)
    requires Keywords(words)
    ensures InputOf(words, src).WellFormed() && InputOf(words, src).InOrder()
    ensures |InputOf(words, src).toks| == |Raws(words, src)| + 1
  {
    hide Scan, EndOf, Kept, RawLex, Tiles, Keywords, Decide;
    RawTiles(words, src, 0);
    KeptOrdered(RawLex(words, src, 0), 0, EndOf(src));
    KeptScanned(words, src, 0);
    var raws := Raws(words, src);
    forall j | 0 <= j < |raws|
      ensures !Resolve(raws)[j].kind.EOF?
    {
      assert ScannedAt(words, src, raws[j]);
      NoEof(words, src, raws[j]);
      DecideKeeps(raws, j);
    }
  }

  lemma NoEof(words: map<string, Kind>, src: string, t: SourceToken)
    requires Keywords(words) && ScannedAt(words, src, t)
    ensures !t.kind.EOF?
  {
    hide Scan, Keywords;
    assert src[t.pos..][0] == src[t.pos];
  }

  lemma DecideKeeps(toks: seq<SourceToken>, j: nat)
    requires j < |toks|
    ensures Decide(toks, j) == toks[j].kind || (Decide(toks, j).ID? && IsWindowWord(toks[j].kind))
  {
  }

  /** ParseExpr(src): the text's tokens, parsed as one expression. */
  ghost function ParseText(words: map<string, Kind>, src: string, room: nat): Outcome<Expr>
    requires Keywords(words)
  {
    LexedInput(words, src);
    ParseWhole(InputOf(words, src).From(0), room)
  }

  /** A whole text is accepted only up to its end, with nothing deferred. */
  lemma {:induction false} AcceptedEnds(words: map<string, Kind>, src: string, room: nat)
    requires Keywords(words) && ParseText(words, src, room).Ok?
    ensures ParseText(words, src, room).state == C.At(End)
  {
    hide ParseExpr, Reads, Canon, Spine, Need, Follows, Input.From, Tokens;
    LexedInput(words, src);
    var input := InputOf(words, src);
    var ts := input.From(0);
    var o := ParseExpr(C.At(ts), room, LOWEST);
    Image.ExprImage(C.At(ts), room, LOWEST);
    var b := Spans.ReadsSlice(input, o.value, 0);
    FromEnds(input, b);
  }

  lemma FromEnds(input: Input, b: nat)
    requires input.WellFormed() && b < |input.toks|
    ensures Cur(input.From(b)).EOF? ==> input.From(b) == End
  {
  }

  /** The kinds of `toks` are those the items' texts are scanned as. */
  ghost predicate KindsOf(words: map<string, Kind>, toks: seq<SourceToken>, items: Items)
    decreases items
  {
    match items
    case Stop => toks == []
    case Then(item, rest) => toks != [] && toks[0].kind == RawKind(words, item) && KindsOf(words, toks[1..], rest)
  }

  /** A token of the text that an item was read from: the item's own text is one token of the
      kind this one was scanned as. */
  lemma {:induction false} ItemOwn(words: map<string, Kind>, src: string, t: SourceToken, kind: Kind, item: Item)
    requires Speaks(words) && ScannedAt(words, src, t) && IsLegal(item)
    requires kind == t.kind || (kind.ID? && IsWindowWord(t.kind))
    requires Matches(item, Lexeme(kind, src[t.pos..t.end]))
    ensures Own(words, item) && RawKind(words, item) == t.kind
  {
    hide Scan, EndOf, Keywords;
    if item.Fixed? {
      FixedOwn(words, item);
    } else {
      var text := src[t.pos..t.end];
      assert src[t.pos..][..|text|] == text == text[..|text|];
      assert src[t.pos..][0] == src[t.pos];
      ScanLocal(words, src[t.pos..], text);
    }
  }

  /** The items of a tree read from the tokens from `j` on are tokens by their own texts, of the
      kinds scanned there. */
  lemma {:induction false} ItemsOwn(words: map<string, Kind>, src: string, j: nat, items: Items)
    requires Speaks(words) && Linked(items) && j <= |Raws(words, src)|
    requires InputOf(words, src).WellFormed() && |InputOf(words, src).toks| == |Raws(words, src)| + 1
    requires ReadAll(items, InputOf(words, src).From(j)) == To(End)
    ensures AllOwn(words, items) && KindsOf(words, Raws(words, src)[j..], items)
    decreases items
  {
    hide Scan, EndOf, Own, RawKind, Decide, Raws, Keywords, Matches, Joins, IsLegal, Tokens;
    var input := InputOf(words, src);
    var raws := Raws(words, src);
    if items.Then? {
      TokenAt(words, src, j);
      ItemOwn(words, src, raws[j], input.toks[j].kind, items.item);
      ItemsOwn(words, src, j + 1, items.rest);
      assert raws[j..][1..] == raws[j + 1..];
    }
  }

  /** The parser's token `j` is the scanned one but for a resolved kind. */
  lemma {:induction false} TokenAt(words: map<string, Kind>, src: string, j: nat)
    requires InputOf(words, src).WellFormed() && |InputOf(words, src).toks| == |Raws(words, src)| + 1
    requires j <= |Raws(words, src)|
    ensures var input := InputOf(words, src);
            var raws := Raws(words, src);
            if j == |raws| then input.From(j) == End
            else
              && ScannedAt(words, src, raws[j])
              && input.From(j) == Cons(Lexeme(input.toks[j].kind, src[raws[j].pos..raws[j].end]), input.From(j + 1))
              && (input.toks[j].kind == raws[j].kind || (input.toks[j].kind.ID? && IsWindowWord(raws[j].kind)))
              && input.toks[j].kind == Decide(raws, j)
  {
    hide Scan, Kept, RawLex, Decide;
    KeptScanned(words, src, 0);
    if j < |Raws(words, src)| {
      DecideKeeps(Raws(words, src), j);
    }
  }

  /** Two token lists that spell the same items by their kinds have the same kinds. */
  lemma {:induction false} SameKinds(words: map<string, Kind>, src: string, a: seq<SourceToken>, b: seq<SourceToken>, items: Items)
    requires KindsOf(words, a, items) && Spells(words, src, b, items)
    ensures |a| == |b| && forall j :: 0 <= j < |a| ==> a[j].kind == b[j].kind
    decreases items
  {
    hide RawKind;
    if items.Then? {
      SameKinds(words, src, a[1..], b[1..], items.rest);
      forall j | 0 <= j < |a|
        ensures a[j].kind == b[j].kind
      {
        assert j > 0 ==> a[j] == a[1..][j - 1] && b[j] == b[1..][j - 1];
      }
    }
  }

  /** The items are read from the rendered text as they were from the source. */
  lemma {:induction false} Rematch(words: map<string, Kind>, src: string, src2: string, j: nat, items: Items)
    requires InputOf(words, src).WellFormed() && |InputOf(words, src).toks| == |Raws(words, src)| + 1
    requires InputOf(words, src2).WellFormed() && |InputOf(words, src2).toks| == |Raws(words, src2)| + 1
    requires |Raws(words, src)| == |Raws(words, src2)| && j <= |Raws(words, src)|
    requires forall l :: 0 <= l < |Raws(words, src)| ==> Decide(Raws(words, src), l) == Decide(Raws(words, src2), l)
    requires ReadAll(items, InputOf(words, src).From(j)) == To(End)
    requires Spells(words, src2, Raws(words, src2)[j..], items)
    ensures ReadAll(items, InputOf(words, src2).From(j)) == To(End)
    decreases items
  {
    hide RawKind, Decide, Raws, Tokens, Scan, Input.From, Input.WellFormed;
    TokenAt(words, src, j);
    TokenAt(words, src2, j);
    var raws := Raws(words, src2);
    if items.Then? {
      assert raws[j..][1..] == raws[j + 1..] && raws[j..][0] == raws[j];
      Rematch(words, src, src2, j + 1, items.rest);
    } else {
      assert |raws[j..]| == |raws| - j;
    }
  }

  lemma KnowsKeywords(words: map<string, Kind>)
    requires Speaks(words)
    ensures Keywords(words)
  {
  }

  /** The tree parsed from a text is canonical, and its items are read from the text's tokens. */
  lemma {:induction false} ParsedItems(words: map<string, Kind>, src: string, room: nat, e: Expr)
    requires Keywords(words) && ParseText(words, src, room) == Ok(e, C.At(End))
    ensures Canon(e) && Need(e) <= room
    ensures InputOf(words, src).WellFormed() && |InputOf(words, src).toks| == |Raws(words, src)| + 1
    ensures ReadAll(ExprItems(e, Stop), InputOf(words, src).From(0)) == To(End)
  {
    hide ParseWhole, Reads, Canon, Need, Raws, Tokens, ExprItems, ReadAll, Input.WellFormed, Input.From;
    LexedInput(words, src);
    var ts := InputOf(words, src).From(0);
    WholeCharacterized(ts, room, e);
    ItemsRead(e, Stop, ts);
    StopBinds(Reads(e, ts));
  }

  /** What the renderer writes for a tree parsed from a text is scanned as the tree's items, one
      token each: nothing is merged, split or lost in a comment. */
  lemma {:induction false} SpacingIsSafe(words: map<string, Kind>, src: string, room: nat, e: Expr)
    requires Speaks(words) && ParseText(words, src, room) == Ok(e, C.At(End))
    ensures Spells(words, RenderText(e), Raws(words, RenderText(e)), ExprItems(e, Stop))
    ensures KindsOf(words, Raws(words, src), ExprItems(e, Stop))
  {
    hide Speaks, ParseText, Canon, Need, Linked, AllOwn, Raws, Tokens, ExprItems, ReadAll, Renderer.Render, Input.WellFormed, Input.From, RawLex, Kept;
    KnowsKeywords(words);
    var items, text := ExprItems(e, Stop), RenderText(e);
    ParsedItems(words, src, room, e);
    StopFollows();
    ExprLinked(e, Stop);
    ItemsOwn(words, src, 0, items);
    assert Raws(words, src)[0..] == Raws(words, src);
    RenderSpaced(words, "", items);
    assert text[0..] == text == Spaced(' ', items);
    SpacedScans(words, text, 0, ' ', items);
    RawsAre(words, text);
  }

  lemma RawsAre(words: map<string, Kind>, src: string)
    ensures Raws(words, src) == Kept(RawLex(words, src, 0))
  {
  }

  /** The text round trip. */
  lemma {:induction false} TextRoundTrip(words: map<string, Kind>, src: string, room: nat, e: Expr)
    requires Speaks(words) && ParseText(words, src, room) == Ok(e, C.At(End))
    ensures ParseText(words, RenderText(e), room) == Ok(e, C.At(End))
  {
    hide Speaks, ParseWhole, RawLex, Kept, Reads, Canon, Need, Raws, Tokens, ExprItems, ReadAll, RenderText, Input.WellFormed, Input.From, Spells, KindsOf, Decide;
    var text, items := RenderText(e), ExprItems(e, Stop);
    KnowsKeywords(words);
    SpacingIsSafe(words, src, room, e);
    ParsedItems(words, src, room, e);
    LexedInput(words, text);
    var a, b := Raws(words, src), Raws(words, text);
    SameKinds(words, text, a, b, items);
    DecidedAlike(a, b);
    assert b[0..] == b;
    Rematch(words, src, text, 0, items);
    ItemsRead(e, Stop, InputOf(words, text).From(0));
    StopBinds(Reads(e, InputOf(words, text).From(0)));
    WholeCharacterized(InputOf(words, text).From(0), room, e);
  }

  lemma DecidedAlike(a: seq<SourceToken>, b: seq<SourceToken>)
    requires |a| == |b| && forall j :: 0 <= j < |a| ==> a[j].kind == b[j].kind
    ensures forall j :: 0 <= j < |a| ==> Decide(a, j) == Decide(b, j)
  {
    hide Decide;
    ResolveByKinds(a, b);
    forall j | 0 <= j < |a|
      ensures Decide(a, j) == Decide(b, j)
    {
      assert Resolve(a)[j].kind == Resolve(b)[j].kind;
    }
  }

  /** Rendering is therefore idempotent: the rendered text renders to itself. */
  lemma {:induction false} RenderIdempotent(words: map<string, Kind>, src: string, room: nat, e: Expr, e2: Expr)
    requires Speaks(words) && ParseText(words, src, room) == Ok(e, C.At(End))
    requires ParseText(words, RenderText(e), room) == Ok(e2, C.At(End))
    ensures RenderText(e2) == RenderText(e)
  {
    hide ParseText, RenderText;
    TextRoundTrip(words, src, room, e);
  }

  /** The renderer's promise: whatever text is accepted, the text rendered from its tree is
      accepted too, as the same tree. */
  lemma {:induction false} RenderedParses(words: map<string, Kind>, src: string, room: nat)
    requires Speaks(words) && ParseText(words, src, room).Ok?
    ensures ParseText(words, RenderText(ParseText(words, src, room).value), room) == ParseText(words, src, room)
  {
    hide ParseText, RenderText, Speaks;
    KnowsKeywords(words);
    AcceptedEnds(words, src, room);
    TextRoundTrip(words, src, room, ParseText(words, src, room).value);
  }
}
