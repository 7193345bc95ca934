/** What a whole text is split into (lex in lexer/lexer.go), as functions of the text. */
module Lexing {
  import opened Token
  import opened Scanner
  import opened Windows
  import opened Locality

  predicate IsTrivia(k: Kind) { k.SPACE? || k.COMMENT? }

  /** Tokens and trivia from byte `i` on, as scanned. */
  function RawLex(words: map<string, Kind>, src: string, i: nat): (raws: seq<SourceToken>)
    requires i <= |src|
    decreases |src| - i
  {
    if i == |src| || src[i] == NUL then []
    else
      var s := Scan(words, src[i..]);
      [SourceToken(s.kind, i, i + s.n)] + RawLex(words, src, i + s.n)
  }

  function Kept(raws: seq<SourceToken>): seq<SourceToken> {
    if raws == [] then []
    else if IsTrivia(raws[0].kind) then Kept(raws[1..])
    else [raws[0]] + Kept(raws[1..])
  }

  function Trivia(raws: seq<SourceToken>): seq<SourceToken> {
    if raws == [] then []
    else if IsTrivia(raws[0].kind) then [raws[0]] + Trivia(raws[1..])
    else Trivia(raws[1..])
  }

  /** The tokens the parser is given. */
  function Tokens(words: map<string, Kind>, src: string): seq<SourceToken> {
    Resolve(Kept(RawLex(words, src, 0))) + [SourceToken(EOF, EndOf(src), EndOf(src))]
  }

  /** The stretches follow one another without gap or overlap, none empty, from `i` to `end`. */
  predicate Tiles(raws: seq<SourceToken>, i: nat, end: nat) {
    if raws == [] then i == end
    else raws[0].pos == i < raws[0].end && Tiles(raws[1..], raws[0].end, end)
  }

  lemma {:induction false} EndOfSuffix(src: string, i: nat)
    requires i <= EndOf(src)
    ensures EndOf(src[i..]) == EndOf(src) - i
    decreases EndOf(src) - i
  {
    FirstNul(src[i..], EndOf(src) - i);
  }

  /** Tokens and trivia cover exactly the text before its first NUL. */
  lemma {:induction false} RawTiles(words: map<string, Kind>, src: string, i: nat)
    requires i <= EndOf(src)
    ensures Tiles(RawLex(words, src, i), i, EndOf(src))
    decreases |src| - i
  {
    hide Scan, EndOf;
    EndOfSuffix(src, i);
    if i < |src| && src[i] != NUL {
      var s := Scan(words, src[i..]);
      RawTiles(words, src, i + s.n);
    }
  }

  function Texts(src: string, raws: seq<SourceToken>): string {
    if raws == [] then ""
    else if raws[0].pos <= raws[0].end <= |src| then src[raws[0].pos..raws[0].end] + Texts(src, raws[1..])
    else ""
  }

  /** The texts of a tiling, one after the other, are the text tiled. */
  lemma {:induction false} TilesSpell(src: string, raws: seq<SourceToken>, i: nat, end: nat)
    requires Tiles(raws, i, end) && end <= |src|
    ensures i <= end && Texts(src, raws) == src[i..end]
  {
    if raws != [] {
      TilesSpell(src, raws[1..], raws[0].end, end);
      assert src[i..raws[0].end] + src[raws[0].end..end] == src[i..end];
    }
  }

  /** A list is the merge of its tokens and its trivia: each is in exactly one of them, in order. */
  ghost predicate Merges(raws: seq<SourceToken>, kept: seq<SourceToken>, trivia: seq<SourceToken>) {
    if raws == [] then kept == [] && trivia == []
    else if IsTrivia(raws[0].kind) then trivia != [] && trivia[0] == raws[0] && Merges(raws[1..], kept, trivia[1..])
    else kept != [] && kept[0] == raws[0] && Merges(raws[1..], kept[1..], trivia)
  }

  lemma {:induction false} SplitMerges(raws: seq<SourceToken>)
    ensures Merges(raws, Kept(raws), Trivia(raws))
  {
    if raws != [] {
      SplitMerges(raws[1..]);
      assert Kept(raws) == (if IsTrivia(raws[0].kind) then [] else [raws[0]]) + Kept(raws[1..]);
      assert Trivia(raws) == (if IsTrivia(raws[0].kind) then [raws[0]] else []) + Trivia(raws[1..]);
    }
  }

  /** Lossless tiling: the tokens and the trivia, merged, spell the text up to its end. */
  lemma {:induction false} Lossless(words: map<string, Kind>, src: string)
    ensures var raws := RawLex(words, src, 0);
            && Merges(raws, Kept(raws), Trivia(raws))
            && Tiles(raws, 0, EndOf(src))
            && Texts(src, raws) == src[..EndOf(src)]
  {
    var raws := RawLex(words, src, 0);
    SplitMerges(raws);
    RawTiles(words, src, 0);
    TilesSpell(src, raws, 0, EndOf(src));
  }

  lemma {:induction false} RawCut(words: map<string, Kind>, src: string, i: nat)
    requires i <= EndOf(src)
    ensures i <= |Cut(src)| && RawLex(words, Cut(src), i) == RawLex(words, src, i)
    decreases |src| - i
  {
    hide Scan, EndOf;
    CutAt(src);
    EndOfSuffix(src, i);
    if i < EndOf(src) {
      var z := src[i..];
      assert z[0] == src[i] && Cut(src)[i] == src[i];
      ScanCut(words, z);
      assert Cut(src)[i..] == Cut(z);
      RawCut(words, src, i + Scan(words, z).n);
    }
  }

  /** A NUL is the end of the input: what follows it changes nothing, no token holds one, and
      EOF stands at the first. */
  lemma {:induction false} NulEndsInput(words: map<string, Kind>, src: string)
    ensures Tokens(words, src[..EndOf(src)]) == Tokens(words, src)
    ensures Trivia(RawLex(words, src[..EndOf(src)], 0)) == Trivia(RawLex(words, src, 0))
    ensures forall j :: 0 <= j < |Tokens(words, src)| ==>
              var t := Tokens(words, src)[j];
              t.pos <= t.end <= EndOf(src) && NUL !in src[t.pos..t.end]
  {
    hide RawLex, Kept, Tiles, EndOf;
    RawCut(words, src, 0);
    CutAt(src);
    RawTiles(words, src, 0);
    KeptOrdered(RawLex(words, src, 0), 0, EndOf(src));
  }

  /** The tokens of a tiling are non-empty, in order and within it. */
  lemma {:induction false} KeptOrdered(raws: seq<SourceToken>, i: nat, end: nat)
    requires Tiles(raws, i, end)
    ensures i <= end
    ensures forall j :: 0 <= j < |Kept(raws)| ==> i <= Kept(raws)[j].pos < Kept(raws)[j].end <= end && !IsTrivia(Kept(raws)[j].kind)
    ensures forall j, k :: 0 <= j < k < |Kept(raws)| ==> Kept(raws)[j].end <= Kept(raws)[k].pos
  {
    if raws != [] {
      KeptOrdered(raws[1..], raws[0].end, end);
    }
  }

  /** The trivia are the runs of blanks and the comments, and the tokens are everything else, each
      what scanning finds at its first byte. */
  lemma {:induction false} TriviaAreBlank(words: map<string, Kind>, src: string, i: nat)
    requires i <= EndOf(src)
    ensures forall t :: t in Trivia(RawLex(words, src, i)) ==> t.kind == SPACE || t.kind == COMMENT
    ensures forall t :: t in Kept(RawLex(words, src, i)) ==> t.kind != SPACE && t.kind != COMMENT
    ensures forall t :: t in Trivia(RawLex(words, src, i)) || t in Kept(RawLex(words, src, i)) ==>
              i <= t.pos < t.end <= |src| && Scan(words, src[t.pos..]) == Scanned(t.kind, t.end - t.pos)
    decreases |src| - i
  {
    hide Scan, EndOf;
    EndOfSuffix(src, i);
    if i < |src| && src[i] != NUL {
      TriviaAreBlank(words, src, i + Scan(words, src[i..]).n);
    }
  }
}
