/** The rendered text as a reader would describe it: the words of the tree with one space between
    two of them, but none before a mark and none after an opening bracket. */
module Rendered {
  import opened Token
  import opened Ast
  import opened Emission
  import opened Reference
  import opened Renderer
  import opened Scanner
  import opened Spacing
  import opened RoundTrip
  import opened Links
  import opened Engine
  import Completeness
  import Lexing
  import Layout
  import Canonical

  /** The text of `ws` after `prev`. */
  function Following(prev: Item, ws: seq<Item>): string
    decreases |ws|
  {
    if ws == [] then ""
    else (if ws[0].glued || ItemText(prev) == "(" then "" else " ") + ItemText(ws[0]) + Following(ws[0], ws[1..])
  }

  function TextOf(ws: seq<Item>): string { if ws == [] then "" else ItemText(ws[0]) + Following(ws[0], ws[1..]) }

  /** Not empty, with no space at its end, and no opening bracket but the one that is all of it. */
  predicate IsSolid(item: Item) {
    var text := ItemText(item);
    text != "" && text[|text| - 1] != ' ' && (text[|text| - 1] == '(' ==> text == "(")
  }

  lemma {:induction false} RenderFollowing(buf: string, prev: Item, ws: seq<Item>)
    requires IsSolid(prev) && buf != "" && buf[|buf| - 1] == ItemText(prev)[|ItemText(prev)| - 1]
    requires forall j :: 0 <= j < |ws| ==> IsSolid(ws[j])
    ensures Render(buf, Put(ws, Stop)) == buf + Following(prev, ws)
    decreases |ws|
  {
    hide ItemText;
    if ws != [] {
      var next := AddItem(buf, ws[0]);
      var gap := if ws[0].glued || ItemText(prev) == "(" then "" else " ";
      assert next == buf + gap + ItemText(ws[0]);
      RenderFollowing(next, ws[0], ws[1..]);
      assert buf + gap + ItemText(ws[0]) + Following(ws[0], ws[1..]) == buf + (gap + ItemText(ws[0]) + Following(ws[0], ws[1..]));
    }
  }

  lemma {:induction false} RenderWords(ws: seq<Item>)
    requires forall j :: 0 <= j < |ws| ==> IsSolid(ws[j])
    ensures Render("", Put(ws, Stop)) == TextOf(ws)
  {
    hide ItemText;
    if ws != [] {
      assert AddItem("", ws[0]) == ItemText(ws[0]);
      RenderFollowing(ItemText(ws[0]), ws[0], ws[1..]);
    }
  }

  /** Only an opening bracket is scanned as one. */
  lemma BracketAlone(words: map<string, Kind>, z: string)
    requires Keywords(words) && |z| > 0 && Scan(words, z).kind.LP?
    ensures z[0] == '(' && Scan(words, z).n == 1
  {
    hide Run, EndOf, HexBody, DecimalBody, VariableFrom, QuoteEnd, BlockEnd;
  }

  lemma {:induction false} OwnSolid(words: map<string, Kind>, item: Item)
    requires Keywords(words) && Own(words, item)
    ensures IsSolid(item)
  {
    hide Scan, EndOf;
    var text := ItemText(item);
    if Scan(words, text).kind.LP? {
      BracketAlone(words, text);
      assert text == "(";
    } else {
      ScanEnds(words, text);
    }
  }

  lemma {:induction false} AllSolid(words: map<string, Kind>, ws: seq<Item>)
    requires Keywords(words) && AllOwn(words, Put(ws, Stop))
    ensures forall j :: 0 <= j < |ws| ==> IsSolid(ws[j])
  {
    hide Own, IsSolid;
    if ws != [] {
      OwnSolid(words, ws[0]);
      AllSolid(words, ws[1..]);
    }
  }

  /** The text rendered for an accepted tree is its words with single spaces between them, but
      none before a mark and none after an opening bracket. */
  lemma {:induction false} RenderedAsWords(words: map<string, Kind>, src: string, room: nat, e: Expr)
    requires Speaks(words) && ParseText(words, src, room) == Ok(e, Completeness.At(End))
    ensures RenderText(e) == TextOf(Words(e))
  {
    hide Speaks, ParseText, Canonical.Canon, Canonical.Need, Linked, AllOwn, Raws, Lexing.Tokens, ExprItems, ReadAll, Renderer.Render, Layout.Input.WellFormed, Layout.Input.From, Words, TextOf, Put, IsSolid;
    KnowsKeywords(words);
    ParsedItems(words, src, room, e);
    StopFollows();
    ExprLinked(e, Stop);
    ItemsOwn(words, src, 0, ExprItems(e, Stop));
    WritesWords(e, Stop);
    AllSolid(words, Words(e));
    RenderWords(Words(e));
  }
}
