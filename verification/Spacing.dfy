/** The renderer's spacing is safe: what it writes is scanned as the tokens it wrote. */
module Spacing {
  import opened Token
  import opened Emission
  import opened Links
  import opened Renderer
  import opened Scanner
  import opened Chars
  import opened Locality
  import opened Windows
  import opened Lexing

  /** A keyword map that knows the renderer's words. */
  ghost predicate Speaks(words: map<string, Kind>) {
    && Keywords(words)
    && forall k :: HasSpelling(k) && IsKeyword(k) ==> Spelling(k) in words && words[Spelling(k)] == k
  }

  predicate IsContentKind(k: Kind) { !k.ILLEGAL? && !k.SPACE? && !k.COMMENT? && !k.EOF? }

  /** The kind the text of an item is scanned as. */
  function RawKind(words: map<string, Kind>, item: Item): Kind {
    if ItemText(item) == "" then EOF else Scan(words, ItemText(item)).kind
  }

  /** The item's text is one token, of its kind; a name may be spelled like a window word. */
  ghost predicate Own(words: map<string, Kind>, item: Item) {
    var text := ItemText(item);
    && text != "" && text[0] != NUL
    && Scan(words, text).n == |text| && IsContentKind(RawKind(words, item))
    && match item
       case Content(t, _) => RawKind(words, item) == t.kind || (t.kind.ID? && IsWindowWord(RawKind(words, item)))
       case Fixed(k, _, _) => RawKind(words, item) == k
  }

  ghost predicate AllOwn(words: map<string, Kind>, items: Items) {
    items.Then? ==> Own(words, items.item) && AllOwn(words, items.rest)
  }

  predicate AllCaps(w: string) {
    w == "" || ('A' <= w[0] <= 'Z' && AllCaps(w[1..]))
  }

  lemma {:induction false} CapsRun(w: string, n: nat)
    requires n <= EndOf(w) && EndOf(w) == |w| && AllCaps(w[n..])
    ensures Run(KeywordChars, w, n) == |w|
    decreases |w| - n
  {
    if n < |w| {
      assert w[n..][0] == w[n] && w[n..][1..] == w[n + 1..];
      CapsRun(w, n + 1);
    }
  }

  lemma {:induction false} CapsAt(w: string, j: nat)
    requires AllCaps(w) && j < |w|
    ensures 'A' <= w[j] <= 'Z'
  {
    if j > 0 {
      CapsAt(w[1..], j - 1);
    }
  }

  lemma {:induction false} WordScan(words: map<string, Kind>, w: string)
    requires |w| >= 2 && AllCaps(w) && w[0] != 'X' && w in words
    ensures Scan(words, w) == Scanned(words[w], |w|)
  {
    hide Run, EndOf, AllCaps;
    forall j | 0 <= j < |w|
      ensures 'A' <= w[j] <= 'Z'
    {
      CapsAt(w, j);
    }
    FirstNul(w, |w|);
    CapsTail(w);
    CapsRun(w, 2);
    assert UpperCase(w) == w && w[..|w|] == w;
  }

  lemma CapsTail(w: string)
    requires |w| >= 2 && AllCaps(w)
    ensures AllCaps(w[2..])
  {
    assert w[1..][1..] == w[2..];
  }

  lemma SpellingCaps(k: Kind)
    requires IsKeyword(k) && HasSpelling(k)
    ensures |Spelling(k)| >= 2 && AllCaps(Spelling(k)) && Spelling(k)[0] != 'X'
  {
    CapsByLetter(Spelling(k));
  }

  lemma {:induction false} CapsByLetter(w: string)
    requires forall j :: 0 <= j < |w| ==> 'A' <= w[j] <= 'Z'
    ensures AllCaps(w)
  {
    if w != "" {
      CapsByLetter(w[1..]);
    }
  }

  /** Every word and mark of the renderer's own is scanned as what it stands for. */
  lemma {:induction false} FixedOwn(words: map<string, Kind>, item: Item)
    requires Speaks(words) && item.Fixed? && IsLegal(item)
    ensures Own(words, item)
  {
    hide Scan, EndOf;
    if IsKeyword(item.kind) {
      SpellingCaps(item.kind);
      WordScan(words, item.text);
    } else {
      MarkOwn(words, item);
    }
  }

  lemma {:induction false} MarkOwn(words: map<string, Kind>, item: Item)
    requires item.Fixed? && IsLegal(item) && !IsKeyword(item.kind)
    ensures Own(words, item)
  {
    hide Run, EndOf, ScanNumber, ScanWord, ScanQuoted, ScanBlob, ScanBracketed, VariableFrom, BlockEnd;
  }

  /** No token but a space, a comment or a bracket ends in what `kw` looks for. */
  predicate EndsPlain(z: string, n: nat) { 0 < n <= |z| && z[n - 1] != ' ' && z[n - 1] != '(' }

  lemma {:induction false} RunEnds(cls: Class, z: string, n: nat)
    requires 0 < n <= EndOf(z) && EndsPlain(z, n)
    requires !cls.Spaces? && !cls.LineRest? && !cls.BracketRest? && !cls.BlobRest? && !cls.ArgumentRest?
    ensures EndsPlain(z, Run(cls, z, n))
    decreases EndOf(z) - n
  {
    if InClass(cls, At(z, n)) {
      RunEnds(cls, z, n + 1);
    }
  }

  lemma {:induction false} VariableEnds(z: string, n: nat, named: bool)
    requires 0 < n <= EndOf(z) && EndsPlain(z, n) && VariableFrom(z, n, named).kind.VARIABLE?
    ensures EndsPlain(z, VariableFrom(z, n, named).n)
    decreases EndOf(z) - n
  {
    var c := At(z, n);
    if IsIdChar(c) {
      VariableEnds(z, n + 1, true);
    } else if c == '(' && named {
    } else if c == ':' && At(z, n + 1) == ':' {
      VariableEnds(z, n + 2, named);
    }
  }

  lemma {:induction false} NumberEnds(z: string)
    requires IsDigit(At(z, 0)) || (At(z, 0) == '.' && IsDigit(At(z, 1)))
    ensures EndsPlain(z, ScanNumber(z).n)
  {
    hide Run, EndOf, Separated;
    if HexNumber(z) {
      RunEnds(HexAndSeparators, z, 3);
      RunEnds(IdChars, z, HexBody(z).n);
    } else {
      var s1 := Whole(z);
      var s2 := WithFraction(z, s1);
      if s1.n > 0 {
        FirstRuns(DigitsAndSeparators, z);
      }
      if At(z, s1.n) == '.' {
        RunEnds(DigitsAndSeparators, z, s1.n + 1);
      }
      assert EndsPlain(z, s2.n);
      if ExponentAt(z, s2.n) {
        RunEnds(DigitsAndSeparators, z, s2.n + 2);
      }
      RunEnds(IdChars, z, DecimalBody(z).n);
    }
  }

  lemma FirstRuns(cls: Class, z: string)
    requires cls.DigitsAndSeparators? && Run(cls, z, 0) > 0
    ensures EndsPlain(z, Run(cls, z, 0))
  {
    if InClass(cls, At(z, 0)) {
      RunEnds(cls, z, 1);
    }
  }

  lemma {:induction false} ScanEnds(words: map<string, Kind>, z: string)
    requires |z| > 0 && IsContentKind(Scan(words, z).kind) && !Scan(words, z).kind.LP?
    ensures EndsPlain(z, Scan(words, z).n)
  {
    hide Run, EndOf, ScanNumber, VariableFrom, QuoteEnd, ScanWord;
    var c := z[0];
    if c == NUL || IsSpaceStart(c) || c == '-' || c == '/' || IsQuote(c) || c == '[' {
    } else if c == '.' || IsDigit(c) {
      if IsDigit(At(z, 0)) || IsDigit(At(z, 1)) {
        NumberEnds(z);
      }
    } else if c == '?' {
      RunEnds(Digits, z, 1);
    } else if c == '$' || c == '@' || c == '#' || c == ':' {
      VariableEnds(z, 1, false);
    } else if (c == 'x' || c == 'X') && At(z, 1) == '\'' {
    } else if IsKeywordStart(c) {
      WordEnds(words, z);
    } else if IsIdChar(c) {
      RunEnds(IdChars, z, 1);
    }
  }

  lemma {:induction false} WordEnds(words: map<string, Kind>, z: string)
    requires |z| > 0 && IsKeywordStart(z[0])
    ensures EndsPlain(z, ScanWord(words, z).n)
  {
    hide Run, EndOf;
    if IsKeywordChar(At(z, 1)) {
      RunEnds(KeywordChars, z, 2);
      var n := Run(KeywordChars, z, 2);
      if IsIdChar(At(z, n)) {
        RunEnds(IdChars, z, n + 1);
      }
    } else {
      RunEnds(IdChars, z, 1);
    }
  }

  /** The space written before an item, if any. */
  function Gap(last: char, item: Item): string {
    if item.glued || last == ' ' || last == '(' then "" else " "
  }

  /** What writing `items` adds to a text that ends in `last`. */
  function Spaced(last: char, items: Items): string
    decreases items
  {
    match items
    case Stop => ""
    case Then(item, rest) => Gap(last, item) + ItemText(item) + Spaced(Last(ItemText(item)), rest)
  }

  lemma {:induction false} RenderSpaced(words: map<string, Kind>, buf: string, items: Items)
    requires AllOwn(words, items)
    ensures Render(buf, items) == buf + Spaced(Last(buf), items)
    decreases items
  {
    hide Own;
    match items {
      case Stop =>
      case Then(item, rest) =>
        var text := ItemText(item);
        OwnText(words, item);
        var next := AddItem(buf, item);
        assert next == buf + Gap(Last(buf), item) + text;
        assert Last(next) == Last(text);
        RenderSpaced(words, next, rest);
    }
  }

  lemma OwnText(words: map<string, Kind>, item: Item)
    requires Own(words, item)
    ensures ItemText(item) != ""
  {
  }

  /** When no space is written between two items, the second may follow the first. */
  lemma {:induction false} Apart(words: map<string, Kind>, a: Item, b: Item)
    requires Keywords(words) && Own(words, a) && Own(words, b) && IsLegal(a) && IsLegal(b) && Joins(a, b)
    requires Gap(Last(ItemText(a)), b) == ""
    ensures MayFollow(RawKind(words, a), ItemText(b)[0])
  {
    hide Scan;
    if !b.glued {
      if !RawKind(words, a).LP? {
        ScanEnds(words, ItemText(a));
      }
    } else if b.Content? {
      NameStart(words, b);
    } else if IsNameItem(a) {
      NameKind(words, a);
    }
  }

  lemma NameKind(words: map<string, Kind>, a: Item)
    requires Own(words, a) && IsNameItem(a)
    ensures RawKind(words, a).ID? || RawKind(words, a).STRING? || IsKeyword(RawKind(words, a))
  {
    hide Scan;
  }

  /** A name does not begin with a digit. */
  lemma NameStart(words: map<string, Kind>, b: Item)
    requires Own(words, b) && IsNameItem(b)
    ensures !IsDigit(ItemText(b)[0])
  {
    hide Run, EndOf, HexBody, DecimalBody;
    NameKind(words, b);
  }

  /** The tokens `toks` of `src` have the texts of `items`, and the kinds these are scanned as. */
  ghost predicate Spells(words: map<string, Kind>, src: string, toks: seq<SourceToken>, items: Items)
    decreases items
  {
    match items
    case Stop => toks == []
    case Then(item, rest) =>
      && toks != []
      && toks[0].pos <= toks[0].end <= |src| && src[toks[0].pos..toks[0].end] == ItemText(item)
      && toks[0].kind == RawKind(words, item)
      && Spells(words, src, toks[1..], rest)
  }

  /** An item's text at byte `i`, followed by something that may follow it, is one token. */
  lemma {:induction false} ItemScans(words: map<string, Kind>, src: string, i: nat, item: Item)
    requires Keywords(words) && Own(words, item)
    requires i + |ItemText(item)| <= |src| && src[i..i + |ItemText(item)|] == ItemText(item)
    requires MayFollow(RawKind(words, item), At(src, i + |ItemText(item)|))
    ensures ItemText(item) != "" && i < |src| && src[i] != NUL
    ensures Scan(words, src[i..]) == Scanned(RawKind(words, item), |ItemText(item)|)
  {
    hide Scan, EndOf;
    var text := ItemText(item);
    assert src[i..][..|text|] == text == text[..|text|];
    assert At(src[i..], |text|) == At(src, i + |text|);
    ScanLocal(words, text, src[i..]);
  }

  lemma {:induction false} SpaceScans(words: map<string, Kind>, src: string, i: nat)
    requires i < |src| && src[i] == ' ' && !IsSpace(At(src, i + 1))
    ensures Scan(words, src[i..]) == Scanned(SPACE, 1)
  {
    assert At(src[i..], 1) == At(src, i + 1);
  }

  lemma {:induction false} ItemStart(words: map<string, Kind>, item: Item)
    requires Own(words, item)
    ensures ItemText(item) != "" && !IsSpace(ItemText(item)[0])
  {
    hide Run, EndOf;
  }

  /** The space before an item is skipped. */
  lemma {:induction false} GapSkipped(words: map<string, Kind>, src: string, i: nat, gap: string, item: Item, tail: string)
    requires Own(words, item) && (gap == "" || gap == " ")
    requires i <= |src| && src[i..] == gap + (ItemText(item) + tail)
    ensures i + |gap| <= |src| && src[i + |gap|..] == ItemText(item) + tail
    ensures Kept(RawLex(words, src, i)) == Kept(RawLex(words, src, i + |gap|))
  {
    hide Own, Kept, RawLex, Scan;
    CutText(src, i, gap, ItemText(item) + tail);
    ItemStart(words, item);
    if gap == " " {
      assert src[i] == src[i..][0];
      assert src[i + 1] == src[i + 1..][0] == ItemText(item)[0];
      SpaceScans(words, src, i);
      SpaceSkipped(words, src, i);
    }
  }

  /** The item itself is one token. */
  lemma {:induction false} ItemKept(words: map<string, Kind>, src: string, k: nat, item: Item, tail: string)
    requires Keywords(words) && Own(words, item) && k <= |src| && src[k..] == ItemText(item) + tail
    requires MayFollow(RawKind(words, item), At(tail, 0))
    ensures var m := k + |ItemText(item)|;
            && m <= |src| && src[m..] == tail && src[k..m] == ItemText(item)
            && Kept(RawLex(words, src, k)) == [SourceToken(RawKind(words, item), k, m)] + Kept(RawLex(words, src, m))
  {
    hide Own, Kept, RawLex, Scan, RawKind;
    var m := k + |ItemText(item)|;
    CutText(src, k, ItemText(item), tail);
    if m < |src| {
      assert src[m] == src[m..][0];
    }
    ItemScans(words, src, k, item);
    OneKept(words, src, k, item);
  }

  /** Scanning what the renderer writes gives back the items, one token each. */
  lemma {:induction false} SpacedScans(words: map<string, Kind>, src: string, i: nat, last: char, items: Items)
    requires Keywords(words) && AllOwn(words, items) && Linked(items)
    requires i <= |src| && src[i..] == Spaced(last, items)
    ensures Spells(words, src, Kept(RawLex(words, src, i)), items)
    decreases items
  {
    hide Own, Joins, RawKind, Kept, RawLex, MayFollow, Gap, IsLegal;
    match items {
      case Stop => NothingKept(words, src, i);
      case Then(item, rest) =>
        var text := ItemText(item);
        var gap := Gap(last, item);
        var tail := Spaced(Last(text), rest);
        assert gap + text + tail == gap + (text + tail);
        assert gap == "" || gap == " " by { GapIsSpace(last, item); }
        GapSkipped(words, src, i, gap, item, tail);
        Boundary(words, item, rest);
        ItemKept(words, src, i + |gap|, item, tail);
        SpacedScans(words, src, i + |gap| + |text|, Last(text), rest);
    }
  }

  lemma GapIsSpace(last: char, item: Item)
    ensures Gap(last, item) == "" || Gap(last, item) == " "
  {
  }

  lemma NothingKept(words: map<string, Kind>, src: string, i: nat)
    requires i <= |src| && src[i..] == ""
    ensures Kept(RawLex(words, src, i)) == []
  {
  }

  lemma CutText(src: string, i: nat, a: string, b: string)
    requires i <= |src| && src[i..] == a + b
    ensures i + |a| <= |src| && src[i..i + |a|] == a && src[i + |a|..] == b
  {
    assert src[i..i + |a|] == src[i..][..|a|];
    assert src[i + |a|..] == src[i..][|a|..];
  }

  /** What comes after an item may follow it. */
  lemma {:induction false} Boundary(words: map<string, Kind>, item: Item, rest: Items)
    requires Keywords(words) && AllOwn(words, Then(item, rest)) && Linked(Then(item, rest))
    ensures MayFollow(RawKind(words, item), At(Spaced(Last(ItemText(item)), rest), 0))
  {
    hide Scan, Own, Joins, RawKind;
    if rest.Then? {
      var gap := Gap(Last(ItemText(item)), rest.item);
      ItemStart(words, rest.item);
      if gap == "" {
        Apart(words, item, rest.item);
        assert (ItemText(rest.item) + Spaced(Last(ItemText(rest.item)), rest.rest))[0] == ItemText(rest.item)[0];
      }
    }
  }

  lemma SpaceSkipped(words: map<string, Kind>, src: string, i: nat)
    requires i < |src| && src[i] != NUL && Scan(words, src[i..]) == Scanned(SPACE, 1)
    ensures Kept(RawLex(words, src, i)) == Kept(RawLex(words, src, i + 1))
  {
    hide Scan;
    var raws := RawLex(words, src, i);
    assert raws[1..] == RawLex(words, src, i + 1);
  }

  lemma OneKept(words: map<string, Kind>, src: string, k: nat, item: Item)
    requires Own(words, item) && k < |src| && src[k] != NUL
    requires Scan(words, src[k..]) == Scanned(RawKind(words, item), |ItemText(item)|) && k + |ItemText(item)| <= |src|
    ensures Kept(RawLex(words, src, k)) ==
            [SourceToken(RawKind(words, item), k, k + |ItemText(item)|)] + Kept(RawLex(words, src, k + |ItemText(item)|))
  {
    hide Scan;
    var raws := RawLex(words, src, k);
    assert raws[1..] == RawLex(words, src, k + |ItemText(item)|);
  }
}
