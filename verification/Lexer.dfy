/** The tokenizer's loops (lexer/lexer.go), each proved to compute the rule of the same name in
    Scanner, and the pass over a whole text. */
module Lexer {
  import opened Token
  import opened Scanner
  import opened Chars
  import opened Keywords
  import opened Windows
  import opened Lexing

  /** cursor: the input and the offset of the token being scanned. */
  datatype Cursor = Cursor(src: string, i: nat) {
    /** The byte `off` past the token's start, or NUL past the end. */
    function Byte(off: nat): (c: char)
      requires i <= |src|
      ensures c == At(Rest(), off)
    {
      if i + off < |src| then src[i + off] else NUL
    }

    ghost function Rest(): string
      requires i <= |src|
    {
      src[i..]
    }
  }

  /** "for class(z.at(n)) { n++ }" */
  method Skip(cls: Class, z: Cursor, from: nat) returns (n: nat)
    requires z.i <= |z.src| && from <= EndOf(z.Rest())
    ensures n == Run(cls, z.Rest(), from)
  {
    n := from;
    while InClass(cls, z.Byte(n))
      invariant from <= n <= EndOf(z.Rest()) && Run(cls, z.Rest(), n) == Run(cls, z.Rest(), from)
      decreases EndOf(z.Rest()) - n
    {
      n := n + 1;
    }
  }

  /** The same for the digits of a number, of which a separator makes a QNUMBER. */
  method SkipDigits(cls: Class, z: Cursor, from: nat, was: Kind) returns (kind: Kind, n: nat)
    requires z.i <= |z.src| && from <= EndOf(z.Rest()) && (cls.DigitsAndSeparators? || cls.HexAndSeparators?)
    ensures n == Run(cls, z.Rest(), from) && kind == Separated(z.Rest(), from, n, was)
  {
    hide EndOf;
    kind, n := was, from;
    while true
      invariant from <= n <= EndOf(z.Rest()) && Run(cls, z.Rest(), n) == Run(cls, z.Rest(), from)
      invariant kind == if '_' in z.Rest()[from..n] then QNUMBER else was
      decreases EndOf(z.Rest()) - n
    {
      var c := z.Byte(n);
      if !(if cls.HexAndSeparators? then IsHex(c) else IsDigit(c)) {
        if c == '_' {
          kind := QNUMBER;
        } else {
          break;
        }
      }
      assert z.Rest()[from..n + 1] == z.Rest()[from..n] + [c];
      n := n + 1;
    }
  }

  /** scanNumber() */
  method ScanNumber(z: Cursor) returns (s: Scanned)
    requires z.i <= |z.src| && (IsDigit(z.Byte(0)) || (z.Byte(0) == '.' && IsDigit(z.Byte(1))))
    ensures s == Scanner.ScanNumber(z.Rest())
  {
    hide Run, EndOf, Separated, DecimalBody;
    var kind, n := INTEGER, 0;
    if z.Byte(0) == '0' && (z.Byte(1) == 'x' || z.Byte(1) == 'X') && IsHex(z.Byte(2)) {
      assert HexBody(z.Rest()).n <= EndOf(z.Rest());
      kind, n := SkipDigits(HexAndSeparators, z, 3, INTEGER);
    } else {
      kind, n := ScanDecimal(z);
    }
    var end := Skip(IdChars, z, n);
    return Scanned(if end > n then ILLEGAL else kind, end);
  }

  /** Its decimal numbers: whole part, fraction, exponent. */
  method ScanDecimal(z: Cursor) returns (kind: Kind, n: nat)
    requires z.i <= |z.src| && (IsDigit(z.Byte(0)) || (z.Byte(0) == '.' && IsDigit(z.Byte(1))))
    ensures Scanned(kind, n) == DecimalBody(z.Rest())
  {
    hide Run, EndOf, Separated;
    ghost var whole := Whole(z.Rest());
    kind, n := SkipDigits(DigitsAndSeparators, z, 0, INTEGER);
    if z.Byte(n) == '.' {
      if kind.INTEGER? {
        kind := FLOAT;
      }
      kind, n := SkipDigits(DigitsAndSeparators, z, n + 1, kind);
    }
    assert Scanned(kind, n) == WithFraction(z.Rest(), whole);
    if && (z.Byte(n) == 'e' || z.Byte(n) == 'E')
       && (IsDigit(z.Byte(n + 1)) || ((z.Byte(n + 1) == '+' || z.Byte(n + 1) == '-') && IsDigit(z.Byte(n + 2)))) {
      if kind.INTEGER? {
        kind := FLOAT;
      }
      kind, n := SkipDigits(DigitsAndSeparators, z, n + 2, kind);
    }
  }

  /** scanVariable(): `nid` counts the identifier characters. */
  method ScanVariable(z: Cursor) returns (s: Scanned)
    requires z.i < |z.src| && z.Byte(0) != NUL
    ensures s == VariableFrom(z.Rest(), 1, false)
  {
    var nid, n := 0, 1;
    while z.Byte(n) != NUL
      invariant 0 < n <= EndOf(z.Rest())
      invariant VariableFrom(z.Rest(), n, nid > 0) == VariableFrom(z.Rest(), 1, false)
      decreases EndOf(z.Rest()) - n
    {
      var c := z.Byte(n);
      if IsIdChar(c) {
        nid := nid + 1;
      } else if c == '(' && nid > 0 {
        n := Skip(ArgumentRest, z, n + 1);
        return if z.Byte(n) == ')' then Scanned(VARIABLE, n + 1) else Scanned(ILLEGAL, n);
      } else if c == ':' && z.Byte(n + 1) == ':' {
        n := n + 1;
      } else {
        return Scanned(if nid == 0 then ILLEGAL else VARIABLE, n);
      }
      n := n + 1;
    }
    return Scanned(if nid == 0 then ILLEGAL else VARIABLE, n);
  }

  method ScanQuoted(z: Cursor) returns (s: Scanned)
    requires z.i < |z.src| && IsQuote(z.Byte(0))
    ensures s == Scanner.ScanQuoted(z.Rest())
  {
    var delim := z.Byte(0);
    var n := 1;
    var last := NUL;
    while true
      invariant 0 < n <= EndOf(z.Rest()) && QuoteEnd(z.Rest(), n, delim) == QuoteEnd(z.Rest(), 1, delim)
      decreases EndOf(z.Rest()) - n
    {
      last := z.Byte(n);
      if last == NUL {
        break;
      }
      if last == delim {
        if z.Byte(n + 1) != delim {
          break;
        }
        n := n + 1;
      }
      n := n + 1;
    }
    if last == '\'' {
      return Scanned(STRING, n + 1);
    } else if last != NUL {
      return Scanned(ID, n + 1);
    }
    return Scanned(ILLEGAL, n);
  }

  method ScanSlash(z: Cursor) returns (s: Scanned)
    requires z.i < |z.src| && z.Byte(0) == '/'
    ensures s == Scanner.ScanSlash(z.Rest())
  {
    if z.Byte(1) != '*' || z.Byte(2) == NUL {
      return Scanned(SLASH, 1);
    }
    var n := 3;
    var prev := z.Byte(2);
    while !(prev == '*' && z.Byte(n) == '/')
      invariant 3 <= n <= EndOf(z.Rest()) && prev == z.Byte(n - 1)
      invariant BlockEnd(z.Rest(), n) == BlockEnd(z.Rest(), 3)
      decreases EndOf(z.Rest()) - n
    {
      prev := z.Byte(n);
      if prev == NUL {
        return Scanned(COMMENT, n);
      }
      n := n + 1;
    }
    return Scanned(COMMENT, n + 1);
  }

  method ScanBlob(z: Cursor) returns (s: Scanned)
    requires z.i < |z.src| && z.Byte(0) != NUL && z.Byte(1) == '\''
    ensures s == Scanner.ScanBlob(z.Rest())
  {
    var n := Skip(HexDigits, z, 2);
    var kind := BLOB;
    if z.Byte(n) != '\'' || n % 2 != 0 {
      kind := ILLEGAL;
      n := Skip(BlobRest, z, n);
    }
    if z.Byte(n) != NUL {
      n := n + 1;
    }
    return Scanned(kind, n);
  }

  method ScanWord(index: KeywordIndex, z: Cursor) returns (s: Scanned)
    requires index.Valid() && z.i < |z.src| && IsKeywordStart(z.Byte(0))
    ensures s == Scanner.ScanWord(index.words, z.Rest())
  {
    hide Run, EndOf, KeywordIndex.Valid, Scanner.Lookup;
    var n := 1;
    if !IsKeywordChar(z.Byte(1)) {
      n := Skip(IdChars, z, 1);
      return Scanned(ID, n);
    }
    n := Skip(KeywordChars, z, 2);
    if IsIdChar(z.Byte(n)) {
      n := Skip(IdChars, z, n + 1);
      return Scanned(ID, n);
    }
    assert z.src[z.i..z.i + n] == z.Rest()[..n];
    var kind := index.Lookup(z.src[z.i..z.i + n]);
    return Scanned(kind, n);
  }

  /** scan(): the token at the cursor. */
  method Scan(index: KeywordIndex, z: Cursor) returns (s: Scanned)
    requires index.Valid() && z.i < |z.src|
    ensures s == Scanner.Scan(index.words, z.Rest())
  {
    hide Run, EndOf, KeywordIndex.Valid, QuoteEnd, Scanner.ScanQuoted, Scanner.ScanBlob, Scanner.ScanWord, Scanner.ScanNumber, Scanner.ScanSlash, VariableFrom;
    assert z.Rest()[0] == z.Byte(0);
    var c := z.Byte(0);
    if c == NUL {
      s := Scanned(EOF, 0);
    } else if IsSpaceStart(c) {
      var n := Skip(Spaces, z, 1);
      s := Scanned(SPACE, n);
    } else if c == '-' {
      if z.Byte(1) == '-' {
        assert EndOf(z.Rest()) >= 2 by { Past(z.Rest()); }
        var n := Skip(LineRest, z, 2);
        s := Scanned(COMMENT, n);
      } else if z.Byte(1) == '>' {
        s := Scanned(PTR, if z.Byte(2) == '>' then 3 else 2);
      } else {
        s := Scanned(MINUS, 1);
      }
    } else if c == '/' {
      s := ScanSlash(z);
    } else if IsQuote(c) {
      s := ScanQuoted(z);
    } else if c == '.' {
      if !IsDigit(z.Byte(1)) {
        s := Scanned(DOT, 1);
      } else {
        s := ScanNumber(z);
      }
    } else if IsDigit(c) {
      s := ScanNumber(z);
    } else {
      s := ScanOther(index, z);
    }
  }

  lemma Past(z: string)
    requires At(z, 0) != NUL
    ensures EndOf(z) >= 1 && (At(z, 1) != NUL ==> EndOf(z) >= 2)
  {
  }

  /** The rest of scan(): brackets, parameters, words and symbols. */
  method ScanOther(index: KeywordIndex, z: Cursor) returns (s: Scanned)
    requires index.Valid() && z.i < |z.src| && z.Byte(0) != NUL && !IsSpaceStart(z.Byte(0))
    requires z.Byte(0) !in {'-', '/', '.'} && !IsQuote(z.Byte(0)) && !IsDigit(z.Byte(0))
    ensures s == Scanner.Scan(index.words, z.Rest())
  {
    hide Run, EndOf, KeywordIndex.Valid, Scanner.ScanBlob, Scanner.ScanWord, VariableFrom;
    assert z.Rest()[0] == z.Byte(0);
    Past(z.Rest());
    var c := z.Byte(0);
    if c == '[' {
      var n := Skip(BracketRest, z, 1);
      s := if z.Byte(n) == ']' then Scanned(ID, n + 1) else Scanned(ILLEGAL, n);
    } else if c == '?' {
      var n := Skip(Digits, z, 1);
      s := Scanned(VARIABLE, n);
    } else if c == '$' || c == '@' || c == '#' || c == ':' {
      s := ScanVariable(z);
    } else if (c == 'x' || c == 'X') && z.Byte(1) == '\'' {
      s := ScanBlob(z);
    } else if c as int == 0xef && z.Byte(1) as int == 0xbb && z.Byte(2) as int == 0xbf {
      s := Scanned(SPACE, 3);
    } else if IsKeywordStart(c) {
      s := ScanWord(index, z);
    } else if IsIdChar(c) {
      var n := Skip(IdChars, z, 1);
      s := Scanned(ID, n);
    } else {
      s := ScanSymbol(z);
    }
  }

  /** The operators and the punctuation. */
  method ScanSymbol(z: Cursor) returns (s: Scanned)
    requires z.i < |z.src| && z.Byte(0) != NUL
    ensures s == Scanner.ScanSymbol(z.Rest())
  {
    hide EndOf;
    assert z.Rest()[0] == z.Byte(0);
    match z.Byte(0)
    case '(' => return Scanned(LP, 1);
    case ')' => return Scanned(RP, 1);
    case ';' => return Scanned(SEMI, 1);
    case '+' => return Scanned(PLUS, 1);
    case '*' => return Scanned(STAR, 1);
    case '%' => return Scanned(REM, 1);
    case '=' =>
      if z.Byte(1) == '=' {
        return Scanned(EQ, 2);
      }
      return Scanned(EQ, 1);
    case '<' =>
      match z.Byte(1) {
        case '=' => return Scanned(LE, 2);
        case '>' => return Scanned(NE, 2);
        case '<' => return Scanned(LSHIFT, 2);
        case _ => return Scanned(LT, 1);
      }
    case '>' =>
      match z.Byte(1) {
        case '=' => return Scanned(GE, 2);
        case '>' => return Scanned(RSHIFT, 2);
        case _ => return Scanned(GT, 1);
      }
    case '!' =>
      if z.Byte(1) != '=' {
        return Scanned(ILLEGAL, 1);
      }
      return Scanned(NE, 2);
    case '|' =>
      if z.Byte(1) != '|' {
        return Scanned(BITOR, 1);
      }
      return Scanned(CONCAT, 2);
    case ',' => return Scanned(COMMA, 1);
    case '&' => return Scanned(BITAND, 1);
    case '~' => return Scanned(BITNOT, 1);
    case _ => return Scanned(ILLEGAL, 1);
  }

  /** LexFile(): the tokens for the parser, and the spaces and comments between them. */
  method LexFile(index: KeywordIndex, src: string) returns (toks: seq<SourceToken>, trivia: seq<SourceToken>)
    requires index.Valid()
    ensures toks == Tokens(index.words, src)
    ensures trivia == Trivia(RawLex(index.words, src, 0))
  {
    toks, trivia := Split(index, src, true);
  }

  /** Lex(): the tokens alone. */
  method Lex(index: KeywordIndex, src: string) returns (toks: seq<SourceToken>)
    requires index.Valid()
    ensures toks == Tokens(index.words, src)
  {
    var trivia;
    toks, trivia := Split(index, src, false);
  }

  /** lex(): scans everything, then resolves the window words if there were any. */
  method Split(index: KeywordIndex, src: string, keepTrivia: bool) returns (toks: seq<SourceToken>, trivia: seq<SourceToken>)
    requires index.Valid()
    ensures toks == Tokens(index.words, src)
    ensures trivia == if keepTrivia then Trivia(RawLex(index.words, src, 0)) else []
  {
    hide EndOf, RawLex, KeywordIndex.Valid, Kept, Trivia, Resolve;
    var i, ambiguous;
    toks, trivia, i, ambiguous := ScanAll(index, src, keepTrivia);
    if ambiguous {
      var a := new SourceToken[|toks|](j requires 0 <= j < |toks| => toks[j]);
      assert a[..] == toks;
      ResolveWindowKeywords(a);
      toks := a[..];
    } else {
      ResolveSkips(toks);
    }
    toks := toks + [SourceToken(EOF, i, i)];
  }

  /** What was scanned of `src` before byte `i`. */
  ghost predicate SplitUpTo(words: map<string, Kind>, src: string, i: nat, keepTrivia: bool, toks: seq<SourceToken>, trivia: seq<SourceToken>) {
    && i <= EndOf(src)
    && toks + Kept(RawLex(words, src, i)) == Kept(RawLex(words, src, 0))
    && if keepTrivia then trivia + Trivia(RawLex(words, src, i)) == Trivia(RawLex(words, src, 0)) else trivia == []
  }

  method ScanAll(index: KeywordIndex, src: string, keepTrivia: bool)
    returns (toks: seq<SourceToken>, trivia: seq<SourceToken>, i: nat, ambiguous: bool)
    requires index.Valid()
    ensures i == EndOf(src) && toks == Kept(RawLex(index.words, src, 0))
    ensures trivia == if keepTrivia then Trivia(RawLex(index.words, src, 0)) else []
    ensures !ambiguous ==> forall j :: 0 <= j < |toks| ==> !IsWindowWord(toks[j].kind)
  {
    hide EndOf, RawLex, Scanner.Scan, KeywordIndex.Valid, Kept, Trivia, Resolve, SplitUpTo;
    ghost var words := index.words;
    toks, trivia, i, ambiguous := [], [], 0, false;
    NothingScanned(words, src, keepTrivia);
    while i < |src|
      invariant i <= EndOf(src) && SplitUpTo(words, src, i, keepTrivia, toks, trivia)
      invariant !ambiguous ==> forall j :: 0 <= j < |toks| ==> !IsWindowWord(toks[j].kind)
      decreases |src| - i
    {
      var s := Scan(index, Cursor(src, i));
      ScanAdvances(index, src, i, keepTrivia, toks, trivia);
      if s.kind.EOF? {
        break;
      }
      var n := if s.n == 0 then 1 else s.n;
      var t := SourceToken(s.kind, i, i + n);
      OneScanned(words, src, i, keepTrivia, toks, trivia, t);
      if !s.kind.SPACE? && !s.kind.COMMENT? {
        if s.kind.WINDOW? || s.kind.OVER? || s.kind.FILTER? {
          ambiguous := true;
        }
        toks := toks + [t];
      } else if keepTrivia {
        trivia := trivia + [t];
      }
      i := i + n;
    }
    AllScanned(words, src, i, keepTrivia, toks, trivia);
  }

  lemma NothingScanned(words: map<string, Kind>, src: string, keepTrivia: bool)
    ensures SplitUpTo(words, src, 0, keepTrivia, [], [])
  {
    hide Kept, Trivia, RawLex;
  }

  lemma OneScanned(words: map<string, Kind>, src: string, i: nat, keepTrivia: bool, toks: seq<SourceToken>, trivia: seq<SourceToken>, t: SourceToken)
    requires SplitUpTo(words, src, i, keepTrivia, toks, trivia) && i < |src| && i < EndOf(src)
    requires t == SourceToken(Scanner.Scan(words, src[i..]).kind, i, i + Scanner.Scan(words, src[i..]).n)
    requires t.end <= EndOf(src)
    ensures SplitUpTo(words, src, t.end, keepTrivia, if IsTrivia(t.kind) then toks else toks + [t],
                     if IsTrivia(t.kind) && keepTrivia then trivia + [t] else trivia)
  {
    hide EndOf, Scanner.Scan, Kept, Trivia, RawLex;
    RawStep(words, src, i, t);
    Shift(toks, t, IsTrivia(t.kind), Kept(RawLex(words, src, t.end)));
    Shift(trivia, t, !IsTrivia(t.kind), Trivia(RawLex(words, src, t.end)));
  }

  /** Moves one token from the front of the rest to the end of the first part. */
  lemma Shift(done: seq<SourceToken>, t: SourceToken, skip: bool, rest: seq<SourceToken>)
    ensures done + ((if skip then [] else [t]) + rest) == (if skip then done else done + [t]) + rest
  {
    if skip {
      assert [] + rest == rest;
    }
  }

  lemma AllScanned(words: map<string, Kind>, src: string, i: nat, keepTrivia: bool, toks: seq<SourceToken>, trivia: seq<SourceToken>)
    requires SplitUpTo(words, src, i, keepTrivia, toks, trivia) && i == EndOf(src)
    ensures toks == Kept(RawLex(words, src, 0))
    ensures trivia == if keepTrivia then Trivia(RawLex(words, src, 0)) else []
  {
    hide EndOf, Kept, Trivia, RawLex;
    RawEnds(words, src, i);
  }

  /** Every scan before the end of the input gets on, and only the end scans as EOF. */
  lemma ScanAdvances(index: KeywordIndex, src: string, i: nat, keepTrivia: bool, toks: seq<SourceToken>, trivia: seq<SourceToken>)
    requires index.Valid() && i < |src| && SplitUpTo(index.words, src, i, keepTrivia, toks, trivia)
    ensures var s := Scanner.Scan(index.words, src[i..]);
            i <= EndOf(src) && if i == EndOf(src) then s == Scanned(EOF, 0) else !s.kind.EOF? && 0 < s.n <= EndOf(src) - i
  {
    hide Scanner.Scan, EndOf, Kept, Trivia, RawLex;
    EndOfSuffix(src, i);
    assert At(src, i) == src[i..][0];
    if i == EndOf(src) {
      ScanNul(index.words, src[i..]);
    }
  }

  lemma ScanNul(words: map<string, Kind>, z: string)
    requires |z| > 0 && z[0] == NUL
    ensures Scanner.Scan(words, z) == Scanned(EOF, 0)
  {
  }

  lemma RawStep(words: map<string, Kind>, src: string, i: nat, t: SourceToken)
    requires i < |src| && i < EndOf(src)
    requires t == SourceToken(Scanner.Scan(words, src[i..]).kind, i, i + Scanner.Scan(words, src[i..]).n)
    ensures t.end <= |src| && RawLex(words, src, i) == [t] + RawLex(words, src, t.end)
    ensures var raws := RawLex(words, src, i);
            var rest := RawLex(words, src, t.end);
            && Kept(raws) == (if IsTrivia(t.kind) then [] else [t]) + Kept(rest)
            && Trivia(raws) == (if IsTrivia(t.kind) then [t] else []) + Trivia(rest)
  {
    hide Scanner.Scan;
    var rest := RawLex(words, src, t.end);
    assert ([t] + rest)[1..] == rest;
  }

  lemma RawEnds(words: map<string, Kind>, src: string, i: nat)
    requires i <= |src| && i == EndOf(src)
    ensures RawLex(words, src, i) == [] && Kept(RawLex(words, src, i)) == [] && Trivia(RawLex(words, src, i)) == []
  {
  }
}
