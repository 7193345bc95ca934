/** What the tokenizer makes of a text, said of its bytes alone: for every first byte, which kind
    the token has and where it ends. */
module Bytes {
  import opened Token
  import opened Scanner
  import opened Locality
  import Quotes
  import Digits
  import Separators

  /** Tab, newline, vertical tab, form feed, carriage return, space. */
  predicate IsBlank(c: char) { c as int in {9, 10, 11, 12, 13, 32} }

  predicate IsLetter(c: char) { 'a' <= c <= 'z' || 'A' <= c <= 'Z' }

  predicate IsFigure(c: char) { '0' <= c <= '9' }

  predicate IsHexFigure(c: char) { '0' <= c <= '9' || 'a' <= c <= 'f' || 'A' <= c <= 'F' }

  predicate IsFigureOrMark(c: char) { '0' <= c <= '9' || c == '_' }

  predicate IsHexOrMark(c: char) { IsHexFigure(c) || c == '_' }

  predicate IsWordByte(c: char) { IsLetter(c) || c == '_' }

  predicate IsNameByte(c: char) { IsLetter(c) || '0' <= c <= '9' || c == '_' || c == '$' || c as int > 127 }

  /** `z[a..n]` is the longest stretch from `a` on of bytes that `p` holds of. */
  ghost predicate Stretch(z: string, a: nat, n: nat, p: char -> bool) {
    a <= n <= |z| && (forall i :: a <= i < n ==> p(z[i])) && (n < |z| ==> !p(z[n]))
  }

  predicate InLine(c: char) { c != '\n' && c != '\0' }

  /** The text is over at `n`. */
  predicate Over(z: string, n: nat) { n >= |z| || z[n] == '\0' }

  lemma {:induction false} RunStretches(cls: Class, z: string, a: nat, p: char -> bool)
    requires a <= EndOf(z) && forall c :: p(c) <==> InClass(cls, c)
    ensures Stretch(z, a, Run(cls, z, a), p)
  {
    hide InClass, EndOf;
    Quotes.RunInside(cls, z, a);
    assert Run(cls, z, a) <= |z|;
  }

  /** A run of blanks, which a vertical tab may be in but not begin. */
  lemma {:induction false} BlanksScan(words: map<string, Kind>, z: string)
    requires |z| > 0 && IsBlank(z[0])
    ensures if z[0] as int == 11 then Scan(words, z) == Scanned(ILLEGAL, 1)
            else Scan(words, z).kind.SPACE? && Stretch(z, 1, Scan(words, z).n, IsBlank)
  {
    if z[0] as int != 11 {
      RunStretches(Spaces, z, 1, IsBlank);
    }
  }

  /** A line comment: up to the newline, which is not part of it, or the end of the text. */
  lemma {:induction false} LineComment(words: map<string, Kind>, z: string)
    requires |z| >= 2 && z[..2] == "--"
    ensures Scan(words, z).kind.COMMENT? && Stretch(z, 2, Scan(words, z).n, InLine)
    ensures '\n' !in z[..Scan(words, z).n]
    ensures var n := Scan(words, z).n; n == |z| || z[n] == '\n' || z[n] == '\0'
  {
    assert z[0] == '-' && z[1] == '-';
    assert 2 <= EndOf(z);
    RunStretches(LineRest, z, 2, InLine);
  }

  /** "*" and "/" at `j`. */
  predicate ClosesAt(z: string, j: nat) { j + 1 < |z| && z[j] == '*' && z[j + 1] == '/' }

  lemma {:induction false} BlockEndFirst(z: string, a: nat)
    requires 0 < a <= EndOf(z)
    ensures var n := BlockEnd(z, a);
            && a <= n <= EndOf(z) && (forall j :: a - 1 <= j < n - 2 ==> !ClosesAt(z, j))
            && (Over(z, n) || (a - 1 <= n - 2 && ClosesAt(z, n - 2)))
    decreases EndOf(z) - a
  {
    if !(At(z, a - 1) == '*' && At(z, a) == '/') && At(z, a) != NUL {
      BlockEndFirst(z, a + 1);
    }
  }

  /** A block comment ends with the first "*" "/" whose "*" is at byte 2 or later, or with the
      text. A slash before anything else, or before a star and the end, is one by itself. */
  lemma {:induction false} BlockComment(words: map<string, Kind>, z: string)
    requires |z| > 0 && z[0] == '/'
    ensures var s := Scan(words, z);
            if |z| < 3 || z[1] != '*' || z[2] == '\0' then s == Scanned(SLASH, 1)
            else
              && s.kind.COMMENT? && 3 <= s.n <= |z| && '\0' !in z[..s.n]
              && (forall j :: 2 <= j < s.n - 2 ==> !ClosesAt(z, j))
              && ((s.n >= 4 && ClosesAt(z, s.n - 2)) || Over(z, s.n))
  {
    hide BlockEnd;
    if |z| >= 3 && z[1] == '*' && z[2] != NUL {
      assert 3 <= EndOf(z);
      BlockEndFirst(z, 3);
    }
  }

  /** "->>", "->" and "-". */
  lemma {:induction false} MinusScans(words: map<string, Kind>, z: string)
    requires |z| > 0 && z[0] == '-' && !("--" <= z)
    ensures Scan(words, z) == if "->>" <= z then Scanned(PTR, 3) else if "->" <= z then Scanned(PTR, 2) else Scanned(MINUS, 1)
  {
    assert |z| > 1 ==> z[..2] == ['-', z[1]];
    assert At(z, 1) == '>' && At(z, 2) == '>' ==> z[..3] == "->>";
  }

  /** The marks of one byte. */
  lemma {:induction false} MarksScan(words: map<string, Kind>, z: string)
    ensures "(" <= z ==> Scan(words, z) == Scanned(LP, 1)
    ensures ")" <= z ==> Scan(words, z) == Scanned(RP, 1)
    ensures ";" <= z ==> Scan(words, z) == Scanned(SEMI, 1)
    ensures "," <= z ==> Scan(words, z) == Scanned(COMMA, 1)
    ensures "+" <= z ==> Scan(words, z) == Scanned(PLUS, 1)
    ensures "*" <= z ==> Scan(words, z) == Scanned(STAR, 1)
    ensures "%" <= z ==> Scan(words, z) == Scanned(REM, 1)
    ensures "&" <= z ==> Scan(words, z) == Scanned(BITAND, 1)
    ensures "~" <= z ==> Scan(words, z) == Scanned(BITNOT, 1)
    ensures "." <= z ==> (|z| < 2 || !IsFigure(z[1])) ==> Scan(words, z) == Scanned(DOT, 1)
  {
    hide EndOf, Run, ScanWord, ScanNumber, VariableFrom;
  }

  /** The other operators: the longest that the text begins with. */
  lemma {:induction false} OperatorsScan(words: map<string, Kind>, z: string)
    ensures "=" <= z ==> Scan(words, z) == Scanned(EQ, if "==" <= z then 2 else 1)
    ensures "|" <= z ==> Scan(words, z) == if "||" <= z then Scanned(CONCAT, 2) else Scanned(BITOR, 1)
    ensures "<" <= z ==> Scan(words, z) == if "<=" <= z then Scanned(LE, 2) else if "<>" <= z then Scanned(NE, 2)
                                           else if "<<" <= z then Scanned(LSHIFT, 2) else Scanned(LT, 1)
    ensures ">" <= z ==> Scan(words, z) == if ">=" <= z then Scanned(GE, 2) else if ">>" <= z then Scanned(RSHIFT, 2)
                                           else Scanned(GT, 1)
    ensures "!" <= z ==> Scan(words, z) == if "!=" <= z then Scanned(NE, 2) else Scanned(ILLEGAL, 1)
  {
    hide EndOf, Run, Scan;
    if |z| > 0 && z[0] in {'=', '|', '<', '>', '!'} {
      ScansSymbol(words, z);
      if |z| > 1 {
        assert z[..2] == [z[0], z[1]];
      }
    }
  }

  lemma ScansSymbol(words: map<string, Kind>, z: string)
    requires |z| > 0 && z[0] in {'=', '|', '<', '>', '!'}
    ensures Scan(words, z) == ScanSymbol(z)
  {
    hide EndOf, Run, ScanSymbol;
  }

  /** The bytes no token begins with. */
  lemma {:induction false} StrayBytes(words: map<string, Kind>, z: string)
    requires |z| > 0
    requires var c := z[0] as int; 1 <= c <= 8 || c == 11 || 14 <= c <= 31 || 92 <= c <= 94 || c == 123 || c == 125 || c == 127
    ensures Scan(words, z) == Scanned(ILLEGAL, 1)
  {
    hide EndOf, Run;
  }

  /** The byte order mark. */
  lemma {:induction false} OrderMark(words: map<string, Kind>, z: string)
    requires |z| >= 3 && z[0] as int == 0xef && z[1] as int == 0xbb && z[2] as int == 0xbf
    ensures Scan(words, z) == Scanned(SPACE, 3)
  {
    hide Run;
  }

  /** A word, a name, or an identifier that only looks like a keyword: the longest stretch of
      name bytes. It is looked up exactly when it is at least two letters and underscores, the
      first a letter other than x. */
  lemma {:induction false} WordScans(words: map<string, Kind>, z: string)
    requires |z| > 0 && (IsLetter(z[0]) || z[0] == '_' || z[0] as int > 127)
    requires !((z[0] == 'x' || z[0] == 'X') && |z| > 1 && z[1] == '\'')
    requires !(|z| >= 3 && z[0] as int == 0xef && z[1] as int == 0xbb && z[2] as int == 0xbf)
    ensures var s := Scan(words, z);
            && Stretch(z, 1, s.n, IsNameByte)
            && (s.kind == if s.n >= 2 && IsLetter(z[0]) && z[0] != 'x' && z[0] != 'X' && (forall i :: 0 <= i < s.n ==> IsWordByte(z[i]))
                          then Lookup(words, z[..s.n]) else ID)
  {
    hide EndOf, Run, Lookup, ScanBlob;
    assert Scan(words, z) == if IsKeywordStart(z[0]) then ScanWord(words, z) else Scanned(ID, Run(IdChars, z, 1));
    if IsKeywordStart(z[0]) {
      KeywordScans(words, z);
    } else {
      RunStretches(IdChars, z, 1, IsNameByte);
    }
  }

  lemma NameRun(z: string, a: nat)
    requires a <= EndOf(z)
    ensures Stretch(z, a, Run(IdChars, z, a), IsNameByte) && Run(IdChars, z, a) <= |z|
  {
    hide EndOf, Run;
    RunStretches(IdChars, z, a, IsNameByte);
  }

  /** What the scanner calls these bytes. */
  lemma SameBytes(c: char)
    ensures IsIdChar(c) <==> IsNameByte(c)
    ensures IsKeywordChar(c) <==> IsWordByte(c)
    ensures IsIdChar(c) || IsKeywordChar(c) ==> c != NUL
  {
  }

  lemma {:induction false} KeywordScans(words: map<string, Kind>, z: string)
    requires |z| > 0 && IsLetter(z[0]) && z[0] != 'x' && z[0] != 'X'
    ensures var s := ScanWord(words, z);
            && Stretch(z, 1, s.n, IsNameByte)
            && (s.kind == if s.n >= 2 && (forall i :: 0 <= i < s.n ==> IsWordByte(z[i])) then Lookup(words, z[..s.n]) else ID)
  {
    assert IsWordByte(z[0]);
    assert 1 <= EndOf(z);
    hide EndOf, Run, Lookup, InClass, IsIdChar, IsKeywordChar, IsNameByte, IsWordByte;
    SameBytes(At(z, 1));
    if !IsKeywordChar(At(z, 1)) {
      NameRun(z, 1);
    } else {
      assert 2 <= EndOf(z) by { Reaches(z, 1); }
      WordRun(z);
      var n := Run(KeywordChars, z, 2);
      SameBytes(At(z, n));
      var m := n;
      if IsIdChar(At(z, n)) {
        assert n + 1 <= EndOf(z) by { Reaches(z, n); }
        NameRun(z, n + 1);
        m := Run(IdChars, z, n + 1);
      }
      WordStretch(z, n, m);
    }
  }

  lemma WordRun(z: string)
    requires 2 <= EndOf(z)
    ensures Stretch(z, 2, Run(KeywordChars, z, 2), IsWordByte)
  {
    hide EndOf, Run;
    RunStretches(KeywordChars, z, 2, IsWordByte);
  }

  /** A keyword, or the rest of a name after it. */
  lemma WordStretch(z: string, n: nat, m: nat)
    requires |z| > 1 && IsWordByte(z[0]) && IsWordByte(z[1]) && Stretch(z, 2, n, IsWordByte)
    requires if n < |z| && IsNameByte(z[n]) then Stretch(z, n + 1, m, IsNameByte) else m == n
    ensures Stretch(z, 1, m, IsNameByte) && ((forall i :: 0 <= i < m ==> IsWordByte(z[i])) <==> m == n)
  {
    if n < |z| && IsNameByte(z[n]) {
      assert !IsWordByte(z[n]);
    }
  }

  lemma Reaches(z: string, n: nat)
    requires n <= EndOf(z) && At(z, n) != NUL
    ensures n + 1 <= EndOf(z)
  {
  }

  /** A keyword is looked up in capitals: each small letter is the capital at its place, and
      nothing else changes. */
  lemma {:induction false} CapitalsAre(c: char)
    ensures var small, capital := "abcdefghijklmnopqrstuvwxyz", "ABCDEFGHIJKLMNOPQRSTUVWXYZ";
            if 'a' <= c <= 'z' then small[c as int - 97] == c && Upper(c) == capital[c as int - 97]
            else Upper(c) == c
  {
  }

  /** "?" and the figures after it, if any. */
  lemma {:induction false} NumberedScans(words: map<string, Kind>, z: string)
    requires |z| > 0 && z[0] == '?'
    ensures Scan(words, z).kind.VARIABLE? && Stretch(z, 1, Scan(words, z).n, IsFigure)
  {
    RunStretches(Digits, z, 1, IsFigure);
  }

  predicate InBrackets(c: char) { c != ']' && c != '\0' }

  /** A name in square brackets ends with the first closing one; without it everything is bad. */
  lemma {:induction false} BracketsScan(words: map<string, Kind>, z: string)
    requires |z| > 0 && z[0] == '['
    ensures exists n: nat :: Stretch(z, 1, n, InBrackets) &&
              Scan(words, z) == if n < |z| && z[n] == ']' then Scanned(ID, n + 1) else Scanned(ILLEGAL, n)
  {
    RunStretches(BracketRest, z, 1, InBrackets);
  }

  /** A quoted token is a string or a name by its delimiter and ends with it. One that is not
      closed is bad up to the end of the text. */
  lemma {:induction false} QuotesScan(words: map<string, Kind>, z: string)
    requires |z| > 0 && z[0] in {'\'', '"', '`'}
    ensures var s := Scan(words, z);
            && 0 < s.n <= |z| && '\0' !in z[..s.n]
            && (s.kind.ILLEGAL? ==> Over(z, s.n))
            && (!s.kind.ILLEGAL? ==> s.n >= 2 && z[s.n - 1] == z[0] && s.kind == if z[0] == '\'' then STRING else ID)
  {
    hide QuoteEnd;
    assert Scan(words, z) == ScanQuoted(z);
  }

  predicate InBlob(c: char) { c != '\'' && c != '\0' }

  /** A blob: an even number of hexadecimal figures in quotes after an x. Otherwise everything is
      bad up to the next quote, or to the end of the text. */
  lemma {:induction false} BlobScans(words: map<string, Kind>, z: string)
    requires |z| > 1 && (z[0] == 'x' || z[0] == 'X') && z[1] == '\''
    ensures exists n: nat, m: nat :: Stretch(z, 2, n, IsHexFigure) && Stretch(z, n, m, InBlob) &&
              Scan(words, z) == if n < |z| && z[n] == '\'' && n % 2 == 0 then Scanned(BLOB, n + 1)
                                else Scanned(ILLEGAL, if m < |z| && z[m] == '\'' then m + 1 else m)
  {
    hide Run;
    assert 2 <= EndOf(z);
    assert Scan(words, z) == ScanBlob(z);
    var n := Run(HexDigits, z, 2);
    RunStretches(HexDigits, z, 2, IsHexFigure);
    RunStretches(BlobRest, z, n, InBlob);
    var m := Run(BlobRest, z, n);
    assert Stretch(z, 2, n, IsHexFigure) && Stretch(z, n, m, InBlob);
  }

  /** Name bytes and pairs of colons. */
  predicate IsName(s: string) {
    s == "" || (IsNameByte(s[0]) && IsName(s[1..])) || ("::" <= s && IsName(s[2..]))
  }

  predicate InArgument(c: char) { !IsBlank(c) && c != ')' && c != '\0' }

  /** `z[a..m]` is name bytes and pairs of colons, and no longer stretch is. */
  ghost predicate NameEnds(z: string, a: nat, m: nat) {
    a <= m <= |z| && IsName(z[a..m]) && (m < |z| ==> !IsNameByte(z[m]) && !("::" <= z[m..]))
  }

  ghost predicate HasNameByte(z: string, a: nat, m: nat)
    requires m <= |z|
  {
    exists i :: a <= i < m && IsNameByte(z[i])
  }

  /** What scanning makes of a parameter's name that goes on at `a`. */
  ghost predicate NamedFrom(z: string, a: nat, named: bool, s: Scanned) {
    exists m: nat, q: nat :: NamedOver(z, a, named, m, q, s)
  }

  ghost predicate NamedOver(z: string, a: nat, named: bool, m: nat, q: nat, s: Scanned) {
    NameEnds(z, a, m) && NamedTo(z, m, q, named || HasNameByte(z, a, m), s)
  }

  /** The name ends at `m`. In brackets after it there may be an argument, ending at `q`. */
  ghost predicate NamedTo(z: string, m: nat, q: nat, named: bool, s: Scanned)
    requires m <= |z|
  {
    if named && m < |z| && z[m] == '(' then
      Stretch(z, m + 1, q, InArgument) && s == if q < |z| && z[q] == ')' then Scanned(VARIABLE, q + 1) else Scanned(ILLEGAL, q)
    else s == Scanned(if named then VARIABLE else ILLEGAL, m)
  }

  /** A parameter's name: the longest row of name bytes and pairs of colons, with at least one
      name byte, and perhaps an argument in brackets that has no blank in it. */
  lemma {:induction false} ParameterScans(words: map<string, Kind>, z: string)
    requires |z| > 0 && z[0] in {'$', '@', '#', ':'}
    ensures NamedFrom(z, 1, false, Scan(words, z))
  {
    hide VariableFrom;
    assert 1 <= EndOf(z);
    NameFrom(z, 1, false);
  }

  lemma {:induction false} NameFrom(z: string, a: nat, named: bool)
    requires 0 < a <= EndOf(z)
    ensures NamedFrom(z, a, named, VariableFrom(z, a, named))
    decreases EndOf(z) - a
  {
    hide EndOf, Run;
    var c := At(z, a);
    var s := VariableFrom(z, a, named);
    if IsIdChar(c) {
      Reaches(z, a);
      NameFrom(z, a + 1, true);
      NameOn(z, a, 1, true, s);
    } else if c == ':' && At(z, a + 1) == ':' && !(c == '(' && named) {
      Reaches(z, a);
      Reaches(z, a + 1);
      NameFrom(z, a + 2, named);
      NameOn(z, a, 2, named, s);
    } else {
      NameStops(z, a, named);
    }
  }

  lemma {:induction false} NameStops(z: string, a: nat, named: bool)
    requires 0 < a <= EndOf(z) && !IsIdChar(At(z, a)) && !(At(z, a) == ':' && At(z, a + 1) == ':')
    ensures NamedFrom(z, a, named, VariableFrom(z, a, named))
  {
    hide EndOf, Run, Stretch;
    var s := VariableFrom(z, a, named);
    assert z[a..a] == "";
    if a + 1 < |z| {
      assert z[a..][..2] == [z[a], z[a + 1]];
    }
    assert NameEnds(z, a, a) && !HasNameByte(z, a, a);
    var q := 0;
    if At(z, a) == '(' && named {
      Reaches(z, a);
      q := Run(ArgumentRest, z, a + 1);
      RunStretches(ArgumentRest, z, a + 1, InArgument);
    }
    assert NamedOver(z, a, named, a, q, s);
  }

  lemma NameLonger(z: string, a: nat, step: nat, m: nat)
    requires a + step <= |z| && NameEnds(z, a + step, m)
    requires (step == 1 && IsNameByte(z[a])) || (step == 2 && z[a] == ':' && z[a + 1] == ':')
    ensures NameEnds(z, a, m)
    ensures HasNameByte(z, a, m) <==> step == 1 || HasNameByte(z, a + step, m)
  {
    if step == 1 {
      assert HasNameByte(z, a, m);
    } else {
      assert !IsNameByte(':');
    }
    var s := z[a..m];
    assert s[step..] == z[a + step..m] && s[0] == z[a];
    if step == 2 {
      assert s[1] == z[a + 1];
      assert s[..2] == [s[0], s[1]] == "::";
    }
  }

  lemma {:induction false} NameOn(z: string, a: nat, step: nat, named: bool, s: Scanned)
    requires a + step <= |z| && NamedFrom(z, a + step, named, s)
    requires (step == 1 && named && IsNameByte(z[a])) || (step == 2 && z[a] == ':' && z[a + 1] == ':')
    ensures NamedFrom(z, a, named, s) && (step == 1 ==> NamedFrom(z, a, false, s))
  {
    hide IsNameByte;
    var m: nat, q: nat :| NamedOver(z, a + step, named, m, q, s);
    NameLonger(z, a, step, m);
    assert NamedOver(z, a, named, m, q, s) && (step == 1 ==> NamedOver(z, a, false, m, q, s));
  }

  /** An exponent's mark at `f`, with a figure to follow. */
  predicate MarkAt(z: string, f: nat) {
    && f + 1 < |z| && (z[f] == 'e' || z[f] == 'E')
    && (IsFigure(z[f + 1]) || ((z[f + 1] == '+' || z[f + 1] == '-') && f + 2 < |z| && IsFigure(z[f + 2])))
  }

  predicate HexAt(z: string) { |z| > 2 && z[0] == '0' && (z[1] == 'x' || z[1] == 'X') && IsHexFigure(z[2]) }

  /** A decimal number: the whole part up to `w`, the fraction up to `f`, the exponent up to `b`. */
  ghost predicate IsDecimal(z: string, w: nat, f: nat, b: nat) {
    && Stretch(z, 0, w, IsFigureOrMark)
    && (if w < |z| && z[w] == '.' then Stretch(z, w + 1, f, IsFigureOrMark) else f == w)
    && (if MarkAt(z, f) then Stretch(z, f + 2, b, IsFigureOrMark) else b == f)
  }

  /** A number that is over at `b`, and what it is then. */
  ghost predicate IsNumber(z: string, b: nat, kind: Kind) {
    && b <= |z|
    && if HexAt(z) then Stretch(z, 3, b, IsHexOrMark) && kind == if '_' in z[..b] then QNUMBER else INTEGER
       else exists w: nat, f: nat :: IsDecimal(z, w, f, b) &&
              kind == if '_' in z[..b] then QNUMBER else if w < b then FLOAT else INTEGER
  }

  /** A number: a separator anywhere makes it a QNUMBER, a point or an exponent a FLOAT; a name
      byte right after it makes the whole stretch bad. */
  lemma {:induction false} NumberScans(words: map<string, Kind>, z: string)
    requires |z| > 0 && (IsFigure(z[0]) || (z[0] == '.' && |z| > 1 && IsFigure(z[1])))
    ensures var s := Scan(words, z);
            exists b: nat, kind: Kind ::
              IsNumber(z, b, kind) && Stretch(z, b, s.n, IsNameByte) && s.kind == if s.n > b then ILLEGAL else kind
  {
    hide EndOf, Run, HexBody, DecimalBody;
    assert Scan(words, z) == ScanNumber(z);
    var body := if HexNumber(z) then HexBody(z) else DecimalBody(z);
    RunStretches(IdChars, z, body.n, IsNameByte);
    if HexNumber(z) {
      HexIs(z);
    } else {
      DecimalIs(z);
    }
    assert IsNumber(z, body.n, body.kind);
  }

  lemma {:induction false} HexIs(z: string)
    requires HexNumber(z)
    ensures HexAt(z) && IsNumber(z, HexBody(z).n, HexBody(z).kind)
  {
    hide Run;
    assert 3 <= EndOf(z);
    var n := Run(HexAndSeparators, z, 3);
    RunStretches(HexAndSeparators, z, 3, IsHexOrMark);
    MarksIn(z, 3, n);
  }

  lemma MarksIn(z: string, a: nat, n: nat)
    requires a <= n <= |z| && forall i :: 0 <= i < a ==> z[i] != '_'
    ensures '_' in z[a..n] <==> '_' in z[..n]
  {
    assert z[..n] == z[..a] + z[a..n];
    assert '_' !in z[..a];
  }

  lemma {:induction false} DecimalIs(z: string)
    requires IsFigure(At(z, 0)) || (At(z, 0) == '.' && IsFigure(At(z, 1)))
    requires !HexNumber(z)
    ensures !HexAt(z) && IsNumber(z, DecimalBody(z).n, DecimalBody(z).kind)
  {
    hide EndOf, Run;
    var s1 := Whole(z);
    var s2 := WithFraction(z, s1);
    var s3 := Exponent(z, s2);
    WholeIs(z);
    FractionIs(z, s1);
    ExponentIs(z, s2);
    assert IsDecimal(z, s1.n, s2.n, s3.n);
  }

  /** What a part of a number makes of its kind. */
  predicate Marked(z: string, n: nat, kind: Kind, plain: Kind)
    requires n <= |z|
  {
    kind == if '_' in z[..n] then QNUMBER else plain
  }

  lemma WholeIs(z: string)
    requires IsFigure(At(z, 0)) || (At(z, 0) == '.' && IsFigure(At(z, 1)))
    ensures var s := Whole(z); Stretch(z, 0, s.n, IsFigureOrMark) && Marked(z, s.n, s.kind, INTEGER)
  {
    hide EndOf, Run;
    RunStretches(DigitsAndSeparators, z, 0, IsFigureOrMark);
    assert z[0..Whole(z).n] == z[..Whole(z).n];
  }

  lemma DigitsStretch(z: string, a: nat)
    requires a <= EndOf(z)
    ensures Stretch(z, a, Run(DigitsAndSeparators, z, a), IsFigureOrMark)
    ensures Run(DigitsAndSeparators, z, a) <= |z|
  {
    hide EndOf, Run;
    RunStretches(DigitsAndSeparators, z, a, IsFigureOrMark);
  }

  lemma MarksJoin(z: string, a: nat, b: nat, n: nat)
    requires a <= b <= n <= |z| && forall i :: a <= i < b ==> z[i] != '_'
    ensures '_' in z[..n] <==> '_' in z[..a] || '_' in z[b..n]
  {
    assert z[..n] == z[..a] + z[a..b] + z[b..n];
    assert '_' !in z[a..b];
  }

  lemma FractionIs(z: string, s: Scanned)
    requires s.n <= EndOf(z) && Marked(z, s.n, s.kind, INTEGER)
    ensures var r := WithFraction(z, s);
            && (if s.n < |z| && z[s.n] == '.' then Stretch(z, s.n + 1, r.n, IsFigureOrMark) else r == s)
            && r.n <= |z| && Marked(z, r.n, r.kind, if s.n < r.n then FLOAT else INTEGER)
  {
    hide EndOf, Run, InClass, Stretch, IsFigureOrMark;
    if At(z, s.n) == '.' {
      Reaches(z, s.n);
      DigitsStretch(z, s.n + 1);
      var n := Run(DigitsAndSeparators, z, s.n + 1);
      MarksJoin(z, s.n, s.n + 1, n);
    }
  }

  lemma ExponentIs(z: string, s: Scanned)
    requires s.n <= EndOf(z) && (Marked(z, s.n, s.kind, INTEGER) || Marked(z, s.n, s.kind, FLOAT))
    ensures var r := Exponent(z, s);
            && (if MarkAt(z, s.n) then Stretch(z, s.n + 2, r.n, IsFigureOrMark) else r == s)
            && s.n <= r.n <= |z| && Marked(z, r.n, r.kind, if s.n < r.n || s.kind.FLOAT? then FLOAT else INTEGER)
  {
    hide EndOf, Run, InClass, Stretch, IsFigureOrMark;
    assert ExponentAt(z, s.n) <==> MarkAt(z, s.n);
    if ExponentAt(z, s.n) {
      Reaches(z, s.n);
      Reaches(z, s.n + 1);
      DigitsStretch(z, s.n + 2);
      var n := Run(DigitsAndSeparators, z, s.n + 2);
      MarksJoin(z, s.n, s.n + 2, n);
    }
  }

  /** A figure of the number's base, which is hexadecimal after "0x". */
  predicate IsFigureOf(s: string, c: char) {
    if |s| > 1 && s[0] == '0' && (s[1] == 'x' || s[1] == 'X') then IsHexFigure(c) else IsFigure(c)
  }

  /** A number's separators can be removed exactly when each stands between two figures. */
  lemma {:induction false} SeparatorsStand(s: string)
    ensures Digits.DequoteNumber(s).Value? <==>
              forall j :: 0 <= j < |s| && s[j] == '_' ==>
                0 < j < |s| - 1 && IsFigureOf(s, s[j - 1]) && IsFigureOf(s, s[j + 1])
  {
    Separators.DequotesWellSeparated(s);
  }
}
