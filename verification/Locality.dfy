/** What a scan depends on: nothing past the first NUL, and for a token of content nothing past
    its own text but that the next byte does not go on with it. */
module Locality {
  import opened Token
  import opened Scanner
  import opened Chars

  /** The text before its first NUL. */
  function Cut(z: string): (r: string)
    ensures |r| == EndOf(z)
  {
    z[..EndOf(z)]
  }

  lemma {:induction false} FirstNul(z: string, p: nat)
    requires p <= |z| && At(z, p) == NUL && forall m :: 0 <= m < p ==> z[m] != NUL
    ensures EndOf(z) == p
  {
    assert !(EndOf(z) < p);
    assert !(p < EndOf(z));
  }

  lemma CutAt(z: string)
    ensures EndOf(Cut(z)) == EndOf(z) && forall m :: 0 <= m <= EndOf(z) ==> At(Cut(z), m) == At(z, m)
  {
    FirstNul(Cut(z), EndOf(z));
  }

  lemma {:induction false} RunCut(cls: Class, z: string, n: nat)
    requires n <= EndOf(z)
    ensures EndOf(Cut(z)) == EndOf(z) && Run(cls, Cut(z), n) == Run(cls, z, n)
    decreases EndOf(z) - n
  {
    CutAt(z);
    if InClass(cls, At(z, n)) {
      RunCut(cls, z, n + 1);
    }
  }

  lemma {:induction false} QuoteCut(z: string, n: nat, delim: char)
    requires n <= EndOf(z) && delim != NUL
    ensures EndOf(Cut(z)) == EndOf(z) && QuoteEnd(Cut(z), n, delim) == QuoteEnd(z, n, delim)
    decreases EndOf(z) - n
  {
    CutAt(z);
    if At(z, n) != NUL {
      if At(z, n) != delim {
        QuoteCut(z, n + 1, delim);
      } else if At(z, n + 1) == delim {
        QuoteCut(z, n + 2, delim);
      }
    }
  }

  lemma {:induction false} BlockCut(z: string, n: nat)
    requires 0 < n <= EndOf(z)
    ensures EndOf(Cut(z)) == EndOf(z) && BlockEnd(Cut(z), n) == BlockEnd(z, n)
    decreases EndOf(z) - n
  {
    CutAt(z);
    if At(z, n) != NUL && !(At(z, n - 1) == '*' && At(z, n) == '/') {
      BlockCut(z, n + 1);
    }
  }

  lemma {:induction false} VariableCut(z: string, n: nat, named: bool)
    requires 0 < n <= EndOf(z)
    ensures EndOf(Cut(z)) == EndOf(z) && VariableFrom(Cut(z), n, named) == VariableFrom(z, n, named)
    decreases EndOf(z) - n
  {
    CutAt(z);
    var c := At(z, n);
    if IsIdChar(c) {
      VariableCut(z, n + 1, true);
    } else if c == '(' && named {
      RunCut(ArgumentRest, z, n + 1);
    } else if c == ':' && At(z, n + 1) == ':' {
      VariableCut(z, n + 2, named);
    }
  }

  lemma CutSeparated(z: string, a: nat, b: nat, kind: Kind)
    requires a <= b <= EndOf(z)
    ensures Separated(Cut(z), a, b, kind) == Separated(z, a, b, kind)
  {
    assert Cut(z)[a..b] == z[a..b];
  }

  lemma {:induction false} HexCut(z: string)
    requires HexNumber(z)
    ensures EndOf(Cut(z)) == EndOf(z) && HexNumber(Cut(z)) && HexBody(Cut(z)) == HexBody(z)
  {
    hide Run, EndOf, Cut, Separated;
    CutAt(z);
    RunCut(HexAndSeparators, z, 3);
    CutSeparated(z, 3, Run(HexAndSeparators, z, 3), INTEGER);
  }

  lemma {:induction false} DecimalCut(z: string)
    requires IsDigit(At(z, 0)) || (At(z, 0) == '.' && IsDigit(At(z, 1)))
    ensures EndOf(Cut(z)) == EndOf(z)
    ensures IsDigit(At(Cut(z), 0)) || (At(Cut(z), 0) == '.' && IsDigit(At(Cut(z), 1)))
    ensures DecimalBody(Cut(z)) == DecimalBody(z)
  {
    hide Run, EndOf, Cut, Separated, WithFraction, Exponent;
    CutAt(z);
    assert At(z, 0) == At(Cut(z), 0);
    RunCut(DigitsAndSeparators, z, 0);
    CutSeparated(z, 0, Run(DigitsAndSeparators, z, 0), INTEGER);
    FractionCut(z, Whole(z));
    ExponentCut(z, WithFraction(z, Whole(z)));
  }

  lemma {:induction false} FractionCut(z: string, s: Scanned)
    requires s.n <= EndOf(z) && (s.kind.INTEGER? || s.kind.QNUMBER?)
    ensures EndOf(Cut(z)) == EndOf(z) && WithFraction(Cut(z), s) == WithFraction(z, s)
  {
    hide Run, EndOf, Cut, Separated;
    CutAt(z);
    assert At(Cut(z), s.n) == At(z, s.n);
    if At(z, s.n) == '.' {
      RunCut(DigitsAndSeparators, z, s.n + 1);
      CutSeparated(z, s.n + 1, Run(DigitsAndSeparators, z, s.n + 1), Fraction(s.kind));
    }
  }

  lemma {:induction false} ExponentCut(z: string, s: Scanned)
    requires s.n <= EndOf(z) && (s.kind.INTEGER? || s.kind.FLOAT? || s.kind.QNUMBER?)
    ensures EndOf(Cut(z)) == EndOf(z) && Exponent(Cut(z), s) == Exponent(z, s)
  {
    hide Run, EndOf, Cut, Separated;
    CutAt(z);
    assert At(Cut(z), s.n) == At(z, s.n);
    if ExponentAt(z, s.n) {
      RunCut(DigitsAndSeparators, z, s.n + 2);
      CutSeparated(z, s.n + 2, Run(DigitsAndSeparators, z, s.n + 2), Fraction(s.kind));
    }
  }

  lemma {:induction false} NumberCut(z: string)
    requires IsDigit(At(z, 0)) || (At(z, 0) == '.' && IsDigit(At(z, 1)))
    ensures EndOf(Cut(z)) == EndOf(z)
    ensures IsDigit(At(Cut(z), 0)) || (At(Cut(z), 0) == '.' && IsDigit(At(Cut(z), 1)))
    ensures ScanNumber(Cut(z)) == ScanNumber(z)
  {
    hide Run, EndOf, Cut, HexBody, DecimalBody;
    CutAt(z);
    DecimalCut(z);
    if HexNumber(z) {
      HexCut(z);
      RunCut(IdChars, z, HexBody(z).n);
    } else {
      assert !HexNumber(Cut(z));
      RunCut(IdChars, z, DecimalBody(z).n);
    }
  }

  /** Scanning stops at a NUL as at the end of the input, and no token reaches past it. */
  lemma {:induction false} ScanCut(words: map<string, Kind>, z: string)
    requires |z| > 0 && z[0] != NUL
    ensures |Cut(z)| > 0 && Scan(words, Cut(z)) == Scan(words, z) && 0 < Scan(words, z).n <= EndOf(z)
  {
    CutAt(z);
    var c := z[0];
    if IsSpaceStart(c) {
      RunCut(Spaces, z, 1);
    } else if c == '-' {
      if At(z, 1) == '-' {
        RunCut(LineRest, z, 2);
      }
    } else if c == '/' {
      if At(z, 1) == '*' && At(z, 2) != NUL {
        BlockCut(z, 3);
      }
    } else if IsQuote(c) {
      QuoteCut(z, 1, c);
    } else if c == '.' && !IsDigit(At(z, 1)) {
    } else if c == '.' || IsDigit(c) {
      NumberCut(z);
    } else {
      LettersCut(words, z);
    }
  }

  lemma {:induction false} LettersCut(words: map<string, Kind>, z: string)
    requires |z| > 0 && z[0] != NUL && !IsSpaceStart(z[0]) && z[0] !in {'-', '/', '.'} && !IsQuote(z[0]) && !IsDigit(z[0])
    ensures |Cut(z)| > 0 && Scan(words, Cut(z)) == Scan(words, z)
  {
    CutAt(z);
    var c := z[0];
    if c == '[' {
      RunCut(BracketRest, z, 1);
    } else if c == '?' {
      RunCut(Digits, z, 1);
    } else if c == '$' || c == '@' || c == '#' || c == ':' {
      VariableCut(z, 1, false);
    } else if (c == 'x' || c == 'X') && At(z, 1) == '\'' {
      RunCut(HexDigits, z, 2);
      RunCut(BlobRest, z, Run(HexDigits, z, 2));
    } else if IsIdChar(c) {
      RunCut(IdChars, z, 1);
      if IsKeywordStart(c) && IsKeywordChar(At(z, 1)) {
        var n := Run(KeywordChars, z, 2);
        RunCut(KeywordChars, z, 2);
        assert Cut(z)[..n] == z[..n];
        if IsIdChar(At(z, n)) {
          RunCut(IdChars, z, n + 1);
        }
      }
    }
  }

  /** `z2` begins with the first `n` bytes of `z`. */
  predicate Shares(z: string, z2: string, n: nat) {
    n <= |z| && n <= |z2| && z2[..n] == z[..n]
  }

  /** What may follow a token of kind `k` and leave it as it is. */
  predicate MayFollow(k: Kind, c: char) {
    || c == NUL || c == ' ' || c == ')' || c == ','
    || ((c == '.' || c == '(') && (k.ID? || k.STRING? || IsKeyword(k)))
    || k.LP?
    || (k.DOT? && !IsDigit(c))
  }

  lemma SharesAt(z: string, z2: string, n: nat)
    requires Shares(z, z2, n)
    ensures forall m :: 0 <= m < n ==> At(z2, m) == At(z, m)
    ensures n <= EndOf(z) ==> n <= EndOf(z2)
  {
    forall m | 0 <= m < n
      ensures At(z2, m) == At(z, m)
    {
      assert z2[..n][m] == z[..n][m];
    }
  }

  lemma {:induction false} RunLocal(cls: Class, z: string, z2: string, n: nat)
    requires n <= EndOf(z) && Shares(z, z2, Run(cls, z, n)) && !InClass(cls, At(z2, Run(cls, z, n)))
    ensures n <= EndOf(z2) && Run(cls, z2, n) == Run(cls, z, n)
    decreases EndOf(z) - n
  {
    SharesAt(z, z2, Run(cls, z, n));
    if InClass(cls, At(z, n)) {
      RunLocal(cls, z, z2, n + 1);
    }
  }

  lemma {:induction false} QuoteLocal(z: string, z2: string, n: nat, delim: char)
    requires n <= EndOf(z) && delim != NUL && At(z, QuoteEnd(z, n, delim)) == delim
    requires Shares(z, z2, QuoteEnd(z, n, delim) + 1) && At(z2, QuoteEnd(z, n, delim) + 1) != delim
    ensures n <= EndOf(z2) && QuoteEnd(z2, n, delim) == QuoteEnd(z, n, delim)
    decreases EndOf(z) - n
  {
    SharesAt(z, z2, QuoteEnd(z, n, delim) + 1);
    if At(z, n) != delim {
      QuoteLocal(z, z2, n + 1, delim);
    } else if At(z, n + 1) == delim {
      QuoteLocal(z, z2, n + 2, delim);
    }
  }

  lemma {:induction false} VariableLocal(z: string, z2: string, n: nat, named: bool)
    requires 0 < n <= EndOf(z) && VariableFrom(z, n, named).kind.VARIABLE?
    requires Shares(z, z2, VariableFrom(z, n, named).n) && MayFollow(VARIABLE, At(z2, VariableFrom(z, n, named).n))
    ensures n <= EndOf(z2) && VariableFrom(z2, n, named) == VariableFrom(z, n, named)
    decreases EndOf(z) - n
  {
    SharesAt(z, z2, VariableFrom(z, n, named).n);
    var c := At(z, n);
    if IsIdChar(c) {
      VariableLocal(z, z2, n + 1, true);
    } else if c == '(' && named {
      var m := Run(ArgumentRest, z, n + 1);
      assert z2[..m] == z2[..m + 1][..m] == z[..m + 1][..m] == z[..m];
      RunLocal(ArgumentRest, z, z2, n + 1);
    } else if c == ':' && At(z, n + 1) == ':' {
      VariableLocal(z, z2, n + 2, named);
    }
  }

  lemma SharesLess(z: string, z2: string, n: nat, m: nat)
    requires Shares(z, z2, n) && m <= n
    ensures Shares(z, z2, m)
  {
    assert z2[..m] == z2[..n][..m] == z[..n][..m] == z[..m];
  }

  /** The same separators in a shared stretch. */
  lemma SeparatedLocal(z: string, z2: string, n: nat, a: nat, b: nat, kind: Kind)
    requires Shares(z, z2, n) && a <= b <= n
    ensures Separated(z2, a, b, kind) == Separated(z, a, b, kind)
  {
    assert z2[a..b] == z2[..n][a..b] == z[..n][a..b] == z[a..b];
  }

  lemma {:induction false} NumberLocal(z: string, z2: string)
    requires IsDigit(At(z, 0)) || (At(z, 0) == '.' && IsDigit(At(z, 1)))
    requires var s := ScanNumber(z); !s.kind.ILLEGAL? && Shares(z, z2, s.n) && MayFollow(s.kind, At(z2, s.n))
    ensures IsDigit(At(z2, 0)) || (At(z2, 0) == '.' && IsDigit(At(z2, 1)))
    ensures ScanNumber(z2) == ScanNumber(z)
  {
    var s := ScanNumber(z);
    SharesAt(z, z2, s.n);
    if HexNumber(z) {
      RunLocal(HexAndSeparators, z, z2, 3);
      SeparatedLocal(z, z2, s.n, 3, s.n, INTEGER);
      assert HexNumber(z2);
    } else {
      DecimalLocal(z, z2, s.n);
      assert HexNumber(z2) == HexNumber(z);
    }
    RunLocal(IdChars, z, z2, s.n);
  }

  lemma {:induction false} DecimalLocal(z: string, z2: string, n: nat)
    requires IsDigit(At(z, 0)) || (At(z, 0) == '.' && IsDigit(At(z, 1)))
    requires DecimalBody(z).n == n && Shares(z, z2, n) && MayFollow(INTEGER, At(z2, n))
    ensures IsDigit(At(z2, 0)) || (At(z2, 0) == '.' && IsDigit(At(z2, 1)))
    ensures DecimalBody(z2) == DecimalBody(z)
  {
    hide Run, EndOf, Separated, WithFraction, Exponent, Shares;
    SharesAt(z, z2, n);
    var s1 := Whole(z);
    var s2 := WithFraction(z, s1);
    assert Exponent(z, s2).n == n;
    assert At(z2, 0) == At(z, 0);
    assert n > 1 ==> At(z2, 1) == At(z, 1);
    SharesLess(z, z2, n, s1.n);
    RunLocal(DigitsAndSeparators, z, z2, 0);
    SeparatedLocal(z, z2, n, 0, s1.n, INTEGER);
    assert Whole(z2) == s1;
    FractionLocal(z, z2, n, s1);
    ExponentLocal(z, z2, n, s2);
  }

  lemma {:induction false} FractionLocal(z: string, z2: string, n: nat, s: Scanned)
    requires s.n <= EndOf(z) && (s.kind.INTEGER? || s.kind.QNUMBER?)
    requires WithFraction(z, s).n <= n && Shares(z, z2, n) && MayFollow(INTEGER, At(z2, n))
    requires s.n < n || WithFraction(z, s).n == n
    ensures s.n <= EndOf(z2) && WithFraction(z2, s) == WithFraction(z, s)
  {
    hide Run, EndOf, Separated, Shares;
    SharesAt(z, z2, n);
    SharesLess(z, z2, n, s.n);
    SharesAt(z, z2, s.n);
    var r := WithFraction(z, s);
    if At(z, s.n) == '.' {
      assert At(z2, s.n) == '.';
      SharesLess(z, z2, n, r.n);
      RunLocal(DigitsAndSeparators, z, z2, s.n + 1);
      SeparatedLocal(z, z2, n, s.n + 1, r.n, Fraction(s.kind));
    } else {
      assert s.n < n ==> At(z2, s.n) == At(z, s.n);
    }
  }

  lemma {:induction false} ExponentLocal(z: string, z2: string, n: nat, s: Scanned)
    requires s.n <= EndOf(z) && (s.kind.INTEGER? || s.kind.FLOAT? || s.kind.QNUMBER?)
    requires Exponent(z, s).n == n && Shares(z, z2, n) && MayFollow(INTEGER, At(z2, n))
    ensures s.n <= EndOf(z2) && Exponent(z2, s) == Exponent(z, s)
  {
    hide Run, EndOf, Separated, Shares;
    SharesAt(z, z2, n);
    SharesLess(z, z2, n, s.n);
    SharesAt(z, z2, s.n);
    if ExponentAt(z, s.n) {
      assert At(z2, s.n) == At(z, s.n) && At(z2, s.n + 1) == At(z, s.n + 1);
      RunLocal(DigitsAndSeparators, z, z2, s.n + 2);
      SeparatedLocal(z, z2, n, s.n + 2, n, Fraction(s.kind));
    }
  }

  /** A token stays the same wherever its text is followed by something that may follow it. */
  lemma {:induction false} ScanLocal(words: map<string, Kind>, z: string, z2: string)
    requires |z| > 0 && z[0] != NUL && Keywords(words)
    requires !Scan(words, z).kind.ILLEGAL? && !Scan(words, z).kind.SPACE? && !Scan(words, z).kind.COMMENT?
    requires Shares(z, z2, Scan(words, z).n) && MayFollow(Scan(words, z).kind, At(z2, Scan(words, z).n))
    ensures |z2| > 0 && z2[0] == z[0] && Scan(words, z2) == Scan(words, z)
  {
    hide Run, EndOf, Shares, ScanNumber, VariableFrom, QuoteEnd, ScanWord, ScanBlob, Keywords;
    var s := Scan(words, z);
    SharesAt(z, z2, s.n);
    assert At(z2, 0) == At(z, 0);
    SharesOne(z, z2, s.n);
    var c := z[0];
    if IsQuote(c) {
      QuoteLocal(z, z2, 1, c);
    } else if c == '.' || IsDigit(c) {
      if !(c == '.' && !IsDigit(At(z, 1))) {
        NumberLocal(z, z2);
      }
    } else if c == '[' {
      SharesLess(z, z2, s.n, s.n - 1);
      assert At(z2, s.n - 1) == At(z, s.n - 1);
      RunLocal(BracketRest, z, z2, 1);
    } else if c == '?' {
      RunLocal(Digits, z, z2, 1);
    } else if c == '$' || c == '@' || c == '#' || c == ':' {
      VariableLocal(z, z2, 1, false);
    } else if IsIdChar(c) {
      LettersLocal(words, z, z2);
    } else {
      SymbolLocal(z, z2);
    }
  }

  lemma SharesOne(z: string, z2: string, n: nat)
    requires 0 < n && Shares(z, z2, n)
    ensures |z| > 0 && |z2| > 0 && z2[0] == z[0]
  {
    assert z2[..n][0] == z[..n][0];
  }

  /** The fixed-length tokens, with the two that may begin a comment instead. */
  lemma {:induction false} SymbolLocal(z: string, z2: string)
    requires |z| > 0 && |z2| > 0 && z[0] != NUL && z2[0] == z[0]
    requires z[0] !in {'-', '/'} ==> Repeats(z, z2, ScanSymbol(z)) && !ScanSymbol(z).kind.ILLEGAL?
    requires z[0] == '-' ==> Repeats(z, z2, ScanMinus(z)) && !ScanMinus(z).kind.COMMENT?
    requires z[0] == '/' ==> Repeats(z, z2, ScanSlash(z)) && !ScanSlash(z).kind.COMMENT?
    ensures z[0] !in {'-', '/'} ==> ScanSymbol(z2) == ScanSymbol(z)
    ensures z[0] == '-' ==> ScanMinus(z2) == ScanMinus(z)
    ensures z[0] == '/' ==> ScanSlash(z2) == ScanSlash(z)
  {
    hide Run, EndOf, Shares, BlockEnd;
  }

  /** `z2` has the token's text and then something that may follow it. */
  ghost predicate Repeats(z: string, z2: string, s: Scanned) {
    && MayFollow(s.kind, At(z2, s.n))
    && forall m :: 0 <= m < s.n ==> At(z2, m) == At(z, m)
  }

  lemma {:induction false} LettersLocal(words: map<string, Kind>, z: string, z2: string)
    requires |z| > 0 && |z2| > 0 && z2[0] == z[0] && IsIdChar(z[0]) && !IsDigit(z[0]) && z[0] != '$' && Keywords(words)
    requires !Scan(words, z).kind.ILLEGAL? && !Scan(words, z).kind.SPACE?
    requires Shares(z, z2, Scan(words, z).n) && MayFollow(Scan(words, z).kind, At(z2, Scan(words, z).n))
    ensures Scan(words, z2) == Scan(words, z)
  {
    hide Run, EndOf, Shares, ScanWord, ScanBlob, Keywords;
    var s := Scan(words, z);
    SharesAt(z, z2, s.n);
    assert s.n > 1 ==> At(z2, 1) == At(z, 1);
    assert s.n > 2 ==> At(z2, 2) == At(z, 2);
    var c := z[0];
    if (c == 'x' || c == 'X') && At(z, 1) == '\'' {
      BlobLocal(z, z2);
    } else if IsKeywordStart(c) {
      WordLocal(words, z, z2);
    } else {
      RunLocal(IdChars, z, z2, 1);
    }
  }

  lemma {:induction false} BlobLocal(z: string, z2: string)
    requires |z| > 0 && |z2| > 0 && z[0] != NUL && z2[0] == z[0] && At(z, 1) == '\''
    requires ScanBlob(z).kind.BLOB? && Shares(z, z2, ScanBlob(z).n)
    ensures At(z2, 1) == '\'' && ScanBlob(z2) == ScanBlob(z)
  {
    hide Run, EndOf, Shares;
    var s := ScanBlob(z);
    SharesAt(z, z2, s.n);
    SharesLess(z, z2, s.n, s.n - 1);
    assert At(z2, s.n - 1) == At(z, s.n - 1) && At(z2, 1) == At(z, 1);
    RunLocal(HexDigits, z, z2, 2);
  }

  lemma {:induction false} WordLocal(words: map<string, Kind>, z: string, z2: string)
    requires |z| > 0 && |z2| > 0 && z2[0] == z[0] && IsKeywordStart(z[0])
    requires Shares(z, z2, ScanWord(words, z).n) && MayFollow(ScanWord(words, z).kind, At(z2, ScanWord(words, z).n))
    requires Keywords(words)
    ensures ScanWord(words, z2) == ScanWord(words, z)
  {
    hide Run, EndOf, Shares;
    var s := ScanWord(words, z);
    SharesAt(z, z2, s.n);
    assert s.n > 1 ==> At(z2, 1) == At(z, 1);
    if IsKeywordChar(At(z, 1)) {
      var n := Run(KeywordChars, z, 2);
      SharesLess(z, z2, s.n, n);
      assert n < s.n ==> At(z2, n) == At(z, n);
      if IsIdChar(At(z, n)) {
        RunLocal(KeywordChars, z, z2, 2);
        RunLocal(IdChars, z, z2, n + 1);
      } else {
        LookupIsWord(words, z[..n]);
        RunLocal(KeywordChars, z, z2, 2);
        SharesText(z, z2, n);
      }
    } else {
      RunLocal(IdChars, z, z2, 1);
    }
  }

  lemma SharesText(z: string, z2: string, n: nat)
    requires Shares(z, z2, n)
    ensures n <= |z| && n <= |z2| && z2[..n] == z[..n]
  {
  }

  lemma LookupIsWord(words: map<string, Kind>, name: string)
    requires Keywords(words)
    ensures Lookup(words, name).ID? || IsKeyword(Lookup(words, name))
  {
  }
}
