/** The tokenizer's rules (lexer/lexer.go), as functions of the text from a token's first byte
    on. A byte is a `char`; as in the source, the text reads as NUL past its end. */
module Scanner {
  import opened Token
  import opened Chars

  const NUL: char := '\0'

  function At(z: string, off: nat): char { if off < |z| then z[off] else NUL }

  /** Where the input ends: its first NUL, or its length. */
  function EndOf(z: string): (n: nat)
    ensures n <= |z| && At(z, n) == NUL
    ensures forall m :: 0 <= m < n ==> z[m] != NUL
  {
    if z == "" || z[0] == NUL then 0 else 1 + EndOf(z[1..])
  }

  predicate IsSpace(c: char) { c == ' ' || 9 <= c as int <= 13 }

  /** What may begin a run of spaces: not the vertical tab, which only goes on with one. */
  predicate IsSpaceStart(c: char) { IsSpace(c) && c as int != 11 }

  predicate IsAlpha(c: char) { 'a' <= c <= 'z' || 'A' <= c <= 'Z' }

  predicate IsIdChar(c: char) { IsAlpha(c) || IsDigit(c) || c == '_' || c == '$' || c as int >= 0x80 }

  predicate IsKeywordStart(c: char) { IsAlpha(c) && c != 'x' && c != 'X' }

  predicate IsKeywordChar(c: char) { IsAlpha(c) || c == '_' }

  /** What the scanning loops run over. No class has NUL in it. */
  datatype Class =
    | Spaces | Digits | HexDigits | IdChars | KeywordChars
    | DigitsAndSeparators | HexAndSeparators
    | LineRest      // up to the end of a line
    | BracketRest   // up to a closing square bracket
    | BlobRest      // up to a closing quote
    | ArgumentRest  // up to a closing bracket or a space

  predicate InClass(cls: Class, c: char) {
    match cls
    case Spaces => IsSpace(c)
    case Digits => IsDigit(c)
    case HexDigits => IsHex(c)
    case IdChars => IsIdChar(c)
    case KeywordChars => IsKeywordChar(c)
    case DigitsAndSeparators => IsDigit(c) || c == '_'
    case HexAndSeparators => IsHex(c) || c == '_'
    case LineRest => c != NUL && c != '\n'
    case BracketRest => c != NUL && c != ']'
    case BlobRest => c != NUL && c != '\''
    case ArgumentRest => c != NUL && !IsSpace(c) && c != ')'
  }

  /** Where the run of `cls` from `n` on ends. */
  function Run(cls: Class, z: string, n: nat): (r: nat)
    requires n <= EndOf(z)
    ensures n <= r <= EndOf(z) && !InClass(cls, At(z, r))
    decreases EndOf(z) - n
  {
    if InClass(cls, At(z, n)) then Run(cls, z, n + 1) else n
  }

  /** A token's kind and length. */
  datatype Scanned = Scanned(kind: Kind, n: nat)

  function Upper(c: char): char { if 'a' <= c <= 'z' then (c as int - 32) as char else c }

  function UpperCase(s: string): (r: string)
    ensures |r| == |s| && forall j :: 0 <= j < |s| ==> r[j] == Upper(s[j])
  {
    seq(|s|, j requires 0 <= j < |s| => Upper(s[j]))
  }

  /** A word's kind: that of the keyword it spells in any case, or ID. */
  function Lookup(words: map<string, Kind>, name: string): Kind {
    if UpperCase(name) in words then words[UpperCase(name)] else ID
  }

  /** A keyword map maps to keyword kinds. */
  ghost predicate Keywords(words: map<string, Kind>) { forall w :: w in words ==> IsKeyword(words[w]) }

  /** The token at the start of `z`. */
  function Scan(words: map<string, Kind>, z: string): (s: Scanned)
    requires |z| > 0
    ensures s.n <= EndOf(z) && (s.n == 0 <==> z[0] == NUL)
    ensures s.kind.EOF? && Keywords(words) ==> z[0] == NUL
  {
    var c := z[0];
    if c == NUL then Scanned(EOF, 0)
    else if IsSpaceStart(c) then Scanned(SPACE, Run(Spaces, z, 1))
    else if c == '-' then ScanMinus(z)
    else if c == '/' then ScanSlash(z)
    else if IsQuote(c) then ScanQuoted(z)
    else if c == '.' && !IsDigit(At(z, 1)) then Scanned(DOT, 1)
    else if c == '.' || IsDigit(c) then ScanNumber(z)
    else if c == '[' then ScanBracketed(z)
    else if c == '?' then Scanned(VARIABLE, Run(Digits, z, 1))
    else if c == '$' || c == '@' || c == '#' || c == ':' then VariableFrom(z, 1, false)
    else if (c == 'x' || c == 'X') && At(z, 1) == '\'' then ScanBlob(z)
    else if c as int == 0xef && At(z, 1) as int == 0xbb && At(z, 2) as int == 0xbf then Scanned(SPACE, 3)
    else if IsKeywordStart(c) then ScanWord(words, z)
    else if IsIdChar(c) then Scanned(ID, Run(IdChars, z, 1))
    else ScanSymbol(z)
  }

  function ScanMinus(z: string): (s: Scanned)
    requires |z| > 0 && z[0] == '-'
    ensures 0 < s.n <= EndOf(z) && !s.kind.EOF?
  {
    if At(z, 1) == '-' then Scanned(COMMENT, Run(LineRest, z, 2))
    else if At(z, 1) == '>' then Scanned(PTR, if At(z, 2) == '>' then 3 else 2)
    else Scanned(MINUS, 1)
  }

  function ScanSlash(z: string): (s: Scanned)
    requires |z| > 0 && z[0] == '/'
    ensures 0 < s.n <= EndOf(z) && !s.kind.EOF?
  {
    if At(z, 1) != '*' || At(z, 2) == NUL then Scanned(SLASH, 1)
    else Scanned(COMMENT, BlockEnd(z, 3))
  }

  /** Past the "*" "/" that ends a comment, or the end of the input. */
  function BlockEnd(z: string, n: nat): (r: nat)
    requires 0 < n <= EndOf(z)
    ensures n <= r <= EndOf(z)
    decreases EndOf(z) - n
  {
    if At(z, n - 1) == '*' && At(z, n) == '/' then n + 1
    else if At(z, n) == NUL then n
    else BlockEnd(z, n + 1)
  }

  predicate IsQuote(c: char) { c == '\'' || c == '"' || c == '`' }

  /** The closing delimiter, skipping doubled ones, or the end of the input. */
  function QuoteEnd(z: string, n: nat, delim: char): (r: nat)
    requires n <= EndOf(z) && delim != NUL
    ensures n <= r <= EndOf(z) && (At(z, r) == NUL || (At(z, r) == delim && At(z, r + 1) != delim))
    decreases EndOf(z) - n
  {
    if At(z, n) == NUL then n
    else if At(z, n) != delim then QuoteEnd(z, n + 1, delim)
    else if At(z, n + 1) == delim then QuoteEnd(z, n + 2, delim)
    else n
  }

  function ScanQuoted(z: string): (s: Scanned)
    requires |z| > 0 && IsQuote(z[0])
    ensures 0 < s.n <= EndOf(z) && !s.kind.EOF?
  {
    var n := QuoteEnd(z, 1, z[0]);
    if At(z, n) == '\'' then Scanned(STRING, n + 1)
    else if At(z, n) != NUL then Scanned(ID, n + 1)
    else Scanned(ILLEGAL, n)
  }

  function ScanBracketed(z: string): (s: Scanned)
    requires |z| > 0 && z[0] == '['
    ensures 0 < s.n <= EndOf(z) && !s.kind.EOF?
  {
    var n := Run(BracketRest, z, 1);
    if At(z, n) == ']' then Scanned(ID, n + 1) else Scanned(ILLEGAL, n)
  }

  function ScanBlob(z: string): (s: Scanned)
    requires |z| > 0 && z[0] != NUL && At(z, 1) == '\''
    ensures 0 < s.n <= EndOf(z) && (s.kind.BLOB? || s.kind.ILLEGAL?)
  {
    var n := Run(HexDigits, z, 2);
    if At(z, n) == '\'' && n % 2 == 0 then Scanned(BLOB, n + 1)
    else
      var m := Run(BlobRest, z, n);
      Scanned(ILLEGAL, if At(z, m) != NUL then m + 1 else m)
  }

  /** A run of letters is looked up, unless an identifier goes on after it. */
  function ScanWord(words: map<string, Kind>, z: string): (s: Scanned)
    requires |z| > 0 && IsKeywordStart(z[0])
    ensures 0 < s.n <= EndOf(z)
    ensures Keywords(words) ==> !s.kind.EOF?
  {
    if !IsKeywordChar(At(z, 1)) then Scanned(ID, Run(IdChars, z, 1))
    else
      var n := Run(KeywordChars, z, 2);
      if IsIdChar(At(z, n)) then Scanned(ID, Run(IdChars, z, n + 1))
      else Scanned(Lookup(words, z[..n]), n)
  }

  /** A separator between `a` and `b` makes any number a QNUMBER. */
  function Separated(z: string, a: nat, b: nat, kind: Kind): Kind
    requires a <= b <= |z|
  {
    if '_' in z[a..b] then QNUMBER else kind
  }

  function Fraction(kind: Kind): Kind { if kind.INTEGER? then FLOAT else kind }

  predicate ExponentAt(z: string, n: nat) {
    && (At(z, n) == 'e' || At(z, n) == 'E')
    && (IsDigit(At(z, n + 1)) || ((At(z, n + 1) == '+' || At(z, n + 1) == '-') && IsDigit(At(z, n + 2))))
  }

  predicate HexNumber(z: string) {
    At(z, 0) == '0' && (At(z, 1) == 'x' || At(z, 1) == 'X') && IsHex(At(z, 2))
  }

  function ScanNumber(z: string): (s: Scanned)
    requires IsDigit(At(z, 0)) || (At(z, 0) == '.' && IsDigit(At(z, 1)))
    ensures 0 < s.n <= EndOf(z) && !s.kind.EOF?
  {
    var body := if HexNumber(z) then HexBody(z) else DecimalBody(z);
    var n := Run(IdChars, z, body.n);
    Scanned(if n > body.n then ILLEGAL else body.kind, n)
  }

  function HexBody(z: string): (s: Scanned)
    requires HexNumber(z)
    ensures 0 < s.n <= EndOf(z) && (s.kind.INTEGER? || s.kind.QNUMBER?)
  {
    var n := Run(HexAndSeparators, z, 3);
    Scanned(Separated(z, 3, n, INTEGER), n)
  }

  /** The whole part, the fraction, the exponent. */
  function DecimalBody(z: string): (s: Scanned)
    requires IsDigit(At(z, 0)) || (At(z, 0) == '.' && IsDigit(At(z, 1)))
    ensures 0 < s.n <= EndOf(z) && (s.kind.INTEGER? || s.kind.FLOAT? || s.kind.QNUMBER?)
  {
    Exponent(z, WithFraction(z, Whole(z)))
  }

  function Whole(z: string): (s: Scanned)
    requires IsDigit(At(z, 0)) || (At(z, 0) == '.' && IsDigit(At(z, 1)))
    ensures s.n <= EndOf(z) && (s.kind.INTEGER? || s.kind.QNUMBER?)
    ensures s.n == 0 ==> At(z, 0) == '.'
  {
    var n := Run(DigitsAndSeparators, z, 0);
    Scanned(Separated(z, 0, n, INTEGER), n)
  }

  function WithFraction(z: string, s: Scanned): (r: Scanned)
    requires s.n <= EndOf(z) && (s.kind.INTEGER? || s.kind.QNUMBER?)
    ensures s.n <= r.n <= EndOf(z) && (At(z, s.n) == '.' ==> s.n < r.n)
    ensures At(z, s.n) == '.' && IsDigit(At(z, s.n + 1)) ==> s.n + 1 < r.n
    ensures r.kind.INTEGER? || r.kind.FLOAT? || r.kind.QNUMBER?
  {
    if At(z, s.n) == '.' then
      var n := Run(DigitsAndSeparators, z, s.n + 1);
      Scanned(Separated(z, s.n + 1, n, Fraction(s.kind)), n)
    else s
  }

  function Exponent(z: string, s: Scanned): (r: Scanned)
    requires s.n <= EndOf(z) && (s.kind.INTEGER? || s.kind.FLOAT? || s.kind.QNUMBER?)
    ensures s.n <= r.n <= EndOf(z) && (r.kind.INTEGER? || r.kind.FLOAT? || r.kind.QNUMBER?)
  {
    if ExponentAt(z, s.n) then
      var n := Run(DigitsAndSeparators, z, s.n + 2);
      Scanned(Separated(z, s.n + 2, n, Fraction(s.kind)), n)
    else s
  }

  /** A parameter's name: identifier characters and "::" pairs, then perhaps "(...)".
      `named` says whether an identifier character was seen. */
  function VariableFrom(z: string, n: nat, named: bool): (s: Scanned)
    requires 0 < n <= EndOf(z)
    ensures n <= s.n <= EndOf(z) && (s.kind.VARIABLE? || s.kind.ILLEGAL?)
    decreases EndOf(z) - n
  {
    var c := At(z, n);
    if IsIdChar(c) then VariableFrom(z, n + 1, true)
    else if c == '(' && named then
      var m := Run(ArgumentRest, z, n + 1);
      if At(z, m) == ')' then Scanned(VARIABLE, m + 1) else Scanned(ILLEGAL, m)
    else if c == ':' && At(z, n + 1) == ':' then VariableFrom(z, n + 2, named)
    else Scanned(if named then VARIABLE else ILLEGAL, n)
  }

  /** Operators and punctuation; anything else is illegal. */
  function ScanSymbol(z: string): (s: Scanned)
    requires |z| > 0 && z[0] != NUL
    ensures 0 < s.n <= EndOf(z) && !s.kind.EOF?
  {
    var c, d := z[0], At(z, 1);
    if c == '(' then Scanned(LP, 1)
    else if c == ')' then Scanned(RP, 1)
    else if c == ';' then Scanned(SEMI, 1)
    else if c == '+' then Scanned(PLUS, 1)
    else if c == '*' then Scanned(STAR, 1)
    else if c == '%' then Scanned(REM, 1)
    else if c == ',' then Scanned(COMMA, 1)
    else if c == '&' then Scanned(BITAND, 1)
    else if c == '~' then Scanned(BITNOT, 1)
    else if c == '=' then Scanned(EQ, if d == '=' then 2 else 1)
    else if c == '<' then
      (if d == '=' then Scanned(LE, 2) else if d == '>' then Scanned(NE, 2)
       else if d == '<' then Scanned(LSHIFT, 2) else Scanned(LT, 1))
    else if c == '>' then
      (if d == '=' then Scanned(GE, 2) else if d == '>' then Scanned(RSHIFT, 2) else Scanned(GT, 1))
    else if c == '!' then (if d == '=' then Scanned(NE, 2) else Scanned(ILLEGAL, 1))
    else if c == '|' then (if d == '|' then Scanned(CONCAT, 2) else Scanned(BITOR, 1))
    else Scanned(ILLEGAL, 1)
  }
}
