/** The token kinds the expression grammar distinguishes, and the token classes
    built from them (token/token.go, token/keywords.go). */
module Token {

  /** A kind per token code the modelled code tests by name. The other keywords differ
      only in whether they are in the fallback set, so they share two constructors. */
  datatype Kind =
    | EOF | SPACE | COMMENT | ILLEGAL
    | ID | STRING | INTEGER | FLOAT | BLOB | VARIABLE | QNUMBER
    | LP | RP | SEMI | COMMA | DOT | PLUS | MINUS | STAR | SLASH | REM
    | EQ | NE | LT | LE | GT | GE | LSHIFT | RSHIFT | BITAND | BITOR | BITNOT | CONCAT | PTR
    | ALL | AND | AS | BETWEEN | CASE | CAST | COLLATE | CTIME_KW | DISTINCT | END | ELSE
    | ESCAPE | EXISTS | FILTER | FROM | IN | INDEXED | IS | ISNULL | JOIN_KW | LIKE_KW
    | MATCH | NOT | NOTNULL | NULL | OR | ORDER | OVER | RAISE | SELECT | THEN | VALUES
    | WHEN | WINDOW | WITH
    | FallbackKw(code: nat)  // any other keyword that falls back to ID
    | ReservedKw(code: nat)  // any other keyword that does not

  /** True for the kinds a keyword table may map a word to. */
  predicate IsKeyword(k: Kind) {
    k !in {EOF, SPACE, COMMENT, ILLEGAL, ID, STRING, INTEGER, FLOAT, BLOB, VARIABLE, QNUMBER,
           LP, RP, SEMI, COMMA, DOT, PLUS, MINUS, STAR, SLASH, REM,
           EQ, NE, LT, LE, GT, GE, LSHIFT, RSHIFT, BITAND, BITOR, BITNOT, CONCAT, PTR}
  }

  /** The %fallback set: keywords re-read as identifiers where they have no action of their own. */
  predicate CanFallback(k: Kind) {
    k.CAST? || k.CTIME_KW? || k.END? || k.LIKE_KW? || k.MATCH? || k.RAISE? || k.WITH? || k.FallbackKw?
  }

  predicate IsIDS(k: Kind) {
    k.ID? || k.STRING? || CanFallback(k)
  }

  predicate IsIDJ(k: Kind) {
    k.ID? || k.INDEXED? || k.JOIN_KW? || CanFallback(k)
  }

  predicate IsName(k: Kind) {
    IsIDJ(k) || k.STRING?
  }

  /** A token with its spelling: what the parser can observe of it apart from its position. */
  datatype Lexeme = Lexeme(kind: Kind, text: string)

  /** A token as the lexer returns it: a kind and a byte range. */
  datatype SourceToken = SourceToken(kind: Kind, pos: nat, end: nat)

  /** The tokens from the lookahead on. `End` is the EOF token that closes every token slice. */
  datatype Toks = End | Cons(head: Lexeme, tail: Toks)

  function Len(ts: Toks): nat {
    if ts.End? then 0 else 1 + Len(ts.tail)
  }

  /** The kind of the lookahead. */
  function Cur(ts: Toks): Kind {
    if ts.End? then EOF else ts.head.kind
  }

  /** The kind one past the lookahead, clamped to EOF. */
  function Peek(ts: Toks): Kind {
    if ts.End? then EOF else Cur(ts.tail)
  }

  function Text(ts: Toks): string {
    if ts.End? then "" else ts.head.text
  }
}
