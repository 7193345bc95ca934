/** Expression trees without positions (ast/expr.go). */
module Ast {
  import opened Token

  datatype Operator =
    | OpOr | OpAnd | OpEq | OpNe | OpLt | OpLe | OpGt | OpGe
    | OpBitAnd | OpBitOr | OpLShift | OpRShift | OpAdd | OpSub | OpMul | OpDiv | OpMod
    | OpConcat | OpPtr | OpPtr2

  datatype Prefix = OpNot | OpBitNot | OpPlus | OpMinus

  datatype NullTest = TestIsNull | TestNotNull | TestNotNullWords

  /** A name of one or two parts: QualifiedName. */
  datatype TableName = Bare(name: Lexeme) | Dotted(schema: Lexeme, name: Lexeme)

  /** The right-hand side of IN: a bracketed list, or a table with optional arguments. */
  datatype InSet =
    | InList(list: Exprs)
    | InTable(table: TableName)
    | InTableArgs(table: TableName, args: Exprs)

  /** The argument part of a function call. */
  datatype CallArgs = StarArg | Args(quantifier: Quantifier, list: Exprs)

  datatype Quantifier = NoQuantifier | Distinct | All

  datatype OptExpr = None | Some(expr: Expr)

  datatype Exprs = Nil | More(head: Expr, tail: Exprs)

  datatype Whens = NoWhens | When(cond: Expr, value: Expr, rest: Whens)

  /** What stands without an operator. */
  datatype Primary =
    | Ident(name: Lexeme)
    | QualifiedRef2(first: Lexeme, second: Lexeme)
    | QualifiedRef3(first: Lexeme, second: Lexeme, third: Lexeme)
    | Literal(lit: Lexeme)
    | BindParam(param: Lexeme)
    | Case(operand: OptExpr, whens: Whens, otherwise: OptExpr)
    | Bracket(list: Exprs)  // ParenExpr of one element, VectorExpr of more
    | Call(name: Lexeme, args: CallArgs)

  /** An infix or postfix operator with everything to the right of its left operand. */
  datatype Suffix =
    | Binary(op: Operator, y: Expr)
    | Collate(collation: Lexeme)
    | Like(negated: bool, like: Lexeme, y: Expr, escape: OptExpr)
    | Is(negated: bool, distinct: bool, y: Expr)
    | NullCheck(test: NullTest)
    | Between(negated: bool, lo: Expr, hi: Expr)
    | In(negated: bool, target: InSet)

  /** The nodes of ast/expr.go, each operator node split into its left operand and the rest,
      which is how the climbing loop grows them. Content tokens (names, literals, parameters,
      LIKE operators) are kept as spelled; the shape determines every other token. */
  datatype Expr =
    | Atom(p: Primary)
    | Unary(pre: Prefix, x: Expr)
    | Apply(x: Expr, s: Suffix)

  /** The token kind an infix operator is written with. */
  function OperatorKind(op: Operator): Kind {
    match op
    case OpOr => OR
    case OpAnd => AND
    case OpEq => EQ
    case OpNe => NE
    case OpLt => LT
    case OpLe => LE
    case OpGt => GT
    case OpGe => GE
    case OpBitAnd => BITAND
    case OpBitOr => BITOR
    case OpLShift => LSHIFT
    case OpRShift => RSHIFT
    case OpAdd => PLUS
    case OpSub => MINUS
    case OpMul => STAR
    case OpDiv => SLASH
    case OpMod => REM
    case OpConcat => CONCAT
    case OpPtr => PTR
    case OpPtr2 => PTR
  }

  function PrefixKind(pre: Prefix): Kind {
    match pre
    case OpNot => NOT
    case OpBitNot => BITNOT
    case OpPlus => PLUS
    case OpMinus => MINUS
  }
}
