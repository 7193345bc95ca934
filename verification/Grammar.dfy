/** What each function of parser/parse_expr.go computes, as a function of the engine state.

    `room` is how many more `enter` calls fit below maxDepth; `leave` is implicit, since a
    callee's room is its own. Every function promises `Steps`. */
module Grammar {
  import opened Token
  import opened Ast
  import opened Engine
  import Digits

  const LOWEST := 0
  const AFTER_NOT := 4
  const AFTER_COMPARE := 5
  const AFTER_UNARY := 13

  /** The precedence of an infix operator, 0 for every other kind. */
  function InfixPrec(k: Kind): nat {
    match k
    case OR => 1
    case AND => 2
    case EQ => 4
    case NE => 4
    case LT => 5
    case LE => 5
    case GT => 5
    case GE => 5
    case BITAND => 7
    case BITOR => 7
    case LSHIFT => 7
    case RSHIFT => 7
    case PLUS => 8
    case MINUS => 8
    case STAR => 9
    case SLASH => 9
    case REM => 9
    case CONCAT => 10
    case PTR => 10
    case _ => 0
  }

  /** The operator of an infix token; "->" and "->>" share a kind and differ in their text. */
  function InfixOperator(t: Lexeme): Operator
    requires InfixPrec(t.kind) > 0
  {
    match t.kind
    case OR => OpOr
    case AND => OpAnd
    case EQ => OpEq
    case NE => OpNe
    case LT => OpLt
    case LE => OpLe
    case GT => OpGt
    case GE => OpGe
    case BITAND => OpBitAnd
    case BITOR => OpBitOr
    case LSHIFT => OpLShift
    case RSHIFT => OpRShift
    case PLUS => OpAdd
    case MINUS => OpSub
    case STAR => OpMul
    case SLASH => OpDiv
    case REM => OpMod
    case CONCAT => OpConcat
    case PTR => if t.text == "->>" then OpPtr2 else OpPtr
  }

  /** The precedence of the operator the tokens start with, 0 if they start with none.
      NOT is one only as the first word of a negated postfix form, and "NOT NULL" binds
      weaker than the others. */
  function Prec(ts: Toks): nat {
    var k := Cur(ts);
    if InfixPrec(k) > 0 then InfixPrec(k)
    else if k.COLLATE? then 11
    else if k.ISNULL? || k.NOTNULL? || k.IS? || k.LIKE_KW? || k.MATCH? || k.BETWEEN? || k.IN? then 4
    else if k.NOT? then (if Peek(ts).NULL? then 3 else 4)
    else 0
  }

  /** Whether the climbing loop at level `min` takes another operator. */
  predicate Continues(ts: Toks, min: nat, stopAtAnd: bool) {
    Prec(ts) > 0 && Prec(ts) >= min && !(stopAtAnd && Cur(ts).AND?)
  }

  function ParseExpr(st: State, room: nat, min: nat): (r: Outcome<Expr>)
    requires Good(st)
    ensures Steps(st, r)
    decreases Len(st.ts), 6
  {
    if room == 0 then Err(Error(RecursionLimit, Len(st.ts)))
    else
      var (x, s1) :- ParsePrefix(st, room - 1);
      ParseOperators(s1, room - 1, x, min, false)
  }

  function ParseBetweenBound(st: State, room: nat): (r: Outcome<Expr>)
    requires Good(st)
    ensures Steps(st, r)
    decreases Len(st.ts), 6
  {
    if room == 0 then Err(Error(RecursionLimit, Len(st.ts)))
    else
      var (x, s1) :- ParsePrefix(st, room - 1);
      ParseOperators(s1, room - 1, x, 1, true)
  }

  /** The prefix operator a token kind is, if any. */
  function PrefixOf(k: Kind): (p: seq<Prefix>)
    ensures |p| <= 1
  {
    if k.NOT? then [OpNot]
    else if k.BITNOT? then [OpBitNot]
    else if k.PLUS? then [OpPlus]
    else if k.MINUS? then [OpMinus]
    else []
  }

  /** The level a prefix operator parses its operand at. */
  function PrefixMin(pre: Prefix): nat {
    if pre.OpNot? then AFTER_NOT else AFTER_UNARY
  }

  function ParsePrefix(st: State, room: nat): (r: Outcome<Expr>)
    requires Good(st)
    ensures Steps(st, r)
    decreases Len(st.ts), 5
  {
    var pre := PrefixOf(Cur(st.ts));
    if pre == [] then ParsePrimary(st, room)
    else
      var (_, s1) :- Advance(st);
      var (x, s2) :- ParseExpr(s1, room, PrefixMin(pre[0]));
      Ok(Unary(pre[0], x), s2)
  }

  function ParseOperators(st: State, room: nat, x: Expr, min: nat, stopAtAnd: bool): (r: Outcome<Expr>)
    requires Good(st)
    ensures r == Ok(x, st) || Steps(st, r)
    decreases Len(st.ts), 5
  {
    if !Continues(st.ts, min, stopAtAnd) then Ok(x, st)
    else
      var (s, s1) :- ParseSuffix(st, room);
      ParseOperators(s1, room, Apply(x, s), min, stopAtAnd)
  }

  /** One turn of the climbing loop: the operator at the lookahead and its right side. */
  function ParseSuffix(st: State, room: nat): (r: Outcome<Suffix>)
    requires Good(st) && Prec(st.ts) > 0
    ensures Steps(st, r)
    decreases Len(st.ts), 4
  {
    var k := Cur(st.ts);
    var (_, s1) :- Advance(st);
    if InfixPrec(k) > 0 then
      var (y, s2) :- ParseExpr(s1, room, InfixPrec(k) + 1);
      Ok(Binary(InfixOperator(st.ts.head), y), s2)
    else if k.COLLATE? then
      var (name, s2) :- ExpectIDS(s1);
      Ok(Collate(name), s2)
    else if k.ISNULL? then Ok(NullCheck(TestIsNull), s1)
    else if k.NOTNULL? then Ok(NullCheck(TestNotNull), s1)
    else if k.IS? then ParseIs(s1, room)
    else if k.BETWEEN? then ParseBetween(s1, room, false)
    else if k.IN? then ParseIn(s1, room, false)
    else if k.NOT? then ParseNegated(s1, room)
    else ParseLike(s1, room, false, st.ts.head)
  }

  /** The postfix forms that begin with NOT, after it. */
  function ParseNegated(st: State, room: nat): (r: Outcome<Suffix>)
    requires Good(st)
    ensures Steps(st, r)
    decreases Len(st.ts), 7
  {
    var k := Cur(st.ts);
    if k.NULL? || k.LIKE_KW? || k.MATCH? || k.BETWEEN? || k.IN? then
      var (t, s1) :- Advance(st);
      if k.NULL? then Ok(NullCheck(TestNotNullWords), s1)
      else if k.BETWEEN? then ParseBetween(s1, room, true)
      else if k.IN? then ParseIn(s1, room, true)
      else ParseLike(s1, room, true, t)
    else
      Err(SyntaxError(st))
  }

  /** After IS: the NOT is taken whenever it is there. */
  function ParseIs(st: State, room: nat): (r: Outcome<Suffix>)
    requires Good(st)
    ensures Steps(st, r)
    decreases Len(st.ts), 8
  {
    if Cur(st.ts).NOT? then
      var (_, s1) :- Advance(st);
      ParseIsOperand(s1, room, true)
    else
      ParseIsOperand(st, room, false)
  }

  function ParseIsOperand(st: State, room: nat, negated: bool): (r: Outcome<Suffix>)
    requires Good(st)
    ensures Steps(st, r)
    decreases Len(st.ts), 7
  {
    if Cur(st.ts).DISTINCT? then
      var (_, s1) :- Advance(st);
      var (_, s2) :- Expect(s1, FROM);
      var (y, s3) :- ParseExpr(s2, room, AFTER_COMPARE);
      Ok(Is(negated, true, y), s3)
    else
      var (y, s1) :- ParseExpr(st, room, AFTER_COMPARE);
      Ok(Is(negated, false, y), s1)
  }

  /** After the LIKE token: an ESCAPE that follows the pattern belongs to this LIKE. */
  function ParseLike(st: State, room: nat, negated: bool, like: Lexeme): (r: Outcome<Suffix>)
    requires Good(st)
    ensures Steps(st, r)
    decreases Len(st.ts), 7
  {
    var (y, s1) :- ParseExpr(st, room, AFTER_COMPARE);
    if Cur(s1.ts).ESCAPE? then
      var (_, s2) :- Advance(s1);
      var (e, s3) :- ParseExpr(s2, room, AFTER_COMPARE);
      Ok(Like(negated, like, y, Some(e)), s3)
    else
      Ok(Like(negated, like, y, None), s1)
  }

  function ParseBetween(st: State, room: nat, negated: bool): (r: Outcome<Suffix>)
    requires Good(st)
    ensures Steps(st, r)
    decreases Len(st.ts), 7
  {
    var (lo, s1) :- ParseBetweenBound(st, room);
    var (_, s2) :- Expect(s1, AND);
    var (hi, s3) :- ParseExpr(s2, room, AFTER_COMPARE);
    Ok(Between(negated, lo, hi), s3)
  }

  /** Tokens that can begin a "select", which this model leaves out. */
  predicate AtSelect(k: Kind) {
    k.SELECT? || k.VALUES? || k.WITH?
  }

  function LeftOut(st: State): Error { Error(OutOfFragment, Len(st.ts)) }

  function ParseIn(st: State, room: nat, negated: bool): (r: Outcome<Suffix>)
    requires Good(st)
    ensures Steps(st, r)
    decreases Len(st.ts), 7
  {
    if Cur(st.ts).LP? then
      var (_, s1) :- Advance(st);
      if AtSelect(Cur(s1.ts)) then Err(LeftOut(s1))
      else
        var (list, s2) :- ParseArguments(s1, room);
        Ok(In(negated, InList(list)), s2)
    else
      var (table, s1) :- ParseTableName(st);
      if Cur(s1.ts).LP? then
        var (_, s2) :- Advance(s1);
        var (args, s3) :- ParseArguments(s2, room);
        Ok(In(negated, InTableArgs(table, args)), s3)
      else
        Ok(In(negated, InTable(table)), s1)
  }

  /** A possibly empty expression list and its closing bracket. */
  function ParseArguments(st: State, room: nat): (r: Outcome<Exprs>)
    requires Good(st)
    ensures Steps(st, r)
    decreases Len(st.ts), 8
  {
    if Cur(st.ts).RP? then
      var (_, s1) :- Advance(st);
      Ok(Nil, s1)
    else
      var (list, s1) :- ParseExprList(st, room);
      var (_, s2) :- Expect(s1, RP);
      Ok(list, s2)
  }

  function ParseTableName(st: State): (r: Outcome<TableName>)
    requires Good(st)
    ensures Steps(st, r)
  {
    var (first, s1) :- ExpectName(st);
    if Cur(s1.ts).DOT? then
      var (_, s2) :- Advance(s1);
      var (second, s3) :- ExpectName(s2);
      Ok(Dotted(first, second), s3)
    else
      Ok(Bare(first), s1)
  }

  function ParseExprList(st: State, room: nat): (r: Outcome<Exprs>)
    requires Good(st)
    ensures Steps(st, r)
    ensures r.Ok? ==> r.value.More?
    decreases Len(st.ts), 7
  {
    var (x, s1) :- ParseExpr(st, room, LOWEST);
    if Cur(s1.ts).COMMA? then
      var (_, s2) :- Advance(s1);
      var (rest, s3) :- ParseExprList(s2, room);
      Ok(More(x, rest), s3)
    else
      Ok(More(x, Nil), s1)
  }

  /** The literal kinds parsePrimary takes whatever follows them. STRING is one only when no
      DOT follows. */
  predicate IsLiteralKind(k: Kind) {
    k.NULL? || k.INTEGER? || k.FLOAT? || k.BLOB? || k.QNUMBER? || k.CTIME_KW?
  }

  /** Names parsePrimary reads as such: the fallback keywords with a rule of their own are not. */
  predicate IsIdentKind(k: Kind) {
    IsIDJ(k) && !k.CTIME_KW? && !k.CAST? && !k.RAISE?
  }

  function ParsePrimary(st: State, room: nat): (r: Outcome<Expr>)
    requires Good(st)
    ensures Steps(st, r)
    decreases Len(st.ts), 4
  {
    var k := Cur(st.ts);
    if k.LP? then ParseParenExpr(st, room)
    else if IsLiteralKind(k) then ParseTerm(st)
    else if k.STRING? then
      (if Peek(st.ts).DOT? then ParseQualifiedRef(st) else ParseTerm(st))
    else if k.VARIABLE? then
      var (t, s1) :- Advance(st);
      Ok(Atom(BindParam(t)), BindParamAction(t, s1))
    else if k.CASE? then ParseCase(st, room)
    else if k.CAST? || k.EXISTS? || k.RAISE? then Err(LeftOut(st))
    else if IsIDJ(k) then
      if Peek(st.ts).LP? then ParseFuncCall(st, room)
      else if Peek(st.ts).DOT? then ParseQualifiedRef(st)
      else
        var (t, s1) :- Advance(st);
        Ok(Atom(Ident(t)), s1)
    else Err(SyntaxError(st))
  }

  /** "#NNN", a register reference no user statement may contain. */
  predicate IsRegister(raw: string) {
    |raw| >= 2 && raw[0] == '#' && '0' <= raw[1] <= '9'
  }

  /** The grammar action of a parameter: a register reference defers its rejection. */
  function BindParamAction(t: Lexeme, st: State): (s: State)
    requires Good(st) && st.deferred.Quiet?
    ensures Good(s) && s.ts == st.ts && (s.deferred.Quiet? <==> !IsRegister(t.text))
  {
    if IsRegister(t.text) then Defer(st, Error(Near(t.text), Len(st.ts) + 1)) else st
  }

  function ParseTerm(st: State): (r: Outcome<Expr>)
    requires Good(st)
    ensures Steps(st, r)
  {
    if IsLiteralKind(Cur(st.ts)) || Cur(st.ts).STRING? then
      var (t, s1) :- Advance(st);
      if t.kind.QNUMBER? && Digits.DequoteNumber(t.text).Misplaced? then
        Err(Error(Unrecognized(Digits.DequoteNumber(t.text).buffer), Len(st.ts)))
      else
        Ok(Atom(Literal(t)), s1)
    else Err(SyntaxError(st))
  }

  /** "(x)" is a ParenExpr, "(x, y, ...)" a VectorExpr. */
  function ParseParenExpr(st: State, room: nat): (r: Outcome<Expr>)
    requires Good(st)
    ensures Steps(st, r)
    decreases Len(st.ts), 3
  {
    var (_, s1) :- Expect(st, LP);
    if AtSelect(Cur(s1.ts)) then Err(LeftOut(s1))
    else
      var (list, s2) :- ParseExprList(s1, room);
      var (_, s3) :- Expect(s2, RP);
      Ok(Atom(Bracket(list)), s3)
  }

  function ParseQualifiedRef(st: State): (r: Outcome<Expr>)
    requires Good(st)
    ensures Steps(st, r)
  {
    var (a, s1) :- ExpectName(st);
    var (_, s2) :- Expect(s1, DOT);
    var (b, s3) :- ExpectName(s2);
    if Cur(s3.ts).DOT? then
      var (_, s4) :- Advance(s3);
      var (c, s5) :- ExpectName(s4);
      Ok(Atom(QualifiedRef3(a, b, c)), s5)
    else
      Ok(Atom(QualifiedRef2(a, b)), s3)
  }

  function ParseCase(st: State, room: nat): (r: Outcome<Expr>)
    requires Good(st)
    ensures Steps(st, r)
    decreases Len(st.ts), 3
  {
    var (_, s1) :- Expect(st, CASE);
    if Cur(s1.ts).WHEN? then
      ParseCaseArms(s1, room, None)
    else
      var (x, s2) :- ParseExpr(s1, room, LOWEST);
      ParseCaseArms(s2, room, Some(x))
  }

  function ParseCaseArms(st: State, room: nat, operand: OptExpr): (r: Outcome<Expr>)
    requires Good(st)
    ensures Steps(st, r)
    decreases Len(st.ts), 4
  {
    if !Cur(st.ts).WHEN? then Err(SyntaxError(st))
    else
      var (whens, s1) :- ParseWhens(st, room);
      if Cur(s1.ts).ELSE? then
        var (_, s2) :- Advance(s1);
        var (e, s3) :- ParseExpr(s2, room, LOWEST);
        var (_, s4) :- Expect(s3, END);
        Ok(Atom(Case(operand, whens, Some(e))), s4)
      else
        var (_, s2) :- Expect(s1, END);
        Ok(Atom(Case(operand, whens, None)), s2)
  }

  /** The WHEN/THEN pairs from the lookahead on. */
  function ParseWhens(st: State, room: nat): (r: Outcome<Whens>)
    requires Good(st)
    ensures r == Ok(NoWhens, st) || Steps(st, r)
    ensures Cur(st.ts).WHEN? ==> Steps(st, r) && (r.Ok? ==> r.value.When?)
    decreases Len(st.ts), 3
  {
    if !Cur(st.ts).WHEN? then Ok(NoWhens, st)
    else
      var (_, s1) :- Advance(st);
      var (cond, s2) :- ParseExpr(s1, room, LOWEST);
      var (_, s3) :- Expect(s2, THEN);
      var (value, s4) :- ParseExpr(s3, room, LOWEST);
      var (rest, s5) :- ParseWhens(s4, room);
      Ok(When(cond, value, rest), s5)
  }

  function ParseFuncCall(st: State, room: nat): (r: Outcome<Expr>)
    requires Good(st)
    ensures Steps(st, r)
    decreases Len(st.ts), 3
  {
    var (name, s1) :- Advance(st);
    var (_, s2) :- Expect(s1, LP);
    var (args, s3) :- ParseCallArgs(s2, room);
    if Cur(s3.ts).FILTER? || Cur(s3.ts).OVER? then Err(LeftOut(s3))
    else Ok(Atom(Call(name, args)), s3)
  }

  /** The arguments of a call and its closing bracket. */
  function ParseCallArgs(st: State, room: nat): (r: Outcome<CallArgs>)
    requires Good(st)
    ensures Steps(st, r)
    decreases Len(st.ts), 10
  {
    var k := Cur(st.ts);
    if k.STAR? then
      var (_, s1) :- Advance(st);
      var (_, s2) :- Expect(s1, RP);
      Ok(StarArg, s2)
    else if k.DISTINCT? || k.ALL? then
      var (_, s1) :- Advance(st);
      ParseCallList(s1, room, if k.DISTINCT? then Distinct else All)
    else
      ParseCallList(st, room, NoQuantifier)
  }

  function ParseCallList(st: State, room: nat, q: Quantifier): (r: Outcome<CallArgs>)
    requires Good(st)
    ensures Steps(st, r)
    decreases Len(st.ts), 9
  {
    if Cur(st.ts).ORDER? then Err(LeftOut(st))
    else if Cur(st.ts).RP? then
      var (_, s1) :- Advance(st);
      Ok(Args(q, Nil), s1)
    else
      var (list, s1) :- ParseExprList(st, room);
      if Cur(s1.ts).ORDER? then Err(LeftOut(s1))
      else
        var (_, s2) :- Expect(s1, RP);
        Ok(Args(q, list), s2)
  }

  /** The entry point for one whole expression: everything must be consumed. */
  function ParseWhole(ts: Toks, room: nat): (r: Outcome<Expr>) {
    if Cur(ts) == ILLEGAL then Err(Error(Unrecognized(Text(ts)), Len(ts)))
    else
      var (e, s1) :- ParseExpr(State(ts, Quiet), room, LOWEST);
      if Cur(s1.ts) != EOF then Err(SyntaxError(s1))
      else Flush(e, s1)
  }
}
