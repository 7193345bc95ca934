/** The trees the parser can build, described without the parser.

    Brackets are nodes of the tree, so which trees need none is a matter of precedence: an
    operand on the left must have ended before the operator, and one on the right must not
    begin weaker than the operator lets it. */
module Canonical {
  import opened Token
  import opened Ast
  import opened Grammar
  import Digits

  /** What is left of a token list after something was read off its front. */
  datatype Rest = NoMatch | To(ts: Toks) {
    predicate IsFailure() { NoMatch? }
    function PropagateFailure(): Rest { NoMatch }
    function Extract(): Toks
      requires To?
    {
      ts
    }
  }

  /** What a step left, or anything when it failed. */
  function After(r: Rest): Toks { if r.To? then r.ts else End }

  function Take(k: Kind, ts: Toks): Rest {
    if ts.Cons? && ts.head.kind == k then To(ts.tail) else NoMatch
  }

  function TakeIf(b: bool, k: Kind, ts: Toks): Rest {
    if b then Take(k, ts) else To(ts)
  }

  function TakeToken(t: Lexeme, ts: Toks): Rest {
    if ts.Cons? && ts.head == t then To(ts.tail) else NoMatch
  }

  function TakeOperator(op: Operator, ts: Toks): Rest {
    if ts.Cons? && InfixPrec(ts.head.kind) > 0 && InfixOperator(ts.head) == op then To(ts.tail) else NoMatch
  }

  /** Reads a spelling of `e` off the front: content tokens exactly as the tree holds them,
      the others by kind. The grammar's rules in order, with no decisions in it. */
  function Reads(e: Expr, ts: Toks): Rest
    decreases e
  {
    match e
    case Atom(p) => ReadsPrimary(p, ts)
    case Unary(pre, x) =>
      var t1 :- Take(PrefixKind(pre), ts);
      Reads(x, t1)
    case Apply(x, s) =>
      var t1 :- Reads(x, ts);
      ReadsSuffix(s, t1)
  }

  function ReadsPrimary(p: Primary, ts: Toks): Rest
    decreases p
  {
    match p
    case Ident(n) => TakeToken(n, ts)
    case QualifiedRef2(a, b) =>
      var t1 :- TakeToken(a, ts);
      var t2 :- Take(DOT, t1);
      TakeToken(b, t2)
    case QualifiedRef3(a, b, c) =>
      var t1 :- TakeToken(a, ts);
      var t2 :- Take(DOT, t1);
      var t3 :- TakeToken(b, t2);
      var t4 :- Take(DOT, t3);
      TakeToken(c, t4)
    case Literal(t) => TakeToken(t, ts)
    case BindParam(t) => TakeToken(t, ts)
    case Case(operand, whens, otherwise) =>
      var t1 :- Take(CASE, ts);
      var t2 :- ReadsOperand(operand, t1);
      var t3 :- ReadsWhens(whens, t2);
      var t4 :- ReadsOpt(ELSE, otherwise, t3);
      Take(END, t4)
    case Bracket(list) =>
      var t1 :- Take(LP, ts);
      var t2 :- ReadsList(list, t1);
      Take(RP, t2)
    case Call(name, args) =>
      var t1 :- TakeToken(name, ts);
      var t2 :- Take(LP, t1);
      var t3 :- ReadsArgs(args, t2);
      Take(RP, t3)
  }

  function ReadsSuffix(s: Suffix, ts: Toks): Rest
    decreases s
  {
    match s
    case Binary(op, y) =>
      var t1 :- TakeOperator(op, ts);
      Reads(y, t1)
    case Collate(name) =>
      var t1 :- Take(COLLATE, ts);
      TakeToken(name, t1)
    case Like(negated, like, y, escape) =>
      var t1 :- TakeIf(negated, NOT, ts);
      var t2 :- TakeToken(like, t1);
      var t3 :- Reads(y, t2);
      ReadsOpt(ESCAPE, escape, t3)
    case Is(negated, distinct, y) =>
      var t1 :- Take(IS, ts);
      var t2 :- TakeIf(negated, NOT, t1);
      var t3 :- TakeIf(distinct, DISTINCT, t2);
      var t4 :- TakeIf(distinct, FROM, t3);
      Reads(y, t4)
    case NullCheck(test) =>
      match test {
        case TestIsNull => Take(ISNULL, ts)
        case TestNotNull => Take(NOTNULL, ts)
        case TestNotNullWords => var t1 :- Take(NOT, ts); Take(NULL, t1)
      }
    case Between(negated, lo, hi) =>
      var t1 :- TakeIf(negated, NOT, ts);
      var t2 :- Take(BETWEEN, t1);
      var t3 :- Reads(lo, t2);
      var t4 :- Take(AND, t3);
      Reads(hi, t4)
    case In(negated, target) =>
      var t1 :- TakeIf(negated, NOT, ts);
      var t2 :- Take(IN, t1);
      ReadsTarget(target, t2)
  }

  /** An optional clause: a keyword and its expression. */
  function ReadsOpt(k: Kind, o: OptExpr, ts: Toks): Rest
    decreases o
  {
    match o
    case None => To(ts)
    case Some(e) =>
      var t1 :- Take(k, ts);
      Reads(e, t1)
  }

  function ReadsOperand(o: OptExpr, ts: Toks): Rest {
    match o
    case None => To(ts)
    case Some(e) => Reads(e, ts)
  }

  function ReadsList(es: Exprs, ts: Toks): Rest {
    match es
    case Nil => To(ts)
    case More(e, rest) =>
      var t1 :- Reads(e, ts);
      var t2 :- TakeIf(rest.More?, COMMA, t1);
      ReadsList(rest, t2)
  }

  function ReadsWhens(ws: Whens, ts: Toks): Rest {
    match ws
    case NoWhens => To(ts)
    case When(cond, value, rest) =>
      var t1 :- Take(WHEN, ts);
      var t2 :- Reads(cond, t1);
      var t3 :- Take(THEN, t2);
      var t4 :- Reads(value, t3);
      ReadsWhens(rest, t4)
  }

  function ReadsTable(t: TableName, ts: Toks): Rest {
    match t
    case Bare(n) => TakeToken(n, ts)
    case Dotted(s, n) =>
      var t1 :- TakeToken(s, ts);
      var t2 :- Take(DOT, t1);
      TakeToken(n, t2)
  }

  function ReadsTarget(target: InSet, ts: Toks): Rest {
    match target
    case InList(list) =>
      var t1 :- Take(LP, ts);
      var t2 :- ReadsList(list, t1);
      Take(RP, t2)
    case InTable(table) => ReadsTable(table, ts)
    case InTableArgs(table, args) =>
      var t1 :- ReadsTable(table, ts);
      var t2 :- Take(LP, t1);
      var t3 :- ReadsList(args, t2);
      Take(RP, t3)
  }

  function ReadsArgs(args: CallArgs, ts: Toks): Rest {
    match args
    case StarArg => Take(STAR, ts)
    case Args(q, list) =>
      var t1 :- TakeIf(q.Distinct?, DISTINCT, ts);
      var t2 :- TakeIf(q.All?, ALL, t1);
      ReadsList(list, t2)
  }

  /** Binds tighter than every operator. */
  const CLOSED: nat := 14

  function OperatorPrec(op: Operator): nat { InfixPrec(OperatorKind(op)) }

  function TestPrec(test: NullTest): nat { if test.TestNotNullWords? then 3 else 4 }

  function Min(a: nat, b: nat): nat { if a < b then a else b }

  function Max(a: nat, b: nat): nat { if a < b then b else a }

  /** The precedence of an operator at its left side. */
  function SuffixPrec(s: Suffix): nat {
    match s
    case Binary(op, _) => OperatorPrec(op)
    case Collate(_) => 11
    case NullCheck(test) => TestPrec(test)
    case _ => 4
  }

  /** The weakest operator on the left spine: all of them were met by one loop. */
  function Spine(e: Expr): nat {
    if e.Apply? then Min(SuffixPrec(e.s), Spine(e.x)) else CLOSED
  }

  /** The weakest operator that an open operand on the right edge would swallow. */
  function Edge(e: Expr): nat {
    match e
    case Atom(_) => CLOSED
    case Unary(pre, x) => Min(PrefixMin(pre), Edge(x))
    case Apply(_, s) => SuffixEdge(s)
  }

  function SuffixEdge(s: Suffix): nat {
    match s
    case Binary(op, y) => Min(OperatorPrec(op) + 1, Edge(y))
    case Like(_, _, y, escape) => Min(5, if escape.Some? then Edge(escape.expr) else Edge(y))
    case Is(_, _, y) => Min(5, Edge(y))
    case Between(_, _, hi) => Min(5, Edge(hi))
    case _ => CLOSED
  }

  /** Kinds that are no operator, yet would be read into the right end of the tree. */
  predicate Absorbs(e: Expr, k: Kind) {
    match e
    case Atom(p) =>
      (match p
       case Ident(_) => k.LP? || k.DOT?
       case QualifiedRef2(_, _) => k.DOT?
       case Literal(t) => t.kind.STRING? && k.DOT?
       case Call(_, _) => k.FILTER? || k.OVER?
       case _ => false)
    case Unary(_, x) => Absorbs(x, k)
    case Apply(_, s) => SuffixAbsorbs(s, k)
  }

  predicate SuffixAbsorbs(s: Suffix, k: Kind) {
    match s
    case Binary(_, y) => Absorbs(y, k)
    case Like(_, _, y, escape) =>
      if escape.Some? then Absorbs(escape.expr, k) else k.ESCAPE? || Absorbs(y, k)
    case Is(_, _, y) => Absorbs(y, k)
    case Between(_, _, hi) => Absorbs(hi, k)
    case In(_, InTable(table)) => k.LP? || (k.DOT? && table.Bare?)
    case _ => false
  }

  /** The kind of the first token. */
  function StartKind(e: Expr): Kind {
    match e
    case Atom(p) =>
      (match p
       case Ident(n) => n.kind
       case QualifiedRef2(a, _) => a.kind
       case QualifiedRef3(a, _, _) => a.kind
       case Literal(t) => t.kind
       case BindParam(t) => t.kind
       case Case(_, _, _) => CASE
       case Bracket(_) => LP
       case Call(n, _) => n.kind)
    case Unary(pre, _) => PrefixKind(pre)
    case Apply(x, _) => StartKind(x)
  }

  predicate QualifierKind(k: Kind) { k.STRING? || IsIdentKind(k) }

  /** The trees that need no bracket beyond those they contain. */
  predicate Canon(e: Expr) {
    match e
    case Atom(p) => CanonPrimary(p)
    case Unary(pre, x) => Canon(x) && Spine(x) >= PrefixMin(pre)
    // the left operand must have ended by itself before the operator
    case Apply(x, s) => Canon(x) && SuffixPrec(s) < Edge(x) && CanonSuffix(s)
  }

  predicate CanonPrimary(p: Primary) {
    match p
    case Ident(n) => IsIdentKind(n.kind)
    case QualifiedRef2(a, b) => QualifierKind(a.kind) && IsName(b.kind)
    case QualifiedRef3(a, b, c) => QualifierKind(a.kind) && IsName(b.kind) && IsName(c.kind)
    case Literal(t) =>
      && (IsLiteralKind(t.kind) || t.kind.STRING?)
      && (t.kind.QNUMBER? ==> Digits.DequoteNumber(t.text).Value?)
    case BindParam(t) => t.kind.VARIABLE? && !IsRegister(t.text)
    case Case(operand, whens, otherwise) =>
      CanonOpt(operand) && whens.When? && CanonWhens(whens) && CanonOpt(otherwise)
    // WITH is a name elsewhere, but begins a select right after a bracket
    case Bracket(list) => list.More? && CanonList(list) && !StartKind(list.head).WITH?
    case Call(name, args) => IsIdentKind(name.kind) && (args.Args? ==> CanonList(args.list))
  }

  /** The right sides: each operand must not begin weaker than its operator lets it. */
  predicate CanonSuffix(s: Suffix) {
    match s
    case Binary(op, y) => Canon(y) && Spine(y) > OperatorPrec(op)
    case Collate(name) => IsIDS(name.kind)
    case Like(_, like, y, escape) =>
      && (like.kind.LIKE_KW? || like.kind.MATCH?)
      && Canon(y) && Spine(y) >= 5
      // a pattern that ends in a LIKE of its own would take the ESCAPE
      && (escape.Some? ==> Canon(escape.expr) && Spine(escape.expr) >= 5 && !Absorbs(y, ESCAPE))
    case Is(negated, distinct, y) =>
      && Canon(y) && Spine(y) >= 5
      // IS takes a NOT that follows it
      && (negated || distinct || !StartKind(y).NOT?)
    case NullCheck(_) => true
    case Between(_, lo, hi) =>
      // the AND must be out of reach of the lower bound, from inside and from its spine
      && Canon(lo) && Spine(lo) > 2 && 2 < Edge(lo)
      && Canon(hi) && Spine(hi) >= 5
    case In(_, target) => CanonTarget(target)
  }

  predicate CanonOpt(o: OptExpr) {
    o.Some? ==> Canon(o.expr)
  }

  predicate CanonList(es: Exprs) {
    es.More? ==> Canon(es.head) && CanonList(es.tail)
  }

  predicate CanonWhens(ws: Whens) {
    ws.When? ==> Canon(ws.cond) && Canon(ws.value) && CanonWhens(ws.rest)
  }

  predicate CanonTable(t: TableName) {
    IsName(t.name.kind) && (t.Dotted? ==> IsName(t.schema.kind))
  }

  predicate CanonTarget(target: InSet) {
    match target
    case InList(list) => CanonList(list) && (list.More? ==> !StartKind(list.head).WITH?)
    case InTable(table) => CanonTable(table)
    case InTableArgs(table, args) => CanonTable(table) && CanonList(args)
  }

  /** The nesting of `enter` calls a tree costs. */
  function Need(e: Expr): nat
    decreases e, 1
  {
    1 + Inner(e)
  }

  /** The nesting below the loop that builds the left spine of `e`. */
  function Inner(e: Expr): nat
    decreases e, 0
  {
    match e
    case Atom(p) => PrimaryNeed(p)
    case Unary(_, x) => Need(x)
    case Apply(x, s) => Max(Inner(x), SuffixNeed(s))
  }

  function PrimaryNeed(p: Primary): nat {
    match p
    case Case(operand, whens, otherwise) => Max(NeedOpt(operand), Max(NeedWhens(whens), NeedOpt(otherwise)))
    case Bracket(list) => NeedList(list)
    case Call(_, args) => if args.Args? then NeedList(args.list) else 0
    case _ => 0
  }

  function SuffixNeed(s: Suffix): nat {
    match s
    case Binary(_, y) => Need(y)
    case Like(_, _, y, escape) => Max(Need(y), NeedOpt(escape))
    case Is(_, _, y) => Need(y)
    case Between(_, lo, hi) => Max(Need(lo), Need(hi))
    case In(_, target) => NeedTarget(target)
    case _ => 0
  }

  function NeedOpt(o: OptExpr): nat { if o.Some? then Need(o.expr) else 0 }

  function NeedList(es: Exprs): nat {
    if es.Nil? then 0 else Max(Need(es.head), NeedList(es.tail))
  }

  function NeedWhens(ws: Whens): nat {
    if ws.NoWhens? then 0 else Max(Max(Need(ws.cond), Need(ws.value)), NeedWhens(ws.rest))
  }

  function NeedTarget(target: InSet): nat {
    match target
    case InList(list) => NeedList(list)
    case InTable(_) => 0
    case InTableArgs(_, args) => NeedList(args)
  }

  /** The tokens `k` neither extend `e` nor are taken by a loop at level `min`. */
  predicate Follows(e: Expr, min: nat, k: Toks) {
    && Prec(k) < Edge(e)
    && (Prec(k) == 0 || Prec(k) < min)
    && !Absorbs(e, Cur(k))
    && Cur(k) != ILLEGAL
  }
}
