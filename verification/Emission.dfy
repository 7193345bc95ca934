/** What the renderer writes for a tree (ast/render.go): a sequence of tokens, each written
    by `kw`, which may put a space before it, or by `raw`, which never does. */
module Emission {
  import opened Token
  import opened Ast
  import opened Grammar
  import opened Canonical

  /** A token to write. A content token comes from the tree, the others have one spelling. */
  datatype Item =
    | Content(token: Lexeme, glued: bool)
    | Fixed(kind: Kind, text: string, glued: bool)

  datatype Items = Stop | Then(item: Item, rest: Items)

  /** How the renderer spells the tokens a tree does not hold. */
  function Spelling(k: Kind): string {
    match k
    case NOT => "NOT"
    case BITNOT => "~"
    case PLUS => "+"
    case MINUS => "-"
    case OR => "OR"
    case AND => "AND"
    case EQ => "="
    case NE => "<>"
    case LT => "<"
    case LE => "<="
    case GT => ">"
    case GE => ">="
    case BITAND => "&"
    case BITOR => "|"
    case LSHIFT => "<<"
    case RSHIFT => ">>"
    case STAR => "*"
    case SLASH => "/"
    case REM => "%"
    case CONCAT => "||"
    case PTR => "->"
    case COLLATE => "COLLATE"
    case ESCAPE => "ESCAPE"
    case IS => "IS"
    case DISTINCT => "DISTINCT"
    case FROM => "FROM"
    case ISNULL => "ISNULL"
    case NOTNULL => "NOTNULL"
    case NULL => "NULL"
    case BETWEEN => "BETWEEN"
    case IN => "IN"
    case CASE => "CASE"
    case WHEN => "WHEN"
    case THEN => "THEN"
    case ELSE => "ELSE"
    case END => "END"
    case ALL => "ALL"
    case LP => "("
    case RP => ")"
    case COMMA => ","
    case DOT => "."
    case _ => ""
  }

  function OperatorText(op: Operator): string {
    if op.OpPtr2? then "->>" else Spelling(OperatorKind(op))
  }

  /** `x.kw(...)` of a fixed word. */
  function Kw(k: Kind, rest: Items): Items { Then(Fixed(k, Spelling(k), false), rest) }

  /** `x.raw(...)` of a fixed token. */
  function Raw(k: Kind, rest: Items): Items { Then(Fixed(k, Spelling(k), true), rest) }

  function KwIf(b: bool, k: Kind, rest: Items): Items { if b then Kw(k, rest) else rest }

  function KwToken(t: Lexeme, rest: Items): Items { Then(Content(t, false), rest) }

  function RawToken(t: Lexeme, rest: Items): Items { Then(Content(t, true), rest) }

  /** The items `write` produces for `e`, in front of `rest`. */
  function ExprItems(e: Expr, rest: Items): Items
    decreases e
  {
    match e
    case Atom(p) => PrimaryItems(p, rest)
    case Unary(pre, x) => Kw(PrefixKind(pre), ExprItems(x, rest))
    case Apply(x, s) => ExprItems(x, SuffixItems(s, rest))
  }

  function PrimaryItems(p: Primary, rest: Items): Items
    decreases p
  {
    match p
    case Ident(n) => KwToken(n, rest)
    case QualifiedRef2(a, b) => KwToken(a, Raw(DOT, RawToken(b, rest)))
    case QualifiedRef3(a, b, c) => KwToken(a, Raw(DOT, RawToken(b, Raw(DOT, RawToken(c, rest)))))
    case Literal(t) => KwToken(t, rest)
    case BindParam(t) => KwToken(t, rest)
    case Case(operand, whens, otherwise) =>
      Kw(CASE, OperandItems(operand, WhensItems(whens, OptItems(ELSE, otherwise, Kw(END, rest)))))
    case Bracket(list) => Kw(LP, ListItems(list, Raw(RP, rest)))
    case Call(name, args) => KwToken(name, Raw(LP, ArgsItems(args, Raw(RP, rest))))
  }

  function SuffixItems(s: Suffix, rest: Items): Items
    decreases s
  {
    match s
    case Binary(op, y) => Then(Fixed(OperatorKind(op), OperatorText(op), false), ExprItems(y, rest))
    case Collate(name) => Kw(COLLATE, KwToken(name, rest))
    case Like(negated, like, y, escape) =>
      KwIf(negated, NOT, KwToken(like, ExprItems(y, OptItems(ESCAPE, escape, rest))))
    case Is(negated, distinct, y) =>
      Kw(IS, KwIf(negated, NOT, KwIf(distinct, DISTINCT, KwIf(distinct, FROM, ExprItems(y, rest)))))
    case NullCheck(test) =>
      match test {
        case TestIsNull => Kw(ISNULL, rest)
        case TestNotNull => Kw(NOTNULL, rest)
        case TestNotNullWords => Kw(NOT, Kw(NULL, rest))
      }
    case Between(negated, lo, hi) => KwIf(negated, NOT, Kw(BETWEEN, ExprItems(lo, Kw(AND, ExprItems(hi, rest)))))
    case In(negated, target) => KwIf(negated, NOT, Kw(IN, TargetItems(target, rest)))
  }

  function OptItems(kw: Kind, o: OptExpr, rest: Items): Items
    decreases o
  {
    if o.Some? then Kw(kw, ExprItems(o.expr, rest)) else rest
  }

  function OperandItems(o: OptExpr, rest: Items): Items
    decreases o
  {
    if o.Some? then ExprItems(o.expr, rest) else rest
  }

  function ListItems(es: Exprs, rest: Items): Items
    decreases es
  {
    match es
    case Nil => rest
    case More(e, more) => ExprItems(e, if more.More? then Raw(COMMA, ListItems(more, rest)) else rest)
  }

  function WhensItems(ws: Whens, rest: Items): Items
    decreases ws
  {
    match ws
    case NoWhens => rest
    case When(cond, value, more) => Kw(WHEN, ExprItems(cond, Kw(THEN, ExprItems(value, WhensItems(more, rest)))))
  }

  function TableItems(t: TableName, rest: Items): Items {
    match t
    case Bare(n) => KwToken(n, rest)
    case Dotted(s, n) => KwToken(s, Raw(DOT, RawToken(n, rest)))
  }

  function TargetItems(target: InSet, rest: Items): Items
    decreases target
  {
    match target
    case InList(list) => Kw(LP, ListItems(list, Raw(RP, rest)))
    case InTable(table) => TableItems(table, rest)
    case InTableArgs(table, args) => TableItems(table, Raw(LP, ListItems(args, Raw(RP, rest))))
  }

  function ArgsItems(args: CallArgs, rest: Items): Items
    decreases args
  {
    match args
    case StarArg => Raw(STAR, rest)
    case Args(q, list) => KwIf(q.Distinct?, DISTINCT, KwIf(q.All?, ALL, ListItems(list, rest)))
  }

  /** A token that an item would be read from: a fixed one counts by kind, except that the two
      PTR operators share a kind. */
  predicate Matches(item: Item, t: Lexeme) {
    match item
    case Content(token, _) => t == token
    case Fixed(kind, text, _) => t.kind == kind && (kind.PTR? ==> (t.text == "->>" <==> text == "->>"))
  }

  function ReadAll(items: Items, ts: Toks): Rest {
    match items
    case Stop => To(ts)
    case Then(item, rest) =>
      if ts.Cons? && Matches(item, ts.head) then ReadAll(rest, ts.tail) else NoMatch
  }

  /** Reading on after a first part. */
  function Bind(r: Rest, items: Items): Rest {
    if r.To? then ReadAll(items, r.ts) else NoMatch
  }

  lemma {:induction false} StopBinds(r: Rest)
    ensures Bind(r, Stop) == r
  {
    assert r.To? ==> ReadAll(Stop, r.ts) == To(r.ts);
  }

  /** Reading a tree is reading its items one by one. */
  lemma {:induction false} ItemsRead(e: Expr, rest: Items, ts: Toks)
    ensures ReadAll(ExprItems(e, rest), ts) == Bind(Reads(e, ts), rest)
    decreases e
  {
    match e
    case Atom(p) => PrimaryRead(p, rest, ts);
    case Unary(_, x) =>
      if ts.Cons? {
        ItemsRead(x, rest, ts.tail);
      }
    case Apply(x, s) =>
      ItemsRead(x, SuffixItems(s, rest), ts);
      if Reads(x, ts).To? {
        SuffixRead(s, rest, Reads(x, ts).ts);
      }
  }

  /** One fixed token that is no PTR, written either way. */
  lemma {:induction false} FixedRead(k: Kind, glued: bool, rest: Items, ts: Toks)
    requires !k.PTR?
    ensures ReadAll(Then(Fixed(k, Spelling(k), glued), rest), ts) == Bind(Take(k, ts), rest)
  {
  }

  lemma {:induction false} FixedIfRead(b: bool, k: Kind, rest: Items, ts: Toks)
    requires !k.PTR?
    ensures ReadAll(KwIf(b, k, rest), ts) == Bind(TakeIf(b, k, ts), rest)
  {
  }

  lemma {:induction false} ContentRead(t: Lexeme, glued: bool, rest: Items, ts: Toks)
    ensures ReadAll(Then(Content(t, glued), rest), ts) == Bind(TakeToken(t, ts), rest)
  {
  }

  lemma {:induction false} PrimaryRead(p: Primary, rest: Items, ts: Toks)
    ensures ReadAll(PrimaryItems(p, rest), ts) == Bind(ReadsPrimary(p, ts), rest)
    decreases p
  {
    hide ReadAll, ReadsOperand, OperandItems, ReadsWhens, WhensItems, ReadsOpt, OptItems, ReadsList, ListItems, ReadsArgs, ArgsItems;
    match p {
      case Ident(n) => ContentRead(n, false, rest, ts);
      case Literal(n) => ContentRead(n, false, rest, ts);
      case BindParam(n) => ContentRead(n, false, rest, ts);
      case QualifiedRef2(a, b) =>
        ContentRead(a, false, Raw(DOT, RawToken(b, rest)), ts);
        DottedRead(b, rest, After(TakeToken(a, ts)));
      case QualifiedRef3(a, b, c) =>
        var t1 := After(TakeToken(a, ts));
        var t2 := After(Take(DOT, t1));
        ContentRead(a, false, Raw(DOT, RawToken(b, Raw(DOT, RawToken(c, rest)))), ts);
        DottedRead(b, Raw(DOT, RawToken(c, rest)), t1);
        DottedRead(c, rest, After(TakeToken(b, t2)));
      case Case(operand, whens, otherwise) =>
        var i2 := Kw(END, rest);
        var i1 := OptItems(ELSE, otherwise, i2);
        var i0 := WhensItems(whens, i1);
        var t1 := After(Take(CASE, ts));
        var t2 := After(ReadsOperand(operand, t1));
        var t3 := After(ReadsWhens(whens, t2));
        var t4 := After(ReadsOpt(ELSE, otherwise, t3));
        FixedRead(CASE, false, OperandItems(operand, i0), ts);
        OperandRead(operand, i0, t1);
        WhensRead(whens, i1, t2);
        OptRead(ELSE, otherwise, i2, t3);
        FixedRead(END, false, rest, t4);
      case Bracket(list) =>
        var t1 := After(Take(LP, ts));
        FixedRead(LP, false, ListItems(list, Raw(RP, rest)), ts);
        ListRead(list, Raw(RP, rest), t1);
        FixedRead(RP, true, rest, After(ReadsList(list, t1)));
      case Call(name, args) =>
        var t1 := After(TakeToken(name, ts));
        var t2 := After(Take(LP, t1));
        var i := ArgsItems(args, Raw(RP, rest));
        ContentRead(name, false, Raw(LP, i), ts);
        FixedRead(LP, true, i, t1);
        ArgsRead(args, Raw(RP, rest), t2);
        FixedRead(RP, true, rest, After(ReadsArgs(args, t2)));
    }
  }

  /** A dot and a name, neither with a space before it. */
  lemma {:induction false} DottedRead(n: Lexeme, rest: Items, ts: Toks)
    ensures ReadAll(Raw(DOT, RawToken(n, rest)), ts) == if Take(DOT, ts).To? then Bind(TakeToken(n, ts.tail), rest) else NoMatch
  {
    FixedRead(DOT, true, RawToken(n, rest), ts);
    ContentRead(n, true, rest, After(Take(DOT, ts)));
  }

  lemma {:induction false} OperandRead(o: OptExpr, rest: Items, ts: Toks)
    ensures ReadAll(OperandItems(o, rest), ts) == Bind(ReadsOperand(o, ts), rest)
    decreases o
  {
    if o.Some? {
      ItemsRead(o.expr, rest, ts);
    }
  }

  lemma {:induction false} OptRead(kw: Kind, o: OptExpr, rest: Items, ts: Toks)
    requires !kw.PTR?
    ensures ReadAll(OptItems(kw, o, rest), ts) == Bind(ReadsOpt(kw, o, ts), rest)
    decreases o
  {
    if o.Some? {
      hide ReadAll, Reads, ExprItems;
      FixedRead(kw, false, ExprItems(o.expr, rest), ts);
      ItemsRead(o.expr, rest, After(Take(kw, ts)));
    }
  }

  lemma {:induction false} ListRead(es: Exprs, rest: Items, ts: Toks)
    ensures ReadAll(ListItems(es, rest), ts) == Bind(ReadsList(es, ts), rest)
    decreases es
  {
    hide ReadAll, Reads, ExprItems;
    if es.More? {
      var i := if es.tail.More? then Raw(COMMA, ListItems(es.tail, rest)) else rest;
      var t1 := After(Reads(es.head, ts));
      ItemsRead(es.head, i, ts);
      if es.tail.More? {
        FixedRead(COMMA, true, ListItems(es.tail, rest), t1);
        ListRead(es.tail, rest, After(Take(COMMA, t1)));
      }
    }
  }

  lemma {:induction false} WhensRead(ws: Whens, rest: Items, ts: Toks)
    ensures ReadAll(WhensItems(ws, rest), ts) == Bind(ReadsWhens(ws, ts), rest)
    decreases ws
  {
    hide ReadAll, Reads, ExprItems;
    if ws.When? {
      var i2 := WhensItems(ws.rest, rest);
      var i1 := Kw(THEN, ExprItems(ws.value, i2));
      var t1 := After(Take(WHEN, ts));
      var t2 := After(Reads(ws.cond, t1));
      var t3 := After(Take(THEN, t2));
      FixedRead(WHEN, false, ExprItems(ws.cond, i1), ts);
      ItemsRead(ws.cond, i1, t1);
      FixedRead(THEN, false, ExprItems(ws.value, i2), t2);
      ItemsRead(ws.value, i2, t3);
      WhensRead(ws.rest, rest, After(Reads(ws.value, t3)));
    }
  }

  lemma {:induction false} TableRead(t: TableName, rest: Items, ts: Toks)
    ensures ReadAll(TableItems(t, rest), ts) == Bind(ReadsTable(t, ts), rest)
  {
    hide ReadAll;
    match t
    case Bare(n) => ContentRead(n, false, rest, ts);
    case Dotted(s, n) =>
      ContentRead(s, false, Raw(DOT, RawToken(n, rest)), ts);
      DottedRead(n, rest, After(TakeToken(s, ts)));
  }

  lemma {:induction false} TargetRead(target: InSet, rest: Items, ts: Toks)
    ensures ReadAll(TargetItems(target, rest), ts) == Bind(ReadsTarget(target, ts), rest)
    decreases target
  {
    hide ReadAll, ReadsList, ListItems, ReadsTable, TableItems;
    match target
    case InList(list) =>
      var t1 := After(Take(LP, ts));
      FixedRead(LP, false, ListItems(list, Raw(RP, rest)), ts);
      ListRead(list, Raw(RP, rest), t1);
      FixedRead(RP, true, rest, After(ReadsList(list, t1)));
    case InTable(table) => TableRead(table, rest, ts);
    case InTableArgs(table, args) =>
      var i := ListItems(args, Raw(RP, rest));
      var t1 := After(ReadsTable(table, ts));
      var t2 := After(Take(LP, t1));
      TableRead(table, Raw(LP, i), ts);
      FixedRead(LP, true, i, t1);
      ListRead(args, Raw(RP, rest), t2);
      FixedRead(RP, true, rest, After(ReadsList(args, t2)));
  }

  lemma {:induction false} ArgsRead(args: CallArgs, rest: Items, ts: Toks)
    ensures ReadAll(ArgsItems(args, rest), ts) == Bind(ReadsArgs(args, ts), rest)
    decreases args
  {
    hide ReadAll, ReadsList, ListItems;
    match args
    case StarArg => FixedRead(STAR, true, rest, ts);
    case Args(q, list) =>
      var t1 := After(TakeIf(q.Distinct?, DISTINCT, ts));
      FixedIfRead(q.Distinct?, DISTINCT, KwIf(q.All?, ALL, ListItems(list, rest)), ts);
      FixedIfRead(q.All?, ALL, ListItems(list, rest), t1);
      ListRead(list, rest, After(TakeIf(q.All?, ALL, t1)));
  }

  lemma {:induction false} SuffixRead(s: Suffix, rest: Items, ts: Toks)
    ensures ReadAll(SuffixItems(s, rest), ts) == Bind(ReadsSuffix(s, ts), rest)
    decreases s, 1
  {
    match s {
      case Binary(_, _) => BinaryRead(s, rest, ts);
      case Like(_, _, _, _) => LikeRead(s, rest, ts);
      case Is(_, _, _) => IsRead(s, rest, ts);
      case Between(_, _, _) => BetweenRead(s, rest, ts);
      case In(_, _) => InRead(s, rest, ts);
      case _ => PostfixRead(s, rest, ts);
    }
  }

  lemma {:induction false} BinaryRead(s: Suffix, rest: Items, ts: Toks)
    requires s.Binary?
    ensures ReadAll(SuffixItems(s, rest), ts) == Bind(ReadsSuffix(s, ts), rest)
    decreases s, 0
  {
    hide Reads, ExprItems;
    var item := Fixed(OperatorKind(s.op), OperatorText(s.op), false);
    if ts.Cons? {
      assert Matches(item, ts.head) <==> TakeOperator(s.op, ts).To?;
      ItemsRead(s.y, rest, ts.tail);
    }
  }

  lemma {:induction false} PostfixRead(s: Suffix, rest: Items, ts: Toks)
    requires s.Collate? || s.NullCheck?
    ensures ReadAll(SuffixItems(s, rest), ts) == Bind(ReadsSuffix(s, ts), rest)
  {
    hide ReadAll, Reads, ExprItems, ReadsTarget, TargetItems, ReadsOpt, OptItems;
    match s
    case Collate(name) =>
      FixedRead(COLLATE, false, KwToken(name, rest), ts);
      ContentRead(name, false, rest, After(Take(COLLATE, ts)));
    case NullCheck(test) =>
      match test {
        case TestIsNull => FixedRead(ISNULL, false, rest, ts);
        case TestNotNull => FixedRead(NOTNULL, false, rest, ts);
        case TestNotNullWords =>
          FixedRead(NOT, false, Kw(NULL, rest), ts);
          FixedRead(NULL, false, rest, After(Take(NOT, ts)));
      }
  }

  lemma {:induction false} InRead(s: Suffix, rest: Items, ts: Toks)
    requires s.In?
    ensures ReadAll(SuffixItems(s, rest), ts) == Bind(ReadsSuffix(s, ts), rest)
    decreases s, 0
  {
    hide ReadAll, ReadsTarget, TargetItems;
    var i := TargetItems(s.target, rest);
    var t1 := After(TakeIf(s.negated, NOT, ts));
    FixedIfRead(s.negated, NOT, Kw(IN, i), ts);
    FixedRead(IN, false, i, t1);
    TargetRead(s.target, rest, After(Take(IN, t1)));
  }

  lemma {:induction false} LikeRead(s: Suffix, rest: Items, ts: Toks)
    requires s.Like?
    ensures ReadAll(SuffixItems(s, rest), ts) == Bind(ReadsSuffix(s, ts), rest)
    decreases s, 0
  {
    hide ReadAll, Reads, ExprItems, ReadsOpt, OptItems;
    var i1 := OptItems(ESCAPE, s.escape, rest);
    var i0 := ExprItems(s.y, i1);
    var t1 := After(TakeIf(s.negated, NOT, ts));
    var t2 := After(TakeToken(s.like, t1));
    FixedIfRead(s.negated, NOT, KwToken(s.like, i0), ts);
    ContentRead(s.like, false, i0, t1);
    ItemsRead(s.y, i1, t2);
    OptRead(ESCAPE, s.escape, rest, After(Reads(s.y, t2)));
  }

  lemma {:induction false} IsRead(s: Suffix, rest: Items, ts: Toks)
    requires s.Is?
    ensures ReadAll(SuffixItems(s, rest), ts) == Bind(ReadsSuffix(s, ts), rest)
    decreases s, 0
  {
    hide ReadAll, Reads, ExprItems;
    var i3 := ExprItems(s.y, rest);
    var i2 := KwIf(s.distinct, FROM, i3);
    var i1 := KwIf(s.distinct, DISTINCT, i2);
    var t1 := After(Take(IS, ts));
    var t2 := After(TakeIf(s.negated, NOT, t1));
    var t3 := After(TakeIf(s.distinct, DISTINCT, t2));
    FixedRead(IS, false, KwIf(s.negated, NOT, i1), ts);
    FixedIfRead(s.negated, NOT, i1, t1);
    FixedIfRead(s.distinct, DISTINCT, i2, t2);
    FixedIfRead(s.distinct, FROM, i3, t3);
    ItemsRead(s.y, rest, After(TakeIf(s.distinct, FROM, t3)));
  }

  lemma {:induction false} BetweenRead(s: Suffix, rest: Items, ts: Toks)
    requires s.Between?
    ensures ReadAll(SuffixItems(s, rest), ts) == Bind(ReadsSuffix(s, ts), rest)
    decreases s, 0
  {
    hide ReadAll, Reads, ExprItems;
    var i1 := Kw(AND, ExprItems(s.hi, rest));
    var i0 := ExprItems(s.lo, i1);
    var t1 := After(TakeIf(s.negated, NOT, ts));
    var t2 := After(Take(BETWEEN, t1));
    var t3 := After(Reads(s.lo, t2));
    FixedIfRead(s.negated, NOT, Kw(BETWEEN, i0), ts);
    FixedRead(BETWEEN, false, i0, t1);
    ItemsRead(s.lo, i1, t2);
    FixedRead(AND, false, ExprItems(s.hi, rest), t3);
    ItemsRead(s.hi, rest, After(Take(AND, t3)));
  }

  /** The tokens an item sequence stands for, in front of `k`. */
  function Written(items: Items, k: Toks): Toks {
    match items
    case Stop => k
    case Then(item, rest) =>
      Cons(if item.Content? then item.token else Lexeme(item.kind, item.text), Written(rest, k))
  }

  /** The tokens of a tree as the renderer writes them. */
  function Emit(e: Expr): Toks { Written(ExprItems(e, Stop), End) }

  lemma {:induction false} WrittenReads(items: Items, k: Toks)
    ensures ReadAll(items, Written(items, k)) == To(k)
  {
    if items.Then? {
      WrittenReads(items.rest, k);
    }
  }

  lemma {:induction false} EmitReads(e: Expr)
    ensures Reads(e, Emit(e)) == To(End)
  {
    ItemsRead(e, Stop, Emit(e));
    WrittenReads(ExprItems(e, Stop), End);
    StopBinds(Reads(e, Emit(e)));
  }
}
