/** The spelling of a tree written out flat: which words and marks stand where, with their texts.
    What is read and what is written are both compared with it. */
module Reference {
  import opened Token
  import opened Ast
  import opened Canonical
  import opened Emission

  function Word(k: Kind, text: string): seq<Item> { [Fixed(k, text, false)] }

  /** A mark never has a space before it. */
  function Mark(k: Kind, text: string): seq<Item> { [Fixed(k, text, true)] }

  function Held(t: Lexeme): seq<Item> { [Content(t, false)] }

  function DotAnd(t: Lexeme): seq<Item> { [Fixed(DOT, ".", true), Content(t, true)] }

  function WordIf(b: bool, k: Kind, text: string): seq<Item> { if b then Word(k, text) else [] }

  function PrefixWord(pre: Prefix): seq<Item> {
    match pre
    case OpNot => Word(NOT, "NOT")
    case OpBitNot => Word(BITNOT, "~")
    case OpPlus => Word(PLUS, "+")
    case OpMinus => Word(MINUS, "-")
  }

  function OperatorWord(op: Operator): seq<Item> {
    match op
    case OpOr => Word(OR, "OR")
    case OpAnd => Word(AND, "AND")
    case OpEq => Word(EQ, "=")
    case OpNe => Word(NE, "<>")
    case OpLt => Word(LT, "<")
    case OpLe => Word(LE, "<=")
    case OpGt => Word(GT, ">")
    case OpGe => Word(GE, ">=")
    case OpBitAnd => Word(BITAND, "&")
    case OpBitOr => Word(BITOR, "|")
    case OpLShift => Word(LSHIFT, "<<")
    case OpRShift => Word(RSHIFT, ">>")
    case OpAdd => Word(PLUS, "+")
    case OpSub => Word(MINUS, "-")
    case OpMul => Word(STAR, "*")
    case OpDiv => Word(SLASH, "/")
    case OpMod => Word(REM, "%")
    case OpConcat => Word(CONCAT, "||")
    case OpPtr => Word(PTR, "->")
    case OpPtr2 => Word(PTR, "->>")
  }

  function Words(e: Expr): seq<Item>
    decreases e
  {
    match e
    case Atom(p) => PrimaryWords(p)
    case Unary(pre, x) => PrefixWord(pre) + Words(x)
    case Apply(x, s) => Words(x) + SuffixWords(s)
  }

  function PrimaryWords(p: Primary): seq<Item>
    decreases p
  {
    match p
    case Ident(n) => Held(n)
    case QualifiedRef2(a, b) => Held(a) + DotAnd(b)
    case QualifiedRef3(a, b, c) => Held(a) + DotAnd(b) + DotAnd(c)
    case Literal(t) => Held(t)
    case BindParam(t) => Held(t)
    case Case(operand, whens, otherwise) =>
      Word(CASE, "CASE") + OptWords([], operand) + WhensWords(whens) + OptWords(Word(ELSE, "ELSE"), otherwise) + Word(END, "END")
    case Bracket(list) => Word(LP, "(") + ListWords(list) + Mark(RP, ")")
    case Call(name, args) => Held(name) + Mark(LP, "(") + ArgsWords(args) + Mark(RP, ")")
  }

  /** Nothing, or `w` and an expression. */
  function OptWords(w: seq<Item>, o: OptExpr): seq<Item>
    decreases o
  {
    if o.Some? then w + Words(o.expr) else []
  }

  function ArgsWords(args: CallArgs): seq<Item>
    decreases args
  {
    match args
    case StarArg => Mark(STAR, "*")
    case Args(q, list) => WordIf(q.Distinct?, DISTINCT, "DISTINCT") + WordIf(q.All?, ALL, "ALL") + ListWords(list)
  }

  function ListWords(es: Exprs): seq<Item>
    decreases es
  {
    match es
    case Nil => []
    case More(e, rest) => Words(e) + (if rest.More? then Mark(COMMA, ",") + ListWords(rest) else [])
  }

  function WhensWords(ws: Whens): seq<Item>
    decreases ws
  {
    match ws
    case NoWhens => []
    case When(cond, value, rest) => Word(WHEN, "WHEN") + Words(cond) + Word(THEN, "THEN") + Words(value) + WhensWords(rest)
  }

  function SuffixWords(s: Suffix): seq<Item>
    decreases s
  {
    match s
    case Binary(op, y) => OperatorWord(op) + Words(y)
    case Collate(name) => Word(COLLATE, "COLLATE") + Held(name)
    case Like(negated, like, y, escape) =>
      WordIf(negated, NOT, "NOT") + Held(like) + Words(y) + OptWords(Word(ESCAPE, "ESCAPE"), escape)
    case Is(negated, distinct, y) =>
      Word(IS, "IS") + WordIf(negated, NOT, "NOT")
      + (if distinct then Word(DISTINCT, "DISTINCT") + Word(FROM, "FROM") else []) + Words(y)
    case NullCheck(TestIsNull) => Word(ISNULL, "ISNULL")
    case NullCheck(TestNotNull) => Word(NOTNULL, "NOTNULL")
    case NullCheck(TestNotNullWords) => Word(NOT, "NOT") + Word(NULL, "NULL")
    case Between(negated, lo, hi) =>
      WordIf(negated, NOT, "NOT") + Word(BETWEEN, "BETWEEN") + Words(lo) + Word(AND, "AND") + Words(hi)
    case In(negated, target) => WordIf(negated, NOT, "NOT") + Word(IN, "IN") + TargetWords(target)
  }

  function TableWords(t: TableName): seq<Item> {
    match t
    case Bare(n) => Held(n)
    case Dotted(s, n) => Held(s) + DotAnd(n)
  }

  function TargetWords(target: InSet): seq<Item>
    decreases target
  {
    match target
    case InList(list) => Word(LP, "(") + ListWords(list) + Mark(RP, ")")
    case InTable(table) => TableWords(table)
    case InTableArgs(table, args) => TableWords(table) + Mark(LP, "(") + ListWords(args) + Mark(RP, ")")
  }

  /** `ws` in front of `rest`. */
  function Put(ws: seq<Item>, rest: Items): Items {
    if ws == [] then rest else Then(ws[0], Put(ws[1..], rest))
  }

  lemma {:induction false} PutJoin(a: seq<Item>, b: seq<Item>, rest: Items)
    ensures Put(a + b, rest) == Put(a, Put(b, rest))
  {
    if a == [] {
      assert a + b == b;
    } else {
      assert (a + b)[1..] == a[1..] + b;
      PutJoin(a[1..], b, rest);
    }
  }

  lemma PutFour(a: seq<Item>, b: seq<Item>, c: seq<Item>, d: seq<Item>, rest: Items)
    ensures Put(a + b + c + d, rest) == Put(a, Put(b, Put(c, Put(d, rest))))
  {
    hide Put;
    PutJoin(a + b + c, d, rest);
    PutJoin(a + b, c, Put(d, rest));
    PutJoin(a, b, Put(c, Put(d, rest)));
  }

  lemma PutFive(a: seq<Item>, b: seq<Item>, c: seq<Item>, d: seq<Item>, e: seq<Item>, rest: Items)
    ensures Put(a + b + c + d + e, rest) == Put(a, Put(b, Put(c, Put(d, Put(e, rest)))))
  {
    hide Put;
    PutJoin(a + b + c + d, e, rest);
    PutFour(a, b, c, d, Put(e, rest));
  }

  lemma PutOne(item: Item, rest: Items)
    ensures Put([item], rest) == Then(item, rest)
  {
    assert Put([item][1..], rest) == rest;
  }

  lemma PutNone(rest: Items)
    ensures Put([], rest) == rest
  {
  }

  lemma PutPart(t: Lexeme, rest: Items)
    ensures Put(DotAnd(t), rest) == Raw(DOT, RawToken(t, rest))
  {
    assert DotAnd(t) == [Fixed(DOT, ".", true)] + [Content(t, true)];
    PutJoin([Fixed(DOT, ".", true)], [Content(t, true)], rest);
    PutOne(Content(t, true), rest);
    PutOne(Fixed(DOT, ".", true), RawToken(t, rest));
  }

  /** What the renderer writes for a tree are its words. */
  lemma {:induction false} WritesWords(e: Expr, rest: Items)
    ensures ExprItems(e, rest) == Put(Words(e), rest)
    decreases e
  {
    hide Put, PrimaryItems, SuffixItems;
    match e
    case Atom(p) => PrimaryPut(p, rest);
    case Unary(pre, x) =>
      WritesWords(x, rest);
      PutJoin(PrefixWord(pre), Words(x), rest);
      PutOne(PrefixWord(pre)[0], ExprItems(x, rest));
    case Apply(x, s) =>
      SuffixPut(s, rest);
      WritesWords(x, SuffixItems(s, rest));
      PutJoin(Words(x), SuffixWords(s), rest);
  }

  lemma {:induction false} PrimaryPut(p: Primary, rest: Items)
    ensures PrimaryItems(p, rest) == Put(PrimaryWords(p), rest)
    decreases p
  {
    hide Put, ListItems, ListWords, ArgsItems, ArgsWords, OperandItems, OptItems, WhensItems, WhensWords, ExprItems, Words;
    match p
    case Ident(n) => PutOne(Content(n, false), rest);
    case Literal(n) => PutOne(Content(n, false), rest);
    case BindParam(n) => PutOne(Content(n, false), rest);
    case QualifiedRef2(a, b) =>
      PutJoin(Held(a), DotAnd(b), rest);
      PutPart(b, rest);
      PutOne(Content(a, false), Put(DotAnd(b), rest));
    case QualifiedRef3(a, b, c) =>
      PutJoin(Held(a) + DotAnd(b), DotAnd(c), rest);
      PutJoin(Held(a), DotAnd(b), Put(DotAnd(c), rest));
      PutPart(c, rest);
      PutPart(b, Put(DotAnd(c), rest));
      PutOne(Content(a, false), Put(DotAnd(b), Put(DotAnd(c), rest)));
    case Case(_, _, _) => CasePut(p, rest);
    case Bracket(list) =>
      BracketsPut(Word(LP, "("), list, rest);
    case Call(name, args) =>
      var i1 := Put(Mark(RP, ")"), rest);
      PutJoin(Held(name) + Mark(LP, "(") + ArgsWords(args), Mark(RP, ")"), rest);
      PutJoin(Held(name) + Mark(LP, "("), ArgsWords(args), i1);
      PutJoin(Held(name), Mark(LP, "("), Put(ArgsWords(args), i1));
      PutOne(Fixed(RP, ")", true), rest);
      ArgsPut(args, i1);
      PutOne(Fixed(LP, "(", true), Put(ArgsWords(args), i1));
      PutOne(Content(name, false), Put(Mark(LP, "("), Put(ArgsWords(args), i1)));
  }

  /** A list in brackets, after its opening one. */
  lemma {:induction false} BracketsPut(open: seq<Item>, list: Exprs, rest: Items)
    requires |open| == 1
    ensures Put(open + ListWords(list) + Mark(RP, ")"), rest) == Then(open[0], ListItems(list, Raw(RP, rest)))
    decreases list, 1
  {
    hide Put, ListItems, ListWords;
    var i := Put(Mark(RP, ")"), rest);
    PutJoin(open + ListWords(list), Mark(RP, ")"), rest);
    PutJoin(open, ListWords(list), i);
    PutOne(Fixed(RP, ")", true), rest);
    ListPut(list, i);
    PutOne(open[0], Put(ListWords(list), i));
    assert open == [open[0]];
  }

  lemma {:induction false} CasePut(p: Primary, rest: Items)
    requires p.Case?
    ensures PrimaryItems(p, rest) == Put(PrimaryWords(p), rest)
    decreases p, 0
  {
    hide Put, WhensItems, WhensWords, ExprItems, OptItems, OperandItems, OptWords, Words;
    var w0, w1, w2 := Word(CASE, "CASE"), OptWords([], p.operand), WhensWords(p.whens);
    var w3, w4 := OptWords(Word(ELSE, "ELSE"), p.otherwise), Word(END, "END");
    var i4 := Put(w4, rest);
    var i3 := Put(w3, i4);
    PutFive(w0, w1, w2, w3, w4, rest);
    PutOne(Fixed(END, "END", false), rest);
    ClausePut(Word(ELSE, "ELSE"), ELSE, p.otherwise, i4);
    WhensPut(p.whens, i3);
    OperandPut(p.operand, Put(w2, i3));
    PutOne(Fixed(CASE, "CASE", false), Put(w1, Put(w2, i3)));
  }

  lemma {:induction false} OperandPut(o: OptExpr, rest: Items)
    ensures OperandItems(o, rest) == Put(OptWords([], o), rest)
    decreases o
  {
    hide Put, ExprItems, Words;
    PutNone(rest);
    if o.Some? {
      WritesWords(o.expr, rest);
      assert [] + Words(o.expr) == Words(o.expr);
    }
  }

  /** An optional clause. */
  lemma {:induction false} ClausePut(w: seq<Item>, kw: Kind, o: OptExpr, rest: Items)
    requires w == [Fixed(kw, Spelling(kw), false)]
    ensures OptItems(kw, o, rest) == Put(OptWords(w, o), rest)
    decreases o
  {
    hide Put, ExprItems, Words;
    PutNone(rest);
    if o.Some? {
      WritesWords(o.expr, rest);
      PutJoin(w, Words(o.expr), rest);
      PutOne(w[0], ExprItems(o.expr, rest));
    }
  }

  lemma {:induction false} ArgsPut(args: CallArgs, rest: Items)
    ensures ArgsItems(args, rest) == Put(ArgsWords(args), rest)
    decreases args
  {
    hide Put, ListItems, ListWords;
    match args
    case StarArg => PutOne(Fixed(STAR, "*", true), rest);
    case Args(q, list) =>
      var w0, w1 := WordIf(q.Distinct?, DISTINCT, "DISTINCT"), WordIf(q.All?, ALL, "ALL");
      PutJoin(w0 + w1, ListWords(list), rest);
      ListPut(list, rest);
      PutJoin(w0, w1, ListItems(list, rest));
      IfPut(q.All?, ALL, "ALL", ListItems(list, rest));
      IfPut(q.Distinct?, DISTINCT, "DISTINCT", Put(w1, ListItems(list, rest)));
  }

  lemma IfPut(b: bool, k: Kind, text: string, rest: Items)
    requires text == Spelling(k)
    ensures KwIf(b, k, rest) == Put(WordIf(b, k, text), rest)
  {
    hide Put;
    PutNone(rest);
    PutOne(Fixed(k, text, false), rest);
  }

  lemma {:induction false} ListPut(es: Exprs, rest: Items)
    ensures ListItems(es, rest) == Put(ListWords(es), rest)
    decreases es, 0
  {
    hide Put, ExprItems, Words;
    PutNone(rest);
    if es.More? {
      var w := if es.tail.More? then Mark(COMMA, ",") + ListWords(es.tail) else [];
      PutJoin(Words(es.head), w, rest);
      WritesWords(es.head, Put(w, rest));
      if es.tail.More? {
        PutJoin(Mark(COMMA, ","), ListWords(es.tail), rest);
        ListPut(es.tail, rest);
        PutOne(Fixed(COMMA, ",", true), ListItems(es.tail, rest));
      }
    }
  }

  lemma {:induction false} WhensPut(ws: Whens, rest: Items)
    ensures WhensItems(ws, rest) == Put(WhensWords(ws), rest)
    decreases ws
  {
    hide Put, ExprItems, Words;
    PutNone(rest);
    if ws.When? {
      var w0, w1, w2, w3, w4 := Word(WHEN, "WHEN"), Words(ws.cond), Word(THEN, "THEN"), Words(ws.value), WhensWords(ws.rest);
      var i3 := Put(w4, rest);
      var i2 := Put(w3, i3);
      var i1 := Put(w2, i2);
      PutFive(w0, w1, w2, w3, w4, rest);
      WhensPut(ws.rest, rest);
      WritesWords(ws.value, i3);
      PutOne(Fixed(THEN, "THEN", false), i2);
      WritesWords(ws.cond, i1);
      PutOne(Fixed(WHEN, "WHEN", false), Put(w1, i1));
    }
  }

  lemma {:induction false} SuffixPut(s: Suffix, rest: Items)
    ensures SuffixItems(s, rest) == Put(SuffixWords(s), rest)
    decreases s, 1
  {
    hide Put, ExprItems, Words, TargetItems, TargetWords, SuffixItems, SuffixWords;
    match s
    case Binary(_, _) => BinaryPut(s, rest);
    case Collate(_) => CollatePut(s, rest);
    case Like(_, _, _, _) => LikePut(s, rest);
    case Is(_, _, _) => IsPut(s, rest);
    case NullCheck(_) => TestPut(s, rest);
    case Between(_, _, _) => BetweenPut(s, rest);
    case In(_, _) => InPut(s, rest);
  }

  lemma {:induction false} BinaryPut(s: Suffix, rest: Items)
    requires s.Binary?
    ensures SuffixItems(s, rest) == Put(SuffixWords(s), rest)
    decreases s, 0
  {
    hide Put, ExprItems, Words;
    WritesWords(s.y, rest);
    PutJoin(OperatorWord(s.op), Words(s.y), rest);
    PutOne(OperatorWord(s.op)[0], ExprItems(s.y, rest));
  }

  lemma {:induction false} InPut(s: Suffix, rest: Items)
    requires s.In?
    ensures SuffixItems(s, rest) == Put(SuffixWords(s), rest)
    decreases s, 0
  {
    hide Put, ExprItems, Words, TargetItems, TargetWords;
    var w0, w1 := WordIf(s.negated, NOT, "NOT"), Word(IN, "IN");
    var i := Put(TargetWords(s.target), rest);
    TargetPut(s.target, rest);
    PutJoin(w0 + w1, TargetWords(s.target), rest);
    PutJoin(w0, w1, i);
    PutOne(Fixed(IN, "IN", false), i);
    IfPut(s.negated, NOT, "NOT", Put(w1, i));
  }

  lemma CollatePut(s: Suffix, rest: Items)
    requires s.Collate?
    ensures SuffixItems(s, rest) == Put(SuffixWords(s), rest)
  {
    hide Put, ExprItems, Words, TargetItems, TargetWords;
    PutJoin(Word(COLLATE, "COLLATE"), Held(s.collation), rest);
    PutOne(Content(s.collation, false), rest);
    PutOne(Fixed(COLLATE, "COLLATE", false), Put(Held(s.collation), rest));
  }

  lemma WordPut(k: Kind, text: string, rest: Items)
    requires (k.ISNULL? && text == "ISNULL") || (k.NOTNULL? && text == "NOTNULL") || (k.NULL? && text == "NULL") || (k.NOT? && text == "NOT")
    ensures Kw(k, rest) == Put(Word(k, text), rest)
  {
    hide Put;
    PutOne(Fixed(k, text, false), rest);
  }

  lemma TestPut(s: Suffix, rest: Items)
    requires s.NullCheck?
    ensures SuffixItems(s, rest) == Put(SuffixWords(s), rest)
  {
    hide Put, Spelling;
    match s.test {
      case TestIsNull => WordPut(ISNULL, "ISNULL", rest);
      case TestNotNull => WordPut(NOTNULL, "NOTNULL", rest);
      case TestNotNullWords =>
        PutJoin(Word(NOT, "NOT"), Word(NULL, "NULL"), rest);
        WordPut(NULL, "NULL", rest);
        WordPut(NOT, "NOT", Kw(NULL, rest));
    }
  }

  lemma {:induction false} LikePut(s: Suffix, rest: Items)
    requires s.Like?
    ensures SuffixItems(s, rest) == Put(SuffixWords(s), rest)
    decreases s, 0
  {
    hide Put, ExprItems, Words, OptItems, OptWords;
    var w0, w1, w2 := WordIf(s.negated, NOT, "NOT"), Held(s.like), Words(s.y);
    var w3 := OptWords(Word(ESCAPE, "ESCAPE"), s.escape);
    var i2 := Put(w3, rest);
    var i1 := Put(w2, i2);
    PutFour(w0, w1, w2, w3, rest);
    ClausePut(Word(ESCAPE, "ESCAPE"), ESCAPE, s.escape, rest);
    WritesWords(s.y, i2);
    PutOne(Content(s.like, false), i1);
    IfPut(s.negated, NOT, "NOT", Put(w1, i1));
  }

  lemma {:induction false} IsPut(s: Suffix, rest: Items)
    requires s.Is?
    ensures SuffixItems(s, rest) == Put(SuffixWords(s), rest)
    decreases s, 0
  {
    hide Put, ExprItems, Words, KwIf, WordIf;
    var w0, w1, w3 := Word(IS, "IS"), WordIf(s.negated, NOT, "NOT"), Words(s.y);
    var w2 := if s.distinct then Word(DISTINCT, "DISTINCT") + Word(FROM, "FROM") else [];
    var i2 := Put(w3, rest);
    var i1 := Put(w2, i2);
    PutFour(w0, w1, w2, w3, rest);
    WritesWords(s.y, rest);
    DistinctPut(s.distinct, i2);
    IfPut(s.negated, NOT, "NOT", i1);
    PutOne(Fixed(IS, "IS", false), Put(w1, i1));
  }

  lemma DistinctPut(b: bool, rest: Items)
    ensures KwIf(b, DISTINCT, KwIf(b, FROM, rest)) ==
            Put(if b then Word(DISTINCT, "DISTINCT") + Word(FROM, "FROM") else [], rest)
  {
    hide Put;
    PutNone(rest);
    PutJoin(Word(DISTINCT, "DISTINCT"), Word(FROM, "FROM"), rest);
    PutOne(Fixed(FROM, "FROM", false), rest);
    PutOne(Fixed(DISTINCT, "DISTINCT", false), Put(Word(FROM, "FROM"), rest));
  }

  lemma {:induction false} BetweenPut(s: Suffix, rest: Items)
    requires s.Between?
    ensures SuffixItems(s, rest) == Put(SuffixWords(s), rest)
    decreases s, 0
  {
    hide Put, ExprItems, Words;
    var w0, w1, w2, w3, w4 := WordIf(s.negated, NOT, "NOT"), Word(BETWEEN, "BETWEEN"), Words(s.lo), Word(AND, "AND"), Words(s.hi);
    var i3 := Put(w4, rest);
    var i2 := Put(w3, i3);
    var i1 := Put(w2, i2);
    PutFive(w0, w1, w2, w3, w4, rest);
    WritesWords(s.hi, rest);
    PutOne(Fixed(AND, "AND", false), i3);
    WritesWords(s.lo, i2);
    PutOne(Fixed(BETWEEN, "BETWEEN", false), i1);
    IfPut(s.negated, NOT, "NOT", Put(w1, i1));
  }

  lemma {:induction false} TargetPut(target: InSet, rest: Items)
    ensures TargetItems(target, rest) == Put(TargetWords(target), rest)
    decreases target
  {
    hide Put, ListItems, ListWords;
    match target
    case InList(list) => BracketsPut(Word(LP, "("), list, rest);
    case InTable(table) => TablePut(table, rest);
    case InTableArgs(table, args) =>
      var w := Mark(LP, "(") + ListWords(args) + Mark(RP, ")");
      assert TargetWords(target) == TableWords(table) + w;
      PutJoin(TableWords(table), w, rest);
      BracketsPut(Mark(LP, "("), args, rest);
      TablePut(table, Put(w, rest));
  }

  lemma TablePut(t: TableName, rest: Items)
    ensures TableItems(t, rest) == Put(TableWords(t), rest)
  {
    hide Put;
    match t
    case Bare(n) => PutOne(Content(n, false), rest);
    case Dotted(s, n) =>
      PutJoin(Held(s), DotAnd(n), rest);
      PutPart(n, rest);
      PutOne(Content(s, false), Put(DotAnd(n), rest));
  }

  /** The tokens `ts` are the words `ws` followed by `k`: tokens the tree holds as they are, the
      others by kind, however they are written. */
  predicate Spelled(ws: seq<Item>, ts: Toks, k: Toks)
    decreases |ws|
  {
    if ws == [] then ts == k else ts.Cons? && Matches(ws[0], ts.head) && Spelled(ws[1..], ts.tail, k)
  }

  lemma {:induction false} PutReads(ws: seq<Item>, ts: Toks, k: Toks)
    ensures ReadAll(Put(ws, Stop), ts) == To(k) <==> Spelled(ws, ts, k)
    decreases |ws|
  {
    if ws != [] && ts.Cons? {
      PutReads(ws[1..], ts.tail, k);
    }
  }

  /** What is read as a tree are exactly the tokens of its words. */
  lemma {:induction false} ReadsWords(e: Expr, ts: Toks, k: Toks)
    ensures Reads(e, ts) == To(k) <==> Spelled(Words(e), ts, k)
  {
    hide Reads, Words, ExprItems, ReadAll, Spelled, Put;
    ItemsRead(e, Stop, ts);
    StopBinds(Reads(e, ts));
    WritesWords(e, Stop);
    PutReads(Words(e), ts, k);
  }
}
