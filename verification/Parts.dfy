/** Taking canonical trees apart: each rule of Forms read backwards, with the tokens that
    decide the parser's next step named. */
module Parts {
  import opened Token
  import opened Ast
  import opened Grammar
  import opened Canonical
  import opened Forms

  /** The kinds an expression can begin with. */
  predicate Begins(k: Kind) {
    PrefixOf(k) != [] || IsLiteralKind(k) || k.STRING? || k.VARIABLE? || k.CASE? || k.LP? || IsIdentKind(k)
  }

  /** The kinds that extend a finished operand without being operators. */
  predicate Extends(k: Kind) { k.LP? || k.DOT? || k.ESCAPE? || k.FILTER? || k.OVER? }

  lemma {:induction false} StartBegins(e: Expr, ts: Toks)
    requires Reads(e, ts).To? && Canon(e)
    ensures ts.Cons? && Cur(ts) == StartKind(e) && Begins(Cur(ts))
  {
    if e.Apply? {
      StartBegins(e.x, ts);
    }
  }

  lemma {:induction false} AbsorbedExtends(e: Expr, k: Kind)
    requires Absorbs(e, k)
    ensures Extends(k)
    decreases e
  {
    match e
    case Atom(_) =>
    case Unary(_, x) => AbsorbedExtends(x, k);
    case Apply(_, s) =>
      match s
      case Binary(_, y) => AbsorbedExtends(y, k);
      case Like(_, _, y, escape) =>
        if escape.Some? {
          AbsorbedExtends(escape.expr, k);
        } else if !k.ESCAPE? {
          AbsorbedExtends(y, k);
        }
      case Is(_, _, y) => AbsorbedExtends(y, k);
      case Between(_, _, hi) => AbsorbedExtends(hi, k);
      case _ =>
  }

  lemma {:induction false} EdgePositive(e: Expr)
    ensures Edge(e) > 0
    decreases e
  {
    match e
    case Atom(_) =>
    case Unary(_, x) => EdgePositive(x);
    case Apply(_, s) =>
      match s
      case Binary(_, y) => EdgePositive(y);
      case Like(_, _, y, escape) => EdgePositive(if escape.Some? then escape.expr else y);
      case Is(_, _, y) => EdgePositive(y);
      case Between(_, _, hi) => EdgePositive(hi);
      case _ =>
  }

  /** A token that is neither an operator nor an extension ends every expression. */
  lemma {:induction false} Terminates(e: Expr, min: nat, k: Toks)
    requires Prec(k) == 0 && !Extends(Cur(k)) && !Cur(k).ILLEGAL?
    ensures Follows(e, min, k)
  {
    hide Absorbs, Edge;
    EdgePositive(e);
    if Absorbs(e, Cur(k)) {
      AbsorbedExtends(e, Cur(k));
    }
  }

  lemma {:induction false} Terminated(e: Expr, ts: Toks, k: Toks, room: nat)
    requires Reads(e, ts) == To(k) && Canon(e) && Need(e) <= room
    requires Prec(k) == 0 && !Extends(Cur(k)) && !Cur(k).ILLEGAL?
    ensures Complete(e, ts, k, room, LOWEST)
  {
    hide Reads, Canon, Need, Inner, Absorbs, Edge;
    Terminates(e, LOWEST, k);
  }

  /** The tokens of an operator begin with its precedence, and are no extension. */
  lemma {:induction false} SuffixStart(s: Suffix, ts: Toks)
    requires ReadsSuffix(s, ts).To? && CanonSuffix(s)
    ensures ts.Cons? && Prec(ts) == SuffixPrec(s) > 0 && !Extends(Cur(ts)) && !Cur(ts).ILLEGAL?
    ensures Cur(ts).AND? <==> (s.Binary? && s.op.OpAnd?)
  {
    hide Reads, Canon, ReadsTarget, CanonTarget, ReadsOpt, TakeOperator, OperatorPrec, Spine, Edge, Absorbs, StartKind;
    if s.Binary? {
      OperatorStart(s.op, ts);
    }
  }

  lemma {:induction false} OperatorStart(op: Operator, ts: Toks)
    requires TakeOperator(op, ts).To?
    ensures ts.Cons? && Prec(ts) == OperatorPrec(op) > 0 && !Extends(Cur(ts)) && !Cur(ts).ILLEGAL?
    ensures Cur(ts).AND? <==> op.OpAnd?
  {
  }

  lemma {:induction false} ApplyParts(x: Expr, s: Suffix, ts: Toks, k: Toks, room: nat, min: nat) returns (k0: Toks)
    requires Reached(Apply(x, s), ts, k, room, min)
    ensures Reached(x, ts, k0, room, min) && Applied(s, k0, k, room) && min <= Prec(k0)
    ensures k0.Cons? && !Cur(k0).ILLEGAL? && Prec(k0) > 0
    ensures Cur(k0).AND? <==> (s.Binary? && s.op.OpAnd?)
  {
    k0 := Reads(x, ts).ts;
    SuffixStart(s, k0);
    if Absorbs(x, Cur(k0)) {
      AbsorbedExtends(x, Cur(k0));
    }
  }

  lemma {:induction false} PrefixParts(pre: Prefix, x: Expr, ts: Toks, k: Toks, room: nat, min: nat)
    requires Reached(Unary(pre, x), ts, k, room, min) && !Cur(k).ILLEGAL?
    ensures ts.Cons? && ts.head.kind == PrefixKind(pre)
    ensures Complete(x, ts.tail, k, room, PrefixMin(pre)) && Begins(Cur(ts.tail))
  {
    StartBegins(x, ts.tail);
  }

  lemma {:induction false} AtomParts(p: Primary, ts: Toks, k: Toks, room: nat, min: nat)
    requires Reached(Atom(p), ts, k, room, min)
    ensures Stands(p, ts, k, room)
  {
  }

  lemma {:induction false} BinaryParts(op: Operator, y: Expr, ts: Toks, k: Toks, room: nat)
    requires Applied(Binary(op, y), ts, k, room) && !Cur(k).ILLEGAL?
    ensures ts.Cons? && InfixPrec(ts.head.kind) > 0 && InfixOperator(ts.head) == op
    ensures Complete(y, ts.tail, k, room, InfixPrec(ts.head.kind) + 1) && Begins(Cur(ts.tail))
  {
    hide Reads, Canon, Need, Spine, Edge, Absorbs, StartKind, Begins;
    StartBegins(y, ts.tail);
    assert OperatorKind(op) == ts.head.kind;
  }

  lemma {:induction false} IsParts(negated: bool, distinct: bool, y: Expr, ts: Toks, k: Toks, room: nat)
    returns (k1: Toks, k2: Toks, k3: Toks, k4: Toks)
    requires Applied(Is(negated, distinct, y), ts, k, room) && !Cur(k).ILLEGAL?
    ensures Take(IS, ts) == To(k1) && TakeIf(negated, NOT, k1) == To(k2)
    ensures TakeIf(distinct, DISTINCT, k2) == To(k3) && TakeIf(distinct, FROM, k3) == To(k4)
    ensures (!negated ==> !Cur(k1).NOT?) && (!distinct ==> !Cur(k2).DISTINCT?)
    ensures !Cur(k1).ILLEGAL? && !Cur(k2).ILLEGAL? && Begins(Cur(k4))
    ensures Complete(y, k4, k, room, AFTER_COMPARE)
  {
    hide Canon, Reads, Spine, Edge, Absorbs, StartKind, Inner;
    k1 := ts.tail;
    k2 := TakeIf(negated, NOT, k1).ts;
    k3 := TakeIf(distinct, DISTINCT, k2).ts;
    k4 := TakeIf(distinct, FROM, k3).ts;
    StartBegins(y, k4);
  }

  lemma {:induction false} LikeParts(negated: bool, like: Lexeme, y: Expr, escape: OptExpr, ts: Toks, k: Toks, room: nat)
    returns (k1: Toks, k2: Toks, k3: Toks)
    requires Applied(Like(negated, like, y, escape), ts, k, room) && !Cur(k).ILLEGAL?
    ensures TakeIf(negated, NOT, ts) == To(k1) && TakeToken(like, k1) == To(k2)
    ensures (like.kind.LIKE_KW? || like.kind.MATCH?) && Begins(Cur(k2))
    ensures Complete(y, k2, k3, room, AFTER_COMPARE)
    ensures CompleteOpt(ESCAPE, escape, k3, k, room, AFTER_COMPARE)
    ensures escape.Some? ==> Begins(Cur(k3.tail))
  {
    hide Canon, Reads, Spine, Edge, Absorbs, StartKind, Inner;
    assert CanonOpt(escape) && NeedOpt(escape) <= room && Need(y) <= room;
    k1 := TakeIf(negated, NOT, ts).ts;
    k2 := k1.tail;
    k3 := Reads(y, k2).ts;
    StartBegins(y, k2);
    EdgePositive(y);
    assert ReadsOpt(ESCAPE, escape, k3) == To(k);
    if escape.Some? {
      StartBegins(escape.expr, k3.tail);
    }
  }

  lemma {:induction false} NoAndAbove(e: Expr)
    requires Spine(e) > 2
    ensures !AndOnSpine(e)
  {
    if e.Apply? {
      NoAndAbove(e.x);
    }
  }

  lemma {:induction false} NeedOfBounds(negated: bool, lo: Expr, hi: Expr)
    ensures SuffixNeed(Between(negated, lo, hi)) == Max(Need(lo), Need(hi)) && Need(lo) == 1 + Inner(lo)
  {
  }

  lemma {:induction false} BetweenParts(negated: bool, lo: Expr, hi: Expr, ts: Toks, k: Toks, room: nat)
    returns (k1: Toks, k2: Toks, k3: Toks)
    requires Applied(Between(negated, lo, hi), ts, k, room) && !Cur(k).ILLEGAL?
    ensures TakeIf(negated, NOT, ts) == To(k1) && Take(BETWEEN, k1) == To(k2) && room > 0
    ensures Reached(lo, k2, k3, room - 1, 1) && !AndOnSpine(lo) && Begins(Cur(k2))
    ensures Take(AND, k3).To? && Complete(hi, k3.tail, k, room, AFTER_COMPARE) && Begins(Cur(k3.tail))
  {
    hide Canon, Reads, Need, SuffixNeed, Inner, Spine, Edge, Absorbs, StartKind, AndOnSpine;
    NeedOfBounds(negated, lo, hi);
    k1 := TakeIf(negated, NOT, ts).ts;
    k2 := k1.tail;
    k3 := Reads(lo, k2).ts;
    StartBegins(lo, k2);
    StartBegins(hi, k3.tail);
    NoAndAbove(lo);
    if Absorbs(lo, Cur(k3)) {
      AbsorbedExtends(lo, Cur(k3));
    }
  }

  lemma {:induction false} InParts(negated: bool, target: InSet, ts: Toks, k: Toks, room: nat) returns (k1: Toks, k2: Toks)
    requires Applied(In(negated, target), ts, k, room)
    ensures TakeIf(negated, NOT, ts) == To(k1) && Take(IN, k1) == To(k2)
    ensures ReadsTarget(target, k2) == To(k) && CanonTarget(target) && NeedTarget(target) <= room
    ensures target.InTable? ==> !Cur(k).LP? && (target.table.Bare? ==> !Cur(k).DOT?)
  {
    hide ReadsTarget, CanonTarget, NeedTarget;
    k1 := TakeIf(negated, NOT, ts).ts;
    k2 := k1.tail;
  }

  /** A list that ends before a closing bracket: each element is whole. */
  ghost predicate ListBefore(list: Exprs, ts: Toks, k: Toks, room: nat) {
    ReadsList(list, ts) == To(k) && CanonList(list) && NeedList(list) <= room
  }

  lemma {:induction false} ListParts(list: Exprs, ts: Toks, k: Toks, room: nat) returns (k0: Toks)
    requires ListBefore(list, ts, k, room) && list.More? && Cur(k).RP?
    ensures Complete(list.head, ts, k0, room, LOWEST) && Begins(Cur(ts)) && Cur(ts) == StartKind(list.head)
    ensures if list.tail.More? then Take(COMMA, k0).To? && ListBefore(list.tail, k0.tail, k, room) && Begins(Cur(k0.tail)) else k0 == k
  {
    k0 := Reads(list.head, ts).ts;
    StartBegins(list.head, ts);
    if list.tail.More? {
      assert CanonList(list.tail) && ReadsList(list.tail, k0.tail) == To(k);
      StartBegins(list.tail.head, k0.tail);
    }
    assert list.tail.Nil? ==> ReadsList(list.tail, k0) == To(k);
    Terminated(list.head, ts, k0, room);
  }

  lemma {:induction false} WhenParts(cond: Expr, value: Expr, rest: Whens, ts: Toks, k: Toks, room: nat)
    returns (k0: Toks, k1: Toks)
    requires CompleteWhens(When(cond, value, rest), ts, k, room) && (Cur(k).ELSE? || Cur(k).END?)
    ensures Take(WHEN, ts).To? && Complete(cond, ts.tail, k0, room, LOWEST) && Begins(Cur(ts.tail))
    ensures Take(THEN, k0).To? && Complete(value, k0.tail, k1, room, LOWEST) && Begins(Cur(k0.tail))
    ensures CompleteWhens(rest, k1, k, room) && (if rest.When? then Cur(k1).WHEN? else k1 == k)
  {
    hide Canon, Reads, Spine, Edge, Absorbs, StartKind, Inner;
    k0 := Reads(cond, ts.tail).ts;
    k1 := Reads(value, k0.tail).ts;
    StartBegins(cond, ts.tail);
    StartBegins(value, k0.tail);
    Terminated(cond, ts.tail, k0, room);
    assert ReadsWhens(rest, k1) == To(k);
    Terminated(value, k0.tail, k1, room);
  }

  lemma {:induction false} WhensStart(ws: Whens, ts: Toks)
    requires ws.When? && ReadsWhens(ws, ts).To?
    ensures Cur(ts).WHEN?
  {
  }

  lemma {:induction false} OperandParts(o: OptExpr, ts: Toks, k: Toks, room: nat)
    requires ReadsOperand(o, ts) == To(k) && CanonOpt(o) && NeedOpt(o) <= room && Cur(k).WHEN?
    ensures if o.Some? then Complete(o.expr, ts, k, room, LOWEST) && Begins(Cur(ts)) else k == ts
  {
    hide Reads, Canon, Need, Complete, StartKind, Begins;
    if o.Some? {
      StartBegins(o.expr, ts);
      Terminated(o.expr, ts, k, room);
    }
  }

  lemma {:induction false} ElseParts(o: OptExpr, ts: Toks, k: Toks, room: nat)
    requires ReadsOpt(ELSE, o, ts) == To(k) && CanonOpt(o) && NeedOpt(o) <= room && Cur(k).END?
    ensures CompleteOpt(ELSE, o, ts, k, room, LOWEST)
    ensures if o.Some? then Begins(Cur(ts.tail)) else k == ts
  {
    hide Reads, Canon, Need, Complete, StartKind, Begins;
    if o.Some? {
      StartBegins(o.expr, ts.tail);
      Terminated(o.expr, ts.tail, k, room);
    }
  }

  lemma {:induction false} CaseParts(operand: OptExpr, whens: Whens, otherwise: OptExpr, ts: Toks, k: Toks, room: nat)
    returns (k0: Toks, k1: Toks, k2: Toks)
    requires Stands(Case(operand, whens, otherwise), ts, k, room)
    ensures Take(CASE, ts).To?
    ensures if operand.Some? then Complete(operand.expr, ts.tail, k0, room, LOWEST) && Begins(Cur(ts.tail)) else k0 == ts.tail
    ensures whens.When? && CompleteWhens(whens, k0, k1, room) && Cur(k0).WHEN?
    ensures CompleteOpt(ELSE, otherwise, k1, k2, room, LOWEST) && Take(END, k2) == To(k)
    ensures if otherwise.Some? then Begins(Cur(k1.tail)) else k1 == k2
  {
    hide Complete, CompleteOpt, ReadsOperand, ReadsOpt, CanonOpt, NeedOpt, ReadsWhens, CanonWhens, NeedWhens;
    k0 := ReadsOperand(operand, ts.tail).ts;
    k1 := ReadsWhens(whens, k0).ts;
    k2 := ReadsOpt(ELSE, otherwise, k1).ts;
    WhensStart(whens, k0);
    OperandParts(operand, ts.tail, k0, room);
    ElseParts(otherwise, k1, k2, room);
  }

  /** A whole expression is a loop that stops. */
  lemma {:induction false} WholeParts(e: Expr, ts: Toks, k: Toks, room: nat, min: nat)
    requires Complete(e, ts, k, room, min)
    ensures room > 0 && Reached(e, ts, k, room - 1, min) && !Continues(k, min, false)
  {
    assert Need(e) == 1 + Inner(e);
  }

  lemma {:induction false} BracketParts(list: Exprs, ts: Toks, k: Toks, room: nat) returns (k0: Toks)
    requires Stands(Bracket(list), ts, k, room)
    ensures Take(LP, ts).To? && ListBefore(list, ts.tail, k0, room) && Take(RP, k0) == To(k)
    ensures list.More? && !StartKind(list.head).WITH?
  {
    hide ReadsList, CanonList, NeedList, StartKind;
    k0 := ReadsList(list, ts.tail).ts;
  }

  lemma {:induction false} CallParts(name: Lexeme, args: CallArgs, ts: Toks, k: Toks, room: nat) returns (k0: Toks)
    requires Stands(Call(name, args), ts, k, room)
    ensures ts.Cons? && ts.head == name && IsIdentKind(name.kind) && Take(LP, ts.tail).To?
    ensures ReadsArgs(args, ts.tail.tail) == To(k0) && Take(RP, k0) == To(k)
    ensures args.Args? ==> CanonList(args.list) && NeedList(args.list) <= room
    ensures !Cur(k).FILTER? && !Cur(k).OVER?
  {
    hide ReadsArgs, CanonList, NeedList;
    k0 := ReadsArgs(args, ts.tail.tail).ts;
  }

  lemma {:induction false} ArgsParts(q: Quantifier, list: Exprs, ts: Toks, k: Toks, room: nat) returns (k0: Toks)
    requires ReadsArgs(Args(q, list), ts) == To(k) && CanonList(list) && NeedList(list) <= room
    ensures ListBefore(list, k0, k, room)
    ensures TakeIf(q.Distinct?, DISTINCT, ts).To? && TakeIf(q.All?, ALL, TakeIf(q.Distinct?, DISTINCT, ts).ts) == To(k0)
  {
    hide ReadsList, CanonList, NeedList;
    k0 := if q.NoQuantifier? then ts else ts.tail;
  }

  lemma {:induction false} NoWhensParts(ts: Toks, k: Toks, room: nat)
    requires CompleteWhens(NoWhens, ts, k, room)
    ensures ts == k
  {
  }

  lemma {:induction false} InListParts(list: Exprs, ts: Toks, k: Toks, room: nat) returns (k0: Toks)
    requires ReadsTarget(InList(list), ts) == To(k) && CanonTarget(InList(list)) && NeedTarget(InList(list)) <= room
    ensures Take(LP, ts).To? && ListBefore(list, ts.tail, k0, room) && Take(RP, k0) == To(k)
    ensures list.More? ==> !StartKind(list.head).WITH?
  {
    hide ReadsList, CanonList, NeedList, StartKind;
    k0 := ReadsList(list, ts.tail).ts;
  }

  lemma {:induction false} InTableParts(table: TableName, ts: Toks, k: Toks)
    requires ReadsTarget(InTable(table), ts) == To(k) && CanonTarget(InTable(table))
    ensures ReadsTable(table, ts) == To(k) && CanonTable(table)
  {
    hide ReadsTable, CanonTable;
  }

  lemma {:induction false} InArgsParts(table: TableName, args: Exprs, ts: Toks, k: Toks, room: nat) returns (k1: Toks, k0: Toks)
    requires var target := InTableArgs(table, args);
             ReadsTarget(target, ts) == To(k) && CanonTarget(target) && NeedTarget(target) <= room
    ensures ReadsTable(table, ts) == To(k1) && CanonTable(table) && Take(LP, k1).To?
    ensures ListBefore(args, k1.tail, k0, room) && Take(RP, k0) == To(k)
  {
    hide ReadsList, CanonList, NeedList, ReadsTable, CanonTable;
    k1 := ReadsTable(table, ts).ts;
    k0 := ReadsList(args, k1.tail).ts;
  }
}
