/** How canonical trees are put together: one rule per grammar rule, about tokens and trees
    only. The parser's functions are matched against these rules elsewhere. */
module Forms {
  import opened Token
  import opened Ast
  import opened Grammar
  import opened Canonical

  /** A loop at level `min` holds `e`, read from `ts` up to `k`, and may go on. */
  ghost predicate Reached(e: Expr, ts: Toks, k: Toks, room: nat, min: nat) {
    && Reads(e, ts) == To(k)
    && Canon(e) && Spine(e) >= min && Inner(e) <= room
    && Prec(k) < Edge(e) && !Absorbs(e, Cur(k))
  }

  /** `e` is a whole expression of level `min` at `ts`, ending at `k`. */
  ghost predicate Complete(e: Expr, ts: Toks, k: Toks, room: nat, min: nat) {
    && Reads(e, ts) == To(k)
    && Canon(e) && Spine(e) >= min && Need(e) <= room
    && Follows(e, min, k)
  }

  /** `s` is an operator with its right side at `ts`, ending at `k`. */
  ghost predicate Applied(s: Suffix, ts: Toks, k: Toks, room: nat) {
    && ReadsSuffix(s, ts) == To(k)
    && CanonSuffix(s) && SuffixNeed(s) <= room
    && SuffixPrec(s) == Prec(ts) && Prec(k) < SuffixEdge(s) && !SuffixAbsorbs(s, Cur(k))
  }

  /** `p` stands at `ts`, ending at `k`. */
  ghost predicate Stands(p: Primary, ts: Toks, k: Toks, room: nat) {
    && ReadsPrimary(p, ts) == To(k)
    && CanonPrimary(p) && PrimaryNeed(p) <= room
    && !Absorbs(Atom(p), Cur(k))
  }

  /** `list` is a list of whole expressions at `ts`, ending at `k`. */
  ghost predicate CompleteList(list: Exprs, ts: Toks, k: Toks, room: nat) {
    && ReadsList(list, ts) == To(k)
    && CanonList(list) && NeedList(list) <= room
    && (list.More? ==> StartKind(list.head) == Cur(ts))
  }

  ghost predicate CompleteWhens(ws: Whens, ts: Toks, k: Toks, room: nat) {
    ReadsWhens(ws, ts) == To(k) && CanonWhens(ws) && NeedWhens(ws) <= room
  }

  /** An optional clause: nothing, or the keyword `kw` and an expression of level `min`. */
  ghost predicate CompleteOpt(kw: Kind, o: OptExpr, ts: Toks, k: Toks, room: nat, min: nat) {
    if o.Some? then Take(kw, ts).To? && Complete(o.expr, ts.tail, k, room, min)
    else Cur(ts) != kw && k == ts
  }

  /** The first token read for `e` has its start kind. */
  lemma {:induction false} StartIsFirst(e: Expr, ts: Toks)
    requires Reads(e, ts).To?
    ensures ts.Cons? && ts.head.kind == StartKind(e)
  {
    if e.Apply? {
      StartIsFirst(e.x, ts);
    }
  }

  /** Whether an AND is on the left spine. */
  predicate AndOnSpine(e: Expr) {
    e.Apply? && ((e.s.Binary? && e.s.op.OpAnd?) || AndOnSpine(e.x))
  }

  /** An OR on the spine leaves an open operand that takes a following AND, so a lower bound
      that was followed by one has neither. */
  lemma {:induction false} OrTakesAnd(e: Expr)
    requires Canon(e) && !AndOnSpine(e) && Edge(e) > 2
    ensures Spine(e) > 2
  {
    if e.Apply? {
      OrTakesAnd(e.x);
    }
  }

  /** A loop that stops holds a whole expression. */
  lemma {:induction false} StopForm(e: Expr, ts: Toks, k: Toks, room: nat, min: nat)
    requires Reached(e, ts, k, room, min) && !Continues(k, min, false) && !Cur(k).ILLEGAL?
    ensures Complete(e, ts, k, room + 1, min)
  {
  }

  lemma {:induction false} AtomForm(p: Primary, ts: Toks, k: Toks, room: nat, min: nat)
    requires Stands(p, ts, k, room) && min <= CLOSED
    ensures Reached(Atom(p), ts, k, room, min)
  {
  }

  lemma {:induction false} PrefixForm(pre: Prefix, x: Expr, ts: Toks, k: Toks, room: nat, min: nat)
    requires ts.Cons? && ts.head.kind == PrefixKind(pre) && min <= CLOSED
    requires Complete(x, ts.tail, k, room, PrefixMin(pre))
    ensures Reached(Unary(pre, x), ts, k, room, min)
  {
  }

  lemma {:induction false} ApplyForm(x: Expr, s: Suffix, ts: Toks, k0: Toks, k: Toks, room: nat, min: nat)
    requires Reached(x, ts, k0, room, min) && min <= Prec(k0) && Applied(s, k0, k, room)
    ensures Reached(Apply(x, s), ts, k, room, min)
  {
  }

  lemma {:induction false} BinaryForm(y: Expr, ts: Toks, k: Toks, room: nat)
    requires ts.Cons? && InfixPrec(ts.head.kind) > 0
    requires Complete(y, ts.tail, k, room, InfixPrec(ts.head.kind) + 1)
    ensures Applied(Binary(InfixOperator(ts.head), y), ts, k, room)
  {
    hide Reads, Canon, Need, Spine, Edge, Absorbs, StartKind;
    assert OperatorKind(InfixOperator(ts.head)) == ts.head.kind;
  }

  lemma {:induction false} IsForm(negated: bool, distinct: bool, y: Expr,
                                  ts: Toks, k1: Toks, k2: Toks, k3: Toks, k4: Toks, k: Toks, room: nat)
    requires Take(IS, ts) == To(k1) && TakeIf(negated, NOT, k1) == To(k2)
    requires TakeIf(distinct, DISTINCT, k2) == To(k3) && TakeIf(distinct, FROM, k3) == To(k4)
    requires !negated ==> !Cur(k1).NOT?
    requires Complete(y, k4, k, room, AFTER_COMPARE)
    ensures Applied(Is(negated, distinct, y), ts, k, room)
  {
    StartIsFirst(y, k4);
  }

  lemma {:induction false} LikeForm(negated: bool, like: Lexeme, y: Expr, escape: OptExpr,
                                    ts: Toks, k1: Toks, k2: Toks, k3: Toks, k: Toks, room: nat)
    requires TakeIf(negated, NOT, ts) == To(k1) && TakeToken(like, k1) == To(k2)
    requires like.kind.LIKE_KW? || like.kind.MATCH?
    requires Complete(y, k2, k3, room, AFTER_COMPARE)
    requires CompleteOpt(ESCAPE, escape, k3, k, room, AFTER_COMPARE)
    ensures Applied(Like(negated, like, y, escape), ts, k, room)
  {
    hide Reads, Canon, Need, Spine, Edge, Absorbs, StartKind;
    var s := Like(negated, like, y, escape);
    assert ReadsOpt(ESCAPE, escape, k3) == To(k);
    assert ReadsSuffix(s, ts) == To(k);
    assert CanonSuffix(s) && SuffixNeed(s) <= room;
    assert SuffixPrec(s) == Prec(ts);
    assert Prec(k) < SuffixEdge(s);
    assert !SuffixAbsorbs(s, Cur(k));
  }

  lemma {:induction false} BetweenForm(negated: bool, lo: Expr, hi: Expr,
                                       ts: Toks, k1: Toks, k2: Toks, k3: Toks, k: Toks, room: nat)
    requires TakeIf(negated, NOT, ts) == To(k1) && Take(BETWEEN, k1) == To(k2) && room > 0
    requires Reached(lo, k2, k3, room - 1, 1) && !AndOnSpine(lo) && Take(AND, k3).To?
    requires Complete(hi, k3.tail, k, room, AFTER_COMPARE)
    ensures Applied(Between(negated, lo, hi), ts, k, room)
  {
    hide Canon, Reads, AndOnSpine, Spine, Edge, Absorbs, Inner;
    OrTakesAnd(lo);
    assert Need(lo) <= room;
  }

  lemma {:induction false} InForm(negated: bool, target: InSet, ts: Toks, k1: Toks, k2: Toks, k: Toks, room: nat)
    requires TakeIf(negated, NOT, ts) == To(k1) && Take(IN, k1) == To(k2)
    requires ReadsTarget(target, k2) == To(k) && CanonTarget(target) && NeedTarget(target) <= room
    requires target.InTable? ==> !Cur(k).LP? && (target.table.Bare? ==> !Cur(k).DOT?)
    ensures Applied(In(negated, target), ts, k, room)
  {
    hide ReadsTarget, CanonTarget, NeedTarget;
  }

  lemma {:induction false} EmptyList(ts: Toks, room: nat)
    ensures CompleteList(Nil, ts, ts, room)
  {
  }

  lemma {:induction false} ListForm(e: Expr, rest: Exprs, ts: Toks, k0: Toks, k: Toks, room: nat)
    requires Complete(e, ts, k0, room, LOWEST)
    requires if rest.More? then Take(COMMA, k0).To? && CompleteList(rest, k0.tail, k, room) else k == k0
    ensures CompleteList(More(e, rest), ts, k, room)
  {
    StartIsFirst(e, ts);
  }

  lemma {:induction false} BracketForm(list: Exprs, ts: Toks, k0: Toks, k: Toks, room: nat)
    requires Take(LP, ts).To? && CompleteList(list, ts.tail, k0, room) && Take(RP, k0) == To(k)
    requires list.More? && !Cur(ts.tail).WITH?
    ensures Stands(Bracket(list), ts, k, room)
  {
  }

  lemma {:induction false} CaseForm(operand: OptExpr, whens: Whens, otherwise: OptExpr,
                                    ts: Toks, k0: Toks, k1: Toks, k2: Toks, k: Toks, room: nat)
    requires Take(CASE, ts).To?
    requires if operand.Some? then Complete(operand.expr, ts.tail, k0, room, LOWEST) else k0 == ts.tail
    requires whens.When? && CompleteWhens(whens, k0, k1, room)
    requires CompleteOpt(ELSE, otherwise, k1, k2, room, LOWEST) && Take(END, k2) == To(k)
    ensures Stands(Case(operand, whens, otherwise), ts, k, room)
  {
    hide Reads, Canon, Need, Inner, Spine, Edge, ReadsWhens, CanonWhens, NeedWhens;
    assert ReadsOperand(operand, ts.tail) == To(k0) && ReadsOpt(ELSE, otherwise, k1) == To(k2);
    assert CanonOpt(operand) && CanonOpt(otherwise);
    assert NeedOpt(operand) <= room && NeedOpt(otherwise) <= room;
  }

  lemma {:induction false} WhenForm(cond: Expr, value: Expr, rest: Whens,
                                    ts: Toks, k0: Toks, k1: Toks, k: Toks, room: nat)
    requires Take(WHEN, ts).To? && Complete(cond, ts.tail, k0, room, LOWEST)
    requires Take(THEN, k0).To? && Complete(value, k0.tail, k1, room, LOWEST)
    requires CompleteWhens(rest, k1, k, room)
    ensures CompleteWhens(When(cond, value, rest), ts, k, room)
  {
  }

  lemma {:induction false} CallForm(args: CallArgs, ts: Toks, k0: Toks, k: Toks, room: nat)
    requires ts.Cons? && IsIdentKind(ts.head.kind) && Take(LP, ts.tail).To?
    requires ReadsArgs(args, ts.tail.tail) == To(k0) && Take(RP, k0) == To(k)
    requires args.Args? ==> CanonList(args.list) && NeedList(args.list) <= room
    requires !Cur(k).FILTER? && !Cur(k).OVER?
    ensures Stands(Call(ts.head, args), ts, k, room)
  {
  }
}
