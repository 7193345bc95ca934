/** The parser accepts every canonical tree from any spelling of it. */
module Completeness {
  import opened Token
  import opened Ast
  import opened Engine
  import opened Grammar
  import opened Canonical
  import opened Forms
  import opened Parts

  /** A state with no deferred error. */
  function At(ts: Toks): State { State(ts, Quiet) }

  /** A prefix and the loop after it: the body of parseExpr and of parseBetweenBound. */
  function Climb(st: State, room: nat, min: nat, stop: bool): Outcome<Expr>
    requires Good(st)
  {
    var (x, s1) :- ParsePrefix(st, room);
    ParseOperators(s1, room, x, min, stop)
  }

  lemma {:induction false} ExprParses(e: Expr, ts: Toks, k: Toks, room: nat, min: nat)
    requires Complete(e, ts, k, room, min) && Begins(Cur(ts)) && !Cur(k).ILLEGAL?
    ensures ParseExpr(At(ts), room, min) == Ok(e, At(k))
    decreases e, 2
  {
    hide Complete, Reached, AndOnSpine, ParsePrefix;
    WholeParts(e, ts, k, room, min);
    ClimbReaches(e, ts, k, room - 1, min, false);
    assert ParseExpr(At(ts), room, min) == Climb(At(ts), room - 1, min, false);
  }

  /** Climbing from the start of `e` comes to a loop that holds exactly `e`. */
  lemma {:induction false} ClimbReaches(e: Expr, ts: Toks, k: Toks, room: nat, min: nat, stop: bool)
    requires Reached(e, ts, k, room, min) && Begins(Cur(ts)) && !Cur(k).ILLEGAL?
    requires stop ==> !AndOnSpine(e)
    ensures Climb(At(ts), room, min, stop) == ParseOperators(At(k), room, e, min, stop)
    decreases e, 1
  {
    hide Reached, Stands, Complete, Applied, ParsePrimary, ParseSuffix, ParseExpr;
    match e
    case Atom(p) =>
      AtomParts(p, ts, k, room, min);
      PrimaryParses(p, ts, k, room);
    case Unary(pre, x) =>
      PrefixParts(pre, x, ts, k, room, min);
      ExprParses(x, ts.tail, k, room, PrefixMin(pre));
      assert PrefixOf(Cur(ts)) == [pre];
    case Apply(x, s) =>
      var k0 := ApplyParts(x, s, ts, k, room, min);
      ClimbReaches(x, ts, k0, room, min, stop);
      SuffixParses(s, k0, k, room);
      assert Continues(k0, min, stop);
  }

  lemma {:induction false} PrimaryParses(p: Primary, ts: Toks, k: Toks, room: nat)
    requires Stands(p, ts, k, room) && !Cur(k).ILLEGAL?
    ensures PrefixOf(Cur(ts)) == [] && ParsePrimary(At(ts), room) == Ok(Atom(p), At(k))
    decreases p
  {
    if p.Case? {
      CaseParses(p, ts, k, room);
    } else if p.Bracket? {
      BracketParses(p, ts, k, room);
    } else if p.Call? {
      CallParses(p, ts, k, room);
    } else {
      LeafParses(p, ts, k, room);
    }
  }

  lemma {:induction false} LeafParses(p: Primary, ts: Toks, k: Toks, room: nat)
    requires Stands(p, ts, k, room) && !Cur(k).ILLEGAL? && !p.Case? && !p.Bracket? && !p.Call?
    ensures PrefixOf(Cur(ts)) == [] && ParsePrimary(At(ts), room) == Ok(Atom(p), At(k))
  {
    hide ParseCase, ParseParenExpr, ParseFuncCall, ParseQualifiedRef;
    if p.QualifiedRef2? || p.QualifiedRef3? {
      ReferenceParses(p, ts, k, room);
    }
  }

  lemma {:induction false} ReferenceParses(p: Primary, ts: Toks, k: Toks, room: nat)
    requires Stands(p, ts, k, room) && !Cur(k).ILLEGAL? && (p.QualifiedRef2? || p.QualifiedRef3?)
    ensures QualifierKind(Cur(ts)) && Peek(ts).DOT? && ParseQualifiedRef(At(ts)) == Ok(Atom(p), At(k))
  {
    if p.QualifiedRef2? {
      PairParses(p.first, p.second, ts, k);
    } else {
      TripleParses(p.first, p.second, p.third, ts, k);
    }
  }

  lemma {:induction false} PairParses(a: Lexeme, b: Lexeme, ts: Toks, k: Toks)
    requires var p := QualifiedRef2(a, b); ReadsPrimary(p, ts) == To(k) && CanonPrimary(p)
    requires !Cur(k).ILLEGAL? && !Cur(k).DOT?
    ensures QualifierKind(Cur(ts)) && Peek(ts).DOT? && ParseQualifiedRef(At(ts)) == Ok(Atom(QualifiedRef2(a, b)), At(k))
  {
    hide Reads, ReadsOperand, ReadsWhens, ReadsList, ReadsArgs, CanonList, CanonWhens;
  }

  lemma {:induction false} TripleParses(a: Lexeme, b: Lexeme, c: Lexeme, ts: Toks, k: Toks)
    requires var p := QualifiedRef3(a, b, c); ReadsPrimary(p, ts) == To(k) && CanonPrimary(p)
    requires !Cur(k).ILLEGAL?
    ensures QualifierKind(Cur(ts)) && Peek(ts).DOT? && ParseQualifiedRef(At(ts)) == Ok(Atom(QualifiedRef3(a, b, c)), At(k))
  {
    hide Reads, ReadsOperand, ReadsWhens, ReadsList, ReadsArgs, CanonList, CanonWhens;
  }

  lemma {:induction false} CaseParses(p: Primary, ts: Toks, k: Toks, room: nat)
    requires p.Case? && Stands(p, ts, k, room) && !Cur(k).ILLEGAL?
    ensures PrefixOf(Cur(ts)) == [] && ParsePrimary(At(ts), room) == Ok(Atom(p), At(k))
    decreases p, 0
  {
    hide Stands, Complete, CompleteWhens, Begins, ParseExpr, ParseWhens, ParsePrimary, ParseCaseArms;
    var k0, k1, k2 := CaseParts(p.operand, p.whens, p.otherwise, ts, k, room);
    BeginsLegal(Cur(ts.tail));
    if p.otherwise.Some? {
      BeginsLegal(Cur(k1.tail));
    }
    if p.operand.Some? {
      ExprParses(p.operand.expr, ts.tail, k0, room, LOWEST);
    }
    WhensParse(p.whens, k0, k1, room);
    if p.otherwise.Some? {
      ExprParses(p.otherwise.expr, k1.tail, k2, room, LOWEST);
    }
    ArmsParse(p.operand, p.whens, p.otherwise, k0, k1, k2, k, room);
    CaseOpens(p.operand, ts, k0, room);
  }

  /** The end of a CASE, from its first WHEN on. */
  lemma {:induction false} ArmsParse(operand: OptExpr, whens: Whens, otherwise: OptExpr, k0: Toks, k1: Toks, k2: Toks, k: Toks, room: nat)
    requires Cur(k0).WHEN? && ParseWhens(At(k0), room) == Ok(whens, At(k1))
    requires if otherwise.Some? then
               Take(ELSE, k1).To? && !Cur(k1.tail).ILLEGAL? && ParseExpr(At(k1.tail), room, LOWEST) == Ok(otherwise.expr, At(k2))
             else k2 == k1
    requires Take(END, k2) == To(k) && !Cur(k).ILLEGAL?
    ensures ParseCaseArms(At(k0), room, operand) == Ok(Atom(Case(operand, whens, otherwise)), At(k))
  {
    hide ParseExpr, ParseWhens;
  }

  lemma {:induction false} CaseOpens(operand: OptExpr, ts: Toks, k0: Toks, room: nat)
    requires Take(CASE, ts).To? && Cur(k0).WHEN?
    requires if operand.Some? then
               !Cur(ts.tail).ILLEGAL? && !Cur(ts.tail).WHEN? && ParseExpr(At(ts.tail), room, LOWEST) == Ok(operand.expr, At(k0))
             else k0 == ts.tail
    ensures PrefixOf(Cur(ts)) == [] && ParsePrimary(At(ts), room) == ParseCaseArms(At(k0), room, operand)
  {
    hide ParseExpr, ParseCaseArms, ParseParenExpr, ParseFuncCall, ParseTerm, ParseQualifiedRef;
    assert ParsePrimary(At(ts), room) == ParseCase(At(ts), room);
  }

  lemma {:induction false} WhensParse(ws: Whens, ts: Toks, k: Toks, room: nat)
    requires CompleteWhens(ws, ts, k, room) && (Cur(k).ELSE? || Cur(k).END?)
    ensures ParseWhens(At(ts), room) == Ok(ws, At(k))
    decreases ws
  {
    hide Complete, CompleteWhens, Begins, ParseExpr, ParseWhens;
    if ws.NoWhens? {
      NoWhensParts(ts, k, room);
      NoneParse(ts, room);
    } else {
      var k0, k1 := WhenParts(ws.cond, ws.value, ws.rest, ts, k, room);
      BeginsLegal(Cur(ts.tail));
      BeginsLegal(Cur(k0.tail));
      ExprParses(ws.cond, ts.tail, k0, room, LOWEST);
      ExprParses(ws.value, k0.tail, k1, room, LOWEST);
      WhensParse(ws.rest, k1, k, room);
      ArmParses(ws, ts, k0, k1, k, room);
    }
  }

  lemma BeginsLegal(k: Kind)
    ensures Begins(k) ==> !k.ILLEGAL? && !k.WHEN?
  {
  }

  lemma {:induction false} NoneParse(ts: Toks, room: nat)
    requires !Cur(ts).ILLEGAL? && !Cur(ts).WHEN?
    ensures ParseWhens(At(ts), room) == Ok(NoWhens, At(ts))
  {
  }

  lemma {:induction false} ArmParses(ws: Whens, ts: Toks, k0: Toks, k1: Toks, k: Toks, room: nat)
    requires ws.When? && Take(WHEN, ts).To? && !Cur(ts.tail).ILLEGAL? && ParseExpr(At(ts.tail), room, LOWEST) == Ok(ws.cond, At(k0))
    requires Take(THEN, k0).To? && !Cur(k0.tail).ILLEGAL? && ParseExpr(At(k0.tail), room, LOWEST) == Ok(ws.value, At(k1))
    requires !Cur(k1).ILLEGAL? && ParseWhens(At(k1), room) == Ok(ws.rest, At(k))
    ensures ParseWhens(At(ts), room) == Ok(ws, At(k))
  {
    hide ParseExpr;
  }

  /** A non-empty list in brackets. */
  lemma {:induction false} ListParses(list: Exprs, ts: Toks, k: Toks, room: nat)
    requires ListBefore(list, ts, k, room) && list.More? && Cur(k).RP?
    ensures Begins(Cur(ts)) && ParseExprList(At(ts), room) == Ok(list, At(k))
    decreases list, 0
  {
    hide Complete, ListBefore, ParseExpr;
    var k0 := ListParts(list, ts, k, room);
    ExprParses(list.head, ts, k0, room, LOWEST);
    if list.tail.More? {
      ListParses(list.tail, k0.tail, k, room);
    }
  }

  lemma {:induction false} BracketParses(p: Primary, ts: Toks, k: Toks, room: nat)
    requires p.Bracket? && Stands(p, ts, k, room) && !Cur(k).ILLEGAL?
    ensures PrefixOf(Cur(ts)) == [] && ParsePrimary(At(ts), room) == Ok(Atom(p), At(k))
    decreases p, 0
  {
    hide Stands, ListBefore, StartKind, ParseExprList, ParseCase, ParseFuncCall, ParseTerm, ParseQualifiedRef;
    var k0 := BracketParts(p.list, ts, k, room);
    ListFirst(p.list, ts.tail, k0, room);
    ListParses(p.list, ts.tail, k0, room);
    assert ParseParenExpr(At(ts), room) == Ok(Atom(p), At(k));
  }

  lemma {:induction false} ListFirst(list: Exprs, ts: Toks, k: Toks, room: nat)
    requires ListBefore(list, ts, k, room) && list.More? && Cur(k).RP?
    ensures Begins(Cur(ts)) && Cur(ts) == StartKind(list.head)
  {
    hide Complete, ListBefore, StartKind;
    var k0 := ListParts(list, ts, k, room);
  }

  /** A possibly empty list and its closing bracket. */
  lemma {:induction false} ArgumentsParse(list: Exprs, ts: Toks, k0: Toks, k: Toks, room: nat)
    requires ListBefore(list, ts, k0, room) && Take(RP, k0) == To(k) && !Cur(k).ILLEGAL?
    ensures if list.More? then Begins(Cur(ts)) && Cur(ts) == StartKind(list.head) else ts == k0
    ensures !Cur(ts).ILLEGAL? && ParseArguments(At(ts), room) == Ok(list, At(k))
    decreases list, 1
  {
    if list.More? {
      hide ListBefore, ParseExprList, StartKind;
      ListFirst(list, ts, k0, room);
      ListParses(list, ts, k0, room);
    }
  }

  lemma {:induction false} CallParses(p: Primary, ts: Toks, k: Toks, room: nat)
    requires p.Call? && Stands(p, ts, k, room) && !Cur(k).ILLEGAL?
    ensures PrefixOf(Cur(ts)) == [] && ParsePrimary(At(ts), room) == Ok(Atom(p), At(k))
    decreases p, 0
  {
    hide Stands, ReadsArgs, CanonList, NeedList, ParseCase, ParseParenExpr, ParseTerm, ParseQualifiedRef, ParseCallArgs;
    var k0 := CallParts(p.name, p.args, ts, k, room);
    CallArgsParse(p.args, ts.tail.tail, k0, k, room);
    assert ParseFuncCall(At(ts), room) == Ok(Atom(p), At(k));
  }

  lemma {:induction false} CallArgsParse(args: CallArgs, ts: Toks, k0: Toks, k: Toks, room: nat)
    requires ReadsArgs(args, ts) == To(k0) && Take(RP, k0) == To(k) && !Cur(k).ILLEGAL?
    requires args.Args? ==> CanonList(args.list) && NeedList(args.list) <= room
    ensures !Cur(ts).ILLEGAL? && ParseCallArgs(At(ts), room) == Ok(args, At(k))
    decreases args
  {
    hide ReadsArgs, CanonList, NeedList, ListBefore, ParseCallArgs, ParseCallList;
    if args.Args? {
      var t1 := ArgsParts(args.quantifier, args.list, ts, k0, room);
      CallListParses(args.quantifier, args.list, t1, k0, k, room);
      QuantifierParses(args.quantifier, ts, t1, room);
    } else {
      StarParses(ts, k0, k, room);
    }
  }

  lemma {:induction false} StarParses(ts: Toks, k0: Toks, k: Toks, room: nat)
    requires ReadsArgs(StarArg, ts) == To(k0) && Take(RP, k0) == To(k) && !Cur(k).ILLEGAL?
    ensures !Cur(ts).ILLEGAL? && ParseCallArgs(At(ts), room) == Ok(StarArg, At(k))
  {
    hide ParseCallList;
  }

  lemma {:induction false} QuantifierParses(q: Quantifier, ts: Toks, t1: Toks, room: nat)
    requires Begins(Cur(t1)) || Cur(t1).RP?
    requires match q
             case NoQuantifier => t1 == ts
             case Distinct => Take(DISTINCT, ts) == To(t1)
             case All => Take(ALL, ts) == To(t1)
    ensures !Cur(ts).ILLEGAL? && ParseCallArgs(At(ts), room) == ParseCallList(At(t1), room, q)
  {
    hide ParseCallList;
  }

  lemma {:induction false} CallListParses(q: Quantifier, list: Exprs, ts: Toks, k0: Toks, k: Toks, room: nat)
    requires ListBefore(list, ts, k0, room) && Take(RP, k0) == To(k) && !Cur(k).ILLEGAL?
    ensures if list.More? then Begins(Cur(ts)) else Cur(ts).RP?
    ensures ParseCallList(At(ts), room, q) == Ok(Args(q, list), At(k))
    decreases list, 1
  {
    if list.More? {
      hide ListBefore, ParseExprList, StartKind;
      ListFirst(list, ts, k0, room);
      ListParses(list, ts, k0, room);
    }
  }

  lemma {:induction false} SuffixParses(s: Suffix, ts: Toks, k: Toks, room: nat)
    requires Applied(s, ts, k, room) && !Cur(k).ILLEGAL? && !Cur(ts).ILLEGAL? && Prec(ts) > 0
    ensures ParseSuffix(At(ts), room) == Ok(s, At(k))
    decreases s
  {
    match s {
      case Binary(_, _) => BinaryParses(s, ts, k, room);
      case Collate(_) => PostfixParses(s, ts, k, room);
      case NullCheck(_) => PostfixParses(s, ts, k, room);
      case Like(_, _, _, _) => LikeParses(s, ts, k, room);
      case Is(_, _, _) => IsParses(s, ts, k, room);
      case Between(_, _, _) => BetweenParses(s, ts, k, room);
      case In(_, _) => InParses(s, ts, k, room);
    }
  }

  lemma {:induction false} BinaryParses(s: Suffix, ts: Toks, k: Toks, room: nat)
    requires s.Binary? && Applied(s, ts, k, room) && !Cur(k).ILLEGAL? && !Cur(ts).ILLEGAL? && Prec(ts) > 0
    ensures ParseSuffix(At(ts), room) == Ok(s, At(k))
    decreases s, 0
  {
    hide Applied, Complete, ParseExpr, ParseIs, ParseLike, ParseBetween, ParseIn, ParseNegated;
    BinaryParts(s.op, s.y, ts, k, room);
    ExprParses(s.y, ts.tail, k, room, InfixPrec(ts.head.kind) + 1);
  }

  lemma {:induction false} PostfixParses(s: Suffix, ts: Toks, k: Toks, room: nat)
    requires s.Collate? || s.NullCheck?
    requires Applied(s, ts, k, room) && !Cur(k).ILLEGAL? && !Cur(ts).ILLEGAL? && Prec(ts) > 0
    ensures ParseSuffix(At(ts), room) == Ok(s, At(k))
  {
    hide ParseExpr, ParseIs, ParseLike, ParseBetween, ParseIn, ParseNegated, Canon, Reads, Edge, Absorbs;
    if s == NullCheck(TestNotNullWords) {
      assert ts.head.kind.NOT? && Cur(ts.tail).NULL?;
      NotNullParses(ts, k, room);
    }
  }

  lemma {:induction false} NotNullParses(ts: Toks, k: Toks, room: nat)
    requires Take(NOT, ts).To? && Take(NULL, ts.tail) == To(k) && !Cur(k).ILLEGAL?
    ensures ParseSuffix(At(ts), room) == Ok(NullCheck(TestNotNullWords), At(k))
  {
    hide ParseExpr, ParseIs, ParseLike, ParseBetween, ParseIn;
  }

  lemma {:induction false} IsParses(s: Suffix, ts: Toks, k: Toks, room: nat)
    requires s.Is? && Applied(s, ts, k, room) && !Cur(k).ILLEGAL? && !Cur(ts).ILLEGAL? && Prec(ts) > 0
    ensures ParseSuffix(At(ts), room) == Ok(s, At(k))
    decreases s, 0
  {
    hide Applied, Complete, ParseExpr, ParseSuffix, ParseIs, ParseIsOperand;
    var k1, k2, k3, k4 := IsParts(s.negated, s.distinct, s.y, ts, k, room);
    ExprParses(s.y, k4, k, room, AFTER_COMPARE);
    IsOperandParses(s.negated, s.distinct, s.y, k2, k3, k4, k, room);
    IsNotParses(s.negated, k1, k2, room);
    OpeningParses(ts, false, IS, ts, k1, room);
  }

  lemma {:induction false} IsNotParses(negated: bool, k1: Toks, k2: Toks, room: nat)
    requires TakeIf(negated, NOT, k1) == To(k2) && (!negated ==> !Cur(k1).NOT?)
    requires !Cur(k1).ILLEGAL? && !Cur(k2).ILLEGAL?
    ensures ParseIs(At(k1), room) == ParseIsOperand(At(k2), room, negated)
  {
    hide ParseIsOperand;
  }

  lemma {:induction false} IsOperandParses(negated: bool, distinct: bool, y: Expr, k2: Toks, k3: Toks, k4: Toks, k: Toks, room: nat)
    requires TakeIf(distinct, DISTINCT, k2) == To(k3) && TakeIf(distinct, FROM, k3) == To(k4)
    requires (!distinct ==> !Cur(k2).DISTINCT?) && !Cur(k2).ILLEGAL? && Begins(Cur(k4))
    requires ParseExpr(At(k4), room, AFTER_COMPARE) == Ok(y, At(k))
    ensures ParseIsOperand(At(k2), room, negated) == Ok(Is(negated, distinct, y), At(k))
  {
    hide ParseExpr;
  }

  /** The words that open a suffix bring the parser to the function for its right side. */
  lemma {:induction false} OpeningParses(ts: Toks, negated: bool, kw: Kind, k1: Toks, k2: Toks, room: nat)
    requires TakeIf(negated, NOT, ts) == To(k1) && k1.Cons? && k1.head.kind == kw && k1.tail == k2
    requires !Cur(k2).ILLEGAL? && Prec(ts) > 0
    ensures kw.IS? && !negated ==> ParseSuffix(At(ts), room) == ParseIs(At(k2), room)
    ensures kw.BETWEEN? ==> ParseSuffix(At(ts), room) == ParseBetween(At(k2), room, negated)
    ensures kw.IN? ==> ParseSuffix(At(ts), room) == ParseIn(At(k2), room, negated)
    ensures kw.LIKE_KW? || kw.MATCH? ==> ParseSuffix(At(ts), room) == ParseLike(At(k2), room, negated, k1.head)
  {
    hide ParseExpr, ParseIs, ParseLike, ParseBetween, ParseIn;
  }

  lemma {:induction false} LikeParses(s: Suffix, ts: Toks, k: Toks, room: nat)
    requires s.Like? && Applied(s, ts, k, room) && !Cur(k).ILLEGAL? && !Cur(ts).ILLEGAL? && Prec(ts) > 0
    ensures ParseSuffix(At(ts), room) == Ok(s, At(k))
    decreases s, 0
  {
    hide Begins, Applied, Complete, ParseExpr, ParseLike, ParseSuffix;
    var k1, k2, k3 := LikeParts(s.negated, s.like, s.y, s.escape, ts, k, room);
    ExprParses(s.y, k2, k3, room, AFTER_COMPARE);
    BeginsLegal(Cur(k2));
    if s.escape.Some? {
      BeginsLegal(Cur(k3.tail));
      ExprParses(s.escape.expr, k3.tail, k, room, AFTER_COMPARE);
    }
    PatternParses(s.negated, s.like, s.y, s.escape, k2, k3, k, room);
    OpeningParses(ts, s.negated, s.like.kind, k1, k2, room);
  }

  lemma {:induction false} PatternParses(negated: bool, like: Lexeme, y: Expr, escape: OptExpr, k2: Toks, k3: Toks, k: Toks, room: nat)
    requires !Cur(k2).ILLEGAL? && ParseExpr(At(k2), room, AFTER_COMPARE) == Ok(y, At(k3))
    requires if escape.Some? then
               Take(ESCAPE, k3).To? && !Cur(k3.tail).ILLEGAL? && ParseExpr(At(k3.tail), room, AFTER_COMPARE) == Ok(escape.expr, At(k))
             else !Cur(k3).ESCAPE? && k == k3
    ensures ParseLike(At(k2), room, negated, like) == Ok(Like(negated, like, y, escape), At(k))
  {
    hide ParseExpr;
  }

  lemma {:induction false} BetweenParses(s: Suffix, ts: Toks, k: Toks, room: nat)
    requires s.Between? && Applied(s, ts, k, room) && !Cur(k).ILLEGAL? && !Cur(ts).ILLEGAL? && Prec(ts) > 0
    ensures ParseSuffix(At(ts), room) == Ok(s, At(k))
    decreases s, 0
  {
    hide Applied, Complete, Reached, AndOnSpine, ParseBetween, ParseBetweenBound, ParseExpr, ParseSuffix;
    var k1, k2, k3 := BetweenParts(s.negated, s.lo, s.hi, ts, k, room);
    BoundParses(s.lo, k2, k3, room);
    ExprParses(s.hi, k3.tail, k, room, AFTER_COMPARE);
    BoundsParse(s.negated, s.lo, s.hi, k2, k3, k, room);
    OpeningParses(ts, s.negated, BETWEEN, k1, k2, room);
  }

  lemma {:induction false} BoundParses(lo: Expr, ts: Toks, k: Toks, room: nat)
    requires room > 0 && Reached(lo, ts, k, room - 1, 1) && !AndOnSpine(lo) && Begins(Cur(ts)) && Cur(k).AND?
    ensures ParseBetweenBound(At(ts), room) == Ok(lo, At(k))
    decreases lo, 2
  {
    hide Reached, AndOnSpine, ParsePrefix;
    ClimbReaches(lo, ts, k, room - 1, 1, true);
    assert ParseBetweenBound(At(ts), room) == Climb(At(ts), room - 1, 1, true);
  }

  lemma {:induction false} BoundsParse(negated: bool, lo: Expr, hi: Expr, k2: Toks, k3: Toks, k: Toks, room: nat)
    requires !Cur(k2).ILLEGAL? && ParseBetweenBound(At(k2), room) == Ok(lo, At(k3))
    requires Take(AND, k3).To? && !Cur(k3.tail).ILLEGAL? && ParseExpr(At(k3.tail), room, AFTER_COMPARE) == Ok(hi, At(k))
    ensures ParseBetween(At(k2), room, negated) == Ok(Between(negated, lo, hi), At(k))
  {
    hide ParseBetweenBound, ParseExpr;
  }

  lemma {:induction false} InParses(s: Suffix, ts: Toks, k: Toks, room: nat)
    requires s.In? && Applied(s, ts, k, room) && !Cur(k).ILLEGAL? && !Cur(ts).ILLEGAL? && Prec(ts) > 0
    ensures ParseSuffix(At(ts), room) == Ok(s, At(k))
    decreases s, 0
  {
    hide Applied, ReadsTarget, CanonTarget, NeedTarget, ParseIn, ParseSuffix;
    var k1, k2 := InParts(s.negated, s.target, ts, k, room);
    TargetParses(s.negated, s.target, k2, k, room);
    OpeningParses(ts, s.negated, IN, k1, k2, room);
  }

  lemma {:induction false} TargetParses(negated: bool, target: InSet, ts: Toks, k: Toks, room: nat)
    requires ReadsTarget(target, ts) == To(k) && CanonTarget(target) && NeedTarget(target) <= room
    requires target.InTable? ==> !Cur(k).LP? && (target.table.Bare? ==> !Cur(k).DOT?)
    requires !Cur(k).ILLEGAL?
    ensures !Cur(ts).ILLEGAL? && ParseIn(At(ts), room, negated) == Ok(In(negated, target), At(k))
    decreases target
  {
    hide ListBefore, StartKind, Begins, AtSelect, ParseIn, ParseArguments, ReadsTarget, ReadsTable, CanonTable, CanonTarget, NeedTarget, ParseTableName;
    match target {
      case InList(list) =>
        var k0 := InListParts(list, ts, k, room);
        ArgumentsParse(list, ts.tail, k0, k, room);
        NoSelect(Cur(ts.tail));
        InListParses(negated, list, ts, k, room);
      case InTable(table) =>
        InTableParts(table, ts, k);
        TableParses(table, ts, k);
        InTableParses(negated, table, ts, k, room);
      case InTableArgs(table, args) =>
        var k1, k0 := InArgsParts(table, args, ts, k, room);
        TableParses(table, ts, k1);
        ArgumentsParse(args, k1.tail, k0, k, room);
        InArgsParse(negated, table, args, ts, k1, k, room);
    }
  }

  lemma NoSelect(k: Kind)
    requires (Begins(k) && !k.WITH?) || k.RP?
    ensures !k.ILLEGAL? && !AtSelect(k)
  {
  }

  lemma {:induction false} InListParses(negated: bool, list: Exprs, ts: Toks, k: Toks, room: nat)
    requires Take(LP, ts).To? && !AtSelect(Cur(ts.tail)) && !Cur(ts.tail).ILLEGAL?
    requires ParseArguments(At(ts.tail), room) == Ok(list, At(k))
    ensures ParseIn(At(ts), room, negated) == Ok(In(negated, InList(list)), At(k))
  {
    hide ParseArguments;
  }

  lemma {:induction false} InTableParses(negated: bool, table: TableName, ts: Toks, k: Toks, room: nat)
    requires !Cur(ts).ILLEGAL? && !Cur(ts).LP? && ParseTableName(At(ts)) == Ok(table, At(k)) && !Cur(k).LP?
    ensures ParseIn(At(ts), room, negated) == Ok(In(negated, InTable(table)), At(k))
  {
    hide ParseTableName, ParseArguments;
  }

  lemma {:induction false} InArgsParse(negated: bool, table: TableName, args: Exprs, ts: Toks, k1: Toks, k: Toks, room: nat)
    requires !Cur(ts).ILLEGAL? && !Cur(ts).LP? && ParseTableName(At(ts)) == Ok(table, At(k1))
    requires Take(LP, k1).To? && !Cur(k1.tail).ILLEGAL? && ParseArguments(At(k1.tail), room) == Ok(args, At(k))
    ensures ParseIn(At(ts), room, negated) == Ok(In(negated, InTableArgs(table, args)), At(k))
  {
    hide ParseTableName, ParseArguments;
  }

  lemma {:induction false} TableParses(t: TableName, ts: Toks, k: Toks)
    requires ReadsTable(t, ts) == To(k) && CanonTable(t)
    requires !Cur(k).ILLEGAL? && (t.Bare? ==> !Cur(k).DOT?)
    ensures !Cur(ts).ILLEGAL? && !Cur(ts).LP? && ParseTableName(At(ts)) == Ok(t, At(k))
  {
  }
}
