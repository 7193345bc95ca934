/** Everything the parser accepts is canonical, spells what was consumed, and stops where
    its right edge says. */
module Image {
  import opened Token
  import opened Ast
  import opened Engine
  import opened Grammar
  import opened Canonical
  import opened Forms

  /** A successful parseExpr(min) returns a canonical tree for exactly the tokens consumed. */
  lemma {:induction false} ExprImage(st: State, room: nat, min: nat)
    requires Good(st) && min <= CLOSED && ParseExpr(st, room, min).Ok?
    ensures var r := ParseExpr(st, room, min);
            r.state.deferred.Quiet? ==> Complete(r.value, st.ts, r.state.ts, room, min)
    decreases Len(st.ts), 6
  {
    hide Reached, Complete, AndOnSpine, ParsePrefix, ParseOperators;
    PrefixImage(st, room - 1, min);
    var p := ParsePrefix(st, room - 1);
    OperatorsImage(st.ts, p.state, room - 1, p.value, min, false);
    var r := ParseExpr(st, room, min);
    if r.state.deferred.Quiet? {
      StopForm(r.value, st.ts, r.state.ts, room - 1, min);
    }
  }

  /** The same for a BETWEEN's lower bound, which also has no AND on its spine. */
  lemma {:induction false} BoundImage(st: State, room: nat)
    requires Good(st) && ParseBetweenBound(st, room).Ok?
    ensures var r := ParseBetweenBound(st, room);
            && room > 0 && !AndOnSpine(r.value)
            && (r.state.deferred.Quiet? ==> Reached(r.value, st.ts, r.state.ts, room - 1, 1))
    decreases Len(st.ts), 6
  {
    hide Reached, AndOnSpine, ParsePrefix, ParseOperators;
    PrefixImage(st, room - 1, 1);
    var p := ParsePrefix(st, room - 1);
    OperatorsImage(st.ts, p.state, room - 1, p.value, 1, true);
  }

  lemma {:induction false} PrefixImage(st: State, room: nat, min: nat)
    requires Good(st) && min <= CLOSED && ParsePrefix(st, room).Ok?
    ensures var r := ParsePrefix(st, room);
            && !AndOnSpine(r.value)
            && (r.state.deferred.Quiet? ==> Reached(r.value, st.ts, r.state.ts, room, min))
    decreases Len(st.ts), 5
  {
    hide Reached, Complete, Stands, ParseExpr, ParsePrimary;
    var pre := PrefixOf(Cur(st.ts));
    var r := ParsePrefix(st, room);
    if pre == [] {
      PrimaryImage(st, room);
      if r.state.deferred.Quiet? {
        AtomForm(r.value.p, st.ts, r.state.ts, room, min);
      }
    } else {
      ExprImage(Advance(st).state, room, PrefixMin(pre[0]));
      if r.state.deferred.Quiet? {
        PrefixForm(pre[0], r.value.x, st.ts, r.state.ts, room, min);
      }
    }
  }

  /** The loop invariant: from a reached `x`, every turn reaches a larger tree. */
  lemma {:induction false} OperatorsImage(ts: Toks, st: State, room: nat, x: Expr, min: nat, stop: bool)
    requires Good(st) && ParseOperators(st, room, x, min, stop).Ok?
    requires st.deferred.Quiet? ==> Reached(x, ts, st.ts, room, min)
    requires stop ==> !AndOnSpine(x)
    ensures var r := ParseOperators(st, room, x, min, stop);
            && (r.state.deferred.Quiet? ==> Reached(r.value, ts, r.state.ts, room, min))
            && Good(r.state) && !Continues(r.state.ts, min, stop)
            && (stop ==> !AndOnSpine(r.value))
    decreases Len(st.ts), 5
  {
    hide Reached, Applied, ParseSuffix;
    if Continues(st.ts, min, stop) {
      SuffixImage(st, room);
      var s := ParseSuffix(st, room);
      if s.state.deferred.Quiet? {
        ApplyForm(x, s.value, ts, st.ts, s.state.ts, room, min);
      }
      OperatorsImage(ts, s.state, room, Apply(x, s.value), min, stop);
    }
  }

  lemma {:induction false} SuffixImage(st: State, room: nat)
    requires Good(st) && Prec(st.ts) > 0 && ParseSuffix(st, room).Ok?
    ensures var r := ParseSuffix(st, room);
            && (r.state.deferred.Quiet? ==> Applied(r.value, st.ts, r.state.ts, room))
            && (r.value.Binary? && r.value.op.OpAnd? ==> Cur(st.ts).AND?)
    decreases Len(st.ts), 4
  {
    hide Complete, ParseExpr, ParseIs, ParseLike, ParseBetween, ParseIn, ParseNegated;
    var k := Cur(st.ts);
    var s1 := Advance(st).state;
    var r := ParseSuffix(st, room);
    if InfixPrec(k) > 0 {
      ExprImage(s1, room, InfixPrec(k) + 1);
      if r.state.deferred.Quiet? {
        BinaryForm(r.value.y, st.ts, r.state.ts, room);
      }
    } else if k.IS? {
      IsImage(st.ts, s1, room);
    } else if k.BETWEEN? {
      BetweenImage(st.ts, s1, room, false);
    } else if k.IN? {
      InImage(st.ts, s1, room, false);
    } else if k.NOT? {
      NegatedImage(st.ts, s1, room);
    } else if k.LIKE_KW? || k.MATCH? {
      LikeImage(st.ts, s1, room, false, st.ts.head);
    }
  }

  /** The tokens from `ts` to `k` are an optional NOT and one token of kind `kw`. */
  ghost predicate Opens(ts: Toks, negated: bool, kw: Kind, k: Toks) {
    && TakeIf(negated, NOT, ts).To?
    && Take(kw, TakeIf(negated, NOT, ts).ts) == To(k)
  }

  lemma {:induction false} NegatedImage(ts: Toks, st: State, room: nat)
    requires Good(st) && Take(NOT, ts) == To(st.ts) && ParseNegated(st, room).Ok?
    ensures var r := ParseNegated(st, room);
            && (r.state.deferred.Quiet? ==> Applied(r.value, ts, r.state.ts, room))
            && !r.value.Binary?
    decreases Len(st.ts), 3
  {
    hide ParseLike, ParseBetween, ParseIn;
    var k := Cur(st.ts);
    var s1 := Advance(st).state;
    if k.BETWEEN? {
      BetweenImage(ts, s1, room, true);
    } else if k.IN? {
      InImage(ts, s1, room, true);
    } else if k.LIKE_KW? || k.MATCH? {
      LikeImage(ts, s1, room, true, st.ts.head);
    }
  }

  lemma {:induction false} IsImage(ts: Toks, st: State, room: nat)
    requires Good(st) && Take(IS, ts) == To(st.ts) && ParseIs(st, room).Ok?
    ensures var r := ParseIs(st, room);
            && (r.state.deferred.Quiet? ==> Applied(r.value, ts, r.state.ts, room))
            && !r.value.Binary?
    decreases Len(st.ts), 8
  {
    hide Complete, Applied, ParseExpr;
    var negated := Cur(st.ts).NOT?;
    var s2 := if negated then Advance(st).state else st;
    var distinct := Cur(s2.ts).DISTINCT?;
    var s3 := if distinct then Advance(s2).state else s2;
    var s4 := if distinct then Expect(s3, FROM).state else s3;
    assert ParseIs(st, room) == ParseIsOperand(s2, room, negated);
    ExprImage(s4, room, AFTER_COMPARE);
    var r := ParseIs(st, room);
    if r.state.deferred.Quiet? {
      IsForm(negated, distinct, r.value.y, ts, st.ts, s2.ts, s3.ts, s4.ts, r.state.ts, room);
    }
  }

  lemma {:induction false} LikeImage(ts: Toks, st: State, room: nat, negated: bool, like: Lexeme)
    requires Good(st) && (like.kind.LIKE_KW? || like.kind.MATCH?) && ParseLike(st, room, negated, like).Ok?
    requires Opens(ts, negated, like.kind, st.ts) && TakeIf(negated, NOT, ts).ts.head == like
    ensures var r := ParseLike(st, room, negated, like);
            && (r.state.deferred.Quiet? ==> Applied(r.value, ts, r.state.ts, room))
            && !r.value.Binary?
    decreases Len(st.ts), 7
  {
    hide Complete, Applied, ParseExpr;
    ExprImage(st, room, AFTER_COMPARE);
    var y := ParseExpr(st, room, AFTER_COMPARE);
    var r := ParseLike(st, room, negated, like);
    if Cur(y.state.ts).ESCAPE? {
      ExprImage(Advance(y.state).state, room, AFTER_COMPARE);
    }
    if r.state.deferred.Quiet? {
      LikeForm(negated, like, y.value, r.value.escape, ts, TakeIf(negated, NOT, ts).ts, st.ts, y.state.ts, r.state.ts, room);
    }
  }

  lemma {:induction false} BetweenImage(ts: Toks, st: State, room: nat, negated: bool)
    requires Good(st) && Opens(ts, negated, BETWEEN, st.ts) && ParseBetween(st, room, negated).Ok?
    ensures var r := ParseBetween(st, room, negated);
            && (r.state.deferred.Quiet? ==> Applied(r.value, ts, r.state.ts, room))
            && !r.value.Binary?
    decreases Len(st.ts), 7
  {
    hide Complete, Reached, Applied, AndOnSpine, ParseExpr, ParseBetweenBound;
    BoundImage(st, room);
    var lo := ParseBetweenBound(st, room);
    var s2 := Expect(lo.state, AND).state;
    ExprImage(s2, room, AFTER_COMPARE);
    var r := ParseBetween(st, room, negated);
    if r.state.deferred.Quiet? {
      BetweenForm(negated, lo.value, r.value.hi, ts, TakeIf(negated, NOT, ts).ts, st.ts, lo.state.ts, r.state.ts, room);
    }
  }

  lemma {:induction false} InImage(ts: Toks, st: State, room: nat, negated: bool)
    requires Good(st) && Opens(ts, negated, IN, st.ts) && ParseIn(st, room, negated).Ok?
    ensures var r := ParseIn(st, room, negated);
            && (r.state.deferred.Quiet? ==> Applied(r.value, ts, r.state.ts, room))
            && !r.value.Binary?
    decreases Len(st.ts), 7
  {
    hide Applied, ReadsList, CanonList, NeedList, StartKind, ParseArguments;
    if Cur(st.ts).LP? {
      ArgumentsImage(Advance(st).state, room);
    } else {
      var t := ParseTableName(st);
      TableImage(st);
      if Cur(t.state.ts).LP? {
        ArgumentsImage(Advance(t.state).state, room);
      }
    }
    var r := ParseIn(st, room, negated);
    if r.state.deferred.Quiet? {
      InForm(negated, r.value.target, ts, TakeIf(negated, NOT, ts).ts, st.ts, r.state.ts, room);
    }
  }

  lemma {:induction false} TableImage(st: State)
    requires Good(st) && ParseTableName(st).Ok?
    ensures var r := ParseTableName(st);
            && r.state.deferred.Quiet?
            && ReadsTable(r.value, st.ts) == To(r.state.ts) && CanonTable(r.value)
            && (r.value.Bare? ==> !Cur(r.state.ts).DOT?)
  {
  }

  /** A bracketed list, read up to and with its closing bracket. */
  lemma {:induction false} ArgumentsImage(st: State, room: nat)
    requires Good(st) && ParseArguments(st, room).Ok?
    ensures var r := ParseArguments(st, room);
            && r.state.deferred.Quiet?
            && ReadsList(r.value, st.ts).To? && Take(RP, ReadsList(r.value, st.ts).ts) == To(r.state.ts)
            && CanonList(r.value) && NeedList(r.value) <= room
            && (r.value.More? ==> StartKind(r.value.head) == Cur(st.ts))
    decreases Len(st.ts), 8
  {
    if !Cur(st.ts).RP? {
      hide ReadsList, CanonList, NeedList, StartKind, ParseExprList;
      ListImage(st, room);
    }
  }

  lemma {:induction false} ListImage(st: State, room: nat)
    requires Good(st) && ParseExprList(st, room).Ok?
    ensures var r := ParseExprList(st, room);
            r.state.deferred.Quiet? ==> CompleteList(r.value, st.ts, r.state.ts, room)
    decreases Len(st.ts), 7
  {
    hide Complete, CompleteList, ParseExpr;
    ExprImage(st, room, LOWEST);
    var x := ParseExpr(st, room, LOWEST);
    var r := ParseExprList(st, room);
    if r.state.deferred.Quiet? {
      if Cur(x.state.ts).COMMA? {
        ListImage(Advance(x.state).state, room);
      }
      ListForm(x.value, r.value.tail, st.ts, x.state.ts, r.state.ts, room);
    }
  }

  lemma {:induction false} PrimaryImage(st: State, room: nat)
    requires Good(st) && ParsePrimary(st, room).Ok?
    ensures var r := ParsePrimary(st, room);
            && r.value.Atom?
            && (r.state.deferred.Quiet? ==> Stands(r.value.p, st.ts, r.state.ts, room))
    decreases Len(st.ts), 4
  {
    hide ParseParenExpr, ParseCase, ParseFuncCall, ParseQualifiedRef, ParseTerm;
    var k := Cur(st.ts);
    if k.LP? {
      BracketImage(st, room);
    } else if k.CASE? {
      CaseImage(st, room);
    } else if k.VARIABLE? {
    } else if IsLiteralKind(k) || (k.STRING? && !Peek(st.ts).DOT?) {
      TermImage(st, room);
    } else if Peek(st.ts).DOT? {
      ReferenceImage(st, room);
    } else if Peek(st.ts).LP? {
      CallImage(st, room);
    }
  }

  lemma {:induction false} TermImage(st: State, room: nat)
    requires Good(st) && ParseTerm(st).Ok? && (Cur(st.ts).STRING? ==> !Peek(st.ts).DOT?)
    ensures var r := ParseTerm(st);
            r.value.Atom? && r.state.deferred.Quiet? && Stands(r.value.p, st.ts, r.state.ts, room)
  {
  }

  lemma {:induction false} ReferenceImage(st: State, room: nat)
    requires Good(st) && QualifierKind(Cur(st.ts)) && ParseQualifiedRef(st).Ok?
    ensures var r := ParseQualifiedRef(st);
            r.value.Atom? && r.state.deferred.Quiet? && Stands(r.value.p, st.ts, r.state.ts, room)
  {
  }

  lemma {:induction false} BracketImage(st: State, room: nat)
    requires Good(st) && ParseParenExpr(st, room).Ok?
    ensures var r := ParseParenExpr(st, room);
            && r.value.Atom? && r.state.deferred.Quiet?
            && Stands(r.value.p, st.ts, r.state.ts, room)
    decreases Len(st.ts), 3
  {
    hide Stands, CompleteList, ParseExprList;
    var s1 := Expect(st, LP).state;
    ListImage(s1, room);
    var list := ParseExprList(s1, room);
    BracketForm(list.value, st.ts, list.state.ts, ParseParenExpr(st, room).state.ts, room);
  }

  lemma {:induction false} CaseImage(st: State, room: nat)
    requires Good(st) && ParseCase(st, room).Ok?
    ensures var r := ParseCase(st, room);
            && r.value.Atom? && r.state.deferred.Quiet?
            && Stands(r.value.p, st.ts, r.state.ts, room)
    decreases Len(st.ts), 3
  {
    hide Stands, Complete, ParseExpr, ParseCaseArms;
    var s1 := Expect(st, CASE).state;
    if Cur(s1.ts).WHEN? {
      ArmsImage(st.ts, s1, room, None);
    } else {
      ExprImage(s1, room, LOWEST);
      var x := ParseExpr(s1, room, LOWEST);
      ArmsImage(st.ts, x.state, room, Some(x.value));
    }
  }

  lemma {:induction false} ArmsImage(ts: Toks, st: State, room: nat, operand: OptExpr)
    requires Good(st) && ParseCaseArms(st, room, operand).Ok? && Take(CASE, ts).To?
    requires st.deferred.Quiet? ==>
               if operand.Some? then Complete(operand.expr, ts.tail, st.ts, room, LOWEST) else st.ts == ts.tail
    ensures var r := ParseCaseArms(st, room, operand);
            && r.value.Atom? && r.state.deferred.Quiet?
            && Stands(r.value.p, ts, r.state.ts, room)
    decreases Len(st.ts), 4
  {
    hide Stands, Complete, CompleteWhens, ParseExpr, ParseWhens;
    WhensImage(st, room);
    var ws := ParseWhens(st, room);
    var r := ParseCaseArms(st, room, operand);
    var k2 := ws.state.ts;
    if Cur(ws.state.ts).ELSE? {
      var s2 := Advance(ws.state).state;
      ExprImage(s2, room, LOWEST);
      k2 := ParseExpr(s2, room, LOWEST).state.ts;
    }
    CaseForm(operand, ws.value, r.value.p.otherwise, ts, st.ts, ws.state.ts, k2, r.state.ts, room);
  }

  lemma {:induction false} WhensImage(st: State, room: nat)
    requires Good(st) && ParseWhens(st, room).Ok?
    ensures var r := ParseWhens(st, room);
            r.state.deferred.Quiet? ==> CompleteWhens(r.value, st.ts, r.state.ts, room)
    decreases Len(st.ts), 3
  {
    if Cur(st.ts).WHEN? {
      hide Complete, CompleteWhens, ParseExpr;
      var s1 := Advance(st).state;
      ExprImage(s1, room, LOWEST);
      var cond := ParseExpr(s1, room, LOWEST);
      var s3 := Expect(cond.state, THEN).state;
      ExprImage(s3, room, LOWEST);
      var value := ParseExpr(s3, room, LOWEST);
      WhensImage(value.state, room);
      var r := ParseWhens(st, room);
      if r.state.deferred.Quiet? {
        WhenForm(cond.value, value.value, r.value.rest, st.ts, cond.state.ts, value.state.ts, r.state.ts, room);
      }
    }
  }

  lemma {:induction false} CallImage(st: State, room: nat)
    requires Good(st) && IsIdentKind(Cur(st.ts)) && ParseFuncCall(st, room).Ok?
    ensures var r := ParseFuncCall(st, room);
            && r.value.Atom? && r.state.deferred.Quiet?
            && Stands(r.value.p, st.ts, r.state.ts, room)
    decreases Len(st.ts), 3
  {
    hide Stands, ReadsList, CanonList, NeedList, ParseCallArgs;
    var s2 := Expect(Advance(st).state, LP).state;
    CallArgsImage(s2, room);
    var args := ParseCallArgs(s2, room);
    CallForm(args.value, st.ts, ReadsArgs(args.value, s2.ts).ts, args.state.ts, room);
  }

  lemma {:induction false} CallArgsImage(st: State, room: nat)
    requires Good(st) && ParseCallArgs(st, room).Ok?
    ensures var r := ParseCallArgs(st, room);
            && r.state.deferred.Quiet?
            && ReadsArgs(r.value, st.ts).To? && Take(RP, ReadsArgs(r.value, st.ts).ts) == To(r.state.ts)
            && (r.value.Args? ==> CanonList(r.value.list) && NeedList(r.value.list) <= room)
    decreases Len(st.ts), 9
  {
    hide CanonList, NeedList, StartKind, ParseExprList;
    var k := Cur(st.ts);
    if !k.STAR? {
      var s1 := if k.DISTINCT? || k.ALL? then Advance(st).state else st;
      if Cur(s1.ts).RP? {
        EmptyList(s1.ts, room);
      } else {
        ListImage(s1, room);
      }
    }
  }
}
