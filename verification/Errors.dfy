/** Which error a rejection reports, and where, when more than one could be: the tokenizer's comes
    before a grammar action's, a syntax error at the token a deferred error waits for before that. */
module Errors {
  import opened Token
  import opened Ast
  import opened Engine
  import opened Grammar
  import opened Completeness
  import opened Precedence
  import Digits

  /** A NOT after an operand that begins no operator is taken all the same: the error is at the
      token after it. */
  lemma {:induction false} NotBeginsNone(a: Lexeme, n: Lexeme, ts: Toks, room: nat)
    requires IsOperand(a) && n.kind.NOT? && room > 0
    requires Cur(ts) !in {NULL, LIKE_KW, MATCH, BETWEEN, IN, ILLEGAL}
    ensures ParseWhole(Cons(a, Cons(n, ts)), room) ==
            Err(Error(if Cur(ts).EOF? then Incomplete else Near(Text(ts)), Len(ts)))
  {
    hide ParseExpr;
    NotFails(a, n, ts, room);
  }

  lemma NotFails(a: Lexeme, n: Lexeme, ts: Toks, room: nat)
    requires IsOperand(a) && n.kind.NOT? && room > 0
    requires Cur(ts) !in {NULL, LIKE_KW, MATCH, BETWEEN, IN, ILLEGAL}
    ensures !a.kind.ILLEGAL? && Good(At(Cons(a, Cons(n, ts))))
    ensures ParseExpr(At(Cons(a, Cons(n, ts))), room, LOWEST) == Err(SyntaxError(At(ts)))
  {
    hide ParsePrefix, ParseOperators;
    var t1 := Cons(n, ts);
    OperandPrefix(a, t1, room - 1);
    NotSuffix(t1, room - 1);
    assert ParseOperators(At(t1), room - 1, TreeOf(a), LOWEST, false) == Err(SyntaxError(At(ts))) by { NotOperators(t1, room - 1, TreeOf(a)); }
  }

  lemma NotOperators(ts: Toks, room: nat, x: Expr)
    requires Cur(ts).NOT? && ParseSuffix(At(ts), room).Err?
    ensures ParseOperators(At(ts), room, x, LOWEST, false) == Err(ParseSuffix(At(ts), room).error)
  {
    hide ParseSuffix;
  }

  lemma NotSuffix(ts: Toks, room: nat)
    requires Cur(ts).NOT? && Cur(ts.tail) !in {NULL, LIKE_KW, MATCH, BETWEEN, IN, ILLEGAL}
    ensures ParseSuffix(At(ts), room) == Err(SyntaxError(At(ts.tail)))
  {
    hide ParseExpr, ParseLike, ParseBetween, ParseIn, ParseIs;
  }

  lemma OperandPrefix(a: Lexeme, ts: Toks, room: nat)
    requires IsOperand(a) && Cur(ts).NOT?
    ensures Good(At(Cons(a, ts))) && ParsePrefix(At(Cons(a, ts)), room) == Ok(TreeOf(a), At(ts))
  {
    hide ParseExpr, ParseParenExpr, ParseCase, ParseFuncCall, ParseQualifiedRef, Digits.DequoteNumber;
    ValuesAgree(a);
  }

  lemma LoopFails(t: Lexeme, ts: Toks, room: nat, e: Error)
    requires room > 0 && Good(At(Cons(t, ts))) && ParsePrefix(At(Cons(t, ts)), room - 1) == Err(e)
    ensures ParseWhole(Cons(t, ts), room) == Err(e)
  {
    hide ParsePrefix, ParseOperators;
  }

  /** A number with a misplaced separator is rejected only once it has been consumed: an illegal
      token after it is reported instead of it. */
  lemma {:induction false} BadNumber(t: Lexeme, ts: Toks, room: nat)
    requires t.kind.QNUMBER? && Digits.DequoteNumber(t.text).Misplaced? && room > 0
    ensures ParseWhole(Cons(t, ts), room) ==
            Err(if Cur(ts).ILLEGAL? then Error(Unrecognized(Text(ts)), Len(ts))
                else Error(Unrecognized(Digits.DequoteNumber(t.text).buffer), Len(ts) + 1))
  {
    hide Digits.DequoteNumber;
    var e := if Cur(ts).ILLEGAL? then Error(Unrecognized(Text(ts)), Len(ts))
             else Error(Unrecognized(Digits.DequoteNumber(t.text).buffer), Len(ts) + 1);
    assert ParseTerm(At(Cons(t, ts))) == Err(e);
    assert ParsePrimary(At(Cons(t, ts)), room - 1) == Err(e);
    LoopFails(t, ts, room, e);
  }

  predicate IsReference(t: Lexeme) {
    t.kind.VARIABLE? && |t.text| > 1 && t.text[0] == '#' && t.text[1] in "0123456789"
  }

  /** A token that goes on with an expression. */
  predicate GoesOn(k: Kind) { k.NOT? || (Group(k) < Group(BITNOT) && !k.ESCAPE?) }

  /** A register reference is reported once the token after it is consumed, or the input ends. A
      token after it that is illegal, or that nothing can be done with, is reported instead. */
  lemma {:induction false} ReferenceRejected(t: Lexeme, ts: Toks, room: nat)
    requires IsReference(t) && room > 0 && (ts.Cons? ==> !ts.head.kind.EOF?)
    ensures ParseWhole(Cons(t, ts), room) ==
            Err(if Cur(ts).ILLEGAL? then Error(Unrecognized(Text(ts)), Len(ts))
                else if ts.End? || GoesOn(Cur(ts)) then Error(Near(t.text), Len(ts) + 1)
                else Error(Near(Text(ts)), Len(ts)))
  {
    hide ParsePrefix, ParseOperators, Group;
    var st := At(Cons(t, ts));
    ReferencePrefix(t, ts, room - 1);
    if Cur(ts).ILLEGAL? {
      LoopFails(t, ts, room, Error(Unrecognized(Text(ts)), Len(ts)));
    } else {
      GoesOnPrec(ts);
      var s1 := ParsePrefix(st, room - 1).state;
      DeferredStops(s1, room - 1, Atom(BindParam(t)), Error(Near(t.text), Len(ts) + 1));
      assert ParseExpr(st, room, LOWEST) == ParseOperators(s1, room - 1, Atom(BindParam(t)), LOWEST, false);
    }
  }

  lemma ReferencePrefix(t: Lexeme, ts: Toks, room: nat)
    requires IsReference(t)
    ensures Good(At(Cons(t, ts))) && IsRegister(t.text)
    ensures ParsePrefix(At(Cons(t, ts)), room) ==
            if Cur(ts).ILLEGAL? then Err(Error(Unrecognized(Text(ts)), Len(ts)))
            else Ok(Atom(BindParam(t)), State(ts, Deferred(Error(Near(t.text), Len(ts) + 1), Len(ts))))
  {
    hide ParseExpr, ParseParenExpr, ParseCase, ParseFuncCall, ParseQualifiedRef, ParseTerm;
  }

  lemma GoesOnPrec(ts: Toks)
    ensures Prec(ts) > 0 <==> GoesOn(Cur(ts))
  {
  }

  /** With an error deferred the loop stops, or fails with it at the next operator. */
  lemma DeferredStops(st: State, room: nat, x: Expr, e: Error)
    requires Good(st) && st.deferred == Deferred(e, Len(st.ts))
    ensures ParseOperators(st, room, x, LOWEST, false) == if Prec(st.ts) > 0 then Err(e) else Ok(x, st)
  {
    hide ParseExpr, ParseIs, ParseLike, ParseBetween, ParseIn, ParseNegated;
  }
}
