/** How deep an expression may be: the limit is reached by brackets exactly where it says. */
module Depth {
  import opened Token
  import opened Ast
  import opened Engine
  import opened Grammar
  import opened Completeness
  import opened Reference
  import opened Precedence
  import Emission
  import Parser

  /** The token `t` in `n` pairs of brackets, in front of `k`. */
  function Nested(n: nat, t: Lexeme, k: Toks): Toks {
    if n == 0 then Cons(t, k) else Cons(Lexeme(LP, "("), Nested(n - 1, t, Cons(Lexeme(RP, ")"), k)))
  }

  function NestedTree(n: nat, t: Lexeme): Expr {
    if n == 0 then TreeOf(t) else Atom(Bracket(More(NestedTree(n - 1, t), Nil)))
  }

  lemma {:induction false} NestedFits(n: nat, t: Lexeme, k: Toks)
    requires IsOperand(t) && (n > 0 ==> !t.kind.WITH?)
    ensures Fits(NestedTree(n, t)) && Spelled(Words(NestedTree(n, t)), Nested(n, t, k), k)
    ensures Canonical.Need(NestedTree(n, t)) == n + 1
  {
    hide IsOperand, TreeOf, Spelled, BeginsWith;
    if n == 0 {
      OperandFits(t, k);
      OperandNeed(t);
    } else {
      var k1 := Cons(Lexeme(RP, ")"), k);
      var e := NestedTree(n - 1, t);
      NestedFits(n - 1, t, k1);
      NestedStart(n - 1, t);
      var ts := Nested(n, t, k);
      SpelledOne(Emission.Fixed(LP, "(", false), Lexeme(LP, "("), ts.tail);
      SpelledOne(Emission.Fixed(RP, ")", true), Lexeme(RP, ")"), k);
      SpelledJoin(Word(LP, "("), Words(e), ts, ts.tail, k1);
      SpelledJoin(Word(LP, "(") + Words(e), Mark(RP, ")"), ts, k1, k);
      BracketOne(e);
    }
  }

  lemma BracketOne(e: Expr)
    requires Fits(e) && !BeginsWith(e, WITH)
    ensures var b := Atom(Bracket(More(e, Nil)));
            && Fits(b) && Words(b) == Word(LP, "(") + Words(e) + Mark(RP, ")")
            && Canonical.Need(b) == Canonical.Need(e) + 1
  {
    hide BeginsWith;
    var list := More(e, Nil);
    assert FitsList(Nil) && FitsList(list);
    assert ListWords(list) == Words(e) + [] == Words(e);
    assert Canonical.NeedList(Nil) == 0;
    assert Canonical.NeedList(list) == Canonical.Need(e);
    assert Canonical.Inner(Atom(Bracket(list))) == Canonical.PrimaryNeed(Bracket(list)) == Canonical.NeedList(list);
    assert FitsPrimary(Bracket(list));
    assert PrimaryWords(Bracket(list)) == Word(LP, "(") + Words(e) + Mark(RP, ")");
  }

  lemma OperandNeed(t: Lexeme)
    ensures Canonical.Need(TreeOf(t)) == 1
  {
    var p := TreeOf(t).p;
    assert Canonical.PrimaryNeed(p) == 0;
    assert Canonical.Inner(Atom(p)) == Canonical.PrimaryNeed(p);
  }

  lemma NestedStart(n: nat, t: Lexeme)
    requires IsOperand(t) && !t.kind.WITH?
    ensures !BeginsWith(NestedTree(n, t), WITH)
  {
    BeginsStart(NestedTree(n, t), WITH);
  }

  /** A token in brackets is accepted in as many pairs as there is room besides itself. With
      more, the limit is reported at the first bracket or token too many. */
  lemma {:induction false} BracketsNest(n: nat, t: Lexeme, room: nat)
    requires IsOperand(t) && !t.kind.WITH?
    ensures n < room ==> ParseWhole(Nested(n, t, End), room) == Ok(NestedTree(n, t), At(End))
    ensures n >= room ==> ParseWhole(Nested(n, t, End), room) == Err(Error(RecursionLimit, 2 * n + 1 - room))
  {
    hide ParseWhole, Fits, Spelled, Words, Canonical.Need;
    if n < room {
      NestedFits(n, t, End);
      ParsesAsDeclared(Nested(n, t, End), room, NestedTree(n, t));
    } else {
      TooDeep(n, t, End, room);
    }
  }

  lemma {:induction false} NestedLength(n: nat, t: Lexeme, k: Toks)
    ensures Len(Nested(n, t, k)) == Len(k) + 2 * n + 1
  {
    if n > 0 {
      NestedLength(n - 1, t, Cons(Lexeme(RP, ")"), k));
    }
  }

  /** A failure inside a bracket is one of the bracket. */
  lemma OpenFails(ts: Toks, room: nat, e: Error)
    requires Cur(ts).LP? && !AtSelect(Cur(ts.tail)) && !Cur(ts.tail).ILLEGAL?
    requires ParseExpr(At(ts.tail), room, LOWEST) == Err(e)
    ensures ParseExpr(At(ts), room + 1, LOWEST) == Err(e)
  {
    hide ParseOperators, ParseCase, ParseFuncCall, ParseQualifiedRef, ParseTerm, ParseExprList, ParseParenExpr;
    BracketFails(ts, room, e);
    assert ParsePrimary(At(ts), room) == ParseParenExpr(At(ts), room);
    assert ParsePrefix(At(ts), room) == Err(e);
  }

  lemma BracketFails(ts: Toks, room: nat, e: Error)
    requires Cur(ts).LP? && !AtSelect(Cur(ts.tail)) && !Cur(ts.tail).ILLEGAL?
    requires ParseExpr(At(ts.tail), room, LOWEST) == Err(e)
    ensures ParseParenExpr(At(ts), room) == Err(e)
  {
    hide ParseExpr;
    assert Expect(At(ts), LP).Ok?;
    assert ParseExprList(At(ts.tail), room) == Err(e);
  }

  lemma NestedHead(n: nat, t: Lexeme, k: Toks)
    requires IsOperand(t) && !t.kind.WITH?
    ensures var ts := Nested(n, t, k); ts.Cons? && Good(At(ts)) && !AtSelect(Cur(ts)) && (n > 0 ==> Cur(ts).LP?)
  {
  }

  lemma {:induction false} TooDeepInside(n: nat, t: Lexeme, k: Toks, room: nat)
    requires IsOperand(t) && !t.kind.WITH? && n >= room
    ensures var ts := Nested(n, t, k);
            && Good(At(ts)) && room <= Len(ts)
            && ParseExpr(At(ts), room, LOWEST) == Err(Error(RecursionLimit, Len(ts) - room))
    decreases room
  {
    hide IsOperand, ParsePrefix, ParseOperators;
    NestedLength(n, t, k);
    NestedHead(n, t, k);
    var ts := Nested(n, t, k);
    if room > 0 {
      var k1 := Cons(Lexeme(RP, ")"), k);
      assert ts.tail == Nested(n - 1, t, k1);
      NestedHead(n - 1, t, k1);
      TooDeepInside(n - 1, t, k1, room - 1);
      OpenFails(ts, room - 1, Error(RecursionLimit, Len(ts) - room));
    }
  }

  lemma TooDeep(n: nat, t: Lexeme, k: Toks, room: nat)
    requires IsOperand(t) && !t.kind.WITH? && n >= room && k == End
    ensures ParseWhole(Nested(n, t, k), room) == Err(Error(RecursionLimit, 2 * n + 1 - room))
  {
    hide ParseExpr;
    TooDeepInside(n, t, k, room);
    NestedLength(n, t, k);
  }

  /** The limit is ten thousand: 9999 pairs of brackets are accepted, and no more. */
  lemma {:induction false} LimitIsTenThousand(n: nat, t: Lexeme)
    requires IsOperand(t) && !t.kind.WITH?
    ensures ParseWhole(Nested(n, t, End), Parser.MAX_DEPTH).Ok? <==> n <= 9999
  {
    hide ParseWhole;
    BracketsNest(n, t, Parser.MAX_DEPTH);
  }
}
