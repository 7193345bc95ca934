/** What holds over whole runs of the parser, failing ones included.

    How deep the recursion can get: every nested call raises the level, of which there are
    fourteen, unless a token was consumed that opens something; so the depth is bounded by the
    openers consumed on the way, and a flat operator chain of any length never reaches the
    limit. And how far a run can get: not past the token after the first register reference. */
module Runs {
  import opened Token
  import opened Ast
  import opened Engine
  import opened Grammar
  import opened Canonical
  import opened Completeness
  import opened ExactImage
  import Digits

  const LEVELS: nat := 14

  /** What the token before the lookahead was: the end of an operand, an IS, the NOT of a
      negated operator, or something an operand is wanted after. */
  datatype Before = Operand | IsWord | NotWord | Wanted

  /** What a token of kind `k` is for the one after it. A LIKE or MATCH is an operator after an
      operand, and a name where an operand is wanted. */
  function Class(b: Before, k: Kind): Before {
    if k.LIKE_KW? || k.MATCH? then (if b.Operand? || b.NotWord? then Wanted else Operand)
    else if IsName(k) || IsLiteralKind(k) || k.VARIABLE? || k.RP? || k.ISNULL? || k.NOTNULL? then Operand
    else if k.IS? then IsWord
    else if k.NOT? && b.Operand? then NotWord
    else Wanted
  }

  /** Brackets, CASE and its parts, BETWEEN, and the prefix operators: "~" anywhere, "+" and "-"
      where no operand stands before them, NOT where an operand is wanted. */
  predicate Opens(b: Before, k: Kind) {
    || k.LP? || k.CASE? || k.WHEN? || k.THEN? || k.ELSE? || k.BETWEEN? || k.BITNOT?
    || (!b.Operand? && (k.PLUS? || k.MINUS?))
    || (b.Wanted? && k.NOT?)
  }

  /** The number of openers consumed before the token that has `left` tokens to the end. */
  function Opened(b: Before, ts: Toks, left: nat): nat
    decreases ts
  {
    if Len(ts) <= left then 0
    else (if Opens(b, ts.head.kind) then 1 else 0) + Opened(Class(b, ts.head.kind), ts.tail, left)
  }

  /** Consuming tokens from `ts` on comes to `k`, with `b2` before it. */
  ghost predicate Leads(b: Before, ts: Toks, b2: Before, k: Toks)
    decreases ts
  {
    (b == b2 && ts == k) || (ts.Cons? && Leads(Class(b, ts.head.kind), ts.tail, b2, k))
  }

  lemma {:induction false} LeadsJoin(b: Before, ts: Toks, b2: Before, k: Toks, b3: Before, k3: Toks)
    requires Leads(b, ts, b2, k) && Leads(b2, k, b3, k3)
    ensures Leads(b, ts, b3, k3)
    decreases ts
  {
    if !(b == b2 && ts == k) {
      LeadsJoin(Class(b, ts.head.kind), ts.tail, b2, k, b3, k3);
    }
  }

  lemma {:induction false} LeadsOpened(b: Before, ts: Toks, b2: Before, k: Toks, left: nat)
    requires Leads(b, ts, b2, k) && left <= Len(k)
    ensures Len(k) <= Len(ts) && Opened(b2, k, left) <= Opened(b, ts, left)
    decreases ts
  {
    if !(b == b2 && ts == k) {
      LeadsOpened(Class(b, ts.head.kind), ts.tail, b2, k, left);
    }
  }

  ghost predicate NotLimit(e: Error) { !e.msg.RecursionLimit? }

  ghost predicate Clean(st: State) { st.deferred.Deferred? ==> NotLimit(st.deferred.error) }

  /** How many tokens are left at the first register reference, 0 if there is none. */
  function FirstRegister(ts: Toks): (left: nat)
    ensures left <= Len(ts)
  {
    if Cur(ts).EOF? then 0
    else if ts.head.kind.VARIABLE? && IsRegister(ts.head.text) then Len(ts)
    else FirstRegister(ts.tail)
  }

  /** From `st` the run came to `s` without passing a register reference, unless it is the last
      token consumed and its rejection waits; nothing gets on from a state where one waits. */
  ghost predicate Passed(st: State, s: State) {
    if st.deferred.Deferred? then s == st
    else if s.deferred.Deferred? then FirstRegister(st.ts) == Len(s.ts) + 1
    else FirstRegister(st.ts) == FirstRegister(s.ts)
  }

  /** An error from `st` is not past the token after the first register reference. */
  ghost predicate Stops(st: State, e: Error) {
    if st.deferred.Deferred? then Len(st.ts) <= e.left else FirstRegister(st.ts) <= e.left + 1
  }

  /** A run from `st` ends after an operand, or fails; and if it fails at the nesting limit, it
      opened enough on the way for the levels of `budget`. */
  ghost predicate Bounded<T>(r: Outcome<T>, b: Before, st: State, budget: int) {
    match r
    case Ok(_, s) => Clean(s) && Leads(b, st.ts, Operand, s.ts) && Passed(st, s)
    case Err(e) =>
      && Stops(st, e)
      && (NotLimit(e) || (e.left <= Len(st.ts) && budget < LEVELS * (1 + Opened(b, st.ts, e.left))))
  }

  /** A run that began further on, at `s`, seen from `st`. */
  lemma {:induction false} Carry<T>(r: Outcome<T>, b: Before, st: State, b2: Before, s: State, budget2: int, budget: int)
    requires Leads(b, st.ts, b2, s.ts) && Passed(st, s) && Bounded(r, b2, s, budget2) && budget <= budget2
    ensures Bounded(r, b, st, budget)
  {
    hide Leads, Opened, FirstRegister;
    if r.Ok? {
      LeadsJoin(b, st.ts, b2, s.ts, Operand, r.state.ts);
    } else if !NotLimit(r.error) {
      LeadsOpened(b, st.ts, b2, s.ts, r.error.left);
    }
  }

  /** An opener before a run makes room for fourteen levels more. */
  lemma {:induction false} Open<T>(r: Outcome<T>, b: Before, st: State, s: State, budget2: int, budget: int)
    requires st.ts.Cons? && Opens(b, st.ts.head.kind) && budget <= budget2 + LEVELS
    requires s.ts == st.ts.tail && Passed(st, s) && Bounded(r, Class(b, st.ts.head.kind), s, budget2)
    ensures Bounded(r, b, st, budget)
  {
    hide Opens, Class, FirstRegister;
    if r.Err? && !NotLimit(r.error) {
      assert Opened(b, st.ts, r.error.left) == 1 + Opened(Class(b, st.ts.head.kind), s.ts, r.error.left);
    }
  }

  /** Any budget below will do. */
  lemma {:induction false} Lower<T>(r: Outcome<T>, b: Before, st: State, budget2: int, budget: int)
    requires Bounded(r, b, st, budget2) && budget <= budget2
    ensures Bounded(r, b, st, budget)
  {
  }

  /** After an IS that no NOT follows, an operand is wanted. */
  lemma {:induction false} AfterIs<T>(r: Outcome<T>, st: State, budget: int)
    requires Bounded(r, Wanted, st, budget) && !Cur(st.ts).NOT?
    ensures Bounded(r, IsWord, st, budget)
  {
    hide FirstRegister;
    var ts := st.ts;
    if ts.Cons? {
      assert Class(IsWord, ts.head.kind) == Class(Wanted, ts.head.kind);
      assert Opens(IsWord, ts.head.kind) == Opens(Wanted, ts.head.kind);
    }
  }

  /** One token that is no parameter. */
  lemma {:induction false} AdvanceWithin(st: State, b: Before)
    requires Good(st) && Clean(st) && !Cur(st.ts).EOF? && !Cur(st.ts).VARIABLE?
    ensures Advance(st).Err? ==> NotLimit(Advance(st).error) && Stops(st, Advance(st).error)
    ensures Advance(st).Ok? ==>
              Clean(Advance(st).state) && Advance(st).state.ts == st.ts.tail && Passed(st, Advance(st).state)
              && Leads(b, st.ts, Class(b, Cur(st.ts)), Advance(st).state.ts)
  {
    assert Leads(Class(b, st.ts.head.kind), st.ts.tail, Class(b, st.ts.head.kind), st.ts.tail);
  }

  lemma {:induction false} Stays(b: Before, st: State)
    ensures Leads(b, st.ts, b, st.ts) && Passed(st, st)
  {
  }

  /** The lookahead, seen from before. */
  lemma {:induction false} StopsHere(st: State, s: State, e: Error)
    requires Passed(st, s) && Len(s.ts) <= e.left
    ensures Stops(st, e)
  {
  }

  lemma {:induction false} ExprWithin(st: State, room: nat, min: nat)
    requires Good(st) && Clean(st) && min < LEVELS
    ensures Bounded(ParseExpr(st, room, min), Wanted, st, room + min)
    decreases Len(st.ts), 6
  {
    hide ParsePrefix, ParseOperators, Leads, FirstRegister;
    if room == 0 {
      assert Opened(Wanted, st.ts, Len(st.ts)) == 0;
    } else {
      PrefixWithin(st, room - 1);
      var p := ParsePrefix(st, room - 1);
      Lower(p, Wanted, st, room - 1 + LEVELS, room + min);
      if p.Ok? {
        OperatorsWithin(p.state, room - 1, p.value, min, false);
        Carry(ParseOperators(p.state, room - 1, p.value, min, false), Wanted, st, Operand, p.state, room + min, room + min);
      }
    }
  }

  lemma {:induction false} BoundWithin(st: State, room: nat)
    requires Good(st) && Clean(st)
    ensures Bounded(ParseBetweenBound(st, room), Wanted, st, room + 1)
    decreases Len(st.ts), 6
  {
    hide ParsePrefix, ParseOperators, Leads, FirstRegister;
    if room == 0 {
      assert Opened(Wanted, st.ts, Len(st.ts)) == 0;
    } else {
      PrefixWithin(st, room - 1);
      var p := ParsePrefix(st, room - 1);
      Lower(p, Wanted, st, room - 1 + LEVELS, room + 1);
      if p.Ok? {
        OperatorsWithin(p.state, room - 1, p.value, 1, true);
        Carry(ParseOperators(p.state, room - 1, p.value, 1, true), Wanted, st, Operand, p.state, room + 1, room + 1);
      }
    }
  }

  lemma {:induction false} PrefixWithin(st: State, room: nat)
    requires Good(st) && Clean(st)
    ensures Bounded(ParsePrefix(st, room), Wanted, st, room + LEVELS)
    decreases Len(st.ts), 5
  {
    hide ParsePrimary, ParseExpr, Leads, Opened, FirstRegister;
    var pre := PrefixOf(Cur(st.ts));
    if pre == [] {
      PrimaryWithin(st, room);
    } else {
      AdvanceWithin(st, Wanted);
      if Advance(st).Ok? {
        var s1 := Advance(st).state;
        ExprWithin(s1, room, PrefixMin(pre[0]));
        Open(ParseExpr(s1, room, PrefixMin(pre[0])), Wanted, st, s1, room + PrefixMin(pre[0]), room + LEVELS);
      }
    }
  }

  lemma {:induction false} OperatorsWithin(st: State, room: nat, x: Expr, min: nat, stop: bool)
    requires Good(st) && Clean(st)
    ensures Bounded(ParseOperators(st, room, x, min, stop), Operand, st, room + 1 + min)
    decreases Len(st.ts), 5
  {
    hide ParseSuffix, Leads, Opened, FirstRegister;
    Stays(Operand, st);
    if Continues(st.ts, min, stop) {
      SuffixWithin(st, room);
      var s := ParseSuffix(st, room);
      Lower(s, Operand, st, room + 1 + Prec(st.ts), room + 1 + min);
      if s.Ok? {
        OperatorsWithin(s.state, room, Apply(x, s.value), min, stop);
        Carry(ParseOperators(s.state, room, Apply(x, s.value), min, stop), Operand, st, Operand, s.state, room + 1 + min, room + 1 + min);
      }
    }
  }

  lemma {:induction false} SuffixWithin(st: State, room: nat)
    requires Good(st) && Clean(st) && Prec(st.ts) > 0
    ensures Bounded(ParseSuffix(st, room), Operand, st, room + 1 + Prec(st.ts))
    decreases Len(st.ts), 4
  {
    hide ParseExpr, ParseIs, ParseLike, ParseBetween, ParseIn, ParseNegated, ExpectIDS, Leads, Opened, FirstRegister;
    var k := Cur(st.ts);
    AdvanceWithin(st, Operand);
    if Advance(st).Ok? && InfixPrec(k) > 0 {
      Stays(Operand, st);
      MoreWithin(st, Operand, st, room, InfixPrec(k) + 1, room + 1 + InfixPrec(k));
    } else if Advance(st).Ok? && k.COLLATE? {
      var s1 := Advance(st).state;
      NameWithin(s1, ExpectIDS(s1), room + 12);
      Carry(ExpectIDS(s1), Operand, st, Wanted, s1, room + 12, room + 12);
    } else if Advance(st).Ok? && !k.ISNULL? && !k.NOTNULL? {
      WordWithin(st, room);
    }
  }

  /** The operators with syntax of their own, after their first word. */
  lemma {:induction false} WordWithin(st: State, room: nat)
    requires Good(st) && Clean(st) && st.ts.Cons? && Advance(st).Ok?
    requires var k := Cur(st.ts); k.IS? || k.BETWEEN? || k.IN? || k.NOT? || k.LIKE_KW? || k.MATCH?
    ensures var k := Cur(st.ts);
            var s1 := Advance(st).state;
            && (k.IS? ==> Bounded(ParseIs(s1, room), Operand, st, room + 5))
            && (k.BETWEEN? ==> Bounded(ParseBetween(s1, room, false), Operand, st, room + 5))
            && (k.IN? ==> Bounded(ParseIn(s1, room, false), Operand, st, room + 5))
            && (k.NOT? ==> Bounded(ParseNegated(s1, room), Operand, st, room + 5))
            && (k.LIKE_KW? || k.MATCH? ==> Bounded(ParseLike(s1, room, false, st.ts.head), Operand, st, room + 5))
    decreases Len(st.ts), 3
  {
    hide ParseIs, ParseLike, ParseBetween, ParseIn, ParseNegated, Leads, Opened, Bounded;
    var k := Cur(st.ts);
    var s1 := Advance(st).state;
    AdvanceWithin(st, Operand);
    if k.IS? {
      IsWithin(s1, room);
      Carry(ParseIs(s1, room), Operand, st, IsWord, s1, room + 5, room + 5);
    } else if k.BETWEEN? {
      BetweenWithin(s1, room, false);
      Open(ParseBetween(s1, room, false), Operand, st, s1, room, room + 5);
    } else if k.IN? {
      InWithin(s1, room, false);
      Carry(ParseIn(s1, room, false), Operand, st, Wanted, s1, room + 5, room + 5);
    } else if k.NOT? {
      NegatedWithin(s1, room);
      Carry(ParseNegated(s1, room), Operand, st, NotWord, s1, room + 5, room + 5);
    } else {
      LikeWithin(s1, room, false, st.ts.head);
      Carry(ParseLike(s1, room, false, st.ts.head), Operand, st, Wanted, s1, room + 5, room + 5);
    }
  }

  /** A name where an operand is wanted. */
  lemma {:induction false} NameWithin(st: State, r: Outcome<Lexeme>, budget: int)
    requires Good(st) && Clean(st) && (r == ExpectIDS(st) || r == ExpectName(st))
    ensures Bounded(r, Wanted, st, budget)
  {
    hide Leads, Opened, FirstRegister;
    if IsName(Cur(st.ts)) {
      AdvanceWithin(st, Wanted);
    }
  }

  lemma {:induction false} NegatedWithin(st: State, room: nat)
    requires Good(st) && Clean(st)
    ensures Bounded(ParseNegated(st, room), NotWord, st, room + 5)
    decreases Len(st.ts), 7
  {
    hide ParseLike, ParseBetween, ParseIn, Leads, Opened, FirstRegister;
    var k := Cur(st.ts);
    if k.NULL? || k.LIKE_KW? || k.MATCH? || k.BETWEEN? || k.IN? {
      AdvanceWithin(st, NotWord);
      if Advance(st).Ok? {
        var s1 := Advance(st).state;
        if k.BETWEEN? {
          BetweenWithin(s1, room, true);
          Open(ParseBetween(s1, room, true), NotWord, st, s1, room, room + 5);
        } else if k.IN? {
          InWithin(s1, room, true);
          Carry(ParseIn(s1, room, true), NotWord, st, Wanted, s1, room + 5, room + 5);
        } else if !k.NULL? {
          LikeWithin(s1, room, true, st.ts.head);
          Carry(ParseLike(s1, room, true, st.ts.head), NotWord, st, Wanted, s1, room + 5, room + 5);
        }
      }
    }
  }

  lemma {:induction false} IsWithin(st: State, room: nat)
    requires Good(st) && Clean(st)
    ensures Bounded(ParseIs(st, room), IsWord, st, room + 5)
    decreases Len(st.ts), 8
  {
    hide ParseIsOperand, Leads, Opened, FirstRegister;
    if Cur(st.ts).NOT? {
      AdvanceWithin(st, IsWord);
      if Advance(st).Ok? {
        var s1 := Advance(st).state;
        IsOperandWithin(s1, room, true);
        Carry(ParseIsOperand(s1, room, true), IsWord, st, Wanted, s1, room + 5, room + 5);
      }
    } else {
      IsOperandWithin(st, room, false);
      AfterIs(ParseIsOperand(st, room, false), st, room + 5);
    }
  }

  lemma {:induction false} IsOperandWithin(st: State, room: nat, negated: bool)
    requires Good(st) && Clean(st)
    ensures Bounded(ParseIsOperand(st, room, negated), Wanted, st, room + 5)
    decreases Len(st.ts), 7
  {
    hide ParseExpr, Expect, Leads, Opened, FirstRegister;
    if Cur(st.ts).DISTINCT? {
      AdvanceWithin(st, Wanted);
      if Advance(st).Ok? {
        FromWithin(Advance(st).state, st, room);
      }
    } else {
      ExprWithin(st, room, AFTER_COMPARE);
    }
  }

  /** The FROM after a DISTINCT, and the operand. */
  lemma {:induction false} FromWithin(st: State, st0: State, room: nat)
    requires Good(st) && Clean(st) && Leads(Wanted, st0.ts, Wanted, st.ts) && Passed(st0, st)
    ensures Expect(st, FROM).Err? ==> NotLimit(Expect(st, FROM).error) && Stops(st0, Expect(st, FROM).error)
    ensures Expect(st, FROM).Ok? ==>
              Bounded(ParseExpr(Expect(st, FROM).state, room, AFTER_COMPARE), Wanted, st0, room + 5)
    decreases Len(st.ts), 1
  {
    hide ParseExpr, Leads, Opened, FirstRegister;
    if Cur(st.ts).FROM? {
      AdvanceWithin(st, Wanted);
      if Advance(st).Ok? {
        var s := Advance(st).state;
        ExprWithin(s, room, AFTER_COMPARE);
        Carry(ParseExpr(s, room, AFTER_COMPARE), Wanted, st, Wanted, s, room + 5, room + 5);
        Carry(ParseExpr(s, room, AFTER_COMPARE), Wanted, st0, Wanted, st, room + 5, room + 5);
      }
    }
  }

  /** One more operand, after a word that wants one. */
  lemma {:induction false} MoreWithin(st: State, b: Before, st0: State, room: nat, min: nat, budget: int)
    requires Good(st) && Clean(st) && !Cur(st.ts).EOF? && Class(Operand, Cur(st.ts)).Wanted? && min < LEVELS
    requires Leads(b, st0.ts, Operand, st.ts) && Passed(st0, st) && budget <= room + min
    ensures Advance(st).Err? ==> NotLimit(Advance(st).error) && Stops(st0, Advance(st).error)
    ensures Advance(st).Ok? ==> Bounded(ParseExpr(Advance(st).state, room, min), b, st0, budget)
    decreases Len(st.ts), 0
  {
    hide ParseExpr, Leads, Opened, FirstRegister;
    AdvanceWithin(st, Operand);
    if Advance(st).Ok? {
      var s1 := Advance(st).state;
      ExprWithin(s1, room, min);
      Carry(ParseExpr(s1, room, min), Operand, st, Wanted, s1, room + min, budget);
      Carry(ParseExpr(s1, room, min), b, st0, Operand, st, budget, budget);
    }
  }

  lemma {:induction false} LikeWithin(st: State, room: nat, negated: bool, like: Lexeme)
    requires Good(st) && Clean(st)
    ensures Bounded(ParseLike(st, room, negated, like), Wanted, st, room + 5)
    decreases Len(st.ts), 7
  {
    hide ParseExpr, Leads, Opened, FirstRegister;
    ExprWithin(st, room, AFTER_COMPARE);
    var y := ParseExpr(st, room, AFTER_COMPARE);
    if y.Ok? && Cur(y.state.ts).ESCAPE? {
      MoreWithin(y.state, Wanted, st, room, AFTER_COMPARE, room + 5);
    }
  }

  lemma {:induction false} BetweenWithin(st: State, room: nat, negated: bool)
    requires Good(st) && Clean(st)
    ensures Bounded(ParseBetween(st, room, negated), Wanted, st, room)
    decreases Len(st.ts), 7
  {
    hide ParseBetweenBound, ParseExpr, Leads, Opened, FirstRegister;
    BoundWithin(st, room);
    var lo := ParseBetweenBound(st, room);
    Lower(lo, Wanted, st, room + 1, room);
    if lo.Ok? && Cur(lo.state.ts).AND? {
      MoreWithin(lo.state, Wanted, st, room, AFTER_COMPARE, room);
    }
  }

  lemma {:induction false} InWithin(st: State, room: nat, negated: bool)
    requires Good(st) && Clean(st)
    ensures Bounded(ParseIn(st, room, negated), Wanted, st, room + 5)
    decreases Len(st.ts), 7
  {
    hide ParseArguments, ParseTableName, Leads, Opened, FirstRegister;
    if Cur(st.ts).LP? {
      AdvanceWithin(st, Wanted);
      if Advance(st).Ok? {
        ArgumentsWithin(Advance(st).state, room);
        Open(ParseArguments(Advance(st).state, room), Wanted, st, Advance(st).state, room, room + 5);
      }
    } else {
      TableWithin(st, room + 5);
      var t := ParseTableName(st);
      if t.Ok? && Cur(t.state.ts).LP? {
        AdvanceWithin(t.state, Operand);
        if Advance(t.state).Ok? {
          var s2 := Advance(t.state).state;
          ArgumentsWithin(s2, room);
          Open(ParseArguments(s2, room), Operand, t.state, s2, room, room + 5);
          Carry(ParseArguments(s2, room), Wanted, st, Operand, t.state, room + 5, room + 5);
        }
      }
    }
  }

  /** A name after a dot. */
  lemma {:induction false} DottedWithin(st: State, b: Before, st0: State, budget: int)
    requires Good(st) && Clean(st) && Cur(st.ts).DOT? && Leads(b, st0.ts, Operand, st.ts) && Passed(st0, st)
    ensures Advance(st).Err? ==> NotLimit(Advance(st).error) && Stops(st0, Advance(st).error)
    ensures Advance(st).Ok? ==> Bounded(ExpectName(Advance(st).state), b, st0, budget)
  {
    hide ExpectName, Leads, Opened, FirstRegister;
    AdvanceWithin(st, Operand);
    if Advance(st).Ok? {
      var s1 := Advance(st).state;
      NameWithin(s1, ExpectName(s1), budget);
      Carry(ExpectName(s1), Operand, st, Wanted, s1, budget, budget);
      Carry(ExpectName(s1), b, st0, Operand, st, budget, budget);
    }
  }

  lemma {:induction false} TableWithin(st: State, budget: int)
    requires Good(st) && Clean(st)
    ensures Bounded(ParseTableName(st), Wanted, st, budget)
  {
    hide ExpectName, Leads, Opened, FirstRegister;
    NameWithin(st, ExpectName(st), budget);
    var a := ExpectName(st);
    if a.Ok? && Cur(a.state.ts).DOT? {
      DottedWithin(a.state, Wanted, st, budget);
    }
  }

  /** A closing token: a bracket or the END of a CASE. */
  lemma {:induction false} CloseWithin(st: State, k: Kind, b: Before, st0: State, b2: Before, budget: int)
    requires Good(st) && Clean(st) && (k.RP? || k.END?) && Leads(b, st0.ts, b2, st.ts) && Passed(st0, st)
    ensures Bounded(Expect(st, k), b, st0, budget)
  {
    hide Leads, Opened, FirstRegister;
    if Cur(st.ts) == k {
      AdvanceWithin(st, b2);
      if Advance(st).Ok? {
        LeadsJoin(b, st0.ts, b2, st.ts, Operand, Advance(st).state.ts);
      }
    }
  }

  lemma {:induction false} ArgumentsWithin(st: State, room: nat)
    requires Good(st) && Clean(st)
    ensures Bounded(ParseArguments(st, room), Wanted, st, room)
    decreases Len(st.ts), 8
  {
    hide ParseExprList, Expect, Leads, Opened, FirstRegister;
    if Cur(st.ts).RP? {
      AdvanceWithin(st, Wanted);
    } else {
      ListWithin(st, room);
      var l := ParseExprList(st, room);
      if l.Ok? {
        CloseWithin(l.state, RP, Wanted, st, Operand, room);
      }
    }
  }

  lemma {:induction false} ListWithin(st: State, room: nat)
    requires Good(st) && Clean(st)
    ensures Bounded(ParseExprList(st, room), Wanted, st, room)
    decreases Len(st.ts), 7
  {
    hide ParseExpr, Leads, Opened, FirstRegister;
    ExprWithin(st, room, LOWEST);
    var x := ParseExpr(st, room, LOWEST);
    if x.Ok? && Cur(x.state.ts).COMMA? {
      AdvanceWithin(x.state, Operand);
      if Advance(x.state).Ok? {
        var s2 := Advance(x.state).state;
        ListWithin(s2, room);
        Carry(ParseExprList(s2, room), Operand, x.state, Wanted, s2, room, room);
        Carry(ParseExprList(s2, room), Wanted, st, Operand, x.state, room, room);
      }
    }
  }

  lemma {:induction false} PrimaryWithin(st: State, room: nat)
    requires Good(st) && Clean(st)
    ensures Bounded(ParsePrimary(st, room), Wanted, st, room + LEVELS)
    decreases Len(st.ts), 4
  {
    hide ParseParenExpr, ParseCase, ParseFuncCall, ParseQualifiedRef, ParseTerm, Leads, Opened, FirstRegister;
    var k := Cur(st.ts);
    if k.LP? {
      BracketWithin(st, room);
    } else if k.CASE? {
      CaseWithin(st, room);
    } else if IsLiteralKind(k) || (k.STRING? && !Peek(st.ts).DOT?) {
      TermWithin(st, room + LEVELS);
    } else if (k.STRING? || IsIDJ(k)) && Peek(st.ts).DOT? {
      ReferenceWithin(st, room + LEVELS);
    } else if IsIDJ(k) && Peek(st.ts).LP? {
      CallWithin(st, room);
    } else if k.VARIABLE? {
      VariableWithin(st, room);
    } else if IsIDJ(k) {
      AdvanceWithin(st, Wanted);
    }
  }

  /** A parameter: the only token a run can stop after for good. */
  lemma {:induction false} VariableWithin(st: State, room: nat)
    requires Good(st) && Clean(st) && Cur(st.ts).VARIABLE?
    ensures Bounded(ParsePrimary(st, room), Wanted, st, room + LEVELS)
  {
    hide ParseParenExpr, ParseCase, ParseFuncCall, ParseQualifiedRef, ParseTerm, Opened;
    assert Leads(Class(Wanted, VARIABLE), st.ts.tail, Operand, st.ts.tail);
  }

  lemma {:induction false} TermWithin(st: State, budget: int)
    requires Good(st) && Clean(st)
    ensures Bounded(ParseTerm(st), Wanted, st, budget)
  {
    hide Leads, Opened, FirstRegister;
    if IsLiteralKind(Cur(st.ts)) || Cur(st.ts).STRING? {
      AdvanceWithin(st, Wanted);
    }
  }

  lemma {:induction false} ReferenceWithin(st: State, budget: int)
    requires Good(st) && Clean(st)
    ensures Bounded(ParseQualifiedRef(st), Wanted, st, budget)
  {
    hide ExpectName, Leads, Opened, FirstRegister;
    NameWithin(st, ExpectName(st), budget);
    var a := ExpectName(st);
    if a.Ok? && Cur(a.state.ts).DOT? {
      DottedWithin(a.state, Wanted, st, budget);
      if Advance(a.state).Ok? {
        var b := ExpectName(Advance(a.state).state);
        if b.Ok? && Cur(b.state.ts).DOT? {
          DottedWithin(b.state, Wanted, st, budget);
        }
      }
    }
  }

  lemma {:induction false} BracketWithin(st: State, room: nat)
    requires Good(st) && Clean(st) && Cur(st.ts).LP?
    ensures Bounded(ParseParenExpr(st, room), Wanted, st, room + LEVELS)
    decreases Len(st.ts), 3
  {
    hide ParseExprList, Leads, Opened, FirstRegister;
    AdvanceWithin(st, Wanted);
    if Advance(st).Ok? {
      var s1 := Advance(st).state;
      ListWithin(s1, room);
      var l := ParseExprList(s1, room);
      Open(l, Wanted, st, s1, room, room + LEVELS);
      if l.Ok? {
        CloseWithin(l.state, RP, Wanted, st, Operand, room + LEVELS);
      }
    }
  }

  lemma {:induction false} CaseWithin(st: State, room: nat)
    requires Good(st) && Clean(st) && Cur(st.ts).CASE?
    ensures Bounded(ParseCase(st, room), Wanted, st, room + LEVELS)
    decreases Len(st.ts), 3
  {
    hide ParseExpr, ParseCaseArms, Leads, Opened, FirstRegister;
    AdvanceWithin(st, Wanted);
    if Advance(st).Ok? {
      var s1 := Advance(st).state;
      if Cur(s1.ts).WHEN? {
        ArmsWithin(s1, room, None, Wanted);
        Open(ParseCaseArms(s1, room, None), Wanted, st, s1, room, room + LEVELS);
      } else {
        ExprWithin(s1, room, LOWEST);
        var x := ParseExpr(s1, room, LOWEST);
        Open(x, Wanted, st, s1, room, room + LEVELS);
        if x.Ok? {
          ArmsWithin(x.state, room, Some(x.value), Operand);
          Carry(ParseCaseArms(x.state, room, Some(x.value)), Wanted, s1, Operand, x.state, room, room);
          Open(ParseCaseArms(x.state, room, Some(x.value)), Wanted, st, s1, room, room + LEVELS);
        }
      }
    }
  }

  lemma {:induction false} ArmsWithin(st: State, room: nat, operand: OptExpr, b: Before)
    requires Good(st) && Clean(st)
    ensures Bounded(ParseCaseArms(st, room, operand), b, st, room)
    decreases Len(st.ts), 4
  {
    hide ParseExpr, ParseWhens, Expect, Leads, Opened, FirstRegister;
    if Cur(st.ts).WHEN? {
      WhensWithin(st, room, b);
      var ws := ParseWhens(st, room);
      if ws.Ok? {
        if Cur(ws.state.ts).ELSE? {
          MoreWithin(ws.state, b, st, room, LOWEST, room);
          if Advance(ws.state).Ok? {
            var e := ParseExpr(Advance(ws.state).state, room, LOWEST);
            if e.Ok? {
              CloseWithin(e.state, END, b, st, Operand, room);
            }
          }
        } else {
          CloseWithin(ws.state, END, b, st, Operand, room);
        }
      }
    }
  }

  lemma {:induction false} WhensWithin(st: State, room: nat, b: Before)
    requires Good(st) && Clean(st) && (Cur(st.ts).WHEN? || b.Operand?)
    ensures Bounded(ParseWhens(st, room), b, st, room)
    decreases Len(st.ts), 3
  {
    hide ParseExpr, Leads, Opened, FirstRegister;
    Stays(b, st);
    if Cur(st.ts).WHEN? {
      AdvanceWithin(st, b);
      if Advance(st).Ok? {
        var s1 := Advance(st).state;
        ExprWithin(s1, room, LOWEST);
        var cond := ParseExpr(s1, room, LOWEST);
        Carry(cond, b, st, Wanted, s1, room, room);
        if cond.Ok? && Cur(cond.state.ts).THEN? {
          ThenWithin(cond.state, b, st, room);
        }
      }
    }
  }

  /** The THEN of an arm, and the arms after it. */
  lemma {:induction false} ThenWithin(st: State, b: Before, st0: State, room: nat)
    requires Good(st) && Clean(st) && Cur(st.ts).THEN? && Leads(b, st0.ts, Operand, st.ts) && Passed(st0, st)
    ensures Advance(st).Err? ==> NotLimit(Advance(st).error) && Stops(st0, Advance(st).error)
    ensures Advance(st).Ok? ==>
              var value := ParseExpr(Advance(st).state, room, LOWEST);
              && Bounded(value, b, st0, room)
              && (value.Ok? ==> Bounded(ParseWhens(value.state, room), b, st0, room))
    decreases Len(st.ts), 1
  {
    hide ParseExpr, ParseWhens, Leads, Opened, FirstRegister, Passed, Stops;
    MoreWithin(st, b, st0, room, LOWEST, room);
    if Advance(st).Ok? {
      var value := ParseExpr(Advance(st).state, room, LOWEST);
      if value.Ok? {
        WhensWithin(value.state, room, Operand);
        Carry(ParseWhens(value.state, room), b, st0, Operand, value.state, room, room);
      }
    }
  }

  lemma {:induction false} CallWithin(st: State, room: nat)
    requires Good(st) && Clean(st) && IsIDJ(Cur(st.ts)) && Peek(st.ts).LP?
    ensures Bounded(ParseFuncCall(st, room), Wanted, st, room + LEVELS)
    decreases Len(st.ts), 3
  {
    hide ParseCallArgs, Leads, Opened, FirstRegister;
    AdvanceWithin(st, Wanted);
    if Advance(st).Ok? {
      var s1 := Advance(st).state;
      AdvanceWithin(s1, Operand);
      if Advance(s1).Ok? {
        var s2 := Advance(s1).state;
        CallArgsWithin(s2, room);
        Open(ParseCallArgs(s2, room), Operand, s1, s2, room, room + LEVELS);
        Carry(ParseCallArgs(s2, room), Wanted, st, Operand, s1, room + LEVELS, room + LEVELS);
      }
    }
  }

  lemma {:induction false} CallArgsWithin(st: State, room: nat)
    requires Good(st) && Clean(st)
    ensures Bounded(ParseCallArgs(st, room), Wanted, st, room)
    decreases Len(st.ts), 10
  {
    hide ParseCallList, Expect, Leads, Opened, FirstRegister;
    var k := Cur(st.ts);
    if k.STAR? || k.DISTINCT? || k.ALL? {
      AdvanceWithin(st, Wanted);
      if Advance(st).Ok? {
        var s1 := Advance(st).state;
        if k.STAR? {
          CloseWithin(s1, RP, Wanted, st, Wanted, room);
        } else {
          var q := if k.DISTINCT? then Distinct else All;
          CallListWithin(s1, room, q);
          Carry(ParseCallList(s1, room, q), Wanted, st, Wanted, s1, room, room);
        }
      }
    } else {
      CallListWithin(st, room, NoQuantifier);
    }
  }

  lemma {:induction false} CallListWithin(st: State, room: nat, q: Quantifier)
    requires Good(st) && Clean(st)
    ensures Bounded(ParseCallList(st, room, q), Wanted, st, room)
    decreases Len(st.ts), 9
  {
    hide ParseExprList, Expect, Leads, Opened, FirstRegister;
    if Cur(st.ts).RP? {
      AdvanceWithin(st, Wanted);
    } else if !Cur(st.ts).ORDER? {
      ListWithin(st, room);
      var l := ParseExprList(st, room);
      if l.Ok? {
        CloseWithin(l.state, RP, Wanted, st, Operand, room);
      }
    }
  }

  /** A run that ends at the nesting limit has, by then, consumed an opener for every fourteen
      levels but the first: the depth is at most 14 * (1 + the openers consumed). */
  lemma {:induction false} LimitNeedsOpeners(ts: Toks, room: nat)
    requires ParseWhole(ts, room).Err? && ParseWhole(ts, room).error.msg.RecursionLimit?
    ensures room < LEVELS * (1 + Opened(Wanted, ts, ParseWhole(ts, room).error.left))
  {
    hide ParseExpr, Opened;
    if !Cur(ts).ILLEGAL? {
      ExprWithin(State(ts, Quiet), room, LOWEST);
    }
  }

  /** Fewer openers are consumed before a token than in all. */
  lemma {:induction false} OpenedMore(b: Before, ts: Toks, left: nat)
    ensures Opened(b, ts, left) <= Opened(b, ts, 0)
    decreases ts
  {
    if Len(ts) > left {
      OpenedMore(Class(b, ts.head.kind), ts.tail, left);
    }
  }

  /** Fourteen levels for every opener in the input and fourteen more are always enough. */
  lemma {:induction false} RoomSuffices(ts: Toks, room: nat)
    requires room >= LEVELS * (1 + Opened(Wanted, ts, 0))
    ensures ParseWhole(ts, room).Err? ==> !ParseWhole(ts, room).error.msg.RecursionLimit?
  {
    hide ParseWhole, Opened;
    if ParseWhole(ts, room).Err? && ParseWhole(ts, room).error.msg.RecursionLimit? {
      LimitNeedsOpeners(ts, room);
      OpenedMore(Wanted, ts, ParseWhole(ts, room).error.left);
    }
  }

  /** A register reference ends every run: an input with one is rejected, and no further on than
      at the token after the first. */
  lemma {:induction false} RegisterStops(ts: Toks, room: nat)
    requires FirstRegister(ts) > 0
    ensures ParseWhole(ts, room).Err? && ParseWhole(ts, room).error.left >= FirstRegister(ts) - 1
  {
    hide ParseExpr, Opened, Leads;
    if !Cur(ts).ILLEGAL? {
      ExprWithin(State(ts, Quiet), room, LOWEST);
    }
  }

  /** What a flat chain is made of: an operand of one token. */
  predicate Simple(t: Lexeme) {
    || IsIdentKind(t.kind) || t.kind.STRING?
    || (IsLiteralKind(t.kind) && (t.kind.QNUMBER? ==> Digits.DequoteNumber(t.text).Value?))
    || (t.kind.VARIABLE? && !IsRegister(t.text))
  }

  /** Operands and infix operators in turn, of any kinds and any number. */
  predicate Flat(ts: Toks) {
    ts.Cons? && Simple(ts.head) && FlatTail(ts.tail)
  }

  predicate FlatTail(ts: Toks) {
    ts.End? || (InfixPrec(ts.head.kind) > 0 && Flat(ts.tail))
  }

  lemma {:induction false} OperandParses(ts: Toks, room: nat)
    requires Flat(ts)
    ensures !Cur(ts).ILLEGAL? && ParsePrefix(At(ts), room).Ok?
    ensures ParsePrefix(At(ts), room).state == At(ts.tail)
  {
    hide Digits.DequoteNumber, ParseExpr, ParseParenExpr, ParseCase, ParseFuncCall, ParseQualifiedRef;
    assert !Cur(ts.tail).ILLEGAL? && !Cur(ts.tail).LP? && !Cur(ts.tail).DOT?;
  }

  lemma {:induction false} FlatParses(ts: Toks, room: nat, min: nat)
    requires Flat(ts) && min < LEVELS && room + min >= LEVELS
    ensures !Cur(ts).ILLEGAL?
    ensures var r := ParseExpr(At(ts), room, min);
            r.Ok? && r.state.deferred.Quiet? && FlatTail(r.state.ts) && (r.state.ts.End? || InfixPrec(Cur(r.state.ts)) < min)
    decreases Len(ts), 1
  {
    hide ParsePrefix, ParseOperators;
    OperandParses(ts, room - 1);
    var p := ParsePrefix(At(ts), room - 1);
    FlatClimbs(ts.tail, room - 1, p.value, min);
  }

  lemma {:induction false} FlatClimbs(ts: Toks, room: nat, x: Expr, min: nat)
    requires FlatTail(ts) && min < LEVELS && room + 1 + min >= LEVELS
    ensures !Cur(ts).ILLEGAL?
    ensures var r := ParseOperators(At(ts), room, x, min, false);
            r.Ok? && r.state.deferred.Quiet? && FlatTail(r.state.ts) && (r.state.ts.End? || InfixPrec(Cur(r.state.ts)) < min)
    decreases Len(ts), 1
  {
    hide ParseExpr, ParseSuffix;
    if ts.Cons? && InfixPrec(ts.head.kind) >= min {
      FlatParses(ts.tail, room, InfixPrec(ts.head.kind) + 1);
      FlatTurn(ts, room);
      var s := ParseSuffix(At(ts), room);
      FlatClimbs(s.state.ts, room, Apply(x, s.value), min);
    }
  }

  lemma {:induction false} FlatTurn(ts: Toks, room: nat)
    requires FlatTail(ts) && ts.Cons? && !Cur(ts.tail).ILLEGAL?
    requires ParseExpr(At(ts.tail), room, InfixPrec(ts.head.kind) + 1).Ok?
    ensures Prec(ts) == InfixPrec(ts.head.kind) && ParseSuffix(At(ts), room).Ok?
    ensures ParseSuffix(At(ts), room).state == ParseExpr(At(ts.tail), room, InfixPrec(ts.head.kind) + 1).state
  {
    hide ParseExpr, ParseIs, ParseLike, ParseBetween, ParseIn, ParseNegated;
  }

  /** A flat operator chain of any length, of any operands and any infix operators, is accepted
      with fourteen levels. */
  lemma {:induction false} FlatAccepted(ts: Toks, room: nat)
    requires Flat(ts) && room >= LEVELS
    ensures ParseWhole(ts, room).Ok?
  {
    hide ParseExpr;
    FlatParses(ts, room, LOWEST);
  }
}
