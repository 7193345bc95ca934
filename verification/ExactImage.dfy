/** The expression parser is exactly its grammar: what it accepts, and what it makes of it,
    said without it. */
module ExactImage {
  import opened Token
  import opened Ast
  import opened Engine
  import opened Grammar
  import opened Canonical
  import opened Forms
  import opened Parts
  import opened Completeness
  import opened Image
  import opened Emission

  /** parseExpr(min) succeeds with `e`, leaving `k`, exactly when `e` is a canonical tree of
      level `min` that the consumed tokens spell, `k` does not go on with it, and it nests no
      deeper than there is room. */
  lemma {:induction false} ParserCharacterized(ts: Toks, room: nat, min: nat, e: Expr, k: Toks)
    requires min <= CLOSED && !Cur(ts).ILLEGAL?
    ensures ParseExpr(At(ts), room, min) == Ok(e, At(k)) <==> Complete(e, ts, k, room, min)
  {
    if ParseExpr(At(ts), room, min) == Ok(e, At(k)) {
      hide ParseExpr, Complete;
      ExprImage(At(ts), room, min);
    } else if Complete(e, ts, k, room, min) {
      hide ParseExpr, Reads, Canon, Spine, Edge, Absorbs, StartKind;
      StartBegins(e, ts);
      ExprParses(e, ts, k, room, min);
    }
  }

  /** A whole input is accepted as `e` exactly when it spells `e`, and `e` is canonical and
      within the nesting limit. */
  lemma {:induction false} WholeCharacterized(ts: Toks, room: nat, e: Expr)
    ensures ParseWhole(ts, room) == Ok(e, At(End)) <==> Reads(e, ts) == To(End) && Canon(e) && Need(e) <= room
  {
    hide ParseExpr, Reads, Canon, Need, Spine, Edge, Absorbs, StartKind;
    if Reads(e, ts) == To(End) && Canon(e) {
      StartBegins(e, ts);
      if Need(e) <= room {
        Terminated(e, ts, End, room);
        ParserCharacterized(ts, room, LOWEST, e, End);
      }
    }
    if !Cur(ts).ILLEGAL? {
      ParserCharacterized(ts, room, LOWEST, e, End);
    }
  }

  /** The canonical trees within the limit are precisely the trees the parser can return. */
  lemma {:induction false} ImageIsCanonical(e: Expr, room: nat)
    ensures (exists ts :: ParseWhole(ts, room) == Ok(e, At(End))) <==> Canon(e) && Need(e) <= room
  {
    hide ParseWhole, Reads, Canon, Need, Emit;
    forall ts
      ensures ParseWhole(ts, room) == Ok(e, At(End)) ==> Canon(e) && Need(e) <= room
    {
      WholeCharacterized(ts, room, e);
    }
    EmitReads(e);
    WholeCharacterized(Emit(e), room, e);
  }

  /** No token list spells two canonical trees. */
  lemma {:induction false} Unambiguous(e1: Expr, e2: Expr, ts: Toks)
    requires Canon(e1) && Canon(e2)
    requires Reads(e1, ts) == To(End) && Reads(e2, ts) == To(End)
    ensures e1 == e2
  {
    hide ParseWhole, Reads, Canon, Need;
    var room := Max(Need(e1), Need(e2));
    WholeCharacterized(ts, room, e1);
    WholeCharacterized(ts, room, e2);
  }

  /** Rendering an accepted tree and parsing its tokens gives the tree back, with no more
      nesting than the first time. */
  lemma {:induction false} TokenRoundTrip(ts: Toks, room: nat, e: Expr)
    requires ParseWhole(ts, room) == Ok(e, At(End))
    ensures ParseWhole(Emit(e), room) == Ok(e, At(End))
  {
    hide ParseWhole, Reads, Canon, Need, Emit;
    WholeCharacterized(ts, room, e);
    EmitReads(e);
    WholeCharacterized(Emit(e), room, e);
  }

  /** Although the lower bound of a BETWEEN is parsed at OR's level, an accepted one has no
      bare AND or OR: not even "x BETWEEN a OR b AND c AND d" gets a bound "a OR b". */
  lemma {:induction false} LowerBoundIsTight(st: State, room: nat, negated: bool)
    requires Good(st) && ParseBetween(st, room, negated).Ok?
    ensures var s := ParseBetween(st, room, negated).value;
            s.Between? && Canon(s.lo) && Spine(s.lo) >= 3 && !AndOnSpine(s.lo)
  {
    hide AndOnSpine, Reached, ParseBetweenBound, ParseExpr;
    BoundImage(st, room);
    var lo := ParseBetweenBound(st, room);
    BoundFollowedByAnd(lo.value, st.ts, lo.state.ts, room - 1);
  }

  lemma {:induction false} BoundFollowedByAnd(lo: Expr, ts: Toks, k: Toks, room: nat)
    requires Reached(lo, ts, k, room, 1) && !AndOnSpine(lo) && Cur(k).AND?
    ensures Canon(lo) && Spine(lo) >= 3
  {
    OrTakesAnd(lo);
  }
}
