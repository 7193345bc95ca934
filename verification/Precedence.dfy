/** Operator precedence as the grammar declares it (internal/reference/parse.y:309-320), and what
    it makes of a token list. Nothing here is said in the parser's own numbers or token classes. */
module Precedence {
  import opened Token
  import opened Ast
  import opened Grammar
  import opened Canonical
  import opened Completeness
  import opened Reference
  import opened Engine
  import Digits
  import ExactImage
  import Emission
  import Separators

  /** The declarations in their order, each a group of tokens that bind alike; 12 for a token
      that is in none. */
  function Group(k: Kind): nat {
    if k in {OR} then 0
    else if k in {AND} then 1
    else if k in {NOT} then 2
    else if k in {IS, MATCH, LIKE_KW, BETWEEN, IN, ISNULL, NOTNULL, NE, EQ} then 3
    else if k in {GT, LE, LT, GE} then 4
    else if k in {ESCAPE} then 5
    else if k in {BITAND, BITOR, LSHIFT, RSHIFT} then 6
    else if k in {PLUS, MINUS} then 7
    else if k in {STAR, SLASH, REM} then 8
    else if k in {CONCAT, PTR} then 9
    else if k in {COLLATE} then 10
    else if k in {BITNOT} then 11
    else 12
  }

  /** The signs are marked with the group of BITNOT. */
  function PrefixGroup(pre: Prefix): nat { if pre.OpNot? then Group(NOT) else Group(BITNOT) }

  /** The group of an operator's own token; NOT NULL is in the group of its first word, the other
      forms that begin with NOT are in that of the word they negate. */
  function TailGroup(s: Suffix): nat {
    match s
    case Binary(op, _) => Group(OperatorWord(op)[0].kind)
    case Collate(_) => Group(COLLATE)
    case Like(_, like, _, _) => Group(LIKE_KW)
    case Is(_, _, _) => Group(IS)
    case NullCheck(test) => if test.TestNotNullWords? then Group(NOT) else Group(ISNULL)
    case Between(_, _, _) => Group(BETWEEN)
    case In(_, _) => Group(IN)
  }

  /** The operand an operator ends with. */
  function Last(s: Suffix): OptExpr {
    match s
    case Binary(_, y) => Some(y)
    case Like(_, _, y, escape) => if escape.Some? then escape else Some(y)
    case Is(_, _, y) => Some(y)
    case Between(_, _, hi) => Some(hi)
    case _ => None
  }

  /** An operator of group `g` after `e` goes to the last operand of one that binds weaker. */
  predicate Captures(e: Expr, g: nat) {
    match e
    case Atom(_) => false
    case Unary(pre, x) => PrefixGroup(pre) < g || Captures(x, g)
    case Apply(_, s) => Last(s).Some? && (TailGroup(s) < g || Captures(Last(s).expr, g))
  }

  /** An operator of `e` itself binds no tighter than group `g`. */
  predicate Loose(e: Expr, g: nat) { e.Apply? && (TailGroup(e.s) <= g || Loose(e.x, g)) }

  predicate IsIdentifier(k: Kind) {
    k.ID? || k.INDEXED? || k.JOIN_KW? || k.END? || k.LIKE_KW? || k.MATCH? || k.WITH? || k.FallbackKw?
  }

  predicate IsAnyName(k: Kind) { IsIdentifier(k) || k.STRING? || k.CAST? || k.CTIME_KW? || k.RAISE? }

  predicate IsCollation(k: Kind) { IsAnyName(k) && !k.INDEXED? && !k.JOIN_KW? }

  /** A token that is a value by itself. */
  predicate IsValue(t: Lexeme) {
    || t.kind.NULL? || t.kind.INTEGER? || t.kind.FLOAT? || t.kind.BLOB? || t.kind.STRING? || t.kind.CTIME_KW?
    || (t.kind.QNUMBER? && Separators.WellSeparated(t.text, 0))
  }

  /** A parameter; "#" and a figure is none. */
  predicate IsParameter(t: Lexeme) {
    t.kind.VARIABLE? && !(|t.text| > 1 && t.text[0] == '#' && t.text[1] in "0123456789")
  }

  function KindOf(item: Emission.Item): Kind { if item.Content? then item.token.kind else item.kind }

  predicate BeginsWith(e: Expr, k: Kind) { Words(e) != [] && KindOf(Words(e)[0]) == k }

  /** Ends in a LIKE that could still take an ESCAPE. */
  predicate EndsInLike(e: Expr) {
    match e
    case Atom(_) => false
    case Unary(_, x) => EndsInLike(x)
    case Apply(_, s) => (s.Like? && s.escape.None?) || (Last(s).Some? && EndsInLike(Last(s).expr))
  }

  /** A tree whose brackets are just those it needs. */
  predicate Fits(e: Expr) {
    match e
    case Atom(p) => FitsPrimary(p)
    case Unary(pre, x) => Fits(x) && !Loose(x, PrefixGroup(pre))
    case Apply(x, s) => Fits(x) && FitsTail(s) && !Captures(x, TailGroup(s))
  }

  predicate FitsPrimary(p: Primary) {
    match p
    case Ident(n) => IsIdentifier(n.kind)
    case QualifiedRef2(a, b) => (IsIdentifier(a.kind) || a.kind.STRING?) && IsAnyName(b.kind)
    case QualifiedRef3(a, b, c) => (IsIdentifier(a.kind) || a.kind.STRING?) && IsAnyName(b.kind) && IsAnyName(c.kind)
    case Literal(t) => IsValue(t)
    case BindParam(t) => IsParameter(t)
    case Case(operand, whens, otherwise) => FitsOpt(operand) && whens.When? && FitsWhens(whens) && FitsOpt(otherwise)
    case Bracket(list) => list.More? && FitsList(list) && !BeginsWith(list.head, WITH)
    case Call(name, args) => IsIdentifier(name.kind) && (args.Args? ==> FitsList(args.list))
  }

  /** An operator and its right side: no operand is looser than the operator. */
  predicate FitsTail(s: Suffix) {
    match s
    case Binary(op, y) => Fits(y) && !Loose(y, TailGroup(s))
    case Collate(name) => IsCollation(name.kind)
    case Like(_, like, y, escape) =>
      && (like.kind.LIKE_KW? || like.kind.MATCH?)
      && Fits(y) && !Loose(y, TailGroup(s))
      && (escape.Some? ==> Fits(escape.expr) && !Loose(escape.expr, TailGroup(s)) && !EndsInLike(y))
    case Is(negated, distinct, y) =>
      Fits(y) && !Loose(y, TailGroup(s)) && (negated || distinct || !BeginsWith(y, NOT))
    case NullCheck(_) => true
    case Between(_, lo, hi) => Fits(lo) && !Loose(lo, Group(AND)) && Fits(hi) && !Loose(hi, TailGroup(s))
    case In(_, InList(list)) => FitsList(list) && (list.More? ==> !BeginsWith(list.head, WITH))
    case In(_, InTable(table)) => FitsTable(table)
    case In(_, InTableArgs(table, args)) => FitsTable(table) && FitsList(args)
  }

  predicate FitsOpt(o: OptExpr) { o.Some? ==> Fits(o.expr) }

  predicate FitsList(es: Exprs) { es.More? ==> Fits(es.head) && FitsList(es.tail) }

  predicate FitsWhens(ws: Whens) { ws.When? ==> Fits(ws.cond) && Fits(ws.value) && FitsWhens(ws.rest) }

  predicate FitsTable(t: TableName) { IsAnyName(t.name.kind) && (t.Dotted? ==> IsAnyName(t.schema.kind)) }

  lemma OperatorGroup(op: Operator)
    ensures OperatorPrec(op) == Group(OperatorWord(op)[0].kind) + 1 <= 10
  {
  }

  lemma TailPrec(s: Suffix)
    ensures SuffixPrec(s) == TailGroup(s) + 1 <= 11
  {
    if s.Binary? {
      OperatorGroup(s.op);
    }
  }

  lemma {:induction false} LooseSpine(e: Expr, g: nat)
    requires g < 13
    ensures Loose(e, g) <==> Spine(e) <= g + 1
  {
    if e.Apply? {
      TailPrec(e.s);
      LooseSpine(e.x, g);
    }
  }

  lemma {:induction false} CapturesEdge(e: Expr, g: nat)
    requires g < 12
    ensures Captures(e, g) <==> Edge(e) <= g + 1
    decreases e
  {
    match e
    case Atom(_) =>
    case Unary(_, x) => CapturesEdge(x, g);
    case Apply(_, s) =>
      TailPrec(s);
      match s {
        case Binary(_, y) => CapturesEdge(y, g);
        case Like(_, _, y, escape) => if escape.Some? { CapturesEdge(escape.expr, g); } else { CapturesEdge(y, g); }
        case Is(_, _, y) => CapturesEdge(y, g);
        case Between(_, _, hi) => CapturesEdge(hi, g);
        case _ =>
      }
  }

  /** Without a loose operator of its own a bound captures nothing as weak as AND. */
  lemma {:induction false} TightEdge(e: Expr)
    requires Canon(e) && Spine(e) > 2
    ensures Edge(e) > 2
    decreases e
  {
    match e
    case Atom(_) =>
    case Unary(_, x) => TightEdge(x);
    case Apply(_, s) =>
      match s {
        case Binary(_, y) => TightEdge(y);
        case Like(_, _, y, escape) => if escape.Some? { TightEdge(escape.expr); } else { TightEdge(y); }
        case Is(_, _, y) => TightEdge(y);
        case Between(_, _, hi) => TightEdge(hi);
        case _ =>
      }
  }

  lemma {:induction false} EndsAbsorbs(e: Expr)
    ensures EndsInLike(e) <==> Absorbs(e, ESCAPE)
    decreases e
  {
    match e
    case Atom(_) =>
    case Unary(_, x) => EndsAbsorbs(x);
    case Apply(_, s) =>
      match s {
        case Binary(_, y) => EndsAbsorbs(y);
        case Like(_, _, y, escape) => if escape.Some? { EndsAbsorbs(escape.expr); }
        case Is(_, _, y) => EndsAbsorbs(y);
        case Between(_, _, hi) => EndsAbsorbs(hi);
        case _ =>
      }
  }

  lemma PrimaryStart(p: Primary)
    ensures PrimaryWords(p) != [] && KindOf(PrimaryWords(p)[0]) == StartKind(Atom(p))
  {
    hide ListWords, ArgsWords, WhensWords, OptWords, Words;
    match p
    case Ident(_) =>
    case QualifiedRef2(a, b) => assert PrimaryWords(p) == Held(a) + DotAnd(b);
    case QualifiedRef3(a, b, c) => assert PrimaryWords(p) == Held(a) + (DotAnd(b) + DotAnd(c));
    case Literal(_) =>
    case BindParam(_) =>
    case Case(_, _, _) => assert PrimaryWords(p)[0] == Word(CASE, "CASE")[0];
    case Bracket(_) => assert PrimaryWords(p)[0] == Word(LP, "(")[0];
    case Call(name, _) => assert PrimaryWords(p)[0] == Held(name)[0];
  }

  lemma {:induction false} BeginsStart(e: Expr, k: Kind)
    ensures BeginsWith(e, k) <==> StartKind(e) == k
    ensures Words(e) != []
  {
    hide PrimaryWords, SuffixWords;
    match e
    case Atom(p) => PrimaryStart(p);
    case Unary(pre, x) => assert Words(e)[0] == PrefixWord(pre)[0];
    case Apply(x, s) =>
      BeginsStart(x, k);
      assert Words(e)[0] == Words(x)[0];
  }

  /** The name classes and the value tokens of the parser are the ones listed here. */
  lemma KindsAgree(k: Kind)
    ensures IsIdentifier(k) <==> IsIdentKind(k)
    ensures IsAnyName(k) <==> IsName(k)
    ensures IsCollation(k) <==> IsIDS(k)
  {
  }

  lemma ValuesAgree(t: Lexeme)
    ensures IsValue(t) <==> (IsLiteralKind(t.kind) || t.kind.STRING?) && (t.kind.QNUMBER? ==> Digits.DequoteNumber(t.text).Value?)
    ensures IsParameter(t) <==> t.kind.VARIABLE? && !IsRegister(t.text)
  {
    Separators.DequotesWellSeparated(t.text);
  }

  /** The trees that fit the declarations are the canonical ones, those the parser returns. */
  lemma {:induction false} FitsCanon(e: Expr)
    ensures Fits(e) <==> Canon(e)
    decreases e, 0
  {
    hide Captures, Loose, Edge, Spine, FitsPrimary, FitsTail, CanonPrimary, CanonSuffix;
    match e
    case Atom(p) => PrimaryCanon(p);
    case Unary(pre, x) =>
      FitsCanon(x);
      LooseSpine(x, PrefixGroup(pre));
    case Apply(x, s) =>
      FitsCanon(x);
      TailCanon(s);
      TailPrec(s);
      CapturesEdge(x, TailGroup(s));
  }

  lemma {:induction false} PrimaryCanon(p: Primary)
    ensures FitsPrimary(p) <==> CanonPrimary(p)
    decreases p
  {
    hide Fits, Canon, BeginsWith, StartKind, IsIdentifier, IsAnyName, IsIdentKind, IsName, IsValue, IsLiteralKind, IsRegister;
    hide Digits.DequoteNumber;
    match p
    case Ident(n) => KindsAgree(n.kind);
    case QualifiedRef2(a, b) => KindsAgree(a.kind); KindsAgree(b.kind);
    case QualifiedRef3(a, b, c) => KindsAgree(a.kind); KindsAgree(b.kind); KindsAgree(c.kind);
    case Literal(t) => ValuesAgree(t);
    case BindParam(t) => ValuesAgree(t);
    case Case(operand, whens, otherwise) =>
      OptCanon(operand);
      WhensCanon(whens);
      OptCanon(otherwise);
    case Bracket(list) =>
      ListCanon(list);
      if list.More? { BeginsStart(list.head, WITH); }
    case Call(name, args) =>
      KindsAgree(name.kind);
      if args.Args? { ListCanon(args.list); }
  }

  lemma {:induction false} OptCanon(o: OptExpr)
    ensures FitsOpt(o) <==> CanonOpt(o)
    decreases o
  {
    if o.Some? {
      FitsCanon(o.expr);
    }
  }

  lemma {:induction false} ListCanon(es: Exprs)
    ensures FitsList(es) <==> CanonList(es)
    decreases es
  {
    if es.More? {
      FitsCanon(es.head);
      ListCanon(es.tail);
    }
  }

  lemma {:induction false} WhensCanon(ws: Whens)
    ensures FitsWhens(ws) <==> CanonWhens(ws)
    decreases ws
  {
    if ws.When? {
      FitsCanon(ws.cond);
      FitsCanon(ws.value);
      WhensCanon(ws.rest);
    }
  }

  lemma {:induction false} TableCanon(t: TableName)
    ensures FitsTable(t) <==> CanonTable(t)
  {
    hide IsAnyName, IsName;
    KindsAgree(t.name.kind);
    if t.Dotted? {
      KindsAgree(t.schema.kind);
    }
  }

  lemma {:induction false} TailCanon(s: Suffix)
    ensures FitsTail(s) <==> CanonSuffix(s)
    decreases s
  {
    hide Fits, Canon, Loose, Spine, Edge, Absorbs, BeginsWith, StartKind, IsCollation, IsIDS, EndsInLike, FitsTable, CanonTable;
    TailPrec(s);
    match s
    case Binary(_, y) => OperandCanon(y, TailGroup(s));
    case Collate(name) => KindsAgree(name.kind);
    case Like(_, _, y, escape) =>
      OperandCanon(y, TailGroup(s));
      EndsAbsorbs(y);
      if escape.Some? { OperandCanon(escape.expr, TailGroup(s)); }
    case Is(_, _, y) =>
      OperandCanon(y, TailGroup(s));
      BeginsStart(y, NOT);
    case NullCheck(_) =>
    case Between(_, lo, hi) =>
      OperandCanon(lo, Group(AND));
      if Canon(lo) && Spine(lo) > 2 { TightEdge(lo); }
      OperandCanon(hi, TailGroup(s));
    case In(_, target) => TargetCanon(s);
  }

  lemma {:induction false} OperandCanon(y: Expr, g: nat)
    requires g < 12
    ensures Fits(y) && !Loose(y, g) <==> Canon(y) && Spine(y) > g + 1
    decreases y, 1
  {
    hide Fits, Canon, Loose, Spine;
    FitsCanon(y);
    LooseSpine(y, g);
  }

  lemma {:induction false} TargetCanon(s: Suffix)
    requires s.In?
    ensures FitsTail(s) <==> CanonSuffix(s)
    decreases s, 0
  {
    hide Fits, Canon, BeginsWith, StartKind, FitsTable, CanonTable;
    match s.target
    case InList(list) =>
      ListCanon(list);
      if list.More? { BeginsStart(list.head, WITH); }
    case InTable(table) => TableCanon(table);
    case InTableArgs(table, args) =>
      TableCanon(table);
      ListCanon(args);
  }

  /** Parsing, without the parser: a token list is accepted as `e` exactly when it is `e` spelled
      out, `e` fits the declared precedences, and it nests no deeper than there is room. */
  lemma {:induction false} ParsesAsDeclared(ts: Toks, room: nat, e: Expr)
    ensures ParseWhole(ts, room) == Ok(e, At(End)) <==> Spelled(Words(e), ts, End) && Fits(e) && Need(e) <= room
  {
    hide ParseWhole, Spelled, Words, Fits, Canon, Need, Reads;
    ExactImage.WholeCharacterized(ts, room, e);
    ReadsWords(e, ts, End);
    FitsCanon(e);
  }

  /** A tree nests no deeper than it has words. */
  lemma {:induction false} NeedWords(e: Expr)
    ensures Need(e) <= |Words(e)|
    decreases e, 0
  {
    hide PrimaryWords, SuffixWords, PrimaryNeed, SuffixNeed;
    match e
    case Atom(p) => PrimaryNeedWords(p);
    case Unary(pre, x) => NeedWords(x);
    case Apply(x, s) =>
      NeedWords(x);
      TailNeedWords(s);
  }

  lemma {:induction false} PrimaryNeedWords(p: Primary)
    ensures PrimaryNeed(p) < |PrimaryWords(p)|
    decreases p
  {
    hide Need, Words, NeedList, ListWords, NeedWhens, WhensWords, OptWords, NeedOpt;
    match p
    case Ident(_) =>
    case QualifiedRef2(_, _) =>
    case QualifiedRef3(_, _, _) =>
    case Literal(_) =>
    case BindParam(_) =>
    case Case(operand, whens, otherwise) =>
      OptNeedWords([], operand);
      WhensNeedWords(whens);
      OptNeedWords(Word(ELSE, "ELSE"), otherwise);
    case Bracket(list) => ListNeedWords(list);
    case Call(_, args) => if args.Args? { ListNeedWords(args.list); }
  }

  lemma {:induction false} OptNeedWords(w: seq<Emission.Item>, o: OptExpr)
    ensures NeedOpt(o) <= |OptWords(w, o)|
    decreases o
  {
    if o.Some? {
      NeedWords(o.expr);
    }
  }

  lemma {:induction false} ListNeedWords(es: Exprs)
    ensures NeedList(es) <= |ListWords(es)|
    decreases es
  {
    if es.More? {
      NeedWords(es.head);
      ListNeedWords(es.tail);
    }
  }

  lemma {:induction false} WhensNeedWords(ws: Whens)
    ensures NeedWhens(ws) <= |WhensWords(ws)|
    decreases ws
  {
    if ws.When? {
      NeedWords(ws.cond);
      NeedWords(ws.value);
      WhensNeedWords(ws.rest);
    }
  }

  lemma {:induction false} TailNeedWords(s: Suffix)
    ensures SuffixNeed(s) < |SuffixWords(s)|
    decreases s
  {
    hide Need, Words, NeedList, ListWords, OptWords, NeedOpt;
    match s
    case Binary(_, y) => NeedWords(y);
    case Collate(_) =>
    case Like(_, _, y, escape) =>
      NeedWords(y);
      OptNeedWords(Word(ESCAPE, "ESCAPE"), escape);
    case Is(_, _, y) => NeedWords(y);
    case NullCheck(_) =>
    case Between(_, lo, hi) =>
      NeedWords(lo);
      NeedWords(hi);
    case In(_, target) =>
      match target {
        case InList(list) => ListNeedWords(list);
        case InTable(_) =>
        case InTableArgs(_, args) => ListNeedWords(args);
      }
  }

  lemma {:induction false} SpelledLength(ws: seq<Emission.Item>, ts: Toks)
    requires Spelled(ws, ts, End)
    ensures Len(ts) == |ws|
  {
    if ws != [] {
      SpelledLength(ws[1..], ts.tail);
    }
  }

  /** A level for every token is always enough. */
  lemma {:induction false} Declared(ts: Toks, room: nat, e: Expr)
    requires Fits(e) && Spelled(Words(e), ts, End) && room >= Len(ts)
    ensures ParseWhole(ts, room) == Ok(e, At(End))
  {
    hide ParseWhole, Spelled, Words, Fits, Need;
    SpelledLength(Words(e), ts);
    NeedWords(e);
    ParsesAsDeclared(ts, room, e);
  }

  /** `s` with another last operand. */
  function WithLast(s: Suffix, y: Expr): Suffix
    requires Last(s).Some?
  {
    match s
    case Binary(op, _) => Binary(op, y)
    case Like(negated, like, pattern, escape) =>
      if escape.Some? then Like(negated, like, pattern, Some(y)) else Like(negated, like, y, None)
    case Is(negated, distinct, _) => Is(negated, distinct, y)
    case Between(negated, lo, _) => Between(negated, lo, y)
  }

  lemma LastSmaller(s: Suffix)
    ensures Last(s).Some? ==> Last(s).expr < s
  {
  }

  /** What an operator written after `e` makes of it. */
  function Grow(e: Expr, s: Suffix): Expr
    decreases e
  {
    if !Captures(e, TailGroup(s)) then Apply(e, s)
    else if e.Unary? then Unary(e.pre, Grow(e.x, s))
    else
      LastSmaller(e.s);
      Apply(e.x, WithLast(e.s, Grow(Last(e.s).expr, s)))
  }

  lemma {:induction false} WithLastFits(s: Suffix, y: Expr, more: seq<Emission.Item>)
    requires FitsTail(s) && Last(s).Some? && Fits(y) && !Loose(y, TailGroup(s))
    requires Words(y) == Words(Last(s).expr) + more
    ensures var s2 := WithLast(s, y);
            FitsTail(s2) && TailGroup(s2) == TailGroup(s) && Last(s2) == Some(y) && SuffixWords(s2) == SuffixWords(s) + more
  {
    hide Fits, Loose, Words, OptWords, Group;
    match s
    case Binary(op, x) => assert OperatorWord(op) + (Words(x) + more) == OperatorWord(op) + Words(x) + more;
    case Like(_, _, _, escape) => LikeWithLast(s, y, more);
    case Is(negated, distinct, x) =>
      var w := Word(IS, "IS") + WordIf(negated, NOT, "NOT")
        + (if distinct then Word(DISTINCT, "DISTINCT") + Word(FROM, "FROM") else []);
      assert w + (Words(x) + more) == w + Words(x) + more;
      BeginsStart(x, NOT);
      assert BeginsWith(y, NOT) <==> BeginsWith(x, NOT);
    case Between(negated, lo, x) =>
      var w := WordIf(negated, NOT, "NOT") + Word(BETWEEN, "BETWEEN") + Words(lo) + Word(AND, "AND");
      assert w + (Words(x) + more) == w + Words(x) + more;
  }

  lemma {:induction false} LikeWithLast(s: Suffix, y: Expr, more: seq<Emission.Item>)
    requires s.Like? && FitsTail(s) && Fits(y) && !Loose(y, TailGroup(s))
    requires Words(y) == Words(Last(s).expr) + more
    ensures FitsTail(WithLast(s, y)) && SuffixWords(WithLast(s, y)) == SuffixWords(s) + more
  {
    hide Fits, Loose, Words, Group;
    var w := WordIf(s.negated, NOT, "NOT") + Held(s.like);
    if s.escape.Some? {
      var v := Word(ESCAPE, "ESCAPE");
      assert w + Words(s.y) + (v + (Words(s.escape.expr) + more)) == w + Words(s.y) + (v + Words(s.escape.expr)) + more;
    } else {
      assert w + (Words(s.y) + more) + [] == w + Words(s.y) + [] + more;
    }
  }

  /** A fitting tree grows by any fitting operator: it stays fitting, and the operator's words
      come after its own. */
  lemma {:induction false} GrowFits(e: Expr, s: Suffix)
    requires Fits(e) && FitsTail(s)
    ensures Fits(Grow(e, s)) && Words(Grow(e, s)) == Words(e) + SuffixWords(s)
    ensures forall g :: Loose(Grow(e, s), g) && !Loose(e, g) ==> TailGroup(s) <= g && !Captures(e, TailGroup(s))
    decreases e
  {
    hide FitsTail, SuffixWords, TailGroup, WithLast;
    if Captures(e, TailGroup(s)) {
      if e.Unary? {
        GrowFits(e.x, s);
        assert PrefixWord(e.pre) + (Words(e.x) + SuffixWords(s)) == PrefixWord(e.pre) + Words(e.x) + SuffixWords(s);
      } else {
        LastSmaller(e.s);
        LastFits(e.s);
        var y := Last(e.s).expr;
        GrowFits(y, s);
        WithLastFits(e.s, Grow(y, s), SuffixWords(s));
        assert Words(e.x) + (SuffixWords(e.s) + SuffixWords(s)) == Words(e.x) + SuffixWords(e.s) + SuffixWords(s);
      }
    }
  }

  lemma LastFits(s: Suffix)
    requires FitsTail(s) && Last(s).Some?
    ensures Fits(Last(s).expr) && !Loose(Last(s).expr, TailGroup(s))
  {
    hide Fits, Loose, Group;
  }

  /** Any operator after any expression: it goes to the innermost operand at the right edge whose
      operator binds weaker, and to the whole expression if there is none. */
  lemma {:induction false} OperatorExtends(ts: Toks, room: nat, e: Expr, s: Suffix)
    requires Fits(e) && FitsTail(s) && Spelled(Words(e) + SuffixWords(s), ts, End) && room >= Len(ts)
    ensures ParseWhole(ts, room) == Ok(Grow(e, s), At(End))
  {
    hide ParseWhole, Spelled, Words, SuffixWords, Fits, FitsTail, Grow;
    GrowFits(e, s);
    Declared(ts, room, Grow(e, s));
  }

  /** What a prefix operator written before `e` makes of it. */
  function Front(pre: Prefix, e: Expr): Expr {
    if Loose(e, PrefixGroup(pre)) then Apply(Front(pre, e.x), e.s) else Unary(pre, e)
  }

  lemma {:induction false} FrontFits(pre: Prefix, e: Expr)
    requires Fits(e)
    ensures Fits(Front(pre, e)) && Words(Front(pre, e)) == PrefixWord(pre) + Words(e)
    ensures forall g :: Captures(Front(pre, e), g) && !Captures(e, g) ==> PrefixGroup(pre) < g && !Loose(e, PrefixGroup(pre))
  {
    hide FitsTail, SuffixWords, TailGroup;
    if Loose(e, PrefixGroup(pre)) {
      FrontFits(pre, e.x);
      assert PrefixWord(pre) + (Words(e.x) + SuffixWords(e.s)) == PrefixWord(pre) + Words(e.x) + SuffixWords(e.s);
    }
  }

  /** Any prefix operator before any expression: it takes the longest left part of it in which
      every operator binds tighter. */
  lemma {:induction false} PrefixExtends(ts: Toks, room: nat, pre: Prefix, e: Expr)
    requires Fits(e) && Spelled(PrefixWord(pre) + Words(e), ts, End) && room >= Len(ts)
    ensures ParseWhole(ts, room) == Ok(Front(pre, e), At(End))
  {
    hide ParseWhole, Spelled, Words, Fits, Front;
    FrontFits(pre, e);
    Declared(ts, room, Front(pre, e));
  }

  lemma {:induction false} SpelledJoin(a: seq<Emission.Item>, b: seq<Emission.Item>, ts: Toks, m: Toks, k: Toks)
    requires Spelled(a, ts, m) && Spelled(b, m, k)
    ensures Spelled(a + b, ts, k)
    decreases |a|
  {
    if a == [] {
      assert a + b == b;
    } else {
      assert (a + b)[1..] == a[1..] + b;
      SpelledJoin(a[1..], b, ts.tail, m, k);
    }
  }

  lemma SpelledOne(item: Emission.Item, t: Lexeme, k: Toks)
    requires Emission.Matches(item, t)
    ensures Spelled([item], Cons(t, k), k)
  {
    assert Spelled([item][1..], k, k);
  }

  /** A token that is an expression by itself. */
  predicate IsOperand(t: Lexeme) { IsIdentifier(t.kind) || IsValue(t) || IsParameter(t) }

  function TreeOf(t: Lexeme): Expr
  {
    Atom(if t.kind.VARIABLE? then BindParam(t) else if IsIdentifier(t.kind) then Ident(t) else Literal(t))
  }

  lemma OperandFits(t: Lexeme, k: Toks)
    requires IsOperand(t)
    ensures Fits(TreeOf(t)) && TreeOf(t).Atom? && Words(TreeOf(t)) == [Emission.Content(t, false)]
    ensures Spelled(Words(TreeOf(t)), Cons(t, k), k)
  {
    SpelledOne(Emission.Content(t, false), t, k);
  }

  /** A fitting tree of one word. */
  lemma OneWord(e: Expr, t: Lexeme)
    requires Fits(e) && Spelled(Words(e), Cons(t, End), End)
    ensures IsOperand(t) && e == TreeOf(t)
  {
    SpelledLength(Words(e), Cons(t, End));
    match e
    case Atom(p) => OneWordPrimary(p, t);
    case Unary(pre, x) => NeedWords(x);
    case Apply(x, s) =>
      NeedWords(x);
      TailNeedWords(s);
  }

  lemma OneWordPrimary(p: Primary, t: Lexeme)
    requires FitsPrimary(p) && Spelled(PrimaryWords(p), Cons(t, End), End) && |PrimaryWords(p)| == 1
    ensures IsOperand(t) && Atom(p) == TreeOf(t)
  {
    hide Words, ListWords, WhensWords, ArgsWords, OptWords;
    match p
    case Case(_, _, _) =>
    case _ =>
  }

  lemma OneEnds(t: Lexeme, room: nat)
    requires ParseWhole(Cons(t, End), room).Ok?
    ensures ParseWhole(Cons(t, End), room).state == At(End)
  {
    hide ParseExpr;
    var st := State(Cons(t, End), Quiet);
    var r := ParseExpr(st, room, LOWEST);
    assert Len(End) == 0 && Len(st.ts) == 1;
    assert Steps(st, r);
  }

  /** The tokens that are expressions by themselves, and no others. */
  lemma {:induction false} OneToken(t: Lexeme, room: nat)
    requires room > 0
    ensures ParseWhole(Cons(t, End), room).Ok? <==> IsOperand(t)
    ensures IsOperand(t) ==> ParseWhole(Cons(t, End), room) == Ok(TreeOf(t), At(End))
  {
    hide ParseExpr, IsOperand, Fits, Words, Need;
    var r := ParseWhole(Cons(t, End), room);
    if IsOperand(t) {
      OperandFits(t, End);
      Declared(Cons(t, End), room, TreeOf(t));
    } else if r.Ok? {
      OneEnds(t, room);
      ParsesAsDeclared(Cons(t, End), room, r.value);
      OneWord(r.value, t);
    }
  }

  /** `t` is the infix operator `op`. */
  predicate Denotes(t: Lexeme, op: Operator) { Emission.Matches(OperatorWord(op)[0], t) }

  lemma BinaryFits(op: Operator, o: Lexeme, t: Lexeme, k: Toks)
    requires Denotes(o, op) && IsOperand(t)
    ensures FitsTail(Binary(op, TreeOf(t))) && TailGroup(Binary(op, TreeOf(t))) == Group(o.kind)
    ensures Spelled(SuffixWords(Binary(op, TreeOf(t))), Cons(o, Cons(t, k)), k)
  {
    hide Spelled, Fits;
    OperandFits(t, k);
    SpelledOne(OperatorWord(op)[0], o, Cons(t, k));
    assert OperatorWord(op) == [OperatorWord(op)[0]];
    SpelledJoin(OperatorWord(op), Words(TreeOf(t)), Cons(o, Cons(t, k)), Cons(t, k), k);
  }

  lemma FirstTail(x: Expr, s: Suffix)
    requires Fits(x) && !x.Apply? && FitsTail(s) && !Captures(x, TailGroup(s))
    ensures Fits(Apply(x, s)) && Words(Apply(x, s)) == Words(x) + SuffixWords(s)
  {
  }

  /** `a o1 b o2 c` is `(a o1 b) o2 c` exactly when the group of `o1` is not declared before that
      of `o2`, and `a o1 (b o2 c)` otherwise. */
  lemma {:induction false} InfixPair(a: Lexeme, o1: Lexeme, b: Lexeme, o2: Lexeme, c: Lexeme, op1: Operator, op2: Operator, room: nat)
    requires IsOperand(a) && IsOperand(b) && IsOperand(c) && Denotes(o1, op1) && Denotes(o2, op2) && room >= 5
    ensures ParseWhole(Cons(a, Cons(o1, Cons(b, Cons(o2, Cons(c, End))))), room) ==
            Ok(if Group(o1.kind) >= Group(o2.kind)
               then Apply(Apply(TreeOf(a), Binary(op1, TreeOf(b))), Binary(op2, TreeOf(c)))
               else Apply(TreeOf(a), Binary(op1, Apply(TreeOf(b), Binary(op2, TreeOf(c))))),
               At(End))
  {
    hide ParseWhole, Spelled, Fits, FitsTail, IsOperand, Words, SuffixWords, Group, Denotes, TreeOf;
    var t4 := Cons(o2, Cons(c, End));
    var ts := Cons(a, Cons(o1, Cons(b, t4)));
    var s1, s2 := Binary(op1, TreeOf(b)), Binary(op2, TreeOf(c));
    var e := Apply(TreeOf(a), s1);
    OperandFits(a, ts.tail);
    OperandFits(b, t4);
    BinaryFits(op1, o1, b, t4);
    BinaryFits(op2, o2, c, End);
    FirstTail(TreeOf(a), s1);
    SpelledJoin(Words(TreeOf(a)), SuffixWords(s1), ts, ts.tail, t4);
    SpelledJoin(Words(e), SuffixWords(s2), ts, t4, End);
    assert Len(t4.tail) == 1 && Len(ts.tail.tail) == 3;
    OperatorExtends(ts, room, e, s2);
  }

  lemma GroupsDeclared()
    ensures Group(BITNOT) == 11
  {
  }

  /** `pre a o b` for every prefix operator and every infix operator. */
  lemma {:induction false} PrefixPair(pre: Prefix, p: Lexeme, a: Lexeme, o: Lexeme, b: Lexeme, op: Operator, room: nat)
    requires Emission.Matches(PrefixWord(pre)[0], p) && IsOperand(a) && IsOperand(b) && Denotes(o, op) && room >= 4
    ensures ParseWhole(Cons(p, Cons(a, Cons(o, Cons(b, End)))), room) ==
            Ok(if pre.OpNot? && Group(o.kind) > Group(NOT)
               then Unary(pre, Apply(TreeOf(a), Binary(op, TreeOf(b))))
               else Apply(Unary(pre, TreeOf(a)), Binary(op, TreeOf(b))),
               At(End))
  {
    hide ParseWhole, Spelled, Fits, FitsTail, IsOperand, Words, SuffixWords, Group, Denotes, TreeOf;
    var ts := Cons(p, Cons(a, Cons(o, Cons(b, End))));
    var s := Binary(op, TreeOf(b));
    OperandFits(a, ts.tail.tail);
    BinaryFits(op, o, b, End);
    SpelledOne(PrefixWord(pre)[0], p, ts.tail);
    FirstTail(TreeOf(a), s);
    SpelledJoin(Words(TreeOf(a)), SuffixWords(s), ts.tail, ts.tail.tail, End);
    SpelledJoin(PrefixWord(pre), Words(Apply(TreeOf(a), s)), ts, ts.tail, End);
    assert Len(ts.tail.tail.tail) == 1 && Len(ts.tail) == 3;
    assert Group(BITNOT) == 11 && Group(o.kind) < 11 by { OperatorGroup(op); GroupsDeclared(); }
    PrefixExtends(ts, room, pre, Apply(TreeOf(a), s));
  }

  /** `NOT a NOT NULL` is `(NOT a) NOT NULL`. The declarations make NOT right-associative, by which
      the second NOT would go to the operand of the first; the parser's loop for that operand
      takes only what binds tighter than NOT. */
  lemma {:induction false} NotOfNotNull(n: Lexeme, a: Lexeme, n2: Lexeme, u: Lexeme, room: nat)
    requires n.kind.NOT? && IsOperand(a) && n2.kind.NOT? && u.kind.NULL? && room >= 4
    ensures ParseWhole(Cons(n, Cons(a, Cons(n2, Cons(u, End)))), room) ==
            Ok(Apply(Unary(OpNot, TreeOf(a)), NullCheck(TestNotNullWords)), At(End))
  {
    hide ParseWhole, Spelled, Fits, IsOperand, Words, TreeOf;
    var ts := Cons(n, Cons(a, Cons(n2, Cons(u, End))));
    var s := NullCheck(TestNotNullWords);
    OperandFits(a, ts.tail.tail);
    SpelledOne(Emission.Fixed(NULL, "NULL", false), u, End);
    SpelledOne(Emission.Fixed(NOT, "NOT", false), n2, Cons(u, End));
    SpelledJoin(Word(NOT, "NOT"), Word(NULL, "NULL"), ts.tail.tail, Cons(u, End), End);
    FirstTail(TreeOf(a), s);
    SpelledJoin(Words(TreeOf(a)), SuffixWords(s), ts.tail, ts.tail.tail, End);
    SpelledOne(Emission.Fixed(NOT, "NOT", false), n, ts.tail);
    SpelledJoin(PrefixWord(OpNot), Words(Apply(TreeOf(a), s)), ts, ts.tail, End);
    assert Len(ts.tail.tail.tail) == 1 && Len(ts.tail) == 3;
    PrefixExtends(ts, room, OpNot, Apply(TreeOf(a), s));
  }

  /** Only there does a prefix operator meet one of its own group. */
  lemma EqualGroups(pre: Prefix, s: Suffix)
    ensures PrefixGroup(pre) == TailGroup(s) <==> pre.OpNot? && s.NullCheck? && s.test.TestNotNullWords?
  {
    if s.Binary? {
      OperatorGroup(s.op);
    }
  }
}
