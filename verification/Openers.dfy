/** The openers of a tree: how deep parsing it goes, and how many tokens of its spelling open
    something. */
module Openers {
  import opened Token
  import opened Ast
  import opened Engine
  import opened Grammar
  import opened Canonical
  import opened Completeness
  import opened ExactImage
  import opened Emission
  import opened Runs
  import opened Forms

  /** Prefix operators, brackets, a CASE and its parts, and BETWEENs. */
  function OpenersOf(e: Expr): nat {
    match e
    case Atom(p) => OpenersOfPrimary(p)
    case Unary(_, x) => 1 + OpenersOf(x)
    case Apply(x, s) => OpenersOf(x) + OpenersOfSuffix(s)
  }

  function OpenersOfPrimary(p: Primary): nat {
    match p
    case Case(operand, whens, otherwise) =>
      1 + OpenersOfOpt(operand) + OpenersOfWhens(whens) + (if otherwise.Some? then 1 else 0) + OpenersOfOpt(otherwise)
    case Bracket(list) => 1 + OpenersOfList(list)
    case Call(_, args) => 1 + (if args.Args? then OpenersOfList(args.list) else 0)
    case _ => 0
  }

  function OpenersOfSuffix(s: Suffix): nat {
    match s
    case Binary(_, y) => OpenersOf(y)
    case Like(_, _, y, escape) => OpenersOf(y) + OpenersOfOpt(escape)
    case Is(_, _, y) => OpenersOf(y)
    case Between(_, lo, hi) => 1 + OpenersOf(lo) + OpenersOf(hi)
    case In(_, target) => OpenersOfTarget(target)
    case _ => 0
  }

  function OpenersOfOpt(o: OptExpr): nat { if o.Some? then OpenersOf(o.expr) else 0 }

  function OpenersOfList(es: Exprs): nat {
    if es.Nil? then 0 else OpenersOf(es.head) + OpenersOfList(es.tail)
  }

  function OpenersOfWhens(ws: Whens): nat {
    if ws.NoWhens? then 0 else 2 + OpenersOf(ws.cond) + OpenersOf(ws.value) + OpenersOfWhens(ws.rest)
  }

  function OpenersOfTarget(target: InSet): nat {
    match target
    case InList(list) => 1 + OpenersOfList(list)
    case InTable(_) => 0
    case InTableArgs(_, args) => 1 + OpenersOfList(args)
  }

  /** Fourteen levels for every opener and fourteen more are enough for a canonical tree; its
      own level counts against them. */
  lemma {:induction false} NeedBounded(e: Expr, min: nat)
    requires Canon(e) && Spine(e) >= min && min < LEVELS
    ensures Need(e) + min <= LEVELS * (1 + OpenersOf(e))
    decreases e
  {
    match e {
      case Atom(p) => PrimaryNeedBounded(p);
      case Unary(pre, x) => NeedBounded(x, PrefixMin(pre));
      case Apply(x, s) =>
        NeedBounded(x, min);
        SuffixNeedBounded(s);
    }
  }

  lemma {:induction false} PrimaryNeedBounded(p: Primary)
    requires CanonPrimary(p)
    ensures PrimaryNeed(p) <= LEVELS * OpenersOfPrimary(p)
    decreases p
  {
    match p {
      case Case(operand, whens, otherwise) =>
        OptNeedBounded(operand, LOWEST);
        WhensNeedBounded(whens);
        OptNeedBounded(otherwise, LOWEST);
      case Bracket(list) => ListNeedBounded(list);
      case Call(_, args) => if args.Args? { ListNeedBounded(args.list); }
      case _ =>
    }
  }

  lemma {:induction false} SuffixNeedBounded(s: Suffix)
    requires CanonSuffix(s)
    ensures SuffixNeed(s) + SuffixPrec(s) + 1 <= LEVELS * (1 + OpenersOfSuffix(s))
    decreases s
  {
    match s {
      case Binary(op, y) => NeedBounded(y, OperatorPrec(op) + 1);
      case Like(_, _, y, escape) =>
        NeedBounded(y, AFTER_COMPARE);
        OptNeedBounded(escape, if escape.Some? then AFTER_COMPARE else LOWEST);
      case Is(_, _, y) => NeedBounded(y, AFTER_COMPARE);
      case Between(_, lo, hi) =>
        NeedBounded(lo, 1);
        NeedBounded(hi, AFTER_COMPARE);
      case In(_, target) => TargetNeedBounded(target);
      case _ =>
    }
  }

  lemma {:induction false} OptNeedBounded(o: OptExpr, min: nat)
    requires CanonOpt(o) && min < LEVELS && (o.Some? ==> Spine(o.expr) >= min)
    ensures NeedOpt(o) + min <= LEVELS * (1 + OpenersOfOpt(o))
    decreases o
  {
    if o.Some? {
      NeedBounded(o.expr, min);
    }
  }

  lemma {:induction false} ListNeedBounded(es: Exprs)
    requires CanonList(es)
    ensures NeedList(es) <= LEVELS * (1 + OpenersOfList(es))
    decreases es
  {
    if es.More? {
      NeedBounded(es.head, LOWEST);
      ListNeedBounded(es.tail);
    }
  }

  lemma {:induction false} WhensNeedBounded(ws: Whens)
    requires CanonWhens(ws)
    ensures NeedWhens(ws) <= LEVELS * (1 + OpenersOfWhens(ws))
    decreases ws
  {
    if ws.When? {
      NeedBounded(ws.cond, LOWEST);
      NeedBounded(ws.value, LOWEST);
      WhensNeedBounded(ws.rest);
    }
  }

  lemma {:induction false} TargetNeedBounded(target: InSet)
    requires CanonTarget(target)
    ensures NeedTarget(target) <= LEVELS * OpenersOfTarget(target)
    decreases target
  {
    match target {
      case InList(list) => ListNeedBounded(list);
      case InTable(_) =>
      case InTableArgs(_, args) => ListNeedBounded(args);
    }
  }

  /** The kind of token an item stands for. */
  function ItemKind(item: Item): Kind {
    if item.Content? then item.token.kind else item.kind
  }

  /** The openers among the tokens the items stand for. */
  function ItemsOpened(b: Before, items: Items): nat
    decreases items
  {
    match items
    case Stop => 0
    case Then(item, rest) =>
      (if Opens(b, ItemKind(item)) then 1 else 0) + ItemsOpened(Class(b, ItemKind(item)), rest)
  }

  /** One word or mark. */
  lemma FixedOpens(b: Before, k: Kind, glued: bool, rest: Items)
    ensures ItemsOpened(b, Then(Fixed(k, Spelling(k), glued), rest)) ==
            (if Opens(b, k) then 1 else 0) + ItemsOpened(Class(b, k), rest)
  {
    hide Opens, Class;
  }

  lemma HeldOpens(b: Before, t: Lexeme, rest: Items)
    ensures ItemsOpened(b, KwToken(t, rest)) == (if Opens(b, t.kind) then 1 else 0) + ItemsOpened(Class(b, t.kind), rest)
  {
    hide Opens, Class;
  }

  lemma {:induction false} ReadOpened(b: Before, items: Items, ts: Toks)
    requires ReadAll(items, ts) == To(End)
    ensures Opened(b, ts, 0) == ItemsOpened(b, items)
    decreases items
  {
    hide Opens, Class;
    if items.Then? {
      ReadOpened(Class(b, ts.head.kind), items.rest, ts.tail);
    }
  }

  /** Writing a tree where an operand is wanted opens what the tree opens, and ends an operand. */
  lemma {:induction false} ExprOpens(e: Expr, rest: Items)
    requires Canon(e)
    ensures ItemsOpened(Wanted, ExprItems(e, rest)) == OpenersOf(e) + ItemsOpened(Operand, rest)
    decreases e
  {
    hide PrimaryItems, SuffixItems, CanonPrimary, CanonSuffix, OpenersOfPrimary, OpenersOfSuffix, Spine, Edge;
    match e {
      case Atom(p) => PrimaryOpens(p, rest);
      case Unary(_, x) => ExprOpens(x, rest);
      case Apply(x, s) =>
        SuffixOpens(s, rest);
        ExprOpens(x, SuffixItems(s, rest));
    }
  }

  lemma {:induction false} PrimaryOpens(p: Primary, rest: Items)
    requires CanonPrimary(p)
    ensures ItemsOpened(Wanted, PrimaryItems(p, rest)) == OpenersOfPrimary(p) + ItemsOpened(Operand, rest)
    decreases p
  {
    hide ItemsOpened, CanonList, ListItems, ArgsItems, WhensItems, OperandItems, OptItems, OpenersOfList;
    match p {
      case Case(_, _, _) => CaseOpens(p, rest);
      case Bracket(list) =>
        var i := ListItems(list, Raw(RP, rest));
        FixedOpens(Wanted, LP, false, i);
        ListOpens(list, Raw(RP, rest), Wanted);
        FixedOpens(Operand, RP, true, rest);
      case Call(name, args) => CallOpens(p, rest);
      case _ => LeafOpens(p, rest);
    }
  }

  lemma {:induction false} LeafOpens(p: Primary, rest: Items)
    requires CanonPrimary(p) && !p.Case? && !p.Bracket? && !p.Call?
    ensures ItemsOpened(Wanted, PrimaryItems(p, rest)) == ItemsOpened(Operand, rest)
  {
    match p {
      case QualifiedRef2(a, b) => NameOpens(b, rest);
      case QualifiedRef3(a, b, c) =>
        NameOpens(c, rest);
        NameOpens(b, Raw(DOT, RawToken(c, rest)));
      case _ =>
    }
  }

  /** A dot and a name after a name. */
  lemma {:induction false} NameOpens(n: Lexeme, rest: Items)
    requires IsName(n.kind)
    ensures ItemsOpened(Operand, Raw(DOT, RawToken(n, rest))) == ItemsOpened(Operand, rest)
  {
    assert ItemsOpened(Wanted, RawToken(n, rest)) == ItemsOpened(Operand, rest);
  }

  lemma {:induction false} CaseOpens(p: Primary, rest: Items)
    requires p.Case? && CanonPrimary(p)
    ensures ItemsOpened(Wanted, PrimaryItems(p, rest)) == OpenersOfPrimary(p) + ItemsOpened(Operand, rest)
    decreases p, 0
  {
    hide Canon, CanonWhens, ExprItems, WhensItems, OptItems, OpenersOf, OpenersOfWhens, ItemsOpened;
    var i2 := Kw(END, rest);
    var i1 := OptItems(ELSE, p.otherwise, i2);
    var i0 := WhensItems(p.whens, i1);
    FixedOpens(Operand, END, false, rest);
    OptOpens(ELSE, p.otherwise, i2);
    WhensOpens(p.whens, i1, if p.operand.Some? then Operand else Wanted);
    if p.operand.Some? {
      ExprOpens(p.operand.expr, i0);
    }
    FixedOpens(Wanted, CASE, false, OperandItems(p.operand, i0));
  }

  /** A word and an expression after an operand, or nothing. */
  lemma {:induction false} OptOpens(kw: Kind, o: OptExpr, rest: Items)
    requires CanonOpt(o) && (kw.ELSE? || kw.ESCAPE?)
    ensures ItemsOpened(Operand, OptItems(kw, o, rest)) ==
            (if o.Some? && kw.ELSE? then 1 else 0) + OpenersOfOpt(o) + ItemsOpened(Operand, rest)
    decreases o
  {
    hide Canon, ExprItems, OpenersOf;
    if o.Some? {
      ExprOpens(o.expr, rest);
      assert ItemsOpened(Operand, Kw(kw, ExprItems(o.expr, rest))) ==
             (if kw.ELSE? then 1 else 0) + ItemsOpened(Wanted, ExprItems(o.expr, rest));
    }
  }

  lemma {:induction false} WhensOpens(ws: Whens, rest: Items, b: Before)
    requires CanonWhens(ws) && (ws.When? || b.Operand?)
    ensures ItemsOpened(b, WhensItems(ws, rest)) == OpenersOfWhens(ws) + ItemsOpened(Operand, rest)
    decreases ws
  {
    hide Canon, ExprItems, OpenersOf, ItemsOpened;
    if ws.When? {
      var i2 := WhensItems(ws.rest, rest);
      var i1 := ExprItems(ws.value, i2);
      WhensOpens(ws.rest, rest, Operand);
      ExprOpens(ws.value, i2);
      FixedOpens(Operand, THEN, false, i1);
      ExprOpens(ws.cond, Kw(THEN, i1));
      FixedOpens(b, WHEN, false, ExprItems(ws.cond, Kw(THEN, i1)));
    }
  }

  /** A list and the closing bracket after it. */
  lemma {:induction false} ListOpens(es: Exprs, rest: Items, b: Before)
    requires CanonList(es) && (b.Wanted? || es.Nil?)
    requires rest.Then? && ItemKind(rest.item).RP?
    ensures ItemsOpened(b, ListItems(es, rest)) == OpenersOfList(es) + ItemsOpened(Operand, rest)
    decreases es
  {
    hide Canon, ExprItems, OpenersOf;
    if es.More? {
      if es.tail.More? {
        var i := ListItems(es.tail, rest);
        ListOpens(es.tail, rest, Wanted);
        assert ItemsOpened(Operand, Raw(COMMA, i)) == ItemsOpened(Wanted, i);
        ExprOpens(es.head, Raw(COMMA, i));
      } else {
        ExprOpens(es.head, rest);
      }
    }
  }

  lemma {:induction false} CallOpens(p: Primary, rest: Items)
    requires p.Call? && CanonPrimary(p)
    ensures ItemsOpened(Wanted, PrimaryItems(p, rest)) == OpenersOfPrimary(p) + ItemsOpened(Operand, rest)
    decreases p, 0
  {
    hide CanonList, ListItems, ArgsItems, OpenersOfList;
    var i := ArgsItems(p.args, Raw(RP, rest));
    ArgsOpens(p.args, rest);
    assert ItemsOpened(Operand, Raw(LP, i)) == 1 + ItemsOpened(Wanted, i);
  }

  lemma {:induction false} ArgsOpens(args: CallArgs, rest: Items)
    requires args.Args? ==> CanonList(args.list)
    ensures ItemsOpened(Wanted, ArgsItems(args, Raw(RP, rest))) ==
            (if args.Args? then OpenersOfList(args.list) else 0) + ItemsOpened(Operand, rest)
    decreases args
  {
    hide CanonList, ListItems, OpenersOfList, ItemsOpened;
    FixedOpens(Operand, RP, true, rest);
    FixedOpens(Wanted, RP, true, rest);
    if args.Args? {
      var i0 := ListItems(args.list, Raw(RP, rest));
      ListOpens(args.list, Raw(RP, rest), Wanted);
      FixedOpens(Wanted, ALL, false, i0);
      FixedOpens(Wanted, DISTINCT, false, KwIf(args.quantifier.All?, ALL, i0));
    } else {
      FixedOpens(Wanted, STAR, true, Raw(RP, rest));
    }
  }

  lemma {:induction false} SuffixOpens(s: Suffix, rest: Items)
    requires CanonSuffix(s)
    ensures ItemsOpened(Operand, SuffixItems(s, rest)) == OpenersOfSuffix(s) + ItemsOpened(Operand, rest)
    decreases s
  {
    match s {
      case Binary(op, y) => BinaryOpens(s, rest);
      case Like(_, _, _, _) => LikeOpens(s, rest);
      case Is(_, _, _) => IsOpens(s, rest);
      case Between(_, _, _) => BetweenOpens(s, rest);
      case In(_, target) => InOpens(s, rest);
      case _ => PostfixOpens(s, rest);
    }
  }

  lemma {:induction false} PostfixOpens(s: Suffix, rest: Items)
    requires (s.Collate? || s.NullCheck?) && CanonSuffix(s)
    ensures ItemsOpened(Operand, SuffixItems(s, rest)) == ItemsOpened(Operand, rest)
  {
    hide ItemsOpened, ExprItems, OpenersOf;
    if s.Collate? {
      FixedOpens(Operand, COLLATE, false, KwToken(s.collation, rest));
      HeldOpens(Wanted, s.collation, rest);
    } else if s.test.TestNotNullWords? {
      FixedOpens(Operand, NOT, false, Kw(NULL, rest));
      FixedOpens(NotWord, NULL, false, rest);
    } else {
      FixedOpens(Operand, if s.test.TestIsNull? then ISNULL else NOTNULL, false, rest);
    }
  }

  lemma {:induction false} BinaryOpens(s: Suffix, rest: Items)
    requires s.Binary? && CanonSuffix(s)
    ensures ItemsOpened(Operand, SuffixItems(s, rest)) == OpenersOfSuffix(s) + ItemsOpened(Operand, rest)
    decreases s, 0
  {
    hide Canon, ExprItems, OpenersOf, Spine, ItemsOpened;
    ExprOpens(s.y, rest);
    OperatorOpens(s.op, ExprItems(s.y, rest));
  }

  lemma OperatorOpens(op: Operator, rest: Items)
    ensures ItemsOpened(Operand, Then(Fixed(OperatorKind(op), OperatorText(op), false), rest)) == ItemsOpened(Wanted, rest)
  {
    hide OperatorText;
    assert !Opens(Operand, OperatorKind(op)) && Class(Operand, OperatorKind(op)).Wanted?;
  }

  lemma {:induction false} LikeOpens(s: Suffix, rest: Items)
    requires s.Like? && CanonSuffix(s)
    ensures ItemsOpened(Operand, SuffixItems(s, rest)) == OpenersOfSuffix(s) + ItemsOpened(Operand, rest)
    decreases s, 0
  {
    hide Canon, ExprItems, OptItems, OpenersOf, Spine, Absorbs;
    var i1 := OptItems(ESCAPE, s.escape, rest);
    var i0 := ExprItems(s.y, i1);
    OptOpens(ESCAPE, s.escape, rest);
    ExprOpens(s.y, i1);
    assert ItemsOpened(Operand, KwToken(s.like, i0)) == ItemsOpened(Wanted, i0) == ItemsOpened(NotWord, KwToken(s.like, i0));
  }

  /** Where an IS stands before, only a NOT would count differently. */
  lemma {:induction false} AfterIsWord(e: Expr, rest: Items)
    requires !StartKind(e).NOT?
    ensures ItemsOpened(IsWord, ExprItems(e, rest)) == ItemsOpened(Wanted, ExprItems(e, rest))
    decreases e
  {
    hide SuffixItems;
    match e {
      case Apply(x, s) => AfterIsWord(x, SuffixItems(s, rest));
      case Atom(p) => FirstItem(p, rest);
      case Unary(pre, x) =>
        assert Class(IsWord, PrefixKind(pre)) == Class(Wanted, PrefixKind(pre));
    }
  }

  lemma {:induction false} FirstItem(p: Primary, rest: Items)
    requires !StartKind(Atom(p)).NOT?
    ensures ItemsOpened(IsWord, PrimaryItems(p, rest)) == ItemsOpened(Wanted, PrimaryItems(p, rest))
  {
    hide ListItems, ArgsItems, WhensItems, OptItems, OperandItems;
    var items := PrimaryItems(p, rest);
    assert ItemKind(items.item) == StartKind(Atom(p));
    assert Class(IsWord, ItemKind(items.item)) == Class(Wanted, ItemKind(items.item));
  }

  lemma {:induction false} IsOpens(s: Suffix, rest: Items)
    requires s.Is? && CanonSuffix(s)
    ensures ItemsOpened(Operand, SuffixItems(s, rest)) == OpenersOfSuffix(s) + ItemsOpened(Operand, rest)
    decreases s, 0
  {
    hide Canon, ExprItems, OpenersOf, Spine, StartKind, ItemsOpened;
    ExprOpens(s.y, rest);
    if !s.negated && !s.distinct {
      AfterIsWord(s.y, rest);
    }
    IsWordsOpen(s.negated, s.distinct, ExprItems(s.y, rest));
  }

  /** IS, and the words that may follow it. */
  lemma {:induction false} IsWordsOpen(negated: bool, distinct: bool, i: Items)
    requires negated || distinct || ItemsOpened(IsWord, i) == ItemsOpened(Wanted, i)
    ensures ItemsOpened(Operand, Kw(IS, KwIf(negated, NOT, KwIf(distinct, DISTINCT, KwIf(distinct, FROM, i))))) ==
            ItemsOpened(Wanted, i)
  {
    hide ItemsOpened;
    var i2 := KwIf(distinct, FROM, i);
    var i1 := KwIf(distinct, DISTINCT, i2);
    FixedOpens(Wanted, FROM, false, i);
    FixedOpens(Wanted, DISTINCT, false, i2);
    FixedOpens(IsWord, DISTINCT, false, i2);
    FixedOpens(IsWord, NOT, false, i1);
    FixedOpens(Operand, IS, false, KwIf(negated, NOT, i1));
  }

  lemma {:induction false} BetweenOpens(s: Suffix, rest: Items)
    requires s.Between? && CanonSuffix(s)
    ensures ItemsOpened(Operand, SuffixItems(s, rest)) == OpenersOfSuffix(s) + ItemsOpened(Operand, rest)
    decreases s, 0
  {
    hide Canon, ExprItems, OpenersOf, Spine, Edge;
    var i1 := Kw(AND, ExprItems(s.hi, rest));
    var i0 := ExprItems(s.lo, i1);
    ExprOpens(s.hi, rest);
    assert ItemsOpened(Operand, i1) == ItemsOpened(Wanted, ExprItems(s.hi, rest));
    ExprOpens(s.lo, i1);
    assert ItemsOpened(NotWord, Kw(BETWEEN, i0)) == 1 + ItemsOpened(Wanted, i0) == ItemsOpened(Operand, Kw(BETWEEN, i0));
  }

  lemma {:induction false} InOpens(s: Suffix, rest: Items)
    requires s.In? && CanonSuffix(s)
    ensures ItemsOpened(Operand, SuffixItems(s, rest)) == OpenersOfSuffix(s) + ItemsOpened(Operand, rest)
    decreases s, 0
  {
    hide CanonTarget, TargetItems, OpenersOfTarget, ItemsOpened;
    var i := TargetItems(s.target, rest);
    TargetOpens(s.target, rest);
    FixedOpens(NotWord, IN, false, i);
    FixedOpens(Operand, IN, false, i);
    FixedOpens(Operand, NOT, false, Kw(IN, i));
  }

  lemma {:induction false} TargetOpens(target: InSet, rest: Items)
    requires CanonTarget(target)
    ensures ItemsOpened(Wanted, TargetItems(target, rest)) == OpenersOfTarget(target) + ItemsOpened(Operand, rest)
    decreases target
  {
    hide CanonList, ListItems, TableItems, OpenersOfList, StartKind, ItemsOpened;
    FixedOpens(Operand, RP, true, rest);
    match target {
      case InList(list) =>
        ListOpens(list, Raw(RP, rest), Wanted);
        FixedOpens(Wanted, LP, false, ListItems(list, Raw(RP, rest)));
      case InTable(table) =>
        TableOpens(table, rest);
      case InTableArgs(table, args) =>
        var i := ListItems(args, Raw(RP, rest));
        ListOpens(args, Raw(RP, rest), Wanted);
        TableOpens(table, Raw(LP, i));
        FixedOpens(Operand, LP, true, i);
    }
  }

  lemma {:induction false} TableOpens(t: TableName, rest: Items)
    requires CanonTable(t)
    ensures ItemsOpened(Wanted, TableItems(t, rest)) == ItemsOpened(Operand, rest)
  {
    if t.Dotted? {
      NameOpens(t.name, rest);
    }
  }

  /** The openers of an accepted input, token by token, are those of its tree. */
  lemma {:induction false} OpenersCounted(ts: Toks, e: Expr)
    requires Reads(e, ts) == To(End) && Canon(e)
    ensures Opened(Wanted, ts, 0) == OpenersOf(e)
  {
    hide Reads, Canon, ExprItems, ReadAll, Opened, ItemsOpened, OpenersOf;
    ItemsRead(e, Stop, ts);
    StopBinds(Reads(e, ts));
    ReadOpened(Wanted, ExprItems(e, Stop), ts);
    ExprOpens(e, Stop);
    assert ItemsOpened(Operand, Stop) == 0 by { NothingOpened(); }
  }

  lemma NothingOpened()
    ensures ItemsOpened(Operand, Stop) == 0
  {
  }

  /** With fourteen levels for every opener among its tokens and fourteen more, every spelling of
      a canonical tree is accepted: a tree without openers with fourteen levels. */
  lemma {:induction false} AcceptedWithRoom(ts: Toks, room: nat, e: Expr)
    requires Reads(e, ts) == To(End) && Canon(e) && room >= LEVELS * (1 + Opened(Wanted, ts, 0))
    ensures ParseWhole(ts, room) == Ok(e, At(End))
    ensures Need(e) <= LEVELS * (1 + OpenersOf(e))
  {
    hide Reads, Canon, Need, Opened, OpenersOf, ParseWhole, Spine;
    OpenersCounted(ts, e);
    NeedBounded(e, LOWEST);
    WholeCharacterized(ts, room, e);
  }
}
