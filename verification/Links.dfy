/** Which tokens the renderer lets stand next to each other (ast/render.go). */
module Links {
  import opened Token
  import opened Ast
  import opened Grammar
  import opened Canonical
  import opened Emission
  import opened Engine
  import opened ExactImage

  /** The tokens the renderer has a spelling for. */
  predicate HasSpelling(k: Kind) { Spelling(k) != "" }

  predicate IsLegal(item: Item) {
    match item
    case Content(t, _) =>
      && !t.kind.ILLEGAL? && !t.kind.SPACE? && !t.kind.COMMENT? && !t.kind.EOF?
      && (t.kind.VARIABLE? ==> !IsRegister(t.text))
    case Fixed(k, text, _) => HasSpelling(k) && (text == Spelling(k) || (k.PTR? && text == "->>"))
  }

  /** An item that may come after anything: one with a space before it unless that follows a
      bracket, or a closing bracket or comma. */
  predicate IsLoose(item: Item) {
    !item.glued || (item.Fixed? && (item.kind.RP? || item.kind.COMMA?))
  }

  predicate IsNameItem(item: Item) { item.Content? && IsName(item.token.kind) }

  /** `b` may be written right after `a`. */
  predicate Joins(a: Item, b: Item) {
    || IsLoose(b)
    || (b.Fixed? && (b.kind.DOT? || b.kind.LP?) && IsNameItem(a))
    || (IsNameItem(b) && a.Fixed? && a.kind.DOT?)
    || (b.Fixed? && b.kind.STAR? && a.Fixed? && a.kind.LP?)
  }

  predicate Linked(items: Items) {
    items.Then? ==>
      && IsLegal(items.item)
      && (items.rest.Then? ==> Joins(items.item, items.rest.item))
      && Linked(items.rest)
  }

  predicate Open(items: Items) { items.Then? ==> IsLoose(items.item) }

  /** Items that can be put after anything. */
  predicate Follow(items: Items) { Linked(items) && Open(items) }

  lemma KwLinked(k: Kind, rest: Items)
    requires HasSpelling(k) && Follow(rest)
    ensures Follow(Kw(k, rest))
  {
  }

  lemma KwIfLinked(b: bool, k: Kind, rest: Items)
    requires HasSpelling(k) && Follow(rest)
    ensures Follow(KwIf(b, k, rest))
  {
  }

  /** A closing bracket or a comma. */
  lemma RawLinked(k: Kind, rest: Items)
    requires (k.RP? || k.COMMA?) && Follow(rest)
    ensures Follow(Raw(k, rest))
  {
  }

  lemma TokenLinked(t: Lexeme, rest: Items)
    requires IsLegal(Content(t, false)) && Follow(rest)
    ensures Follow(KwToken(t, rest))
  {
  }

  /** A dot and a name after a name. */
  lemma DottedLinked(t: Lexeme, n: Lexeme, glued: bool, rest: Items)
    requires IsName(t.kind) && IsName(n.kind) && Linked(Then(Content(n, true), rest))
    ensures Linked(Then(Content(t, glued), Raw(DOT, RawToken(n, rest))))
  {
    assert Linked(Raw(DOT, RawToken(n, rest)));
  }

  lemma NameLinked(n: Lexeme, rest: Items)
    requires IsName(n.kind) && Follow(rest)
    ensures Linked(Then(Content(n, true), rest))
  {
  }

  lemma {:induction false} ExprLinked(e: Expr, rest: Items)
    requires Canon(e) && Follow(rest)
    ensures Follow(ExprItems(e, rest))
    decreases e
  {
    hide Follow, ReadsPrimary, PrimaryItems, SuffixItems, CanonPrimary, CanonSuffix, Spine, Edge;
    match e {
      case Atom(p) => PrimaryLinked(p, rest);
      case Unary(pre, x) =>
        ExprLinked(x, rest);
        KwLinked(PrefixKind(pre), ExprItems(x, rest));
      case Apply(x, s) =>
        SuffixLinked(s, rest);
        ExprLinked(x, SuffixItems(s, rest));
    }
  }

  lemma {:induction false} PrimaryLinked(p: Primary, rest: Items)
    requires CanonPrimary(p) && Follow(rest)
    ensures Follow(PrimaryItems(p, rest))
    decreases p
  {
    match p {
      case Case(operand, whens, otherwise) => CaseLinked(p, operand, whens, otherwise, rest);
      case Bracket(list) => BracketLinked(list, rest);
      case Call(name, args) => CallLinked(name, args, rest);
      case _ => LeafLinked(p, rest);
    }
  }

  lemma {:induction false} LeafLinked(p: Primary, rest: Items)
    requires CanonPrimary(p) && Follow(rest) && !p.Case? && !p.Bracket? && !p.Call?
    ensures Follow(PrimaryItems(p, rest))
  {
    hide Linked;
    match p {
      case Ident(n) => TokenLinked(n, rest);
      case Literal(n) => TokenLinked(n, rest);
      case BindParam(n) => TokenLinked(n, rest);
      case QualifiedRef2(a, b) =>
        NameLinked(b, rest);
        DottedLinked(a, b, false, rest);
      case QualifiedRef3(a, b, c) =>
        NameLinked(c, rest);
        DottedLinked(b, c, true, rest);
        DottedLinked(a, b, false, Raw(DOT, RawToken(c, rest)));
    }
  }

  lemma {:induction false} CaseLinked(p: Primary, operand: OptExpr, whens: Whens, otherwise: OptExpr, rest: Items)
    requires p == Case(operand, whens, otherwise) && CanonPrimary(p) && Follow(rest)
    ensures Follow(PrimaryItems(p, rest))
    decreases p, 0
  {
    hide Follow, Canon, CanonWhens, ExprItems, WhensItems;
    var i2 := Kw(END, rest);
    KwLinked(END, rest);
    OptLinked(ELSE, otherwise, i2);
    var i1 := OptItems(ELSE, otherwise, i2);
    WhensLinked(whens, i1);
    var i0 := WhensItems(whens, i1);
    if operand.Some? {
      ExprLinked(operand.expr, i0);
    }
    KwLinked(CASE, OperandItems(operand, i0));
  }

  lemma {:induction false} OptLinked(kw: Kind, o: OptExpr, rest: Items)
    requires CanonOpt(o) && HasSpelling(kw) && Follow(rest)
    ensures Follow(OptItems(kw, o, rest))
    decreases o
  {
    hide Follow, Canon, ExprItems;
    if o.Some? {
      ExprLinked(o.expr, rest);
      KwLinked(kw, ExprItems(o.expr, rest));
    }
  }

  lemma {:induction false} WhensLinked(ws: Whens, rest: Items)
    requires CanonWhens(ws) && Follow(rest)
    ensures Follow(WhensItems(ws, rest))
    decreases ws
  {
    hide Follow, Canon, ExprItems;
    if ws.When? {
      WhensLinked(ws.rest, rest);
      var i1 := WhensItems(ws.rest, rest);
      ExprLinked(ws.value, i1);
      KwLinked(THEN, ExprItems(ws.value, i1));
      var i0 := Kw(THEN, ExprItems(ws.value, i1));
      ExprLinked(ws.cond, i0);
      KwLinked(WHEN, ExprItems(ws.cond, i0));
    }
  }

  lemma {:induction false} ListLinked(es: Exprs, rest: Items)
    requires CanonList(es) && Follow(rest)
    ensures Follow(ListItems(es, rest))
    decreases es, 0
  {
    hide Follow, Canon, ExprItems;
    if es.More? {
      if es.tail.More? {
        ListLinked(es.tail, rest);
        RawLinked(COMMA, ListItems(es.tail, rest));
        ExprLinked(es.head, Raw(COMMA, ListItems(es.tail, rest)));
      } else {
        ExprLinked(es.head, rest);
      }
    }
  }

  lemma {:induction false} BracketLinked(list: Exprs, rest: Items)
    requires CanonList(list) && Follow(rest)
    ensures Follow(Kw(LP, ListItems(list, Raw(RP, rest))))
    decreases list, 1
  {
    hide Follow, CanonList, ListItems;
    RawLinked(RP, rest);
    ListLinked(list, Raw(RP, rest));
    KwLinked(LP, ListItems(list, Raw(RP, rest)));
  }

  /** A bracket right after a name. */
  lemma OpenLinked(name: Lexeme, rest: Items)
    requires IsName(name.kind) && Linked(rest)
    requires Open(rest) || (rest.item.Fixed? && rest.item.kind.STAR?)
    ensures Follow(KwToken(name, Raw(LP, rest)))
  {
    assert Linked(Raw(LP, rest));
  }

  lemma {:induction false} CallLinked(name: Lexeme, args: CallArgs, rest: Items)
    requires CanonPrimary(Call(name, args)) && Follow(rest)
    ensures Follow(PrimaryItems(Call(name, args), rest))
    decreases args
  {
    hide CanonList, ListItems;
    RawLinked(RP, rest);
    match args {
      case StarArg =>
        OpenLinked(name, Raw(STAR, Raw(RP, rest)));
      case Args(q, list) =>
        var i0 := ListItems(list, Raw(RP, rest));
        ListLinked(list, Raw(RP, rest));
        KwIfLinked(q.All?, ALL, i0);
        KwIfLinked(q.Distinct?, DISTINCT, KwIf(q.All?, ALL, i0));
        OpenLinked(name, ArgsItems(args, Raw(RP, rest)));
    }
  }

  lemma {:induction false} SuffixLinked(s: Suffix, rest: Items)
    requires CanonSuffix(s) && Follow(rest)
    ensures Follow(SuffixItems(s, rest))
    decreases s
  {
    hide Follow, Canon, CanonTarget, ExprItems, TargetItems, Spine, Edge, Absorbs;
    match s {
      case Binary(op, y) =>
        ExprLinked(y, rest);
        OperatorLinked(op, ExprItems(y, rest));
      case Collate(_) => PostfixLinked(s, rest);
      case NullCheck(_) => PostfixLinked(s, rest);
      case Like(_, _, _, _) => LikeLinked(s, rest);
      case Is(_, _, _) => IsLinked(s, rest);
      case Between(_, _, _) => BetweenLinked(s, rest);
      case In(negated, target) =>
        TargetLinked(target, rest);
        KwLinked(IN, TargetItems(target, rest));
        KwIfLinked(negated, NOT, Kw(IN, TargetItems(target, rest)));
    }
  }

  lemma {:induction false} PostfixLinked(s: Suffix, rest: Items)
    requires (s.Collate? || s.NullCheck?) && CanonSuffix(s) && Follow(rest)
    ensures Follow(SuffixItems(s, rest))
  {
    hide Follow, Canon, ExprItems, TargetItems;
    if s.Collate? {
      TokenLinked(s.collation, rest);
      KwLinked(COLLATE, KwToken(s.collation, rest));
    } else if s.test.TestIsNull? {
      KwLinked(ISNULL, rest);
    } else if s.test.TestNotNull? {
      KwLinked(NOTNULL, rest);
    } else {
      KwLinked(NULL, rest);
      KwLinked(NOT, Kw(NULL, rest));
    }
  }

  lemma {:induction false} LikeLinked(s: Suffix, rest: Items)
    requires s.Like? && CanonSuffix(s) && Follow(rest)
    ensures Follow(SuffixItems(s, rest))
    decreases s, 0
  {
    hide Follow, Canon, ExprItems, OptItems, Spine, Absorbs;
    OptLinked(ESCAPE, s.escape, rest);
    var i1 := OptItems(ESCAPE, s.escape, rest);
    ExprLinked(s.y, i1);
    TokenLinked(s.like, ExprItems(s.y, i1));
    KwIfLinked(s.negated, NOT, KwToken(s.like, ExprItems(s.y, i1)));
  }

  lemma {:induction false} IsLinked(s: Suffix, rest: Items)
    requires s.Is? && CanonSuffix(s) && Follow(rest)
    ensures Follow(SuffixItems(s, rest))
    decreases s, 0
  {
    hide Follow, Canon, ExprItems, KwIf, StartKind, Spine;
    ExprLinked(s.y, rest);
    var i3 := ExprItems(s.y, rest);
    KwIfLinked(s.distinct, FROM, i3);
    var i2 := KwIf(s.distinct, FROM, i3);
    KwIfLinked(s.distinct, DISTINCT, i2);
    var i1 := KwIf(s.distinct, DISTINCT, i2);
    KwIfLinked(s.negated, NOT, i1);
    KwLinked(IS, KwIf(s.negated, NOT, i1));
  }

  lemma {:induction false} BetweenLinked(s: Suffix, rest: Items)
    requires s.Between? && CanonSuffix(s) && Follow(rest)
    ensures Follow(SuffixItems(s, rest))
    decreases s, 0
  {
    hide Follow, Canon, ExprItems, KwIf, Edge, Spine;
    ExprLinked(s.hi, rest);
    var i1 := Kw(AND, ExprItems(s.hi, rest));
    KwLinked(AND, ExprItems(s.hi, rest));
    ExprLinked(s.lo, i1);
    KwLinked(BETWEEN, ExprItems(s.lo, i1));
    KwIfLinked(s.negated, NOT, Kw(BETWEEN, ExprItems(s.lo, i1)));
  }

  lemma OperatorLinked(op: Operator, rest: Items)
    requires Follow(rest)
    ensures Follow(Then(Fixed(OperatorKind(op), OperatorText(op), false), rest))
  {
  }

  lemma {:induction false} TargetLinked(target: InSet, rest: Items)
    requires CanonTarget(target) && Follow(rest)
    ensures Follow(TargetItems(target, rest))
    decreases target
  {
    hide CanonList, ListItems, StartKind;
    match target {
      case InList(list) =>
        BracketLinked(list, rest);
      case InTable(table) =>
        TableLinked(table, rest);
      case InTableArgs(table, args) =>
        RawLinked(RP, rest);
        ListLinked(args, Raw(RP, rest));
        TableArgsLinked(table, ListItems(args, Raw(RP, rest)));
    }
  }

  lemma {:induction false} TableLinked(t: TableName, rest: Items)
    requires CanonTable(t) && Follow(rest)
    ensures Follow(TableItems(t, rest))
  {
    hide Linked;
    match t {
      case Bare(n) => TokenLinked(n, rest);
      case Dotted(s, n) =>
        NameLinked(n, rest);
        DottedLinked(s, n, false, rest);
    }
  }

  lemma {:induction false} TableArgsLinked(t: TableName, rest: Items)
    requires CanonTable(t) && Follow(rest)
    ensures Follow(TableItems(t, Raw(LP, rest)))
  {
    OpenLinked(t.name, rest);
    if t.Dotted? {
      assert Linked(Then(Content(t.name, true), Raw(LP, rest)));
      DottedLinked(t.schema, t.name, false, Raw(LP, rest));
    }
  }

  /** No token is a register reference. */
  predicate NoRegisters(ts: Toks) {
    ts.Cons? ==> !(ts.head.kind.VARIABLE? && IsRegister(ts.head.text)) && NoRegisters(ts.tail)
  }

  lemma {:induction false} LinkedHasNone(items: Items, ts: Toks)
    requires Linked(items) && ReadAll(items, ts) == To(End)
    ensures NoRegisters(ts)
  {
    if items.Then? {
      LinkedHasNone(items.rest, ts.tail);
    }
  }

  /** No run survives a register reference: an accepted input has none anywhere. */
  lemma {:induction false} RegistersRejected(ts: Toks, room: nat, e: Expr)
    requires ParseWhole(ts, room) == Ok(e, State(End, Quiet))
    ensures NoRegisters(ts)
  {
    hide ParseWhole, Canon, Need, Reads, ReadAll, ExprItems, Linked;
    WholeCharacterized(ts, room, e);
    ItemsRead(e, Stop, ts);
    assert Follow(Stop) by { StopFollows(); }
    ExprLinked(e, Stop);
    StopBinds(Reads(e, ts));
    LinkedHasNone(ExprItems(e, Stop), ts);
  }

  lemma StopFollows()
    ensures Follow(Stop)
  {
  }
}
