/** Every node has all its children, said of trees without positions: what is below an expression
    is written out for each form, and what the parser builds is compared with it. */
module Children {
  import opened Token
  import opened Ast
  import opened Engine
  import opened Grammar
  import opened Canonical
  import opened Completeness
  import opened ExactImage
  import opened Layout
  import opened Spans
  import opened Reference
  import opened Precedence
  import Emission
  import Links
  import Binds

  function Elements(es: Exprs): seq<Expr> {
    match es
    case Nil => []
    case More(e, rest) => [e] + Elements(rest)
  }

  function Arms(ws: Whens): seq<Expr> {
    match ws
    case NoWhens => []
    case When(cond, value, rest) => [cond, value] + Arms(rest)
  }

  function Optional(o: OptExpr): seq<Expr> { if o.Some? then [o.expr] else [] }

  /** The expressions directly below `e`, in the order they are written. */
  function Children(e: Expr): seq<Expr> {
    match e
    case Atom(Case(operand, whens, otherwise)) => Optional(operand) + Arms(whens) + Optional(otherwise)
    case Atom(Bracket(list)) => Elements(list)
    case Atom(Call(_, Args(_, list))) => Elements(list)
    case Atom(_) => []
    case Unary(_, x) => [x]
    case Apply(x, Binary(_, y)) => [x, y]
    case Apply(x, Like(_, _, y, escape)) => [x, y] + Optional(escape)
    case Apply(x, Is(_, _, y)) => [x, y]
    case Apply(x, Between(_, lo, hi)) => [x, lo, hi]
    case Apply(x, In(_, InList(list))) => [x] + Elements(list)
    case Apply(x, In(_, InTableArgs(_, args))) => [x] + Elements(args)
    case Apply(x, _) => [x]
  }

  function ExprsOf(kids: seq<Node>): (es: seq<Expr>)
    ensures |es| == |kids| && forall j :: 0 <= j < |kids| ==> es[j] == kids[j].expr
  {
    seq(|kids|, j requires 0 <= j < |kids| => kids[j].expr)
  }

  lemma ExprsJoin(a: seq<Node>, b: seq<Node>)
    ensures ExprsOf(a + b) == ExprsOf(a) + ExprsOf(b)
  {
  }

  lemma {:induction false} ListKids(input: Input, es: Exprs, ts: Toks)
    requires input.WellFormed()
    ensures ExprsOf(input.PlaceList(es, ts)) == Elements(es)
    decreases es
  {
    hide Reads, Drop, Input.PlaceKids, Input.WellFormed;
    if es.More? {
      var t := Drop(1, After(Reads(es.head, ts)));
      ListKids(input, es.tail, t);
      ExprsJoin([input.Place(es.head, ts)], input.PlaceList(es.tail, t));
    }
  }

  lemma {:induction false} ArmKids(input: Input, ws: Whens, ts: Toks)
    requires input.WellFormed()
    ensures ExprsOf(input.PlaceWhens(ws, ts)) == Arms(ws)
    decreases ws
  {
    hide Reads, Drop, Input.PlaceKids, Input.WellFormed;
    if ws.When? {
      var t1 := Drop(1, ts);
      var t2 := Drop(1, After(Reads(ws.cond, t1)));
      var t3 := After(Reads(ws.value, t2));
      ArmKids(input, ws.rest, t3);
      ExprsJoin([input.Place(ws.cond, t1), input.Place(ws.value, t2)], input.PlaceWhens(ws.rest, t3));
    }
  }

  lemma {:induction false} OptKids(input: Input, o: OptExpr, ts: Toks)
    requires input.WellFormed()
    ensures ExprsOf(input.PlaceOpt(o, ts)) == Optional(o)
  {
    hide Reads, Drop, Input.PlaceKids, Input.WellFormed;
  }

  lemma {:induction false} PrimaryKids(input: Input, p: Primary, ts: Toks)
    requires input.WellFormed()
    ensures ExprsOf(input.PlacePrimary(p, ts)) == Children(Atom(p))
  {
    hide Input.WellFormed, Input.PlaceList, Input.PlaceWhens, Input.PlaceOpt, Reads, ReadsOperand, ReadsWhens, Drop, ArgsStart;
    match p
    case Case(operand, whens, otherwise) =>
      var t1 := Drop(1, ts);
      var t2 := After(ReadsOperand(operand, t1));
      var t3 := Drop(1, After(ReadsWhens(whens, t2)));
      OptKids(input, operand, t1);
      ArmKids(input, whens, t2);
      OptKids(input, otherwise, t3);
      ExprsJoin(input.PlaceOpt(operand, t1), input.PlaceWhens(whens, t2));
      ExprsJoin(input.PlaceOpt(operand, t1) + input.PlaceWhens(whens, t2), input.PlaceOpt(otherwise, t3));
    case Bracket(list) => ListKids(input, list, Drop(1, ts));
    case Call(_, args) =>
      if args.Args? {
        ListKids(input, args.list, ArgsStart(args.quantifier, Drop(2, ts)));
      }
    case _ =>
  }

  lemma {:induction false} SuffixKids(input: Input, x: Expr, s: Suffix, ts: Toks)
    requires input.WellFormed()
    ensures [x] + ExprsOf(input.PlaceSuffix(s, ts)) == Children(Apply(x, s))
  {
    hide Input.WellFormed, Input.PlaceList, Input.PlaceOpt, Input.PlaceKids, Reads, ReadsTable, Drop, IsStart;
    match s
    case Like(negated, _, y, escape) =>
      var t1 := Drop(if negated then 2 else 1, ts);
      var t2 := Drop(1, After(Reads(y, t1)));
      OptKids(input, escape, t2);
      ExprsJoin([input.Place(y, t1)], input.PlaceOpt(escape, t2));
    case In(negated, target) =>
      var t1 := Drop(if negated then 2 else 1, ts);
      if target.InList? {
        ListKids(input, target.list, Drop(1, t1));
      } else if target.InTableArgs? {
        ListKids(input, target.args, Drop(1, After(ReadsTable(target.table, t1))));
      }
    case _ =>
  }

  /** The children placed below an expression are all it has, in order. */
  lemma {:induction false} KidsAreChildren(input: Input, e: Expr, ts: Toks)
    requires input.WellFormed()
    ensures ExprsOf(input.PlaceKids(e, ts)) == Children(e)
  {
    hide Input.WellFormed, Input.PlacePrimary, Input.PlaceSuffix, Reads, Drop;
    match e
    case Atom(p) => PrimaryKids(input, p, ts);
    case Unary(_, x) =>
    case Apply(x, s) =>
      var k := After(Reads(x, ts));
      SuffixKids(input, x, s, k);
      ExprsJoin([input.Place(x, ts)], input.PlaceSuffix(s, k));
  }

  /** The subtree at a path of child numbers. */
  predicate IsBelow(e: Expr, path: seq<nat>)
    decreases |path|
  {
    path == [] || (path[0] < |Children(e)| && IsBelow(Children(e)[path[0]], path[1..]))
  }

  function Below(e: Expr, path: seq<nat>): Expr
    requires IsBelow(e, path)
    decreases |path|
  {
    if path == [] then e else Below(Children(e)[path[0]], path[1..])
  }

  lemma {:induction false} TidyChildren(input: Input, n: Node, room: nat)
    requires input.WellFormed() && Tidy(input, n, room)
    ensures ExprsOf(n.kids) == Children(n.expr)
    ensures forall j :: 0 <= j < |n.kids| ==> Tidy(input, n.kids[j], room)
  {
    hide Tidy, InRow, Children, ExprsOf, Input.PlaceKids;
    TidyNode(input, n, room);
    KidsAreChildren(input, n.expr, input.From(n.from));
  }

  lemma {:induction false} NodesBelow(input: Input, n: Node, path: seq<nat>, room: nat)
    requires input.WellFormed() && Tidy(input, n, room)
    ensures IsPath(n, path) <==> IsBelow(n.expr, path)
    ensures IsPath(n, path) ==> NodeAt(n, path).expr == Below(n.expr, path) && Tidy(input, NodeAt(n, path), room)
    decreases |path|
  {
    hide Tidy, Children;
    TidyChildren(input, n, room);
    if path != [] && path[0] < |n.kids| {
      NodesBelow(input, n.kids[path[0]], path[1..], room);
    }
  }

  /** Every subtree of an accepted tree has exactly one node, the one at its path, and that node
      has all the children of its expression, in order. */
  lemma {:induction false} EverySubtreePlaced(input: Input, e: Expr, room: nat, path: seq<nat>)
    requires input.WellFormed() && ParseWhole(input.From(0), room) == Ok(e, At(End))
    ensures var root := input.Place(e, input.From(0));
            && (IsPath(root, path) <==> IsBelow(e, path))
            && (IsPath(root, path) ==>
                  var n := NodeAt(root, path);
                  n.expr == Below(e, path) && ExprsOf(n.kids) == Children(n.expr))
  {
    hide ParseWhole, Reads, Canon, Need, Tidy, Input.Place, Children;
    WholeCharacterized(input.From(0), room, e);
    var b := PlaceTidy(input, e, 0, room);
    var root := input.Place(e, input.From(0));
    PlacedExpr(input, e, input.From(0));
    NodesBelow(input, root, path, room);
    if IsPath(root, path) {
      TidyChildren(input, NodeAt(root, path), room);
    }
  }

  lemma {:induction false} ParamsGrow(input: Input, j: nat, k: nat)
    requires input.WellFormed() && j <= k < |input.toks|
    ensures input.Params(j) <= input.Params(k)
    decreases k
  {
    if j < k {
      ParamsGrow(input, j, k - 1);
    }
  }

  /** The node of a parameter is at its token, and its number is the one that token has in the
      run of all the parameters of the input. */
  lemma {:induction false} ParameterNumbered(input: Input, e: Expr, room: nat, path: seq<nat>, t: Lexeme)
    requires input.WellFormed() && ParseWhole(input.From(0), room) == Ok(e, At(End))
    requires IsBelow(e, path) && Below(e, path) == Atom(BindParam(t))
    ensures var root := input.Place(e, input.From(0));
            && IsPath(root, path)
            && var n := NodeAt(root, path);
               var all := input.Params(|input.toks| - 1);
               && n.from < |input.toks| - 1 && input.At(n.from) == t && t.kind.VARIABLE?
               && |input.Params(n.from)| < |all| && all[|input.Params(n.from)|] == t.text
               && n.number == Binds.Given(all, |input.Params(n.from)|)
  {
    hide ParseWhole, Canon, Need, Tidy, Children, Input.From;
    WholeCharacterized(input.From(0), room, e);
    var b := PlaceTidy(input, e, 0, room);
    var root := input.Place(e, input.From(0));
    PlacedExpr(input, e, input.From(0));
    NodesBelow(input, root, path, room);
    TidyParameter(input, NodeAt(root, path), room, t);
  }

  lemma {:induction false} TidyParameter(input: Input, n: Node, room: nat, t: Lexeme)
    requires input.WellFormed() && Tidy(input, n, room) && n.expr == Atom(BindParam(t))
    ensures var all := input.Params(|input.toks| - 1);
            && n.from < |input.toks| - 1 && input.At(n.from) == t && t.kind.VARIABLE?
            && |input.Params(n.from)| < |all| && all[|input.Params(n.from)|] == t.text
            && n.number == Binds.Given(all, |input.Params(n.from)|)
  {
    hide ParseWhole, Tidy, Input.WellFormed, Input.NumbersAt, Binds.NumberOf, Binds.After;
    TidyNode(input, n, room);
    SliceParameter(input, n, room, t);
    var j := n.from;
    NumbersAreOfRun(input, j);
    ParamsGrow(input, j + 1, |input.toks| - 1);
    var all := input.Params(|input.toks| - 1);
    var k := |input.Params(j)|;
    assert input.Params(j + 1) == input.Params(j) + [t.text];
    assert all[..k + 1] == input.Params(j + 1);
    assert all[..k] == all[..k + 1][..k] == input.Params(j);
    assert input.Index(input.From(j)) == j;
    assert n.number == input.ParamNumber(n.expr, input.From(j));
  }

  lemma SliceParameter(input: Input, n: Node, room: nat, t: Lexeme)
    requires input.WellFormed() && Tidy(input, n, room) && n.expr == Atom(BindParam(t))
    ensures n.from < |input.toks| - 1 && input.At(n.from) == t && t.kind.VARIABLE?
  {
    hide ParseWhole, Input.WellFormed, Input.Place, Input.From, InRow;
    WholeCharacterized(input.Slice(n.from, n.to), room, n.expr);
    assert Reads(n.expr, input.Slice(n.from, n.to)) == TakeToken(t, input.Slice(n.from, n.to));
  }

  /** The parameters among words, in order. */
  function ParamsIn(ws: seq<Emission.Item>): seq<string> {
    if ws == [] then []
    else (if ws[0].Content? && ws[0].token.kind.VARIABLE? then [ws[0].token.text] else []) + ParamsIn(ws[1..])
  }

  /** The parameters of a tree, and of several trees one after the other. */
  function ParamsOf(e: Expr): seq<string> { ParamsIn(Words(e)) }

  function Gather(es: seq<Expr>): seq<string> {
    if es == [] then [] else ParamsOf(es[0]) + Gather(es[1..])
  }

  lemma {:induction false} ParamsJoin(a: seq<Emission.Item>, b: seq<Emission.Item>)
    ensures ParamsIn(a + b) == ParamsIn(a) + ParamsIn(b)
  {
    if a == [] {
      assert a + b == b;
    } else {
      assert (a + b)[1..] == a[1..] + b;
      ParamsJoin(a[1..], b);
    }
  }

  lemma {:induction false} GatherJoin(a: seq<Expr>, b: seq<Expr>)
    ensures Gather(a + b) == Gather(a) + Gather(b)
  {
    hide ParamsOf;
    if a == [] {
      assert a + b == b;
    } else {
      assert (a + b)[1..] == a[1..] + b;
      GatherJoin(a[1..], b);
    }
  }

  /** Words that are no parameters. */
  predicate Plain(ws: seq<Emission.Item>) {
    forall j :: 0 <= j < |ws| ==> !(ws[j].Content? && ws[j].token.kind.VARIABLE?)
  }

  lemma {:induction false} PlainNone(ws: seq<Emission.Item>)
    requires Plain(ws)
    ensures ParamsIn(ws) == []
  {
    if ws != [] {
      PlainNone(ws[1..]);
    }
  }

  /** Between plain words only what is in the middle counts. */
  lemma Around(a: seq<Emission.Item>, ws: seq<Emission.Item>, b: seq<Emission.Item>)
    requires Plain(a) && Plain(b)
    ensures ParamsIn(a + ws + b) == ParamsIn(ws)
  {
    hide ParamsIn, Plain;
    PlainNone(a);
    PlainNone(b);
    ParamsJoin(a + ws, b);
    ParamsJoin(a, ws);
  }

  lemma Behind(a: seq<Emission.Item>, ws: seq<Emission.Item>)
    requires Plain(a)
    ensures ParamsIn(a + ws) == ParamsIn(ws)
  {
    hide ParamsIn, Plain;
    PlainNone(a);
    ParamsJoin(a, ws);
  }

  lemma GatherOne(e: Expr)
    ensures Gather([e]) == ParamsOf(e)
  {
    hide ParamsOf;
    assert Gather([e][1..]) == [];
  }

  lemma {:induction false} ListParams(es: Exprs)
    ensures ParamsIn(ListWords(es)) == Gather(Elements(es))
    decreases es
  {
    hide Words;
    if es.More? {
      var w := if es.tail.More? then Mark(COMMA, ",") + ListWords(es.tail) else [];
      ListParams(es.tail);
      ParamsJoin(Words(es.head), w);
      Behind(Mark(COMMA, ","), ListWords(es.tail));
      GatherOne(es.head);
      GatherJoin([es.head], Elements(es.tail));
    }
  }

  lemma {:induction false} ArmParams(ws: Whens)
    ensures ParamsIn(WhensWords(ws)) == Gather(Arms(ws))
    decreases ws
  {
    hide Words, ParamsIn;
    if ws.When? {
      var w0, w1, w2, w3, w4 := Word(WHEN, "WHEN"), Words(ws.cond), Word(THEN, "THEN"), Words(ws.value), WhensWords(ws.rest);
      ParamsJoin(w0 + w1 + w2 + w3, w4);
      ParamsJoin(w0 + w1 + w2, w3);
      Around(w0, w1, w2);
      ArmParams(ws.rest);
      GatherOne(ws.cond);
      GatherOne(ws.value);
      GatherJoin([ws.cond], [ws.value]);
      GatherJoin([ws.cond, ws.value], Arms(ws.rest));
      assert [ws.cond, ws.value] == [ws.cond] + [ws.value];
    } else {
      PlainNone([]);
    }
  }

  lemma {:induction false} OptParams(w: seq<Emission.Item>, o: OptExpr)
    requires Plain(w)
    ensures ParamsIn(OptWords(w, o)) == Gather(Optional(o))
  {
    hide Words, ParamsIn, Plain;
    if o.Some? {
      Behind(w, Words(o.expr));
      GatherOne(o.expr);
    } else {
      PlainNone([]) by { PlainEmpty(); }
    }
  }

  lemma PlainEmpty()
    ensures Plain([])
  {
  }

  lemma {:induction false} PrimaryParams(p: Primary)
    requires FitsPrimary(p) && !p.BindParam?
    ensures ParamsIn(PrimaryWords(p)) == Gather(Children(Atom(p)))
  {
    hide Words, ParamsIn, ListWords, WhensWords, OptWords, Fits, Elements, Arms;
    match p
    case Case(operand, whens, otherwise) =>
      var w0, w1, w2 := Word(CASE, "CASE"), OptWords([], operand), WhensWords(whens);
      var w3, w4 := OptWords(Word(ELSE, "ELSE"), otherwise), Word(END, "END");
      ParamsJoin(w0 + w1 + w2 + w3, w4);
      ParamsJoin(w0 + w1 + w2, w3);
      ParamsJoin(w0 + w1, w2);
      Behind(w0, w1);
      PlainNone(w4);
      OptParams([], operand);
      ArmParams(whens);
      OptParams(Word(ELSE, "ELSE"), otherwise);
      GatherJoin(Optional(operand), Arms(whens));
      GatherJoin(Optional(operand) + Arms(whens), Optional(otherwise));
    case Bracket(list) =>
      Around(Word(LP, "("), ListWords(list), Mark(RP, ")"));
      ListParams(list);
    case Call(name, args) =>
      Around(Held(name) + Mark(LP, "("), ArgsWords(args), Mark(RP, ")"));
      if args.Args? {
        Behind(WordIf(args.quantifier.Distinct?, DISTINCT, "DISTINCT") + WordIf(args.quantifier.All?, ALL, "ALL"), ListWords(args.list));
        ListParams(args.list);
      } else {
        PlainNone(ArgsWords(args));
      }
    case _ => PlainNone(PrimaryWords(p));
  }

  lemma {:induction false} TailParams(x: Expr, s: Suffix)
    requires FitsTail(s)
    ensures ParamsOf(x) + ParamsIn(SuffixWords(s)) == Gather(Children(Apply(x, s)))
  {
    hide Words, ParamsIn, ListWords, OptWords, Fits, Elements, ParamsOf, Gather, IsAnyName, IsIdentifier;
    GatherOne(x);
    match s
    case Binary(op, y) =>
      Behind(OperatorWord(op), Words(y));
      LastOf([x], y, SuffixWords(s));
      assert [x] + [y] == [x, y];
    case Collate(_) => CollateParams(s);
    case Like(_, _, _, _) => LikeParams(x, s);
    case Is(negated, distinct, y) =>
      Behind(Word(IS, "IS") + WordIf(negated, NOT, "NOT")
        + (if distinct then Word(DISTINCT, "DISTINCT") + Word(FROM, "FROM") else []), Words(y));
      LastOf([x], y, SuffixWords(s));
      assert [x] + [y] == [x, y];
    case NullCheck(_) => PlainNone(SuffixWords(s));
    case Between(_, _, _) => BetweenParams(x, s);
    case In(_, _) => InParams(x, s);
  }

  lemma {:induction false} BetweenParams(x: Expr, s: Suffix)
    requires s.Between?
    ensures ParamsOf(x) + ParamsIn(SuffixWords(s)) == Gather(Children(Apply(x, s)))
  {
    hide Words, ParamsIn, ParamsOf, Gather;
    var w := WordIf(s.negated, NOT, "NOT") + Word(BETWEEN, "BETWEEN");
    GatherOne(x);
    ParamsJoin(w + Words(s.lo) + Word(AND, "AND"), Words(s.hi));
    Around(w, Words(s.lo), Word(AND, "AND"));
    LastOf([x], s.lo, Words(s.lo));
    assert [x] + [s.lo] == [x, s.lo];
    LastOf([x, s.lo], s.hi, Words(s.hi));
    assert [x, s.lo] + [s.hi] == [x, s.lo, s.hi];
  }

  lemma CollateParams(s: Suffix)
    requires s.Collate? && FitsTail(s)
    ensures ParamsIn(SuffixWords(s)) == []
  {
    hide ParamsIn;
    assert Plain(Word(COLLATE, "COLLATE") + Held(s.collation));
    PlainNone(SuffixWords(s));
  }

  lemma {:induction false} LikeParams(x: Expr, s: Suffix)
    requires s.Like? && FitsTail(s)
    ensures ParamsOf(x) + ParamsIn(SuffixWords(s)) == Gather(Children(Apply(x, s)))
  {
    hide Words, ParamsIn, OptWords, Fits, ParamsOf, Gather;
    var w := WordIf(s.negated, NOT, "NOT") + Held(s.like);
    var v := Word(ESCAPE, "ESCAPE");
    GatherOne(x);
    ParamsJoin(w + Words(s.y), OptWords(v, s.escape));
    Behind(w, Words(s.y));
    OptParams(v, s.escape);
    LastOf([x], s.y, w + Words(s.y));
    assert [x] + [s.y] == [x, s.y];
    GatherJoin([x, s.y], Optional(s.escape));
  }

  lemma LastOf(es: seq<Expr>, y: Expr, ws: seq<Emission.Item>)
    requires ParamsIn(ws) == ParamsIn(Words(y))
    ensures Gather(es + [y]) == Gather(es) + ParamsIn(ws)
  {
    hide Words, ParamsIn;
    GatherJoin(es, [y]);
    GatherOne(y);
  }

  lemma {:induction false} InParams(x: Expr, s: Suffix)
    requires s.In? && FitsTail(s)
    ensures ParamsOf(x) + ParamsIn(SuffixWords(s)) == Gather(Children(Apply(x, s)))
  {
    hide Words, ParamsIn, ListWords, Fits, Elements, ParamsOf, Gather;
    var w := WordIf(s.negated, NOT, "NOT") + Word(IN, "IN");
    Behind(w, TargetWords(s.target));
    GatherOne(x);
    match s.target {
      case InList(list) =>
        Around(Word(LP, "("), ListWords(list), Mark(RP, ")"));
        ListParams(list);
        GatherJoin([x], Elements(list));
      case InTable(table) => PlainNone(TableWords(table));
      case InTableArgs(table, args) =>
        Around(TableWords(table) + Mark(LP, "("), ListWords(args), Mark(RP, ")"));
        ListParams(args);
        GatherJoin([x], Elements(args));
    }
  }

  /** The parameters of a tree are itself, or those of its children, one after the other. */
  lemma {:induction false} ParamsAreChildrens(e: Expr)
    requires Fits(e)
    ensures ParamsOf(e) == if e.Atom? && e.p.BindParam? then [e.p.param.text] else Gather(Children(e))
  {
    hide ParamsIn, FitsPrimary, FitsTail, PrimaryWords, SuffixWords, Gather;
    match e
    case Atom(p) =>
      if p.BindParam? {
        OneParam(p);
      } else {
        PrimaryParams(p);
      }
    case Unary(pre, x) =>
      Behind(PrefixWord(pre), Words(x));
      GatherOne(x);
    case Apply(x, s) =>
      ParamsJoin(Words(x), SuffixWords(s));
      TailParams(x, s);
  }

  lemma OneParam(p: Primary)
    requires p.BindParam? && FitsPrimary(p)
    ensures ParamsIn(PrimaryWords(p)) == [p.param.text]
  {
    assert ParamsIn(PrimaryWords(p)[1..]) == [];
  }

  lemma HeadAt(input: Input, j: nat)
    requires input.WellFormed() && j < |input.toks| && input.From(j).Cons?
    ensures j + 1 < |input.toks| && input.From(j).head == input.At(j) && input.From(j).tail == input.From(j + 1)
  {
  }

  lemma {:induction false} SpelledParams(input: Input, ws: seq<Emission.Item>, j: nat)
    requires input.WellFormed() && j < |input.toks| && Spelled(ws, input.From(j), End)
    requires forall i :: 0 <= i < |ws| && ws[i].Fixed? ==> !ws[i].kind.VARIABLE?
    ensures input.Params(|input.toks| - 1) == input.Params(j) + ParamsIn(ws)
    decreases |ws|
  {
    hide Input.WellFormed, Input.From;
    if ws != [] {
      HeadAt(input, j);
      SpelledParams(input, ws[1..], j + 1);
    }
  }

  lemma {:induction false} WordsLinked(ws: seq<Emission.Item>)
    requires Links.Linked(Put(ws, Emission.Stop))
    ensures forall i :: 0 <= i < |ws| && ws[i].Fixed? ==> !ws[i].kind.VARIABLE?
  {
    if ws != [] {
      WordsLinked(ws[1..]);
    }
  }

  /** No parameter is lost and none is made up: those of an accepted tree, in order, are the
      parameter tokens of the input. */
  lemma {:induction false} ParametersConserved(input: Input, e: Expr, room: nat)
    requires input.WellFormed() && ParseWhole(input.From(0), room) == Ok(e, At(End))
    ensures input.Params(|input.toks| - 1) == ParamsOf(e)
  {
    hide ParseWhole, Need, Fits, Words, Spelled, ParamsIn, Emission.ExprItems, Put, Links.Linked, Input.From, Canon, Input.WellFormed;
    ParsesAsDeclared(input.From(0), room, e);
    FitsCanon(e);
    Links.StopFollows();
    Links.ExprLinked(e, Emission.Stop);
    WritesWords(e, Emission.Stop);
    WordsLinked(Words(e));
    SpelledParams(input, Words(e), 0);
    assert input.Params(0) == [];
  }

  function Deepest(es: seq<Expr>): nat {
    if es == [] then 0 else Max(Need(es[0]), Deepest(es[1..]))
  }

  lemma {:induction false} DeepestJoin(a: seq<Expr>, b: seq<Expr>)
    ensures Deepest(a + b) == Max(Deepest(a), Deepest(b))
  {
    hide Need;
    if a == [] {
      assert a + b == b;
    } else {
      assert (a + b)[1..] == a[1..] + b;
      DeepestJoin(a[1..], b);
    }
  }

  lemma DeepestOne(x: Expr)
    ensures Deepest([x]) == Need(x)
  {
    hide Need;
    assert Deepest([x][1..]) == 0;
  }

  lemma {:induction false} ListDeepest(es: Exprs)
    ensures Deepest(Elements(es)) == NeedList(es)
    decreases es
  {
    hide Need;
    if es.More? {
      ListDeepest(es.tail);
      DeepestOne(es.head);
      DeepestJoin([es.head], Elements(es.tail));
    }
  }

  lemma {:induction false} ArmsDeepest(ws: Whens)
    ensures Deepest(Arms(ws)) == NeedWhens(ws)
    decreases ws
  {
    hide Need;
    if ws.When? {
      ArmsDeepest(ws.rest);
      PairDeepest(ws.cond, ws.value);
      DeepestJoin([ws.cond, ws.value], Arms(ws.rest));
    }
  }

  lemma PairDeepest(x: Expr, y: Expr)
    ensures Deepest([x, y]) == Max(Need(x), Need(y))
  {
    hide Need;
    assert [x, y] == [x] + [y];
    DeepestOne(x);
    DeepestOne(y);
    DeepestJoin([x], [y]);
  }

  lemma {:induction false} OptDeepest(o: OptExpr)
    ensures Deepest(Optional(o)) == NeedOpt(o)
  {
    if o.Some? {
      DeepestOne(o.expr);
    }
  }

  lemma {:induction false} PrimaryDeepest(p: Primary)
    ensures Deepest(Children(Atom(p))) == PrimaryNeed(p)
  {
    hide Need, Deepest, Elements, Arms, NeedList, NeedWhens, NeedOpt;
    NoneDeepest();
    match p
    case Case(operand, whens, otherwise) =>
      OptDeepest(operand);
      ArmsDeepest(whens);
      OptDeepest(otherwise);
      DeepestJoin(Optional(operand), Arms(whens));
      DeepestJoin(Optional(operand) + Arms(whens), Optional(otherwise));
    case Bracket(list) => ListDeepest(list);
    case Call(_, args) => if args.Args? { ListDeepest(args.list); }
    case _ =>
  }

  lemma NoneDeepest()
    ensures Deepest([]) == 0
  {
  }

  lemma {:induction false} TailDeepest(x: Expr, s: Suffix)
    ensures Children(Apply(x, s)) != [] && Children(Apply(x, s))[0] == x
    ensures Deepest(Children(Apply(x, s))[1..]) == SuffixNeed(s)
  {
    hide Need, Deepest, Elements, NeedList, NeedOpt;
    NoneDeepest();
    var rest := Children(Apply(x, s))[1..];
    match s
    case Binary(_, y) => DeepestOne(y); assert rest == [y];
    case Collate(_) => assert rest == [];
    case Like(_, _, y, escape) =>
      DeepestOne(y);
      OptDeepest(escape);
      DeepestJoin([y], Optional(escape));
      assert rest == [y] + Optional(escape);
    case Is(_, _, y) => DeepestOne(y); assert rest == [y];
    case NullCheck(_) => assert rest == [];
    case Between(_, lo, hi) => PairDeepest(lo, hi); assert rest == [lo, hi];
    case In(_, InList(list)) => ListDeepest(list); assert rest == Elements(list);
    case In(_, InTable(_)) => assert rest == [];
    case In(_, InTableArgs(_, args)) => ListDeepest(args); assert rest == Elements(args);
  }

  /** The nesting a tree costs: one level for every child inside another, whatever the form, but
      none for the left operand of an operator. */
  lemma {:induction false} LevelPerChild(e: Expr)
    ensures Need(e) == if e.Apply? then Max(Need(e.x), 1 + Deepest(Children(e)[1..])) else 1 + Deepest(Children(e))
    ensures e.Apply? ==> |Children(e)| > 0 && Children(e)[0] == e.x
  {
    hide Deepest, Children, PrimaryNeed, SuffixNeed;
    match e
    case Atom(p) => PrimaryDeepest(p);
    case Unary(_, x) => UnaryDeepest(e);
    case Apply(x, s) => TailDeepest(x, s);
  }

  lemma UnaryDeepest(e: Expr)
    requires e.Unary?
    ensures Deepest(Children(e)) == Need(e.x)
  {
    hide Need;
    DeepestOne(e.x);
  }
}
