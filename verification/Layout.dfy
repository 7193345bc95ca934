/** Where every node of an expression lies in the source (ast.Span, parser/parser.go:462-473). */
module Layout {
  import opened Token
  import opened Ast
  import opened Grammar
  import opened Canonical
  import Binds

  datatype Span = Span(start: nat, stop: nat)

  /** An expression node with its span. `from` and `to` name the tokens it was read from,
      `number` is that of a parameter, and `kids` are its child expressions in order. */
  datatype Node = Node(span: Span, from: nat, to: nat, expr: Expr, number: int, kids: seq<Node>)

  /** A source text and its tokens. */
  datatype Input = Input(src: string, toks: seq<SourceToken>) {
    /** Closed by its only EOF, every other token a non-empty stretch of the source. */
    predicate WellFormed() {
      && |toks| > 0 && toks[|toks| - 1].kind.EOF?
      && (forall j :: 0 <= j < |toks| ==> toks[j].pos <= toks[j].end <= |src|)
      && (forall j :: 0 <= j < |toks| - 1 ==> !toks[j].kind.EOF? && toks[j].pos < toks[j].end)
    }

    /** No token reaches into a later one. */
    predicate InOrder() {
      forall i, j :: 0 <= i < j < |toks| ==> toks[i].end <= toks[j].pos
    }

    function Text(j: nat): string
      requires WellFormed() && j < |toks|
    {
      src[toks[j].pos..toks[j].end]
    }

    function At(j: nat): Lexeme
      requires WellFormed() && j < |toks|
    {
      Lexeme(toks[j].kind, Text(j))
    }

    /** The tokens from index `j` on. */
    function From(j: nat): (ts: Toks)
      requires WellFormed() && j < |toks|
      ensures Len(ts) == |toks| - 1 - j
      ensures Cur(ts) == toks[j].kind && Peek(ts) == toks[if j + 1 < |toks| then j + 1 else j].kind
      decreases |toks| - j
    {
      if j == |toks| - 1 then End else Cons(At(j), From(j + 1))
    }

    /** The tokens from `j` up to `k`, closed by an EOF of their own. */
    function Slice(j: nat, k: nat): Toks
      requires WellFormed() && j <= k < |toks|
      decreases k - j
    {
      if j == k then End else Cons(At(j), Slice(j + 1, k))
    }

    /** The index of the lookahead of `ts`. */
    function Index(ts: Toks): int { |toks| - 1 - Len(ts) }

    /** From the first token of `ts` to the token before `k`. */
    function SpanOf(ts: Toks, k: Toks): Span {
      if 0 <= Index(ts) < Index(k) <= |toks| - 1 then Span(toks[Index(ts)].pos, toks[Index(k) - 1].end) else Span(0, 0)
    }

    /** The parameter numbers after the first `j` tokens. */
    function NumbersAt(j: nat): Binds.Numbers
      requires WellFormed() && j < |toks|
    {
      if j == 0 then Binds.NONE
      else if toks[j - 1].kind.VARIABLE? then Binds.Bind(NumbersAt(j - 1), Text(j - 1))
      else NumbersAt(j - 1)
    }

    /** The parameters among the first `j` tokens. */
    function Params(j: nat): seq<string>
      requires WellFormed() && j < |toks|
    {
      if j == 0 then []
      else Params(j - 1) + (if toks[j - 1].kind.VARIABLE? then [Text(j - 1)] else [])
    }

    function ParamNumber(e: Expr, ts: Toks): int
      requires WellFormed()
    {
      if e.Atom? && e.p.BindParam? && 0 <= Index(ts) then Binds.NumberOf(NumbersAt(Index(ts)), e.p.param.text) else 0
    }

    /** `e`, read at `ts`, with the span of every node. */
    function Place(e: Expr, ts: Toks): Node
      requires WellFormed()
      decreases e, 1
    {
      var k := After(Reads(e, ts));
      Node(SpanOf(ts, k), if Index(ts) < 0 then 0 else Index(ts), if Index(k) < 0 then 0 else Index(k),
           e, ParamNumber(e, ts), PlaceKids(e, ts))
    }

    function PlaceKids(e: Expr, ts: Toks): seq<Node>
      requires WellFormed()
      decreases e, 0
    {
      match e
      case Atom(p) => PlacePrimary(p, ts)
      case Unary(_, x) => [Place(x, Drop(1, ts))]
      case Apply(x, s) => [Place(x, ts)] + PlaceSuffix(s, After(Reads(x, ts)))
    }

    function PlacePrimary(p: Primary, ts: Toks): seq<Node>
      requires WellFormed()
      decreases p
    {
      match p
      case Case(operand, whens, otherwise) =>
        var t1 := Drop(1, ts);
        var t2 := After(ReadsOperand(operand, t1));
        var t3 := After(ReadsWhens(whens, t2));
        PlaceOpt(operand, t1) + PlaceWhens(whens, t2) + PlaceOpt(otherwise, Drop(1, t3))
      case Bracket(list) => PlaceList(list, Drop(1, ts))
      case Call(_, args) => if args.Args? then PlaceList(args.list, ArgsStart(args.quantifier, Drop(2, ts))) else []
      case _ => []
    }

    function PlaceOpt(o: OptExpr, ts: Toks): seq<Node>
      requires WellFormed()
      decreases o
    {
      if o.Some? then [Place(o.expr, ts)] else []
    }

    function PlaceList(es: Exprs, ts: Toks): seq<Node>
      requires WellFormed()
      decreases es
    {
      match es
      case Nil => []
      case More(e, rest) => [Place(e, ts)] + PlaceList(rest, Drop(1, After(Reads(e, ts))))
    }

    function PlaceWhens(ws: Whens, ts: Toks): seq<Node>
      requires WellFormed()
      decreases ws
    {
      match ws
      case NoWhens => []
      case When(cond, value, rest) =>
        var t1 := Drop(1, ts);
        var t2 := Drop(1, After(Reads(cond, t1)));
        [Place(cond, t1), Place(value, t2)] + PlaceWhens(rest, After(Reads(value, t2)))
    }

    function PlaceSuffix(s: Suffix, ts: Toks): seq<Node>
      requires WellFormed()
      decreases s
    {
      match s
      case Binary(_, y) => [Place(y, Drop(1, ts))]
      case Like(negated, _, y, escape) =>
        var t1 := Drop(if negated then 2 else 1, ts);
        [Place(y, t1)] + PlaceOpt(escape, Drop(1, After(Reads(y, t1))))
      case Is(negated, distinct, y) => [Place(y, IsStart(negated, distinct, ts))]
      case Between(negated, lo, hi) =>
        var t1 := Drop(if negated then 2 else 1, ts);
        [Place(lo, t1), Place(hi, Drop(1, After(Reads(lo, t1))))]
      case In(negated, target) => PlaceTarget(target, Drop(if negated then 2 else 1, ts))
      case _ => []
    }

    function PlaceTarget(target: InSet, ts: Toks): seq<Node>
      requires WellFormed()
      decreases target
    {
      match target
      case InList(list) => PlaceList(list, Drop(1, ts))
      case InTable(_) => []
      case InTableArgs(table, args) => PlaceList(args, Drop(1, After(ReadsTable(table, ts))))
    }
  }

  /** The numbers known at a token are those of the run of parameters before it. */
  lemma {:induction false} NumbersAreOfRun(input: Input, j: nat)
    requires input.WellFormed() && j < |input.toks|
    ensures input.NumbersAt(j) == Binds.After(input.Params(j))
  {
    if j > 0 {
      NumbersAreOfRun(input, j - 1);
      if input.toks[j - 1].kind.VARIABLE? {
        Binds.GivenLast(input.Params(j - 1), input.Text(j - 1));
      } else {
        assert input.Params(j) == input.Params(j - 1) + [] == input.Params(j - 1);
      }
    }
  }

  /** How each kind of node is placed, once its parts are. `k` is what follows the node. */
  lemma {:induction false} AtomPlaced(input: Input, p: Primary, ts: Toks, k: Toks)
    requires input.WellFormed() && ReadsPrimary(p, ts) == To(k)
    requires 0 <= input.Index(ts) < input.Index(k) < |input.toks|
    ensures input.Place(Atom(p), ts) ==
            Node(Span(input.toks[input.Index(ts)].pos, input.toks[input.Index(k) - 1].end), input.Index(ts), input.Index(k),
                 Atom(p), input.ParamNumber(Atom(p), ts), input.PlacePrimary(p, ts))
  {
    hide ReadsPrimary, Input.PlacePrimary;
    assert Reads(Atom(p), ts) == To(k);
  }

  lemma {:induction false} UnaryPlaced(input: Input, pre: Prefix, x: Expr, ts: Toks, k: Toks)
    requires input.WellFormed() && ts.Cons? && ts.head.kind == PrefixKind(pre) && Reads(x, ts.tail) == To(k)
    requires 0 <= input.Index(ts) < input.Index(k) - 1 < |input.toks| - 1
    ensures var n := input.Place(x, ts.tail);
            && n.span.stop == input.toks[input.Index(k) - 1].end
            && input.Place(Unary(pre, x), ts) ==
               Node(Span(input.toks[input.Index(ts)].pos, n.span.stop), input.Index(ts), input.Index(k), Unary(pre, x), 0, [n])
  {
    assert Reads(Unary(pre, x), ts) == To(k);
    assert Drop(1, ts) == ts.tail;
    hide Reads;
  }

  lemma {:induction false} ApplyPlaced(input: Input, x: Expr, s: Suffix, ts: Toks, k0: Toks, k: Toks)
    requires input.WellFormed() && Reads(x, ts) == To(k0) && ReadsSuffix(s, k0) == To(k)
    requires 0 <= input.Index(ts) < input.Index(k0) < input.Index(k) < |input.toks|
    ensures var n := input.Place(x, ts);
            input.Place(Apply(x, s), ts) ==
            Node(Span(n.span.start, input.toks[input.Index(k) - 1].end), n.from, input.Index(k),
                 Apply(x, s), 0, [n] + input.PlaceSuffix(s, k0))
  {
    hide Reads, ReadsSuffix, Input.PlaceSuffix;
    ApplyReads(x, s, ts);
  }

  lemma {:induction false} ApplyReads(x: Expr, s: Suffix, ts: Toks)
    ensures Reads(Apply(x, s), ts) == if Reads(x, ts).To? then ReadsSuffix(s, Reads(x, ts).ts) else NoMatch
  {
  }

  /** An operand's span ends with the token before what follows it. */
  lemma {:induction false} PlacedEnd(input: Input, e: Expr, ts: Toks, k: Toks)
    requires input.WellFormed() && Reads(e, ts) == To(k) && 0 <= input.Index(ts) < input.Index(k) < |input.toks|
    ensures var n := input.Place(e, ts);
            && n.span == Span(input.toks[input.Index(ts)].pos, input.toks[input.Index(k) - 1].end)
            && n.from == input.Index(ts) && n.to == input.Index(k) && n.expr == e
  {
    hide Reads, Input.PlaceKids;
  }

  lemma PlacedExpr(input: Input, e: Expr, ts: Toks)
    requires input.WellFormed()
    ensures input.Place(e, ts).expr == e
  {
    hide Reads, Input.PlaceKids;
  }

  /** One token further on, and two. */
  lemma {:induction false} DropFew(ts: Toks)
    ensures ts.Cons? ==> Drop(1, ts) == ts.tail
    ensures ts.Cons? && ts.tail.Cons? ==> Drop(2, ts) == ts.tail.tail
  {
    if ts.Cons? {
      assert Drop(0, ts.tail) == ts.tail;
      if ts.tail.Cons? {
        assert Drop(0, ts.tail.tail) == ts.tail.tail;
        assert Drop(1, ts.tail) == ts.tail.tail;
      }
    }
  }

  /** The arguments of a call. */
  lemma CallPlaced(input: Input, name: Lexeme, args: CallArgs, ts: Toks, t2: Toks)
    requires input.WellFormed() && ts.Cons? && ts.tail.Cons? && t2 == ts.tail.tail
    ensures input.PlacePrimary(Call(name, args), ts) ==
            if args.Args? then input.PlaceList(args.list, ArgsStart(args.quantifier, t2)) else []
  {
    hide Input.PlaceList;
    DropFew(ts);
  }

  /** The bounds of a BETWEEN. */
  lemma {:induction false} BetweenPlaced(input: Input, s: Suffix, ts: Toks, t1: Toks, t2: Toks)
    requires input.WellFormed() && s.Between? && Drop(if s.negated then 2 else 1, ts) == t1 && Reads(s.lo, t1) == To(t2) && t2.Cons?
    ensures input.PlaceSuffix(s, ts) == [input.Place(s.lo, t1), input.Place(s.hi, t2.tail)]
  {
    hide Input.Place, Reads;
    assert Drop(1, t2) == t2.tail;
  }

  /** `n` tokens further on. */
  function Drop(n: nat, ts: Toks): Toks { if n == 0 || ts.End? then ts else Drop(n - 1, ts.tail) }

  function ArgsStart(q: Quantifier, ts: Toks): Toks { Drop(if q.NoQuantifier? then 0 else 1, ts) }

  function IsStart(negated: bool, distinct: bool, ts: Toks): Toks {
    Drop((if negated then 2 else 1) + (if distinct then 2 else 0), ts)
  }
}
