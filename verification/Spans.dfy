/** Exact spans and slice stability: every node covers exactly the tokens it was read from,
    children lie inside their parent in order, and the tokens under any node parse to it. */
module Spans {
  import opened Token
  import opened Ast
  import opened Engine
  import opened Grammar
  import opened Canonical
  import opened Forms
  import opened Completeness
  import opened ExactImage
  import opened Emission
  import opened Layout

  /** The children lie between the tokens `lo` and `hi`, one after the other. */
  predicate InRow(kids: seq<Node>, lo: int, hi: int) {
    if kids == [] then lo <= hi
    else lo <= kids[0].from && InRow(kids[1..], kids[0].to, hi)
  }

  /** The node is placed where it was read, its span is that of its tokens, parsing those alone
      gives the node's expression, and the same holds of its children, which lie inside it in order. */
  ghost predicate Tidy(input: Input, n: Node, room: nat)
    requires input.WellFormed()
    decreases n
  {
    && n.from < n.to < |input.toks|
    && n.span == Span(input.toks[n.from].pos, input.toks[n.to - 1].end)
    && n == input.Place(n.expr, input.From(n.from))
    && ParseWhole(input.Slice(n.from, n.to), room) == Ok(n.expr, At(End))
    && InRow(n.kids, n.from, n.to)
    && forall j :: 0 <= j < |n.kids| ==> Tidy(input, n.kids[j], room)
  }

  ghost predicate Rowed(input: Input, kids: seq<Node>, lo: int, hi: int, room: nat)
    requires input.WellFormed()
  {
    InRow(kids, lo, hi) && forall j :: 0 <= j < |kids| ==> Tidy(input, kids[j], room)
  }

  lemma RowEmpty(input: Input, lo: int, hi: int, room: nat)
    requires input.WellFormed() && lo <= hi
    ensures Rowed(input, [], lo, hi, room)
  {
  }

  lemma RowOne(input: Input, n: Node, lo: int, hi: int, room: nat)
    requires input.WellFormed() && Tidy(input, n, room) && lo <= n.from && n.to <= hi
    ensures Rowed(input, [n], lo, hi, room)
  {
    hide Tidy;
    assert InRow([n][1..], n.to, hi);
  }

  lemma {:induction false} RowJoin(input: Input, a: seq<Node>, b: seq<Node>, lo: int, m1: int, m2: int, hi: int, room: nat)
    requires input.WellFormed() && Rowed(input, a, lo, m1, room) && Rowed(input, b, m2, hi, room) && m1 <= m2
    ensures Rowed(input, a + b, lo, hi, room)
  {
    hide Tidy;
    Widen(b, m2, m1, hi);
    if a == [] {
      Widen(b, m1, lo, hi);
      assert a + b == b;
    } else {
      assert (a + b)[1..] == a[1..] + b;
      RowJoin(input, a[1..], b, a[0].to, m1, m2, hi, room);
    }
  }

  lemma RowTwo(input: Input, x: Node, y: Node, lo: int, hi: int, room: nat)
    requires input.WellFormed() && Tidy(input, x, room) && Tidy(input, y, room)
    requires lo <= x.from && x.to <= y.from && y.to <= hi
    ensures Rowed(input, [x, y], lo, hi, room)
  {
    hide Tidy, Rowed;
    RowOne(input, x, lo, x.to, room);
    RowOne(input, y, y.from, hi, room);
    RowJoin(input, [x], [y], lo, x.to, y.from, hi, room);
    assert [x, y] == [x] + [y];
  }

  lemma Widen(kids: seq<Node>, lo: int, lo2: int, hi: int)
    requires InRow(kids, lo, hi) && lo2 <= lo
    ensures InRow(kids, lo2, hi)
  {
  }

  function Count(items: Items): nat {
    if items.Stop? then 0 else 1 + Count(items.rest)
  }

  /** Reading items off the tokens from `a` on stays within the tokens, and cutting the rest
      off changes nothing. */
  lemma {:induction false} ReadAllSlice(input: Input, items: Items, a: nat, m: nat)
    requires input.WellFormed() && a < |input.toks| && ReadAll(items, input.From(a)).To?
    ensures var b := a + Count(items);
            && b < |input.toks| && ReadAll(items, input.From(a)) == To(input.From(b))
            && (b <= m < |input.toks| ==> ReadAll(items, input.Slice(a, m)) == To(input.Slice(b, m)))
  {
    if items.Then? {
      ReadAllSlice(input, items.rest, a + 1, m);
    }
  }

  lemma {:induction false} ReadsSlice(input: Input, e: Expr, a: nat) returns (b: nat)
    requires input.WellFormed() && a < |input.toks| && Reads(e, input.From(a)).To?
    ensures a < b < |input.toks| && Reads(e, input.From(a)) == To(input.From(b))
    ensures Reads(e, input.Slice(a, b)) == To(End)
  {
    hide Reads, Input.From, ExprItems;
    ItemsRead(e, Stop, input.From(a));
    StopBinds(Reads(e, input.From(a)));
    b := a + Count(ExprItems(e, Stop));
    ReadAllSlice(input, ExprItems(e, Stop), a, b);
    ItemsRead(e, Stop, input.Slice(a, b));
    StopBinds(Reads(e, input.Slice(a, b)));
    EmitReads(e);
    StartIsFirst(e, Emit(e));
  }

  /** The tokens under a node parse to its expression. */
  lemma NodeTidy(input: Input, e: Expr, a: nat, b: nat, room: nat)
    requires input.WellFormed() && a < b < |input.toks| && Reads(e, input.From(a)) == To(input.From(b))
    requires Reads(e, input.Slice(a, b)) == To(End) && Canon(e) && Need(e) <= room
    requires Rowed(input, input.PlaceKids(e, input.From(a)), a, b, room)
    ensures var n := input.Place(e, input.From(a));
            Tidy(input, n, room) && n.from == a && n.to == b
  {
    hide Reads, ParseWhole, Canon, Need, Input.PlaceKids;
    WholeCharacterized(input.Slice(a, b), room, e);
  }

  lemma FromStep(input: Input, a: nat)
    requires input.WellFormed() && a < |input.toks| && input.From(a).Cons?
    ensures a + 1 < |input.toks| && input.From(a).tail == input.From(a + 1) && Drop(1, input.From(a)) == input.From(a + 1)
  {
    assert Drop(0, input.From(a).tail) == input.From(a).tail;
  }

  /** Every node the parser builds is tidy. */
  lemma {:induction false} PlaceTidy(input: Input, e: Expr, a: nat, room: nat) returns (b: nat)
    requires input.WellFormed() && a < |input.toks| && Reads(e, input.From(a)).To?
    requires Canon(e) && Need(e) <= room
    ensures a < b < |input.toks| && Reads(e, input.From(a)) == To(input.From(b))
    ensures var n := input.Place(e, input.From(a));
            Tidy(input, n, room) && n.from == a && n.to == b
    decreases e, 1
  {
    hide Reads, Canon, Need, Tidy, Rowed, Input.Place, Input.PlaceKids, Input.From, Input.Slice;
    b := ReadsSlice(input, e, a);
    KidsTidy(input, e, a, b, room);
    NodeTidy(input, e, a, b, room);
  }

  lemma {:induction false} KidsTidy(input: Input, e: Expr, a: nat, b: nat, room: nat)
    requires input.WellFormed() && a < b < |input.toks| && Reads(e, input.From(a)) == To(input.From(b))
    requires Canon(e) && Need(e) <= room
    ensures Rowed(input, input.PlaceKids(e, input.From(a)), a, b, room)
    decreases e, 0
  {
    hide ReadsPrimary, CanonPrimary, PrimaryNeed, ReadsSuffix, CanonSuffix, SuffixNeed, Tidy, Rowed, Input.Place, Input.PlacePrimary, Input.PlaceSuffix, Input.From;
    match e {
      case Atom(p) =>
        PrimaryTidy(input, p, a, b, room);
      case Unary(_, x) =>
        FromStep(input, a);
        var k := PlaceTidy(input, x, a + 1, room);
        assert input.From(k) == input.From(b);
        RowOne(input, input.Place(x, input.From(a + 1)), a, b, room);
      case Apply(x, s) =>
        var k := PlaceTidy(input, x, a, room);
        SuffixTidy(input, s, k, b, room);
        RowOne(input, input.Place(x, input.From(a)), a, k, room);
        RowJoin(input, [input.Place(x, input.From(a))], input.PlaceSuffix(s, input.From(k)), a, k, k, b, room);
    }
  }

  /** An optional expression at token `a`. */
  lemma {:induction false} OptTidy(input: Input, o: OptExpr, a: nat, room: nat) returns (b: nat)
    requires input.WellFormed() && a < |input.toks| && ReadsOperand(o, input.From(a)).To?
    requires CanonOpt(o) && NeedOpt(o) <= room
    ensures a <= b < |input.toks| && ReadsOperand(o, input.From(a)) == To(input.From(b))
    ensures Rowed(input, input.PlaceOpt(o, input.From(a)), a, b, room)
    decreases o
  {
    hide Reads, Canon, Need, Tidy, Rowed, Input.Place, Input.From, Input.WellFormed;
    if o.Some? {
      b := PlaceTidy(input, o.expr, a, room);
      RowOne(input, input.Place(o.expr, input.From(a)), a, b, room);
    } else {
      b := a;
      RowEmpty(input, a, a, room);
    }
  }

  /** A keyword and an expression, or nothing. */
  lemma {:induction false} ClauseTidy(input: Input, kw: Kind, o: OptExpr, a: nat, room: nat) returns (b: nat)
    requires input.WellFormed() && a < |input.toks| && ReadsOpt(kw, o, input.From(a)).To?
    requires CanonOpt(o) && NeedOpt(o) <= room
    ensures a <= b < |input.toks| && ReadsOpt(kw, o, input.From(a)) == To(input.From(b))
    ensures Rowed(input, input.PlaceOpt(o, Drop(1, input.From(a))), a, b, room)
    decreases o
  {
    hide Reads, Canon, Need, Tidy, Rowed, Input.Place, Input.From, Input.WellFormed;
    if o.Some? {
      FromStep(input, a);
      b := PlaceTidy(input, o.expr, a + 1, room);
      RowOne(input, input.Place(o.expr, input.From(a + 1)), a, b, room);
    } else {
      b := a;
      RowEmpty(input, a, a, room);
    }
  }

  lemma {:induction false} ListTidy(input: Input, es: Exprs, a: nat, room: nat) returns (b: nat)
    requires input.WellFormed() && a < |input.toks| && ReadsList(es, input.From(a)).To?
    requires CanonList(es) && NeedList(es) <= room
    ensures a <= b < |input.toks| && ReadsList(es, input.From(a)) == To(input.From(b))
    ensures Rowed(input, input.PlaceList(es, input.From(a)), a, b, room)
    decreases es, 0
  {
    hide Reads, Canon, Need, Tidy, Rowed, Input.Place, Input.From, Input.WellFormed;
    if es.Nil? {
      b := a;
      RowEmpty(input, a, a, room);
    } else {
      var n := input.Place(es.head, input.From(a));
      var k := PlaceTidy(input, es.head, a, room);
      RowOne(input, n, a, k, room);
      if es.tail.Nil? {
        b := k;
        assert input.PlaceList(es, input.From(a)) == [n];
      } else {
        FromStep(input, k);
        b := ListTidy(input, es.tail, k + 1, room);
        RowJoin(input, [n], input.PlaceList(es.tail, input.From(k + 1)), a, k, k + 1, b, room);
      }
    }
  }

  lemma {:induction false} WhensTidy(input: Input, ws: Whens, a: nat, room: nat) returns (b: nat)
    requires input.WellFormed() && a < |input.toks| && ReadsWhens(ws, input.From(a)).To?
    requires CanonWhens(ws) && NeedWhens(ws) <= room
    ensures a <= b < |input.toks| && ReadsWhens(ws, input.From(a)) == To(input.From(b))
    ensures Rowed(input, input.PlaceWhens(ws, input.From(a)), a, b, room)
    decreases ws
  {
    hide Reads, Canon, Need, Tidy, Rowed, Input.Place, Input.From, Input.WellFormed;
    if ws.NoWhens? {
      b := a;
      RowEmpty(input, a, a, room);
    } else {
      FromStep(input, a);
      var k1 := PlaceTidy(input, ws.cond, a + 1, room);
      var c := input.Place(ws.cond, input.From(a + 1));
      FromStep(input, k1);
      var k2 := PlaceTidy(input, ws.value, k1 + 1, room);
      var v := input.Place(ws.value, input.From(k1 + 1));
      b := WhensTidy(input, ws.rest, k2, room);
      RowTwo(input, c, v, a, k2, room);
      RowJoin(input, [c, v], input.PlaceWhens(ws.rest, input.From(k2)), a, k2, k2, b, room);
    }
  }

  lemma {:induction false} PrimaryTidy(input: Input, p: Primary, a: nat, b: nat, room: nat)
    requires input.WellFormed() && a < b < |input.toks| && ReadsPrimary(p, input.From(a)) == To(input.From(b))
    requires CanonPrimary(p) && PrimaryNeed(p) <= room
    ensures Rowed(input, input.PlacePrimary(p, input.From(a)), a, b, room)
    decreases p
  {
    hide ReadsList, CanonList, NeedList, ReadsArgs, Tidy, Rowed, Input.Place, Input.PlaceList, Input.From;
    match p {
      case Case(_, _, _) => CaseTidy(input, p, a, b, room);
      case Bracket(list) => BracketTidy(input, list, a, b, room);
      case Call(_, args) => CallTidy(input, p, a, b, room);
      case _ => RowEmpty(input, a, b, room);
    }
  }

  lemma {:induction false} CaseTidy(input: Input, p: Primary, a: nat, b: nat, room: nat)
    requires p.Case?
    requires input.WellFormed() && a < b < |input.toks| && ReadsPrimary(p, input.From(a)) == To(input.From(b))
    requires CanonPrimary(p) && PrimaryNeed(p) <= room
    ensures Rowed(input, input.PlacePrimary(p, input.From(a)), a, b, room)
    decreases p, 0
  {
    hide ReadsOperand, CanonOpt, NeedOpt, ReadsWhens, CanonWhens, NeedWhens, ReadsOpt, Tidy, Rowed, Input.Place, Input.PlaceOpt, Input.PlaceWhens, Input.From;
    FromStep(input, a);
    var k1 := OptTidy(input, p.operand, a + 1, room);
    var k2 := WhensTidy(input, p.whens, k1, room);
    var k3 := ClauseTidy(input, ELSE, p.otherwise, k2, room);
    FromStep(input, k3);
    RowJoin(input, input.PlaceOpt(p.operand, input.From(a + 1)), input.PlaceWhens(p.whens, input.From(k1)), a + 1, k1, k1, k2, room);
    RowJoin(input, input.PlaceOpt(p.operand, input.From(a + 1)) + input.PlaceWhens(p.whens, input.From(k1)),
            input.PlaceOpt(p.otherwise, Drop(1, input.From(k2))), a + 1, k2, k2, k3, room);
    RowWiden(input, input.PlacePrimary(p, input.From(a)), a + 1, k3, a, b, room);
  }

  lemma {:induction false} RowWiden(input: Input, kids: seq<Node>, lo: int, hi: int, lo2: int, hi2: int, room: nat)
    requires input.WellFormed() && Rowed(input, kids, lo, hi, room) && lo2 <= lo && hi <= hi2
    ensures Rowed(input, kids, lo2, hi2, room)
  {
    hide Tidy;
    RowEmpty(input, hi, hi2, room);
    RowJoin(input, kids, [], lo, hi, hi, hi2, room);
    assert kids + [] == kids;
    Widen(kids, lo, lo2, hi2);
  }

  lemma {:induction false} BracketTidy(input: Input, list: Exprs, a: nat, b: nat, room: nat)
    requires input.WellFormed() && a < b < |input.toks| && ReadsPrimary(Bracket(list), input.From(a)) == To(input.From(b))
    requires CanonList(list) && NeedList(list) <= room
    ensures Rowed(input, input.PlacePrimary(Bracket(list), input.From(a)), a, b, room)
    decreases list, 1
  {
    hide ReadsList, CanonList, NeedList, Tidy, Rowed, Input.Place, Input.PlaceList, Input.From;
    FromStep(input, a);
    var k := ListTidy(input, list, a + 1, room);
    FromStep(input, k);
    RowWiden(input, input.PlaceList(list, input.From(a + 1)), a + 1, k, a, b, room);
  }

  lemma {:induction false} CallTidy(input: Input, p: Primary, a: nat, b: nat, room: nat)
    requires p.Call?
    requires input.WellFormed() && a < b < |input.toks| && ReadsPrimary(p, input.From(a)) == To(input.From(b))
    requires CanonPrimary(p) && PrimaryNeed(p) <= room
    ensures Rowed(input, input.PlacePrimary(p, input.From(a)), a, b, room)
    decreases p, 0
  {
    hide ReadsPrimary, CanonPrimary, PrimaryNeed, ReadsList, CanonList, NeedList, ReadsArgs, ArgsStart, Drop, Tidy, Rowed, Input.Place, Input.PlacePrimary, Input.PlaceList, Input.From, Input.WellFormed;
    CallReads(p, input.From(a), room);
    FromStep(input, a);
    FromStep(input, a + 1);
    CallPlaced(input, p.name, p.args, input.From(a), input.From(a + 2));
    if p.args.Args? {
      var k, k2 := ArgsTidy(input, p.args, a + 2, room);
      FromStep(input, k2);
      RowWiden(input, input.PlaceList(p.args.list, input.From(k)), k, k2, a, b, room);
    } else {
      RowEmpty(input, a, b, room);
    }
  }

  /** A call's tokens one by one. */
  lemma CallReads(p: Primary, ts: Toks, room: nat)
    requires p.Call? && ReadsPrimary(p, ts).To? && CanonPrimary(p) && PrimaryNeed(p) <= room
    ensures ts.Cons? && ts.tail.Cons? && ReadsArgs(p.args, ts.tail.tail).To?
    ensures Take(RP, ReadsArgs(p.args, ts.tail.tail).ts) == ReadsPrimary(p, ts)
    ensures p.args.Args? ==> CanonList(p.args.list) && NeedList(p.args.list) <= room
  {
    hide ReadsArgs, CanonList, NeedList;
  }

  lemma {:induction false} ArgsTidy(input: Input, args: CallArgs, a: nat, room: nat) returns (k: nat, b: nat)
    requires args.Args? && input.WellFormed() && a < |input.toks| && ReadsArgs(args, input.From(a)).To?
    requires CanonList(args.list) && NeedList(args.list) <= room
    ensures a <= k <= b < |input.toks| && ReadsArgs(args, input.From(a)) == To(input.From(b))
    ensures ArgsStart(args.quantifier, input.From(a)) == input.From(k)
    ensures Rowed(input, input.PlaceList(args.list, input.From(k)), k, b, room)
    decreases args
  {
    hide ReadsList, CanonList, NeedList, Tidy, Rowed, Input.Place, Input.PlaceList, Input.From;
    k := a;
    if !args.quantifier.NoQuantifier? {
      FromStep(input, a);
      k := a + 1;
    }
    b := ListTidy(input, args.list, k, room);
  }

  lemma {:induction false} SuffixTidy(input: Input, s: Suffix, a: nat, b: nat, room: nat)
    requires input.WellFormed() && a < |input.toks| && b < |input.toks| && ReadsSuffix(s, input.From(a)) == To(input.From(b))
    requires CanonSuffix(s) && SuffixNeed(s) <= room
    ensures a < b && Rowed(input, input.PlaceSuffix(s, input.From(a)), a, b, room)
    decreases s
  {
    match s {
      case Like(_, _, _, _) => LikeTidy(input, s, a, b, room);
      case Is(_, _, _) => IsTidy(input, s, a, b, room);
      case Between(_, _, _) => BetweenTidy(input, s, a, b, room);
      case In(_, _) => InTidy(input, s, a, b, room);
      case _ => ShortTidy(input, s, a, b, room);
    }
  }

  lemma {:induction false} ShortTidy(input: Input, s: Suffix, a: nat, b: nat, room: nat)
    requires s.Binary? || s.Collate? || s.NullCheck?
    requires input.WellFormed() && a < |input.toks| && b < |input.toks| && ReadsSuffix(s, input.From(a)) == To(input.From(b))
    requires CanonSuffix(s) && SuffixNeed(s) <= room
    ensures a < b && Rowed(input, input.PlaceSuffix(s, input.From(a)), a, b, room)
    decreases s, 0
  {
    hide Reads, Canon, Need, Spine, Tidy, Rowed, Input.Place, Input.From;
    FromStep(input, a);
    if s.Binary? {
      var k := PlaceTidy(input, s.y, a + 1, room);
      RowOne(input, input.Place(s.y, input.From(a + 1)), a, b, room);
    } else {
      RowEmpty(input, a, b, room);
    }
  }

  /** The optional NOT before an operator. */
  lemma {:induction false} NotStep(input: Input, negated: bool, a: nat) returns (k: nat)
    requires input.WellFormed() && a < |input.toks| && TakeIf(negated, NOT, input.From(a)).To?
    ensures a <= k < |input.toks| && TakeIf(negated, NOT, input.From(a)) == To(input.From(k))
    ensures k + 1 < |input.toks| ==> Drop(if negated then 2 else 1, input.From(a)) == input.From(k + 1)
  {
    k := a;
    if negated {
      FromStep(input, a);
      k := a + 1;
    }
    if k + 1 < |input.toks| {
      FromStep(input, k);
    }
  }

  lemma {:induction false} LikeTidy(input: Input, s: Suffix, a: nat, b: nat, room: nat)
    requires s.Like?
    requires input.WellFormed() && a < |input.toks| && b < |input.toks| && ReadsSuffix(s, input.From(a)) == To(input.From(b))
    requires CanonSuffix(s) && SuffixNeed(s) <= room
    ensures a < b && Rowed(input, input.PlaceSuffix(s, input.From(a)), a, b, room)
    decreases s, 0
  {
    hide Reads, ReadsOpt, Canon, Need, NeedOpt, Spine, Absorbs, TakeIf, Tidy, Rowed, Input.Place, Input.PlaceOpt, Input.From, Input.WellFormed;
    var k := NotStep(input, s.negated, a);
    FromStep(input, k);
    var k2 := PlaceTidy(input, s.y, k + 1, room);
    var k3 := ClauseTidy(input, ESCAPE, s.escape, k2, room);
    RowOne(input, input.Place(s.y, input.From(k + 1)), a, k2, room);
    RowJoin(input, [input.Place(s.y, input.From(k + 1))], input.PlaceOpt(s.escape, Drop(1, input.From(k2))), a, k2, k2, k3, room);
  }

  lemma {:induction false} IsTidy(input: Input, s: Suffix, a: nat, b: nat, room: nat)
    requires s.Is?
    requires input.WellFormed() && a < |input.toks| && b < |input.toks| && ReadsSuffix(s, input.From(a)) == To(input.From(b))
    requires CanonSuffix(s) && SuffixNeed(s) <= room
    ensures a < b && Rowed(input, input.PlaceSuffix(s, input.From(a)), a, b, room)
    decreases s, 0
  {
    hide Reads, Canon, Need, Spine, StartKind, IsStart, TakeIf, Tidy, Rowed, Input.Place, Input.From, Input.WellFormed;
    FromStep(input, a);
    var k1 := TakeStep(input, s.negated, NOT, a + 1);
    var k2 := TakeStep(input, s.distinct, DISTINCT, k1);
    var k := TakeStep(input, s.distinct, FROM, k2);
    IsStartAt(input, s.negated, s.distinct, a, k);
    var _ := PlaceTidy(input, s.y, k, room);
    RowOne(input, input.Place(s.y, input.From(k)), a, b, room);
  }

  lemma {:induction false} TakeStep(input: Input, b: bool, kind: Kind, a: nat) returns (k: nat)
    requires input.WellFormed() && a < |input.toks| && TakeIf(b, kind, input.From(a)).To?
    ensures k == (if b then a + 1 else a) < |input.toks| && TakeIf(b, kind, input.From(a)) == To(input.From(k))
  {
    hide Input.From, Input.WellFormed;
    k := a;
    if b {
      FromStep(input, a);
      k := a + 1;
    }
  }

  lemma IsStartAt(input: Input, negated: bool, distinct: bool, a: nat, k: nat)
    requires input.WellFormed() && k == a + (if negated then 2 else 1) + (if distinct then 2 else 0) < |input.toks|
    ensures IsStart(negated, distinct, input.From(a)) == input.From(k)
  {
    hide Input.From, Input.WellFormed;
    DropFrom(input, a, k - a);
  }

  lemma {:induction false} DropFrom(input: Input, a: nat, n: nat)
    requires input.WellFormed() && a + n < |input.toks|
    ensures Drop(n, input.From(a)) == input.From(a + n)
    decreases n
  {
    if n > 0 {
      DropFrom(input, a + 1, n - 1);
    }
  }

  lemma {:induction false} BetweenTidy(input: Input, s: Suffix, a: nat, b: nat, room: nat)
    requires s.Between?
    requires input.WellFormed() && a < |input.toks| && b < |input.toks| && ReadsSuffix(s, input.From(a)) == To(input.From(b))
    requires CanonSuffix(s) && SuffixNeed(s) <= room
    ensures a < b && Rowed(input, input.PlaceSuffix(s, input.From(a)), a, b, room)
    decreases s, 1
  {
    hide Reads, ReadsSuffix, CanonSuffix, SuffixNeed, Canon, Need, Spine, Edge, Drop, TakeIf, Tidy, Rowed, Input.Place, Input.PlaceSuffix, Input.From, Input.WellFormed;
    BetweenReads(s, input.From(a), room);
    var k := NotStep(input, s.negated, a);
    FromStep(input, k);
    var k2, k3 := BoundsTidy(input, s, k + 1, room);
    BetweenPlaced(input, s, input.From(a), input.From(k + 1), input.From(k2));
    RowWiden(input, input.PlaceSuffix(s, input.From(a)), k + 1, k3, a, b, room);
  }

  /** Two expressions with an AND between them. */
  lemma {:induction false} BoundsTidy(input: Input, s: Suffix, a: nat, room: nat) returns (k2: nat, k3: nat)
    requires s.Between? && input.WellFormed() && a < |input.toks| && Reads(s.lo, input.From(a)).To? && Take(AND, Reads(s.lo, input.From(a)).ts).To?
    requires Reads(s.hi, Reads(s.lo, input.From(a)).ts.tail).To?
    requires Canon(s.lo) && Need(s.lo) <= room && Canon(s.hi) && Need(s.hi) <= room
    ensures a < k2 < k3 < |input.toks| && Reads(s.lo, input.From(a)) == To(input.From(k2)) && input.From(k2).Cons?
    ensures Reads(s.hi, input.From(k2).tail) == To(input.From(k3))
    ensures Rowed(input, [input.Place(s.lo, input.From(a)), input.Place(s.hi, input.From(k2).tail)], a, k3, room)
    decreases s, 0
  {
    hide Reads, Canon, Need, Tidy, Rowed, Input.Place, Input.From, Input.WellFormed;
    k2 := PlaceTidy(input, s.lo, a, room);
    FromStep(input, k2);
    k3 := PlaceTidy(input, s.hi, k2 + 1, room);
    RowTwo(input, input.Place(s.lo, input.From(a)), input.Place(s.hi, input.From(k2 + 1)), a, k3, room);
  }

  /** A BETWEEN's tokens one by one. */
  lemma BetweenReads(s: Suffix, ts: Toks, room: nat)
    requires s.Between? && ReadsSuffix(s, ts).To? && CanonSuffix(s) && SuffixNeed(s) <= room
    ensures Canon(s.lo) && Need(s.lo) <= room && Canon(s.hi) && Need(s.hi) <= room
    ensures var t1 := TakeIf(s.negated, NOT, ts);
            && t1.To? && Take(BETWEEN, t1.ts).To? && Reads(s.lo, t1.ts.tail).To?
            && Take(AND, Reads(s.lo, t1.ts.tail).ts).To?
            && Reads(s.hi, Reads(s.lo, t1.ts.tail).ts.tail) == ReadsSuffix(s, ts)
  {
    hide Reads, Canon, Need, Spine, Edge;
  }

  lemma {:induction false} InTidy(input: Input, s: Suffix, a: nat, b: nat, room: nat)
    requires s.In?
    requires input.WellFormed() && a < |input.toks| && b < |input.toks| && ReadsSuffix(s, input.From(a)) == To(input.From(b))
    requires CanonSuffix(s) && SuffixNeed(s) <= room
    ensures a < b && Rowed(input, input.PlaceSuffix(s, input.From(a)), a, b, room)
    decreases s, 0
  {
    hide Drop, ReadsTarget, CanonTarget, NeedTarget, TakeIf, Tidy, Rowed, Input.PlaceTarget, Input.From, Input.WellFormed;
    var k := NotStep(input, s.negated, a);
    FromStep(input, k);
    TargetTidy(input, s.target, k + 1, b, room);
    RowWiden(input, input.PlaceTarget(s.target, input.From(k + 1)), k + 1, b, a, b, room);
  }

  lemma {:induction false} TargetTidy(input: Input, target: InSet, a: nat, b: nat, room: nat)
    requires input.WellFormed() && a < |input.toks| && b < |input.toks| && ReadsTarget(target, input.From(a)) == To(input.From(b))
    requires CanonTarget(target) && NeedTarget(target) <= room
    ensures a < b && Rowed(input, input.PlaceTarget(target, input.From(a)), a, b, room)
    decreases target, 1
  {
    hide ReadsTable, ReadsList, CanonList, NeedList, CanonTable, StartKind, Tidy, Rowed, Drop, Input.PlaceList, Input.From, Input.WellFormed;
    match target {
      case InList(list) =>
        FromStep(input, a);
        var k := ListTidy(input, list, a + 1, room);
        FromStep(input, k);
        RowWiden(input, input.PlaceList(list, input.From(a + 1)), a + 1, k, a, b, room);
      case InTable(table) =>
        var k := TableStep(input, table, a);
        RowEmpty(input, a, b, room);
      case InTableArgs(_, _) =>
        TableArgsTidy(input, target, a, b, room);
    }
  }

  lemma {:induction false} TableArgsTidy(input: Input, target: InSet, a: nat, b: nat, room: nat)
    requires target.InTableArgs?
    requires input.WellFormed() && a < |input.toks| && b < |input.toks| && ReadsTarget(target, input.From(a)) == To(input.From(b))
    requires CanonTarget(target) && NeedTarget(target) <= room
    ensures a < b && Rowed(input, input.PlaceTarget(target, input.From(a)), a, b, room)
    decreases target, 0
  {
    hide ReadsTable, ReadsList, CanonList, NeedList, CanonTable, StartKind, Tidy, Rowed, Drop, Input.PlaceList, Input.From, Input.WellFormed;
    var k0 := TableStep(input, target.table, a);
    FromStep(input, k0);
    var k := ListTidy(input, target.args, k0 + 1, room);
    FromStep(input, k);
    RowWiden(input, input.PlaceList(target.args, input.From(k0 + 1)), k0 + 1, k, a, b, room);
  }

  lemma {:induction false} TableStep(input: Input, t: TableName, a: nat) returns (k: nat)
    requires input.WellFormed() && a < |input.toks| && ReadsTable(t, input.From(a)).To?
    ensures a < k < |input.toks| && ReadsTable(t, input.From(a)) == To(input.From(k))
  {
    hide Input.From;
    FromStep(input, a);
    k := a + 1;
    if t.Dotted? {
      FromStep(input, a + 1);
      FromStep(input, a + 2);
      k := a + 3;
    }
  }

  /** The node at a path of child indices. */
  predicate IsPath(n: Node, path: seq<nat>)
    decreases |path|
  {
    path == [] || (path[0] < |n.kids| && IsPath(n.kids[path[0]], path[1..]))
  }

  function NodeAt(n: Node, path: seq<nat>): Node
    requires IsPath(n, path)
    decreases |path|
  {
    if path == [] then n else NodeAt(n.kids[path[0]], path[1..])
  }

  /** An accepted input is the span of its tree, and every node of the tree, however deep, has
      the span of its own tokens, which parse to its expression when they stand alone. */
  lemma {:induction false} SlicesStand(input: Input, e: Expr, path: seq<nat>, room: nat)
    requires input.WellFormed() && ParseWhole(input.From(0), room) == Ok(e, At(End))
    requires IsPath(input.Place(e, input.From(0)), path)
    ensures var root := input.Place(e, input.From(0));
            var n := NodeAt(root, path);
            && root.from == 0 && root.to == |input.toks| - 1
            && 0 <= n.from < n.to < |input.toks|
            && n.span == Span(input.toks[n.from].pos, input.toks[n.to - 1].end)
            && ParseWhole(input.Slice(n.from, n.to), room) == Ok(n.expr, At(End))
  {
    hide ParseWhole, Reads, Canon, Need, Tidy, Input.Place, Input.Slice, IsPath, NodeAt;
    WholeCharacterized(input.From(0), room, e);
    var b := PlaceTidy(input, e, 0, room);
    TidyBelow(input, input.Place(e, input.From(0)), path, room);
  }

  lemma {:induction false} TidyBelow(input: Input, n: Node, path: seq<nat>, room: nat)
    requires input.WellFormed() && Tidy(input, n, room) && IsPath(n, path)
    ensures var d := NodeAt(n, path);
            && n.from <= d.from < d.to <= n.to < |input.toks|
            && d.span == Span(input.toks[d.from].pos, input.toks[d.to - 1].end)
            && ParseWhole(input.Slice(d.from, d.to), room) == Ok(d.expr, At(End))
    decreases |path|
  {
    hide ParseWhole, Input.Place, Input.From, Input.Slice;
    if path != [] {
      TidyBelow(input, n.kids[path[0]], path[1..], room);
      RowWithin(input, n.kids, path[0], n.from, n.to, room);
    }
  }

  /** A child in a row lies inside the row's bounds. */
  lemma {:induction false} RowWithin(input: Input, kids: seq<Node>, j: nat, lo: int, hi: int, room: nat)
    requires input.WellFormed() && Rowed(input, kids, lo, hi, room) && j < |kids|
    ensures lo <= kids[j].from < kids[j].to <= hi
  {
    hide ParseWhole, Input.Place, Input.From, Input.Slice;
    assert forall l :: 0 <= l < |kids| ==> kids[l].from < kids[l].to;
    RowBounds(kids, j, lo, hi);
  }

  lemma {:induction false} RowBounds(kids: seq<Node>, j: nat, lo: int, hi: int)
    requires InRow(kids, lo, hi) && j < |kids| && forall l :: 0 <= l < |kids| ==> kids[l].from < kids[l].to
    ensures lo <= kids[j].from && kids[j].to <= hi && lo <= hi
  {
    assert InRow(kids[1..], kids[0].to, hi);
    if j > 0 {
      RowBounds(kids[1..], j - 1, kids[0].to, hi);
    } else if |kids| > 1 {
      RowBounds(kids[1..], 0, kids[0].to, hi);
    }
  }

  lemma {:induction false} RowApart(kids: seq<Node>, j: nat, l: nat, lo: int, hi: int)
    requires InRow(kids, lo, hi) && j < l < |kids| && forall m :: 0 <= m < |kids| ==> kids[m].from < kids[m].to
    ensures kids[j].to <= kids[l].from
  {
    if j == 0 {
      RowBounds(kids[1..], l - 1, kids[0].to, hi);
    } else {
      RowApart(kids[1..], j - 1, l - 1, kids[0].to, hi);
    }
  }

  /** In bytes: children nest in their parent and do not overlap. */
  lemma {:induction false} SpansNest(input: Input, e: Expr, path: seq<nat>, room: nat, j: nat, l: nat)
    requires input.WellFormed() && input.InOrder() && ParseWhole(input.From(0), room) == Ok(e, At(End))
    requires IsPath(input.Place(e, input.From(0)), path)
    requires j <= l < |NodeAt(input.Place(e, input.From(0)), path).kids|
    ensures var n := NodeAt(input.Place(e, input.From(0)), path);
            && n.span.start <= n.kids[j].span.start < n.kids[j].span.stop <= n.span.stop <= |input.src|
            && (j < l ==> n.kids[j].span.stop <= n.kids[l].span.start)
  {
    hide ParseWhole, Reads, Canon, Need, Tidy, Input.Place, Input.Slice, IsPath, NodeAt;
    WholeCharacterized(input.From(0), room, e);
    var b := PlaceTidy(input, e, 0, room);
    var root := input.Place(e, input.From(0));
    TidyAt(input, root, path, room);
    KidsNest(input, NodeAt(root, path), room, j, l);
  }

  lemma {:induction false} TidyAt(input: Input, n: Node, path: seq<nat>, room: nat)
    requires input.WellFormed() && Tidy(input, n, room) && IsPath(n, path)
    ensures Tidy(input, NodeAt(n, path), room)
    decreases |path|
  {
    hide ParseWhole, Input.Place, Input.From, Input.Slice;
    if path != [] {
      TidyAt(input, n.kids[path[0]], path[1..], room);
    }
  }

  lemma {:induction false} TidyNode(input: Input, n: Node, room: nat)
    requires input.WellFormed() && Tidy(input, n, room)
    ensures n.from < n.to < |input.toks| && n.span == Span(input.toks[n.from].pos, input.toks[n.to - 1].end)
    ensures n == input.Place(n.expr, input.From(n.from)) && Rowed(input, n.kids, n.from, n.to, room)
  {
    hide ParseWhole, Input.Place, Input.From, Input.Slice, InRow, Input.WellFormed;
  }

  lemma {:induction false} KidsNest(input: Input, n: Node, room: nat, j: nat, l: nat)
    requires input.WellFormed() && input.InOrder() && Tidy(input, n, room) && j <= l < |n.kids|
    ensures n.span.start <= n.kids[j].span.start < n.kids[j].span.stop <= n.span.stop <= |input.src|
    ensures j < l ==> n.kids[j].span.stop <= n.kids[l].span.start
  {
    hide Tidy, InRow, Input.Place, Input.From;
    var c := n.kids[j];
    TidyNode(input, n, room);
    TidyNode(input, c, room);
    TidyNode(input, n.kids[l], room);
    RowWithin(input, n.kids, j, n.from, n.to, room);
    if j < l {
      KidsApart(input, n.kids, j, l, n.from, n.to, room);
      RowWithin(input, n.kids, l, n.from, n.to, room);
    }
    InOrderSpans(input, n.from, c.from, c.to - 1, n.to - 1);
  }

  lemma {:induction false} KidsApart(input: Input, kids: seq<Node>, j: nat, l: nat, lo: int, hi: int, room: nat)
    requires input.WellFormed() && Rowed(input, kids, lo, hi, room) && j < l < |kids|
    ensures kids[j].to <= kids[l].from
  {
    hide ParseWhole, Input.Place, Input.From, Input.Slice, InRow, Input.WellFormed;
    forall m | 0 <= m < |kids|
      ensures kids[m].from < kids[m].to
    {
      TidyNode(input, kids[m], room);
    }
    RowApart(kids, j, l, lo, hi);
  }

  lemma InOrderSpans(input: Input, a: nat, b: nat, c: nat, d: nat)
    requires input.WellFormed() && input.InOrder() && a <= b <= c <= d < |input.toks| - 1
    ensures input.toks[a].pos <= input.toks[b].pos < input.toks[c].end <= input.toks[d].end
  {
    assert a < b ==> input.toks[a].end <= input.toks[b].pos;
    assert b < c ==> input.toks[b].end <= input.toks[c].pos;
    assert c < d ==> input.toks[c].end <= input.toks[d].pos;
  }
}
