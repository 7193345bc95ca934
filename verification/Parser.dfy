/** The parser object and its methods (parser/parser.go, parser/parse_expr.go). Each method
    does what the source does to the fields, and is proved to compute the function of the same
    name in Grammar and to place every node it builds. */
module Parser {
  import opened Token
  import opened Ast
  import opened Engine
  import opened Layout
  import opened Canonical
  import opened Forms
  import opened Image
  import G = Grammar
  import Binds
  import Digits

  const MAX_DEPTH: nat := 10000

  /** A rejection as callers see it: the message and a byte offset. */
  datatype ParseError = ParseError(msg: Message, offset: nat)

  datatype Result<+T> = Success(value: T) | Failure(error: ParseError) {
    predicate IsFailure() { Failure? }
    function PropagateFailure<U>(): Result<U>
      requires Failure?
    {
      Failure(error)
    }
    function Extract(): T
      requires Success?
    {
      value
    }
  }

  /** What a message says of the token it points at: a syntax error or a tokenizer's error quotes
      it, and only the end of the input is incomplete. */
  predicate Tells(msg: Message, kind: Kind, text: string) {
    match msg
    case Near(quoted) => !kind.EOF? && quoted == text
    case Unrecognized(quoted) =>
      (kind.ILLEGAL? && quoted == text) || (kind.QNUMBER? && Digits.DequoteNumber(text) == Digits.Misplaced(quoted))
    case Incomplete => kind.EOF?
    case RecursionLimit => true
    case OutOfFragment =>
      kind in {SELECT, VALUES, WITH, CAST, EXISTS, RAISE, ORDER, FILTER, OVER}
  }

  datatype OptError = NoError | Raised(error: ParseError)

  function ToExprs(nodes: seq<Node>): Exprs {
    if nodes == [] then Nil else More(nodes[0].expr, ToExprs(nodes[1..]))
  }

  class Parser {
    const src: string
    const toks: seq<SourceToken>
    var i: nat
    var nVar: int
    var varNums: map<string, int>
    var depth: nat
    var deferred: OptError
    var deferIndex: nat

    function Src(): Input { Input(src, toks) }

    /** The engine invariant of every state the parse goes on from. */
    ghost predicate Valid()
      reads this
    {
      && Src().WellFormed() && i < |toks| && depth <= MAX_DEPTH
      && !toks[i].kind.ILLEGAL? && toks[i].pos <= toks[i].end <= |src|
      && (deferred.Raised? ==> i > 0 && deferIndex == i && RegisterAt(i - 1) && deferred.error == AtRegister(i - 1))
    }

    /** The rejection of the register reference `j`. */
    ghost function AtRegister(j: nat): ParseError
      requires RegisterAt(j)
    {
      ParseError(Near(src[toks[j].pos..toks[j].end]), toks[j].pos)
    }

    /** What `msg` says of the token `j` is so. */
    ghost predicate TellsAt(msg: Message, j: nat)
      requires j < |toks|
    {
      toks[j].pos <= toks[j].end <= |src| && Tells(msg, toks[j].kind, src[toks[j].pos..toks[j].end])
    }

    /** The token `j` is a register reference. */
    ghost predicate RegisterAt(j: nat) {
      && j < |toks| && toks[j].kind.VARIABLE? && toks[j].pos <= toks[j].end <= |src|
      && G.IsRegister(src[toks[j].pos..toks[j].end])
    }

    /** The numbers handed out are those of the parameters consumed so far. */
    ghost predicate Numbered()
      reads this
      requires Src().WellFormed() && i < |toks|
    {
      Binds.Numbers(nVar, varNums) == Src().NumbersAt(i)
    }

    /** The abstract state. */
    ghost function St(): (st: State)
      reads this
      requires Valid()
      ensures Good(st) && Len(st.ts) == |toks| - 1 - i
    {
      State(Src().From(i), if deferred.Raised? then Deferred(Error(deferred.error.msg, |toks| - i), |toks| - 1 - i) else Quiet)
    }

    ghost function Room(): nat
      reads this
      requires Valid()
    {
      MAX_DEPTH - depth
    }

    /** The byte offset of an error. */
    ghost function Located(e: Error): ParseError
      requires Src().WellFormed() && e.left < |toks|
    {
      ParseError(e.msg, toks[|toks| - 1 - e.left].pos)
    }

    /** `r` reports the failure `e`. */
    ghost predicate Fails<T>(r: Result<T>, e: Error)
      reads this
      requires Src().WellFormed()
    {
      r.Failure? && Blames(r.error, e)
    }

    /** `error` is `e`, at an offset inside the source; if an error was deferred, at a register
        reference, it is that error or points at the token after it, which it was waiting for. */
    ghost predicate Blames(error: ParseError, e: Error)
      reads this
      requires Src().WellFormed()
    {
      && e.left < |toks| && error == Located(e) && error.offset <= |src| && TellsAt(e.msg, |toks| - 1 - e.left)
      && (deferred.Raised? ==>
            && 0 < deferIndex < |toks| && i <= deferIndex + 1
            && RegisterAt(deferIndex - 1) && deferred.error == AtRegister(deferIndex - 1)
            && (error == deferred.error || error.offset == toks[deferIndex].pos))
    }

    /** The parser is where the outcome says. */
    ghost predicate Stands(st: State, d: nat)
      reads this
    {
      Valid() && St() == st && depth == d && Numbered()
    }

    /** A method's result against the function it computes, for an expression read at `ts`. */
    ghost predicate Agrees(r: Result<Node>, o: Outcome<Expr>, ts: Toks, d: nat)
      reads this
      requires Src().WellFormed()
    {
      match o
      case Ok(e, st) =>
        && r.Success? && r.value.expr == e && Stands(st, d)
        && (st.deferred.Quiet? ==> r.value == Src().Place(e, ts))
      case Err(e) => Fails(r, e)
    }

    /** The same for an operator applied to `x`, which was read at `ts`. */
    ghost predicate Applies(r: Result<Node>, o: Outcome<Suffix>, x: Node, ts: Toks, d: nat)
      reads this
      requires Src().WellFormed()
    {
      match o
      case Ok(s, st) =>
        && r.Success? && r.value.expr == Apply(x.expr, s) && Stands(st, d)
        && (st.deferred.Quiet? ==> r.value == Src().Place(Apply(x.expr, s), ts))
      case Err(e) => Fails(r, e)
    }

    /** `x` was read at `ts` up to `k` and is placed there. */
    ghost predicate Placed(x: Node, ts: Toks, k: Toks)
      requires Src().WellFormed()
    {
      && x == Src().Place(x.expr, ts) && Reads(x.expr, ts) == To(k)
      && 0 <= Src().Index(ts) < Src().Index(k) < |toks|
    }

    /** The same for a list. */
    ghost predicate Lists(r: Result<seq<Node>>, o: Outcome<Exprs>, ts: Toks, d: nat)
      reads this
      requires Src().WellFormed()
    {
      match o
      case Ok(es, st) =>
        && r.Success? && ToExprs(r.value) == es && Stands(st, d)
        && (st.deferred.Quiet? ==> r.value == Src().PlaceList(es, ts))
      case Err(e) => Fails(r, e)
    }

    constructor (src: string, toks: seq<SourceToken>)
      requires Input(src, toks).WellFormed()
      ensures this.src == src && this.toks == toks
      ensures i == 0 && depth == 0 && deferred.NoError? && Numbered()
    {
      this.src, this.toks := src, toks;
      i, depth, deferred, deferIndex := 0, 0, NoError, 0;
      nVar, varNums := 0, map[];
    }

    /** cur() and at(): the lookahead. */
    function Kind(): Kind
      reads this
      requires i < |toks|
    {
      toks[i].kind
    }

    /** peek(1), clamped to EOF. */
    function Next(): Kind
      reads this
      requires 0 < |toks| && i < |toks|
    {
      if i + 1 >= |toks| then toks[|toks| - 1].kind else toks[i + 1].kind
    }

    function TextOf(t: SourceToken): string
      requires t.pos <= t.end <= |src|
    {
      src[t.pos..t.end]
    }

    /** syntaxError(): what it would fail with at the lookahead. */
    function SyntaxError(): ParseError
      reads this
      requires i < |toks| && toks[i].pos <= toks[i].end <= |src|
    {
      ParseError(if toks[i].kind.EOF? then Incomplete else Near(TextOf(toks[i])), toks[i].pos)
    }

    /** checkIllegal(). */
    function CheckIllegal(): Result<()>
      reads this
      requires i < |toks| && toks[i].pos <= toks[i].end <= |src|
    {
      if toks[i].kind.ILLEGAL? then Failure(ParseError(Unrecognized(TextOf(toks[i])), toks[i].pos)) else Success(())
    }

    /** Consumes the lookahead. The numbers are left as they are: a VARIABLE still has to be
        numbered by bindParam. */
    method Advance() returns (r: Result<SourceToken>)
      requires Valid()
      modifies this`i
      ensures match Engine.Advance(old(St()))
              case Ok(t, st) =>
                && r == Success(toks[old(i)]) && Valid() && St() == st
                && (if old(i) < |toks| - 1 then i == old(i) + 1 && t == Src().At(old(i)) else i == old(i))
              case Err(e) => Fails(r, e)
      ensures i == if old(i) < |toks| - 1 then old(i) + 1 else old(i)
      ensures r.Success? ==> r.value.pos <= r.value.end <= |src|
      ensures deferred.Raised? && old(i) < |toks| - 1 ==> r == Failure(deferred.error)
      ensures deferred.NoError? && toks[i].kind.ILLEGAL? ==> r == Failure(ParseError(Unrecognized(TextOf(toks[i])), toks[i].pos))
    {
      var t := toks[i];
      if i < |toks| - 1 {
        i := i + 1;
      }
      if deferred.Raised? && i > deferIndex {
        return Failure(deferred.error);
      }
      assert Src().From(old(i)).Cons? ==> Src().From(old(i)).tail == Src().From(i);
      assert toks[i].kind.ILLEGAL? ==> Src().From(i).head == Src().At(i);
      var _ :- CheckIllegal();
      return Success(t);
    }

    /** Consumes the lookahead, which is no parameter and not the end. */
    method Step() returns (r: Result<SourceToken>)
      requires Valid() && Numbered() && i < |toks| - 1 && !toks[i].kind.VARIABLE?
      modifies this`i
      ensures match Engine.Advance(old(St()))
              case Ok(t, st) =>
                && r == Success(toks[old(i)]) && Stands(st, depth)
                && i == old(i) + 1 && t == Src().At(old(i))
              case Err(e) => Fails(r, e)
      ensures r.Success? ==> r.value.pos <= r.value.end <= |src|
    {
      r := Advance();
    }

    /** The node of `s` applied to `x`, ending with the last consumed token. */
    lemma Close(x: Node, s: Suffix, kids: seq<Node>, ts: Toks, k0: Toks)
      requires Valid() && Placed(x, ts, k0) && ReadsSuffix(s, k0) == To(St().ts) && Src().Index(k0) < i
      requires kids == Src().PlaceSuffix(s, k0)
      ensures i > 0 && Src().Place(Apply(x.expr, s), ts) ==
              Node(Span(x.span.start, toks[i - 1].end), x.from, i, Apply(x.expr, s), 0, [x] + kids)
    {
      hide Reads, ReadsSuffix, Input.PlaceSuffix, Input.Place, Input.From, Input.NumbersAt;
      ApplyPlaced(Src(), x.expr, s, ts, k0, St().ts);
    }

    /** The same, for an operator the grammar read from `st0` to here. */
    lemma Closed(x: Node, s: Suffix, kids: seq<Node>, ts: Toks, st0: State, room: nat)
      requires Valid() && St().deferred.Quiet? && Good(st0) && G.Prec(st0.ts) > 0
      requires G.ParseSuffix(st0, room) == Ok(s, St()) && Placed(x, ts, st0.ts)
      requires kids == Src().PlaceSuffix(s, st0.ts)
      ensures Join(x, s, kids) == Src().Place(Apply(x.expr, s), ts)
    {
      hide G.ParseSuffix, Reads, ReadsSuffix, Input.PlaceSuffix, Input.Place, Input.From, Input.NumbersAt;
      SuffixReads(st0, room);
      Close(x, s, kids, ts, st0.ts);
    }

    /** What parseExpr left: the expression read there ends with the last consumed token. */
    lemma ReadTo(st: State, room: nat, min: nat, y: Node)
      requires Valid() && Good(st) && min <= CLOSED && 0 <= Src().Index(st.ts) < |toks|
      requires G.ParseExpr(st, room, min).Ok? && G.ParseExpr(st, room, min) == Ok(y.expr, St())
      requires St().deferred.Quiet? && y == Src().Place(y.expr, st.ts)
      ensures i > 0 && Placed(y, st.ts, St().ts) && y.span.stop == toks[i - 1].end && y.to == i
      ensures y.from == Src().Index(st.ts) && y.span.start == toks[y.from].pos
    {
      hide G.ParseExpr, Reads, Canon, Spine, Need, Follows, Input.Place, Input.From, Input.NumbersAt;
      ExprImage(st, room, min);
      PlacedEnd(Src(), y.expr, st.ts, St().ts);
    }

    lemma SyntaxErrorLocated()
      requires Valid()
      ensures Fails<Node>(Failure(SyntaxError()), Engine.SyntaxError(St()))
    {
      assert i < |toks| - 1 ==> Src().From(i).head == Src().At(i);
    }

    /** An error raised at a consumed token while nothing is deferred. */
    lemma Blamed(j: nat, msg: Message)
      requires Src().WellFormed() && deferred.NoError? && j < |toks| && TellsAt(msg, j)
      ensures Blames(ParseError(msg, toks[j].pos), Error(msg, |toks| - 1 - j))
    {
    }

    /** Any lookahead but EOF has a token after it. */
    lemma NotLast()
      requires Valid()
      ensures !Kind().EOF? ==> i < |toks| - 1 && St().ts.Cons?
    {
    }

    lemma LeftOutLocated()
      requires Valid() && toks[i].kind in {SELECT, VALUES, WITH, CAST, EXISTS, RAISE, ORDER, FILTER, OVER}
      ensures Fails<Node>(Failure(LeftOut()), G.LeftOut(St()))
    {
      hide Input.From, Input.NumbersAt;
    }

    method Expect(k: Kind) returns (r: Result<SourceToken>)
      requires Valid() && Numbered() && !k.EOF? && !k.VARIABLE?
      modifies this`i
      ensures match Engine.Expect(old(St()), k)
              case Ok(t, st) =>
                && r == Success(toks[old(i)]) && Stands(st, depth)
                && i == old(i) + 1 && t == Src().At(old(i))
              case Err(e) => Fails(r, e)
    {
      SyntaxErrorLocated();
      if Kind() != k {
        return Failure(SyntaxError());
      }
      r := Step();
    }

    method ExpectName() returns (r: Result<Lexeme>)
      requires Valid() && Numbered()
      modifies this`i
      ensures match Engine.ExpectName(old(St()))
              case Ok(t, st) => r == Success(t) && Stands(st, depth) && i == old(i) + 1
              case Err(e) => Fails(r, e)
    {
      SyntaxErrorLocated();
      if !IsName(Kind()) {
        return Failure(SyntaxError());
      }
      var t :- Step();
      return Success(Lexeme(t.kind, TextOf(t)));
    }

    method ExpectIDS() returns (r: Result<Lexeme>)
      requires Valid() && Numbered()
      modifies this`i
      ensures match Engine.ExpectIDS(old(St()))
              case Ok(t, st) => r == Success(t) && Stands(st, depth) && i == old(i) + 1
              case Err(e) => Fails(r, e)
    {
      SyntaxErrorLocated();
      if !IsIDS(Kind()) {
        return Failure(SyntaxError());
      }
      var t :- Step();
      return Success(Lexeme(t.kind, TextOf(t)));
    }

    /** enter(): false when the limit is passed, which the source reports at the lookahead. */
    method Enter() returns (r: Result<()>)
      requires Valid()
      modifies this`depth
      ensures if old(depth) == MAX_DEPTH then Fails(r, Error(RecursionLimit, |toks| - 1 - i))
              else r == Success(()) && depth == old(depth) + 1
    {
      depth := depth + 1;
      if depth > MAX_DEPTH {
        return Failure(ParseError(RecursionLimit, toks[i].pos));
      }
      return Success(());
    }

    method Leave()
      requires depth > 0
      modifies this`depth
      ensures depth == old(depth) - 1
    {
      depth := depth - 1;
    }

    lemma PrefixReads(st: State, room: nat, x: Node)
      requires Valid() && Good(st) && 0 <= Src().Index(st.ts) < |toks|
      requires G.ParsePrefix(st, room).Ok? && G.ParsePrefix(st, room) == Ok(x.expr, St())
      requires St().deferred.Quiet? && x == Src().Place(x.expr, st.ts)
      ensures Placed(x, st.ts, St().ts)
    {
      hide G.ParsePrefix, Reads, Canon, Spine, Inner, Edge, Absorbs, Input.Place, Input.From, Input.NumbersAt;
      PrefixImage(st, room, 0);
    }

    method ParseExpr(min: nat) returns (r: Result<Node>)
      requires Valid() && Numbered() && min <= CLOSED
      modifies this
      ensures Agrees(r, G.ParseExpr(old(St()), old(Room()), min), old(St()).ts, old(depth))
      decreases |toks| - i, 6
    {
      hide G.ParseExpr, Parser.Blames, Parser.RegisterAt, Len, Located, Good, Input.WellFormed, G.ParsePrefix, G.ParseOperators, Reads, Input.Place, Input.From, Input.NumbersAt, Parser.Placed;
      ghost var st, room := St(), Room();
      ExprUnfolds(st, room, min);
      var _ :- Enter();
      var x :- ParsePrefix();
      if St().deferred.Quiet? {
        PrefixReads(st, room - 1, x);
      }
      r := ParseOperators(x, min, false, st.ts);
      if r.Success? {
        Leave();
      }
    }

    method ParseBetweenBound() returns (r: Result<Node>)
      requires Valid() && Numbered()
      modifies this
      ensures Agrees(r, G.ParseBetweenBound(old(St()), old(Room())), old(St()).ts, old(depth))
      decreases |toks| - i, 6
    {
      hide Parser.Blames, Parser.RegisterAt, Len, Parser.Placed, Input.WellFormed, G.ParseBetweenBound, G.ParsePrefix, G.ParseOperators, Reads, Input.Place, Input.From, Input.NumbersAt, Parser.Located;
      ghost var st, room := St(), Room();
      BoundUnfolds(st, room);
      var _ :- Enter();
      var x :- ParsePrefix();
      if St().deferred.Quiet? {
        PrefixReads(st, room - 1, x);
      }
      r := ParseOperators(x, 1, true, st.ts);
      if r.Success? {
        Leave();
      }
    }

    method ParsePrefix() returns (r: Result<Node>)
      requires Valid() && Numbered()
      modifies this
      ensures Agrees(r, G.ParsePrefix(old(St()), old(Room())), old(St()).ts, old(depth))
      decreases |toks| - i, 5
    {
      hide Parser.Blames, Parser.RegisterAt, G.ParseExpr, G.ParsePrimary, Reads, Input.Place, Input.From, Input.NumbersAt;
      var pre := G.PrefixOf(Kind());
      if pre == [] {
        r := ParsePrimary();
      } else {
        r := ParseUnary(pre[0]);
      }
    }

    /** A prefix operator and its operand. */
    method ParseUnary(pre: Prefix) returns (r: Result<Node>)
      requires Valid() && Numbered() && G.PrefixOf(Kind()) == [pre]
      modifies this
      ensures Agrees(r, G.ParsePrefix(old(St()), old(Room())), old(St()).ts, old(depth))
      decreases |toks| - i, 4
    {
      hide Parser.Blames, Parser.RegisterAt, Parser.Placed, WordAt, G.ParsePrefix, G.PrefixMin, G.PrefixOf, Engine.MayFail, Input.WellFormed, Len, Reads, Input.Place, Input.From, Input.NumbersAt;
      ghost var st, room := St(), Room();
      UnaryUnfolds(st, room, pre);
      PrefixPlain(Kind(), pre);
      var start, pos := i, toks[i].pos;
      var x :- ParseAfterWord(G.PrefixMin(pre));
      r := Success(Node(Span(pos, x.span.stop), start, x.to, Unary(pre, x.expr), 0, [x]));
      if St().deferred.Quiet? {
        UnaryDone(pre, x, st.ts);
      }
    }

    lemma UnaryDone(pre: Prefix, x: Node, ts: Toks)
      requires Valid() && ts.Cons? && ts.head.kind == PrefixKind(pre) && 0 <= Src().Index(ts) && Placed(x, ts.tail, St().ts)
      ensures x.to == i && 0 <= Src().Index(ts) < |toks|
      ensures Src().Place(Unary(pre, x.expr), ts) ==
              Node(Span(toks[Src().Index(ts)].pos, x.span.stop), Src().Index(ts), x.to, Unary(pre, x.expr), 0, [x])
    {
      hide Input.WellFormed, Reads, Input.Place, Input.From, Input.NumbersAt;
      UnaryPlaced(Src(), pre, x.expr, ts, St().ts);
      PlacedEnd(Src(), x.expr, ts.tail, St().ts);
    }

    method ParseOperators(x0: Node, min: nat, stopAtAnd: bool, ghost ts: Toks) returns (r: Result<Node>)
      requires Valid() && Numbered() && min <= CLOSED
      requires St().deferred.Quiet? ==> Placed(x0, ts, St().ts)
      modifies this
      ensures Agrees(r, G.ParseOperators(old(St()), old(Room()), x0.expr, min, stopAtAnd), ts, old(depth))
      decreases |toks| - i, 5
    {
      hide Parser.Blames, Parser.RegisterAt, G.ParseSuffix, Applied, ReadsSuffix, Reads, Input.Place, Input.From, Input.NumbersAt;
      ghost var st0, room := St(), Room();
      var x := x0;
      while true
        invariant Valid() && Numbered() && depth == old(depth) && i >= old(i)
        invariant St().deferred.Quiet? ==> Placed(x, ts, St().ts)
        invariant G.ParseOperators(St(), room, x.expr, min, stopAtAnd) == G.ParseOperators(st0, room, x0.expr, min, stopAtAnd)
        decreases |toks| - i
      {
        var prec := LookaheadPrec();
        if prec == 0 || prec < min || (stopAtAnd && Kind().AND?) {
          return Success(x);
        }
        ghost var st, was := St(), x;
        x :- Turn(x, ts);
        if St().deferred.Quiet? {
          SuffixReads(st, room);
          TurnPlaced(was, G.ParseSuffix(st, room).value, ts, st.ts, x);
        }
      }
    }

    lemma SuffixReads(st: State, room: nat)
      requires Good(st) && G.Prec(st.ts) > 0 && G.ParseSuffix(st, room).Ok? && G.ParseSuffix(st, room).state.deferred.Quiet?
      ensures ReadsSuffix(G.ParseSuffix(st, room).value, st.ts) == To(G.ParseSuffix(st, room).state.ts)
    {
      hide G.ParseSuffix, ReadsSuffix, CanonSuffix, SuffixNeed, SuffixPrec, SuffixEdge, SuffixAbsorbs;
      SuffixImage(st, room);
    }

    lemma TurnPlaced(x: Node, s: Suffix, ts: Toks, k0: Toks, n: Node)
      requires Valid() && Placed(x, ts, k0) && ReadsSuffix(s, k0) == To(St().ts) && Src().Index(k0) < i
      requires n.expr == Apply(x.expr, s) && n == Src().Place(n.expr, ts)
      ensures Placed(n, ts, St().ts)
    {
      hide Reads, ReadsSuffix, Input.Place, Input.From, Input.NumbersAt;
      ApplyReads(x.expr, s, ts);
    }

    /** The precedence the loop tests for the operator at the lookahead, 0 for none. */
    function LookaheadPrec(): (p: nat)
      reads this
      requires Valid()
      ensures p == G.Prec(St().ts)
    {
      var k := Kind();
      if G.InfixPrec(k) > 0 then G.InfixPrec(k)
      else if k.COLLATE? then 11
      else if k.ISNULL? || k.NOTNULL? || k.IS? || k.LIKE_KW? || k.MATCH? || k.BETWEEN? || k.IN? then 4
      else if k.NOT? then (if Next().NULL? then 3 else 4)
      else 0
    }

    /** One turn of the loop: the operator at the lookahead is applied to `x`. */
    method Turn(x: Node, ghost ts: Toks) returns (r: Result<Node>)
      requires Valid() && Numbered() && G.Prec(St().ts) > 0
      requires St().deferred.Quiet? ==> Placed(x, ts, St().ts)
      modifies this
      ensures Applies(r, G.ParseSuffix(old(St()), old(Room())), x, ts, old(depth))
      decreases |toks| - i, 4
    {
      hide Parser.Blames, Parser.RegisterAt, G.ParseExpr, G.ParseIs, G.ParseLike, G.ParseBetween, G.ParseIn, ReadsSuffix, Reads, Input.Place, Input.PlaceSuffix, Input.From, Input.NumbersAt;
      var k := Kind();
      if G.InfixPrec(k) > 0 {
        r := ParseBinary(x, ts);
      } else if k.COLLATE? {
        r := ParseCollate(x, ts);
      } else if k.ISNULL? || k.NOTNULL? {
        r := ParseNullTest(x, ts);
      } else if k.IS? {
        r := ParseIs(x, ts);
      } else if k.BETWEEN? {
        r := ParseBetween(x, false, ts, St());
      } else if k.IN? {
        r := ParseIn(x, false, ts, St());
      } else if k.NOT? {
        r := ParseNegated(x, ts);
      } else {
        r := ParseLike(x, false, ts, St());
      }
    }

    /** binary(): the operator and its right operand, one level up. */
    method ParseBinary(x: Node, ghost ts: Toks) returns (r: Result<Node>)
      requires Valid() && Numbered() && G.InfixPrec(Kind()) > 0
      requires St().deferred.Quiet? ==> Placed(x, ts, St().ts)
      modifies this
      ensures Applies(r, G.ParseSuffix(old(St()), old(Room())), x, ts, old(depth))
      decreases |toks| - i, 3
    {
      hide G.ParseSuffix, G.ParseExpr, G.InfixOperator, Engine.Advance, Len, Parser.Blames, Parser.RegisterAt, Input.WellFormed, Reads, ReadsSuffix, Input.Place, Input.PlaceSuffix, Input.From, Input.NumbersAt;
      NotLast();
      BinaryUnfolds(St(), Room());
      ghost var st, room := St(), Room();
      var prec := G.InfixPrec(Kind());
      var t :- Step();
      ghost var s1 := St();
      var op := G.InfixOperator(Lexeme(t.kind, TextOf(t)));
      var y :- ParseExpr(prec + 1);
      var s := Binary(op, y.expr);
      r := Success(Node(Span(x.span.start, y.span.stop), x.from, y.to, Apply(x.expr, s), 0, [x] + [y]));
      if St().deferred.Quiet? {
        ReadTo(s1, room, prec + 1, y);
        BinaryPlaced(Src(), op, y.expr, st.ts);
        Closed(x, s, [y], ts, st, room);
      }
    }

    /** The end of the last consumed token. */
    function PrevEnd(): nat
      reads this
      requires i <= |toks|
    {
      if i == 0 then 0 else toks[i - 1].end
    }

    /** The node of an operator applied to `x`, closed at the last consumed token. */
    function Join(x: Node, s: Suffix, kids: seq<Node>): Node
      reads this
      requires i <= |toks|
    {
      Node(Span(x.span.start, PrevEnd()), x.from, i, Apply(x.expr, s), 0, [x] + kids)
    }

    method ParseCollate(x: Node, ghost ts: Toks) returns (r: Result<Node>)
      requires Valid() && Numbered() && Kind().COLLATE?
      requires St().deferred.Quiet? ==> Placed(x, ts, St().ts)
      modifies this
      ensures Applies(r, G.ParseSuffix(old(St()), old(Room())), x, ts, old(depth))
    {
      hide G.ParseSuffix, Engine.Advance, Engine.ExpectIDS, Len, Parser.Blames, Parser.RegisterAt, Input.WellFormed, Reads, ReadsSuffix, Input.Place, Input.From, Input.NumbersAt;
      NotLast();
      CollateUnfolds(St(), Room());
      ghost var st, room := St(), Room();
      var _ :- Step();
      var name :- ExpectIDS();
      r := Success(Join(x, Collate(name), []));
      Closed(x, Collate(name), [], ts, st, room);
    }

    method ParseNullTest(x: Node, ghost ts: Toks) returns (r: Result<Node>)
      requires Valid() && Numbered() && (Kind().ISNULL? || Kind().NOTNULL?)
      requires St().deferred.Quiet? ==> Placed(x, ts, St().ts)
      modifies this
      ensures Applies(r, G.ParseSuffix(old(St()), old(Room())), x, ts, old(depth))
    {
      hide G.ParseSuffix, Engine.Advance, Len, Parser.Blames, Parser.RegisterAt, Input.WellFormed, Reads, ReadsSuffix, Input.Place, Input.From, Input.NumbersAt;
      NotLast();
      NullTestUnfolds(St(), Room());
      ghost var st, room := St(), Room();
      var t :- Step();
      var test := if t.kind.NOTNULL? then TestNotNull else TestIsNull;
      r := Success(Join(x, NullCheck(test), []));
      Closed(x, NullCheck(test), [], ts, st, room);
    }

    method ParseIs(x: Node, ghost ts: Toks) returns (r: Result<Node>)
      requires Valid() && Numbered() && Kind().IS?
      requires St().deferred.Quiet? ==> Placed(x, ts, St().ts)
      modifies this
      ensures Applies(r, G.ParseSuffix(old(St()), old(Room())), x, ts, old(depth))
      decreases |toks| - i, 3
    {
      hide Parser.Blames, Parser.RegisterAt, Input.WellFormed, G.ParseExpr, G.ParseLike, G.ParseBetween, G.ParseIn, G.ParseNegated, G.ParseIsOperand, Reads, ReadsSuffix, Input.Place, Input.PlaceSuffix, Input.From, Input.NumbersAt;
      ghost var st, room := St(), Room();
      var _ :- Step();
      ghost var s1 := St();
      assert G.ParseSuffix(st, room) == G.ParseIs(s1, room);
      var negated := Kind().NOT?;
      if negated {
        var _ :- Step();
      }
      IsDrops(negated, st.ts, s1.ts, St().ts);
      r := ParseIsOperand(x, negated, ts, st);
    }

    /** The rest of IS, after the NOT that it takes whenever it is there. */
    method ParseIsOperand(x: Node, negated: bool, ghost ts: Toks, ghost st0: State) returns (r: Result<Node>)
      requires Valid() && Numbered() && Good(st0) && G.Prec(st0.ts) > 0 && Len(st0.ts) < |toks|
      requires St().ts == Drop(if negated then 2 else 1, st0.ts) && i > 0
      requires G.ParseSuffix(st0, Room()) == G.ParseIsOperand(St(), Room(), negated)
      requires St().deferred.Quiet? ==> Placed(x, ts, st0.ts)
      modifies this
      ensures Applies(r, G.ParseIsOperand(old(St()), old(Room()), negated), x, ts, old(depth))
      decreases |toks| - i, 7
    {
      hide Parser.Blames, Parser.RegisterAt, Good, Located, Len, Input.WellFormed, DistinctAt, Drop, IsStart, G.ParseSuffix, G.ParseIsOperand, G.ParseExpr, Reads, ReadsSuffix, Input.Place, Input.PlaceSuffix, Input.From, Input.NumbersAt, Parser.Placed;
      ghost var st, room := St(), Room();
      IsOperandUnfolds(st, room, negated);
      var distinct :- ParseDistinct();
      DistinctDrops(negated, distinct, st0.ts, st.ts, St().ts);
      var y :- ParseExpr(G.AFTER_COMPARE);
      var s := Is(negated, distinct, y.expr);
      r := Success(Join(x, s, [y]));
      if St().deferred.Quiet? {
        IsDone(x, s, y, ts, st0, room);
      }
    }

    lemma IsDone(x: Node, s: Suffix, y: Node, ts: Toks, st0: State, room: nat)
      requires Valid() && St().deferred.Quiet? && Good(st0) && G.Prec(st0.ts) > 0 && s.Is? && s.y == y.expr
      requires G.ParseSuffix(st0, room) == Ok(s, St()) && Placed(x, ts, st0.ts)
      requires y == Src().Place(s.y, IsStart(s.negated, s.distinct, st0.ts))
      ensures Join(x, s, [y]) == Src().Place(Apply(x.expr, s), ts)
    {
      hide G.ParseSuffix, IsStart, Reads, ReadsSuffix, Input.WellFormed, Input.PlaceSuffix, Input.Place, Input.From, Input.NumbersAt;
      IsPlaced(Src(), s.negated, s.distinct, s.y, st0.ts);
      Closed(x, s, [y], ts, st0, room);
    }

    /** DISTINCT FROM, if it is there. */
    method ParseDistinct() returns (r: Result<bool>)
      requires Valid() && Numbered()
      modifies this`i
      ensures match DistinctAt(old(St()))
              case Ok(d, st) =>
                && r == Success(d) && Stands(st, depth) && i >= old(i)
                && var t := old(St()).ts; if d then t.Cons? && t.tail.Cons? && st.ts == t.tail.tail else st == old(St())
              case Err(e) => Fails(r, e)
    {
      hide Parser.Blames, Parser.RegisterAt, Input.From, Input.NumbersAt;
      if Kind().DISTINCT? {
        var _ :- Step();
        var _ :- Expect(FROM);
        return Success(true);
      }
      return Success(false);
    }

    /** `x` stands before the operator that began at `st0`, of which the words up to the
        lookahead are consumed. */
    ghost predicate Begun(x: Node, negated: bool, ts: Toks, st0: State)
      reads this
      requires Valid()
    {
      && Good(st0) && G.Prec(st0.ts) > 0
      && St().ts == Drop(if negated then 1 else 0, st0.ts) && Len(st0.ts) < |toks|
      && (negated ==> st0.ts.Cons?)
      && (St().deferred.Quiet? ==> Placed(x, ts, st0.ts))
    }

    method ParseLike(x: Node, negated: bool, ghost ts: Toks, ghost st0: State) returns (r: Result<Node>)
      requires Valid() && Numbered() && (Kind().LIKE_KW? || Kind().MATCH?) && Begun(x, negated, ts, st0)
      requires G.ParseSuffix(st0, Room()) == LikeAt(St(), Room(), negated)
      modifies this
      ensures Applies(r, LikeAt(old(St()), old(Room()), negated), x, ts, old(depth))
      decreases |toks| - i, 2
    {
      hide Parser.Blames, Parser.RegisterAt, Good, Located, Len, Input.WellFormed, ClauseAt, G.ParseSuffix, G.ParseLike, G.ParseExpr, Reads, ReadsSuffix, Input.Place, Input.PlaceSuffix, Input.From, Input.NumbersAt;
      ghost var st, room := St(), Room();
      var t :- Step();
      var like := Lexeme(t.kind, TextOf(t));
      ghost var s1 := St();
      LikeStart(negated, st0.ts, st.ts);
      LikeUnfolds(s1, room, negated, like);
      var y :- ParseExpr(G.AFTER_COMPARE);
      ghost var s2 := St();
      if s2.deferred.Quiet? {
        ReadTo(s1, room, G.AFTER_COMPARE, y);
      }
      var clause :- ParseClause(ESCAPE, G.AFTER_COMPARE);
      var s := Like(negated, like, y.expr, clause.0);
      r := Success(Join(x, s, [y] + clause.1));
      if St().deferred.Quiet? {
        LikePlaced(Src(), s, st0.ts, s1.ts, s2.ts);
        Closed(x, s, [y] + clause.1, ts, st0, room);
      }
    }

    /** "ESCAPE expr" or "ELSE expr", if the word is there. */
    method ParseClause(kw: Kind, min: nat) returns (r: Result<(OptExpr, seq<Node>)>)
      requires Valid() && Numbered() && !kw.EOF? && !kw.VARIABLE? && min <= CLOSED
      modifies this
      ensures match ClauseAt(old(St()), old(Room()), kw, min)
              case Ok(o, st) =>
                && r.Success? && r.value.0 == o && Stands(st, old(depth)) && i >= old(i)
                && (o.Some? ==> old(St()).ts.Cons? && old(St()).deferred.Quiet?)
                && (o.None? ==> st == old(St()))
                && (st.deferred.Quiet? ==> r.value.1 == if o.Some? then [Src().Place(o.expr, old(St()).ts.tail)] else [])
              case Err(e) => Fails(r, e)
      decreases |toks| - i, 7
    {
      hide Parser.Blames, Parser.RegisterAt, Len, Input.WellFormed, ClauseAt, Engine.Expect, G.ParseExpr, Reads, Input.Place, Input.From, Input.NumbersAt;
      ClauseUnfolds(St(), Room(), kw, min);
      if Kind() != kw {
        return Success((None, []));
      }
      var _ :- Expect(kw);
      var e :- ParseExpr(min);
      return Success((Some(e.expr), [e]));
    }

    lemma BoundReads(st: State, room: nat, lo: Node)
      requires Valid() && Good(st) && 0 <= Src().Index(st.ts) < |toks|
      requires G.ParseBetweenBound(st, room).Ok? && G.ParseBetweenBound(st, room) == Ok(lo.expr, St())
      requires St().deferred.Quiet?
      ensures Reads(lo.expr, st.ts) == To(St().ts)
    {
      hide G.ParseBetweenBound, AndOnSpine, Reads, Canon, Spine, Inner, Edge, Absorbs, Input.From, Input.NumbersAt;
      BoundImage(st, room);
    }

    method ParseBetween(x: Node, negated: bool, ghost ts: Toks, ghost st0: State) returns (r: Result<Node>)
      requires Valid() && Numbered() && Kind().BETWEEN? && Begun(x, negated, ts, st0)
      requires G.ParseSuffix(st0, Room()) == BetweenAt(St(), Room(), negated)
      modifies this
      ensures Applies(r, BetweenAt(old(St()), old(Room()), negated), x, ts, old(depth))
      decreases |toks| - i, 2
    {
      hide Parser.Blames, Parser.RegisterAt, Parser.Placed, Located, Drop, Len, Good, Input.WellFormed, BoundsAt, G.ParseSuffix, G.ParseBetween, Reads, ReadsSuffix, Input.Place, Input.PlaceSuffix, Input.From, Input.NumbersAt;
      ghost var st, room := St(), Room();
      var _ :- Step();
      ghost var s1 := St();
      LikeStart(negated, st0.ts, st.ts);
      BetweenUnfolds(s1, room, negated);
      var bounds :- ParseBounds();
      var s := Between(negated, bounds.0.expr, bounds.1.expr);
      r := Success(Join(x, s, [bounds.0, bounds.1]));
      if St().deferred.Quiet? {
        BetweenDone(x, s, bounds.0, bounds.1, ts, st0, room, s1.ts, After(Reads(s.lo, s1.ts)));
      }
    }

    /** The two bounds and the AND between them. */
    method ParseBounds() returns (r: Result<(Node, Node)>)
      requires Valid() && Numbered()
      modifies this
      ensures match BoundsAt(old(St()), old(Room()))
              case Ok(bounds, st) =>
                && r.Success? && (r.value.0.expr, r.value.1.expr) == bounds && Stands(st, old(depth)) && i > old(i)
                && var t2 := Reads(bounds.0, old(St()).ts);
                   (st.deferred.Quiet? ==>
                      && t2.To? && t2.ts.Cons? && r.value.0 == Src().Place(bounds.0, old(St()).ts)
                      && r.value.1 == Src().Place(bounds.1, t2.ts.tail))
              case Err(e) => Fails(r, e)
      decreases |toks| - i, 7
    {
      hide Parser.Blames, Parser.RegisterAt, Parser.Placed, Len, Input.WellFormed, BoundsAt, Engine.Expect, G.ParseExpr, G.ParseBetweenBound, Reads, Input.Place, Input.From, Input.NumbersAt;
      ghost var s1, room := St(), Room();
      BoundsUnfold(s1, room);
      var lo :- ParseBetweenBound();
      if St().deferred.Quiet? {
        BoundReads(s1, room, lo);
      }
      var _ :- Expect(AND);
      var hi :- ParseExpr(G.AFTER_COMPARE);
      return Success((lo, hi));
    }

    lemma BetweenDone(x: Node, s: Suffix, lo: Node, hi: Node, ts: Toks, st0: State, room: nat, t1: Toks, t2: Toks)
      requires Valid() && St().deferred.Quiet? && Good(st0) && G.Prec(st0.ts) > 0 && s.Between? && s.lo == lo.expr && s.hi == hi.expr
      requires G.ParseSuffix(st0, room) == Ok(s, St()) && Placed(x, ts, st0.ts)
      requires Drop(if s.negated then 2 else 1, st0.ts) == t1 && Reads(s.lo, t1) == To(t2) && t2.Cons?
      requires lo == Src().Place(s.lo, t1) && hi == Src().Place(s.hi, t2.tail)
      ensures Join(x, s, [lo, hi]) == Src().Place(Apply(x.expr, s), ts)
    {
      hide G.ParseSuffix, Reads, ReadsSuffix, Drop, Input.WellFormed, Input.PlaceSuffix, Input.Place, Input.From, Input.NumbersAt;
      BetweenPlaced(Src(), s, st0.ts, t1, t2);
      Closed(x, s, [lo, hi], ts, st0, room);
    }

    /** An error of this model's own: the syntax at the lookahead is left out. */
    function LeftOut(): ParseError
      reads this
      requires i < |toks|
    {
      ParseError(OutOfFragment, toks[i].pos)
    }

    method ParseIn(x: Node, negated: bool, ghost ts: Toks, ghost st0: State) returns (r: Result<Node>)
      requires Valid() && Numbered() && Kind().IN? && Begun(x, negated, ts, st0)
      requires G.ParseSuffix(st0, Room()) == InAt(St(), Room(), negated)
      modifies this
      ensures Applies(r, InAt(old(St()), old(Room()), negated), x, ts, old(depth))
      decreases |toks| - i, 2
    {
      hide Parser.Blames, Parser.RegisterAt, Len, G.ParseSuffix, G.ParseArguments, G.ParseTableName, Reads, ReadsSuffix, ReadsTable, Input.Place, Input.PlaceList, Input.PlaceSuffix, Input.From, Input.NumbersAt;
      ghost var st, room := St(), Room();
      var _ :- Step();
      ghost var s1 := St();
      LikeStart(negated, st0.ts, st.ts);
      var target: InSet;
      var kids;
      if Kind().LP? {
        var p :- ParseInList(negated);
        target, kids := p.0, p.1;
      } else {
        var p :- ParseInTable(negated);
        target, kids := p.0, p.1;
      }
      var s := In(negated, target);
      r := Success(Join(x, s, kids));
      if St().deferred.Quiet? {
        InPlaced(Src(), s, st0.ts, s1.ts);
        Closed(x, s, kids, ts, st0, room);
      }
    }

    /** The right side of IN against `o`. */
    ghost predicate Targets(r: Result<(InSet, seq<Node>)>, o: Outcome<Suffix>, negated: bool, ts: Toks, d: nat)
      reads this
      requires Src().WellFormed()
    {
      match o
      case Ok(s, st) =>
        && r.Success? && s == In(negated, r.value.0) && Stands(st, d)
        && (st.deferred.Quiet? ==> r.value.1 == Src().PlaceTarget(r.value.0, ts))
      case Err(e) => Fails(r, e)
    }

    method ParseInList(ghost negated: bool) returns (r: Result<(InSet, seq<Node>)>)
      requires Valid() && Numbered() && Kind().LP?
      modifies this
      ensures Targets(r, G.ParseIn(old(St()), old(Room()), negated), negated, old(St()).ts, old(depth))
      decreases |toks| - i, 1
    {
      hide Parser.Blames, Parser.RegisterAt, Input.WellFormed, G.ParseArguments, Input.Place, Input.PlaceList, Input.From, Input.NumbersAt;
      ghost var st, room := St(), Room();
      var _ :- Step();
      if G.AtSelect(Kind()) {
        LeftOutLocated();
        return Failure(LeftOut());
      }
      var list :- ParseArguments();
      r := Success((InList(ToExprs(list)), list));
      assert Drop(1, st.ts) == st.ts.tail;
    }

    method ParseInTable(ghost negated: bool) returns (r: Result<(InSet, seq<Node>)>)
      requires Valid() && Numbered() && !Kind().LP?
      modifies this
      ensures Targets(r, G.ParseIn(old(St()), old(Room()), negated), negated, old(St()).ts, old(depth))
      decreases |toks| - i, 1
    {
      hide Parser.Blames, Parser.RegisterAt, Input.WellFormed, G.ParseArguments, G.ParseTableName, ReadsTable, Input.Place, Input.PlaceList, Input.From, Input.NumbersAt;
      ghost var st, room := St(), Room();
      var table :- ParseTableName();
      if !Kind().LP? {
        return Success((InTable(table), []));
      }
      ghost var s2 := St();
      TableReads(st);
      var _ :- Step();
      var args :- ParseArguments();
      InArgsPlaced(Src(), table, ToExprs(args), st.ts, s2.ts);
      r := Success((InTableArgs(table, ToExprs(args)), args));
    }

    method ParseNegated(x: Node, ghost ts: Toks) returns (r: Result<Node>)
      requires Valid() && Numbered() && Kind().NOT?
      requires St().deferred.Quiet? ==> Placed(x, ts, St().ts)
      modifies this
      ensures Applies(r, G.ParseSuffix(old(St()), old(Room())), x, ts, old(depth))
      decreases |toks| - i, 3
    {
      hide Parser.Blames, Parser.RegisterAt, Input.WellFormed, LikeAt, BetweenAt, InAt, Engine.Advance, G.ParseSuffix, Reads, ReadsSuffix, Input.Place, Input.PlaceSuffix, Input.From, Input.NumbersAt;
      ghost var st, room := St(), Room();
      NegatedUnfolds(st, room);
      var _ :- Step();
      SyntaxErrorLocated();
      DropFew(st.ts);
      var next := Kind();
      if next.NULL? {
        var _ :- Step();
        r := Success(Join(x, NullCheck(TestNotNullWords), []));
        NullPlaced(Src(), TestNotNullWords, st.ts);
        Closed(x, NullCheck(TestNotNullWords), [], ts, st, room);
      } else if next.LIKE_KW? || next.MATCH? {
        r := ParseLike(x, true, ts, st);
      } else if next.BETWEEN? {
        r := ParseBetween(x, true, ts, st);
      } else if next.IN? {
        r := ParseIn(x, true, ts, st);
      } else {
        r := Failure(SyntaxError());
      }
    }

    method ParseTableName() returns (r: Result<TableName>)
      requires Valid() && Numbered()
      modifies this`i
      ensures match G.ParseTableName(old(St()))
              case Ok(t, st) => r == Success(t) && Stands(st, depth)
              case Err(e) => Fails(r, e)
    {
      hide Parser.Blames, Parser.RegisterAt, Input.From, Input.NumbersAt;
      var first :- ExpectName();
      if Kind().DOT? {
        var _ :- Step();
        var second :- ExpectName();
        return Success(Dotted(first, second));
      }
      return Success(Bare(first));
    }

    method ParseArguments() returns (r: Result<seq<Node>>)
      requires Valid() && Numbered()
      modifies this
      ensures Lists(r, G.ParseArguments(old(St()), old(Room())), old(St()).ts, old(depth))
      decreases |toks| - i, 8
    {
      hide Parser.Blames, Parser.RegisterAt, Input.WellFormed, G.ParseExprList, Reads, Input.PlaceList, Input.From, Input.NumbersAt;
      ghost var st := St();
      if Kind().RP? {
        var _ :- Step();
        EmptyPlaced(Src(), st.ts);
        r := Success([]);
      } else {
        var list :- ParseExprList();
        var _ :- Expect(RP);
        r := Success(list);
      }
    }

    /** nexprlist: one or more expressions with commas between them. */
    method ParseExprList() returns (r: Result<seq<Node>>)
      requires Valid() && Numbered()
      modifies this
      ensures Lists(r, G.ParseExprList(old(St()), old(Room())), old(St()).ts, old(depth))
      ensures r.Success? ==> |r.value| > 0
      decreases |toks| - i, 7
    {
      hide Parser.Blames, Parser.RegisterAt, Good, Located, Len, Input.WellFormed, G.ParseExpr, G.ParseExprList, ReadsList, Reads, Input.Place, Input.PlaceList, Input.From, Input.NumbersAt, ListSoFar, Prepend, ListTail;
      ghost var st, room := St(), Room();
      ListUnfolds(st, room);
      var x :- ParseExpr(G.LOWEST);
      var list := [x];
      FirstListed(st, room, x);
      while Kind().COMMA?
        invariant Valid() && Numbered() && depth == old(depth) && i > old(i) && |list| > 0
        invariant St().deferred.Quiet? ==> ListSoFar(list, st.ts, St().ts)
        invariant Prepend(ToExprs(list), ListTail(St(), room)) == G.ParseExprList(st, room)
        decreases |toks| - i
      {
        ghost var s1 := St();
        TailStep(ToExprs(list), s1, room);
        var _ :- Step();
        ghost var s2 := St();
        var y :- ParseExpr(G.LOWEST);
        NextListed(list, st, s1, s2, room, y);
        list := list + [y];
      }
      ListEnds(ToExprs(list), St(), room);
      if St().deferred.Quiet? {
        ListPlaced(list, st.ts, St().ts);
      }
      return Success(list);
    }

    /** `list` is what was read from `ts` up to `k`, placed. */
    ghost predicate ListSoFar(list: seq<Node>, ts: Toks, k: Toks)
      requires Src().WellFormed()
    {
      ReadsList(ToExprs(list), ts) == To(k) && list == Src().PlaceList(ToExprs(list), ts)
    }

    lemma ListPlaced(list: seq<Node>, ts: Toks, k: Toks)
      requires Src().WellFormed() && ListSoFar(list, ts, k)
      ensures list == Src().PlaceList(ToExprs(list), ts)
    {
    }

    lemma FirstListed(st: State, room: nat, x: Node)
      requires Valid() && Good(st) && 0 <= Src().Index(st.ts) < |toks|
      requires G.ParseExpr(st, room, G.LOWEST) == Ok(x.expr, St())
      requires St().deferred.Quiet? ==> x == Src().Place(x.expr, st.ts)
      ensures Prepend(ToExprs([x]), ListTail(St(), room)) == G.ParseExprList(st, room)
      ensures St().deferred.Quiet? ==> ListSoFar([x], st.ts, St().ts)
    {
      hide G.ParseExpr, G.ParseExprList, ListTail, Prepend, ReadsList, Reads, Input.PlaceList, Input.Place, Input.From, Input.NumbersAt;
      ListUnfolds(st, room);
      OneExpr(x);
      if St().deferred.Quiet? {
        ReadTo(st, room, G.LOWEST, x);
        OneListed(Src(), x.expr, st.ts);
      }
    }

    lemma NextListed(list: seq<Node>, st: State, s1: State, s2: State, room: nat, y: Node)
      requires Valid() && |list| > 0 && Good(s1) && Good(s2) && Cur(s1.ts).COMMA? && s2 == State(s1.ts.tail, Quiet)
      requires 0 <= Src().Index(s2.ts) < |toks| && Engine.Advance(s1) == Ok(s1.ts.head, s2)
      requires ListSoFar(list, st.ts, s1.ts) && Good(st)
      requires Prepend(ToExprs(list), ListTail(s1, room)) == G.ParseExprList(st, room)
      requires G.ParseExpr(s2, room, G.LOWEST) == Ok(y.expr, St())
      requires St().deferred.Quiet? ==> y == Src().Place(y.expr, s2.ts)
      ensures Prepend(ToExprs(list + [y]), ListTail(St(), room)) == G.ParseExprList(st, room)
      ensures St().deferred.Quiet? ==> ListSoFar(list + [y], st.ts, St().ts)
    {
      hide G.ParseExpr, G.ParseExprList, ListTail, Prepend, ReadsList, Reads, Input.Place, Input.PlaceList, Input.From, Input.NumbersAt, ToExprs, Snoc;
      ToExprsSnoc(list, y);
      PrependSnoc(ToExprs(list), y.expr, ListTail(St(), room));
      ListUnfolds(s2, room);
      TailUnfolds(s1, s2, room);
      if St().deferred.Quiet? {
        ReadTo(s2, room, G.LOWEST, y);
        ToExprsMore(list);
        SnocListed(Src(), ToExprs(list), y.expr, st.ts, s1.ts, St().ts);
      }
    }

    method ParsePrimary() returns (r: Result<Node>)
      requires Valid() && Numbered()
      modifies this
      ensures Agrees(r, G.ParsePrimary(old(St()), old(Room())), old(St()).ts, old(depth))
      decreases |toks| - i, 4
    {
      hide Parser.Blames, Parser.RegisterAt, G.ParseParenExpr, G.ParseCase, G.ParseFuncCall, G.ParseQualifiedRef, G.ParseTerm, Reads, Input.Place, Input.From, Input.NumbersAt;
      SyntaxErrorLocated();
      var k := Kind();
      if k.LP? {
        r := ParseParenExpr();
      } else if G.IsLiteralKind(k) {
        r := ParseTerm();
      } else if k.STRING? {
        if Next().DOT? {
          r := ParseQualifiedRef();
        } else {
          r := ParseTerm();
        }
      } else if k.VARIABLE? {
        r := ParseVariable();
      } else if k.CASE? {
        r := ParseCase();
      } else if k.CAST? || k.EXISTS? || k.RAISE? {
        LeftOutLocated();
        r := Failure(LeftOut());
      } else if IsIDJ(k) {
        if Next().LP? {
          r := ParseFuncCall();
        } else if Next().DOT? {
          r := ParseQualifiedRef();
        } else {
          r := ParseIdent();
        }
      } else {
        r := Failure(SyntaxError());
      }
    }

    /** The node of a primary that began at token `start` and ends here. */
    function Leaf(start: nat, p: Primary, kids: seq<Node>): Node
      reads this
      requires start < |toks| && i <= |toks|
    {
      Node(Span(toks[start].pos, PrevEnd()), start, i, Atom(p), 0, kids)
    }

    /** A primary the grammar read from `st` to here. */
    lemma LeafPlaced(st: State, room: nat, p: Primary, kids: seq<Node>)
      requires Valid() && St().deferred.Quiet? && Good(st) && 0 <= Src().Index(st.ts) < |toks|
      requires G.ParsePrimary(st, room) == Ok(Atom(p), St()) && !p.BindParam?
      requires kids == Src().PlacePrimary(p, st.ts)
      ensures Leaf(Src().Index(st.ts), p, kids) == Src().Place(Atom(p), st.ts)
    {
      hide G.ParsePrimary, Reads, ReadsPrimary, CanonPrimary, PrimaryNeed, Absorbs, Input.Place, Input.PlacePrimary, Input.From, Input.NumbersAt;
      PrimaryImage(st, room);
      AtomPlaced(Src(), p, st.ts, St().ts);
    }

    method ParseIdent() returns (r: Result<Node>)
      requires Valid() && Numbered() && G.IsIdentKind(Kind()) && !Next().LP? && !Next().DOT?
      modifies this
      ensures Agrees(r, G.ParsePrimary(old(St()), old(Room())), old(St()).ts, old(depth))
    {
      hide Parser.Blames, Parser.RegisterAt, Len, Input.WellFormed, G.ParsePrimary, Reads, Input.Place, Input.From, Input.NumbersAt;
      ghost var st, room := St(), Room();
      IdentIsPrimary(st, room);
      var start := i;
      var t :- Step();
      var p := Ident(Lexeme(t.kind, TextOf(t)));
      r := Success(Leaf(start, p, []));
      LeafPlaced(st, room, p, []);
    }

    method ParseTerm() returns (r: Result<Node>)
      requires Valid() && Numbered() && (G.IsLiteralKind(Kind()) || (Kind().STRING? && !Next().DOT?))
      modifies this
      ensures Agrees(r, G.ParseTerm(old(St())), old(St()).ts, old(depth))
    {
      hide Parser.Blames, Parser.RegisterAt, Input.WellFormed, G.ParsePrimary, G.ParseTerm, Reads, Input.Place, Input.From, Input.NumbersAt, Digits.DequoteNumber, Len;
      NotLast();
      ghost var st, room := St(), Room();
      TermUnfolds(st, room);
      var start := i;
      var t :- Step();
      if t.kind.QNUMBER? {
        var value := Digits.DequoteInPlace(TextOf(t));
        if value.Misplaced? {
          Blamed(start, Unrecognized(value.buffer));
          return Failure(ParseError(Unrecognized(value.buffer), t.pos));
        }
      }
      var p := Literal(Lexeme(t.kind, TextOf(t)));
      r := Success(Leaf(start, p, []));
      LeafPlaced(st, room, p, []);
    }

    method ParseQualifiedRef() returns (r: Result<Node>)
      requires Valid() && Numbered() && QualifierKind(Kind()) && Next().DOT?
      modifies this
      ensures Agrees(r, G.ParseQualifiedRef(old(St())), old(St()).ts, old(depth))
    {
      hide Parser.Blames, Parser.RegisterAt, G.ParsePrimary, G.ParseQualifiedRef, PairAt, ThirdAt, Input.WellFormed, Reads, Input.Place, Input.From, Input.NumbersAt;
      ghost var st, room := St(), Room();
      ReferenceUnfolds(st);
      ReferenceIsPrimary(st, room);
      var start := i;
      var pair :- ParseNamePair();
      var p :- ParseThirdName(pair.0, pair.1);
      r := Success(Leaf(start, p, []));
      LeafPlaced(st, room, p, []);
    }

    /** Two names with a dot between them. */
    method ParseNamePair() returns (r: Result<(Lexeme, Lexeme)>)
      requires Valid() && Numbered()
      modifies this`i
      ensures match PairAt(old(St()))
              case Ok(pair, st) => r == Success(pair) && Stands(st, depth) && i > old(i)
              case Err(e) => Fails(r, e)
    {
      hide Parser.Blames, Parser.RegisterAt, Input.From, Input.NumbersAt;
      var a :- ExpectName();
      var _ :- Expect(DOT);
      var b :- ExpectName();
      return Success((a, b));
    }

    /** The third part of a reference, if there is one. */
    method ParseThirdName(a: Lexeme, b: Lexeme) returns (r: Result<Primary>)
      requires Valid() && Numbered() && St().deferred.Quiet?
      modifies this`i
      ensures match ThirdAt(old(St()), a, b)
              case Ok(p, st) =>
                && r == Success(p) && Stands(st, depth) && st.deferred.Quiet? && i >= old(i)
                && (p.QualifiedRef2? || p.QualifiedRef3?)
              case Err(e) => Fails(r, e)
    {
      hide Parser.Blames, Parser.RegisterAt, Input.From, Input.NumbersAt;
      if Kind().DOT? {
        var _ :- Step();
        var c :- ExpectName();
        return Success(QualifiedRef3(a, b, c));
      }
      return Success(QualifiedRef2(a, b));
    }

    /** A VARIABLE token, and bindParam(). */
    method ParseVariable() returns (r: Result<Node>)
      requires Valid() && Numbered() && Kind().VARIABLE?
      modifies this
      ensures Agrees(r, G.ParsePrimary(old(St()), old(Room())), old(St()).ts, old(depth))
    {
      hide Parser.Blames, Parser.RegisterAt, Good, Located, Len, Input.WellFormed, Reads, Input.Place, Input.From, Input.NumbersAt;
      ghost var st := St();
      var start := i;
      var t :- Advance();
      var number := BindParam(start, t);
      var p := Primary.BindParam(Lexeme(t.kind, TextOf(t)));
      r := Success(Node(Span(t.pos, t.end), start, i, Atom(p), number, []));
      VariablePlaced(Src(), st.ts, st.ts.tail);
    }

    /** bindParam(): a register reference defers its rejection; the parameter is numbered. */
    method BindParam(start: nat, t: SourceToken) returns (number: int)
      requires Valid() && i == start + 1 && t == toks[start] && t.kind.VARIABLE? && deferred.NoError?
      requires Binds.Numbers(nVar, varNums) == Src().NumbersAt(start)
      modifies this`nVar, this`varNums, this`deferred, this`deferIndex
      ensures Stands(G.BindParamAction(Src().At(start), old(St())), depth)
      ensures number == Binds.NumberOf(Src().NumbersAt(start), Src().Text(start))
    {
      hide Input.From, Input.NumbersAt, Binds.Bind, Binds.NumberOf;
      var raw := TextOf(t);
      NumbersStep(Src(), start);
      if G.IsRegister(raw) {
        if deferred.NoError? {
          deferred, deferIndex := Raised(ParseError(Near(raw), t.pos)), i;
        }
      }
      number := NumberParam(raw);
    }

    /** The number of a parameter, from the counter or the map. */
    method NumberParam(raw: string) returns (number: int)
      requires raw != ""
      modifies this`nVar, this`varNums
      ensures number == Binds.NumberOf(Binds.Numbers(old(nVar), old(varNums)), raw)
      ensures Binds.Numbers(nVar, varNums) == Binds.Bind(Binds.Numbers(old(nVar), old(varNums)), raw)
    {
      hide Binds.ValueOf;
      if raw == "?" {
        nVar := Binds.Increment(nVar);
        number := nVar;
      } else if raw[0] == '?' {
        number := 0;
        if Binds.Parses(raw[1..]) {
          number := Binds.ValueOf(raw[1..]);
          if number > nVar {
            nVar := number;
          }
        }
      } else if raw in varNums {
        number := varNums[raw];
      } else {
        nVar := Binds.Increment(nVar);
        number := nVar;
        varNums := varNums[raw := nVar];
      }
    }

    method ParseCase() returns (r: Result<Node>)
      requires Valid() && Numbered() && Kind().CASE?
      modifies this
      ensures Agrees(r, G.ParseCase(old(St()), old(Room())), old(St()).ts, old(depth))
      decreases |toks| - i, 3
    {
      hide Parser.Blames, Parser.RegisterAt, Input.WellFormed, G.ParseExpr, G.ParseCaseArms, G.ParseParenExpr, G.ParseFuncCall, G.ParseQualifiedRef, G.ParseTerm, Reads, Input.Place, Input.PlaceWhens, Input.From, Input.NumbersAt;
      ghost var st, room := St(), Room();
      var start := i;
      var _ :- Expect(CASE);
      assert Drop(1, st.ts) == st.ts.tail;
      assert G.ParsePrimary(st, room) == G.ParseCase(st, room);
      if Kind().WHEN? {
        r := ParseCaseArms(start, None, [], st);
      } else {
        ghost var s1 := St();
        var x :- ParseExpr(G.LOWEST);
        if St().deferred.Quiet? {
          ReadTo(s1, room, G.LOWEST, x);
        }
        r := ParseCaseArms(start, Some(x.expr), [x], st);
      }
    }

    /** The arms of a CASE, after its operand if it has one. */
    method ParseCaseArms(start: nat, operand: OptExpr, first: seq<Node>, ghost st0: State) returns (r: Result<Node>)
      requires Valid() && Numbered() && Good(st0) && start < i && start == Src().Index(st0.ts)
      requires G.ParsePrimary(st0, Room()) == G.ParseCaseArms(St(), Room(), operand)
      requires St().deferred.Quiet? ==>
                 && St().ts == After(ReadsOperand(operand, Drop(1, st0.ts)))
                 && first == Src().PlaceOpt(operand, Drop(1, st0.ts))
      modifies this
      ensures Agrees(r, G.ParseCaseArms(old(St()), old(Room()), operand), st0.ts, old(depth))
      decreases |toks| - i, 4
    {
      hide Parser.Blames, Parser.RegisterAt, Good, Located, Len, Input.WellFormed, CaseEndAt, G.ParsePrimary, G.ParseCaseArms, G.ParseWhens, Reads, ReadsOperand, ReadsWhens, Input.Place, Input.PlaceOpt, Input.PlaceWhens, Input.PlacePrimary, Input.From, Input.NumbersAt;
      ghost var st, room := St(), Room();
      if Kind().WHEN? {
        ArmsUnfold(st, room, operand);
      } else {
        NoArmsUnfold(st, room, operand);
      }
      var whens :- ParseWhens();
      if whens.0.NoWhens? {
        SyntaxErrorLocated();
        return Failure(SyntaxError());
      }
      ghost var s1 := St();
      if s1.deferred.Quiet? {
        WhensRead(st, room);
      }
      var clause :- ParseCaseEnd();
      var p := Case(operand, whens.0, clause.0);
      r := Success(Leaf(start, p, first + whens.1 + clause.1));
      CaseDone(st0, room, p, first, whens.1, clause.1, st.ts, s1.ts);
    }

    /** The ELSE of a CASE, if it is there, and its END. */
    method ParseCaseEnd() returns (r: Result<(OptExpr, seq<Node>)>)
      requires Valid() && Numbered()
      modifies this
      ensures match CaseEndAt(old(St()), old(Room()))
              case Ok(o, st) =>
                && r.Success? && r.value.0 == o && Stands(st, old(depth)) && i > old(i) && st.deferred.Quiet?
                && old(St()).deferred.Quiet? && (o.Some? ==> old(St()).ts.Cons?)
                && r.value.1 == if o.Some? then [Src().Place(o.expr, old(St()).ts.tail)] else []
              case Err(e) => Fails(r, e)
      decreases |toks| - i, 8
    {
      hide Parser.Blames, Parser.RegisterAt, Len, ClauseAt, CaseEndAt, Engine.Expect, Input.WellFormed, Reads, Input.Place, Input.From, Input.NumbersAt;
      CaseEndUnfolds(St(), Room());
      var clause :- ParseClause(ELSE, G.LOWEST);
      var _ :- Expect(END);
      return Success(clause);
    }

    lemma CaseDone(st0: State, room: nat, p: Primary, first: seq<Node>, kids: seq<Node>, last: seq<Node>, t2: Toks, t3: Toks)
      requires Valid() && St().deferred.Quiet? && Good(st0) && 0 <= Src().Index(st0.ts) < |toks| && p.Case?
      requires G.ParsePrimary(st0, room) == Ok(Atom(p), St())
      requires t2 == After(ReadsOperand(p.operand, Drop(1, st0.ts))) && ReadsWhens(p.whens, t2) == To(t3)
      requires first == Src().PlaceOpt(p.operand, Drop(1, st0.ts)) && kids == Src().PlaceWhens(p.whens, t2)
      requires if p.otherwise.Some? then t3.Cons? && last == [Src().Place(p.otherwise.expr, t3.tail)] else last == []
      ensures Leaf(Src().Index(st0.ts), p, first + kids + last) == Src().Place(Atom(p), st0.ts)
    {
      hide Input.WellFormed, G.ParsePrimary, Reads, ReadsOperand, ReadsWhens, Input.Place, Input.PlaceOpt, Input.PlaceWhens, Input.PlacePrimary, Input.From, Input.NumbersAt;
      CasePlaced(Src(), p.operand, p.whens, p.otherwise, st0.ts, t2, t3);
      LeafPlaced(st0, room, p, first + kids + last);
    }

    lemma WhensRead(st: State, room: nat)
      requires Good(st) && G.ParseWhens(st, room).Ok? && G.ParseWhens(st, room).state.deferred.Quiet?
      ensures ReadsWhens(G.ParseWhens(st, room).value, st.ts) == To(G.ParseWhens(st, room).state.ts)
    {
      hide G.ParseWhens, ReadsWhens, CanonWhens, NeedWhens;
      WhensImage(st, room);
    }

    /** A list of arms against `o`. */
    ghost predicate ListsArms(r: Result<(Whens, seq<Node>)>, o: Outcome<Whens>, ts: Toks, d: nat)
      reads this
      requires Src().WellFormed()
    {
      match o
      case Ok(ws, st) =>
        && r.Success? && r.value.0 == ws && Stands(st, d)
        && (st.deferred.Quiet? ==> r.value.1 == Src().PlaceWhens(ws, ts))
      case Err(e) => Fails(r, e)
    }

    /** The WHEN/THEN pairs from the lookahead on. */
    method ParseWhens() returns (r: Result<(Whens, seq<Node>)>)
      requires Valid() && Numbered()
      modifies this
      ensures ListsArms(r, G.ParseWhens(old(St()), old(Room())), old(St()).ts, old(depth))
      decreases |toks| - i, 3
    {
      hide Parser.Blames, Parser.RegisterAt, G.ParseWhens, ReadsWhens, Reads, Input.Place, Input.PlaceWhens, Input.From, Input.NumbersAt, ArmsSoFar, ArmAt, PrependWhens;
      ghost var st, room := St(), Room();
      var whens: Whens := NoWhens;
      var kids: seq<Node> := [];
      NoArms(Src(), st, room);
      while Kind().WHEN?
        invariant Valid() && Numbered() && depth == old(depth) && i >= old(i)
        invariant St().deferred.Quiet? ==> ArmsSoFar(Src(), whens, kids, st.ts, St().ts)
        invariant PrependWhens(whens, G.ParseWhens(St(), room)) == G.ParseWhens(st, room)
        decreases |toks| - i
      {
        ghost var s1 := St();
        WhensUnfold(whens, s1, room);
        var arm :- ParseArm();
        if St().deferred.Quiet? {
          ArmReads(s1, room);
          NextArm(Src(), whens, kids, arm.0.expr, arm.1.expr, st.ts, s1.ts, St().ts);
        }
        whens := SnocWhen(whens, arm.0.expr, arm.1.expr);
        kids := kids + [arm.0, arm.1];
      }
      ArmsEnd(whens, St(), room);
      if St().deferred.Quiet? {
        ArmsPlaced(Src(), whens, kids, st.ts, St().ts);
      }
      return Success((whens, kids));
    }

    /** One WHEN/THEN pair. */
    method ParseArm() returns (r: Result<(Node, Node)>)
      requires Valid() && Numbered() && Kind().WHEN?
      modifies this
      ensures match ArmAt(old(St()), old(Room()))
              case Ok(arm, st) =>
                && r.Success? && (r.value.0.expr, r.value.1.expr) == arm && Stands(st, old(depth)) && i > old(i)
                && (st.deferred.Quiet? ==> ArmPlaced(Src(), r.value.0, r.value.1, old(St()).ts))
              case Err(e) => Fails(r, e)
      decreases |toks| - i, 2
    {
      hide Parser.Blames, Parser.RegisterAt, WordAt, ThenAt, ArmAt, Reads, Input.Place, Input.From, Input.NumbersAt, Parser.Placed, ArmPlaced, Input.WellFormed;
      ghost var st, room := St(), Room();
      ArmUnfolds(st, room);
      var cond :- ParseAfterWord(G.LOWEST);
      ghost var s2 := St();
      var value :- ParseThen();
      r := Success((cond, value));
      if St().deferred.Quiet? {
        ArmDone(cond, value, st.ts, st.ts.tail, s2.ts, s2.ts.tail);
      }
    }

    /** The lookahead, which wants an expression after it, and that expression. */
    method ParseAfterWord(min: nat) returns (r: Result<Node>)
      requires Valid() && Numbered() && !Kind().EOF? && !Kind().VARIABLE? && min <= CLOSED
      modifies this
      ensures match WordAt(old(St()), old(Room()), min)
              case Ok(e, st) =>
                && r.Success? && r.value.expr == e && Stands(st, old(depth)) && i > old(i) && old(St()).ts.Cons?
                && (st.deferred.Quiet? ==> Placed(r.value, old(St()).ts.tail, st.ts))
              case Err(e) => Fails(r, e)
      decreases |toks| - i, 1
    {
      hide Parser.Blames, Parser.RegisterAt, Len, Input.WellFormed, G.ParseExpr, Reads, Input.Place, Input.From, Input.NumbersAt, Parser.Placed;
      NotLast();
      ghost var room := Room();
      var _ :- Step();
      ghost var s1 := St();
      r := ParseExpr(min);
      if r.Success? && St().deferred.Quiet? {
        ReadTo(s1, room, min, r.value);
      }
    }

    method ParseThen() returns (r: Result<Node>)
      requires Valid() && Numbered()
      modifies this
      ensures match ThenAt(old(St()), old(Room()))
              case Ok(e, st) =>
                && r.Success? && r.value.expr == e && Stands(st, old(depth)) && i > old(i)
                && old(St()).ts.Cons? && old(St()).deferred.Quiet?
                && (st.deferred.Quiet? ==> r.value == Src().Place(e, old(St()).ts.tail))
              case Err(e) => Fails(r, e)
      decreases |toks| - i, 7
    {
      hide Parser.Blames, Parser.RegisterAt, Len, Input.WellFormed, G.ParseExpr, Reads, Input.Place, Input.From, Input.NumbersAt, Engine.Expect, Parser.Placed;
      var _ :- Expect(THEN);
      r := ParseExpr(G.LOWEST);
    }

    lemma ArmDone(cond: Node, value: Node, ts: Toks, t1: Toks, t2: Toks, t3: Toks)
      requires Valid() && ts.Cons? && t1 == ts.tail && t2.Cons? && t3 == t2.tail
      requires Placed(cond, t1, t2) && value == Src().Place(value.expr, t3)
      ensures ArmPlaced(Src(), cond, value, ts)
    {
      hide Reads, Input.Place, Input.WellFormed;
      DropFew(ts);
      DropFew(t2);
    }

    lemma ArmReads(st: State, room: nat)
      requires Good(st) && Cur(st.ts).WHEN? && ArmAt(st, room).Ok? && ArmAt(st, room).state.deferred.Quiet?
      ensures var arm := ArmAt(st, room);
              ReadsWhens(When(arm.value.0, arm.value.1, NoWhens), st.ts) == To(arm.state.ts)
    {
      hide G.ParseExpr, Reads;
      var s1 := Engine.Advance(st).state;
      ExprReads(s1, room);
      var s3 := Engine.Expect(G.ParseExpr(s1, room, G.LOWEST).state, THEN).state;
      ExprReads(s3, room);
    }

    lemma ExprReads(st: State, room: nat)
      requires Good(st) && G.ParseExpr(st, room, G.LOWEST).Ok? && G.ParseExpr(st, room, G.LOWEST).state.deferred.Quiet?
      ensures Reads(G.ParseExpr(st, room, G.LOWEST).value, st.ts) == To(G.ParseExpr(st, room, G.LOWEST).state.ts)
    {
      hide G.ParseExpr, Reads, Canon, Spine, Need, Follows;
      ExprImage(st, room, G.LOWEST);
    }

    method ParseFuncCall() returns (r: Result<Node>)
      requires Valid() && Numbered() && G.IsIdentKind(Kind()) && Next().LP?
      modifies this
      ensures Agrees(r, G.ParseFuncCall(old(St()), old(Room())), old(St()).ts, old(depth))
      decreases |toks| - i, 3
    {
      hide Parser.Blames, Parser.RegisterAt, Input.WellFormed, G.ParsePrimary, G.ParseFuncCall, G.ParseCallArgs, CalleeAt, Reads, Input.Place, Input.PlacePrimary, Input.PlaceList, Input.From, Input.NumbersAt;
      ghost var st, room := St(), Room();
      CallUnfolds(st, room);
      var start := i;
      var name :- ParseCallee();
      ghost var s2 := St();
      var args :- ParseCallArgs();
      if Kind().FILTER? || Kind().OVER? {
        LeftOutLocated();
        return Failure(LeftOut());
      }
      r := Success(Leaf(start, Call(name, args.0), args.1));
      if St().deferred.Quiet? {
        CallDone(st, room, name, args.0, args.1, s2.ts);
      }
    }

    lemma CallDone(st: State, room: nat, name: Lexeme, args: CallArgs, kids: seq<Node>, t2: Toks)
      requires Valid() && St().deferred.Quiet? && Good(st) && 0 <= Src().Index(st.ts) < |toks|
      requires G.IsIdentKind(Cur(st.ts)) && Peek(st.ts).LP? && st.ts.Cons? && st.ts.tail.Cons? && t2 == st.ts.tail.tail
      requires G.ParseFuncCall(st, room) == Ok(Atom(Call(name, args)), St())
      requires kids == if args.Args? then Src().PlaceList(args.list, ArgsStart(args.quantifier, t2)) else []
      ensures Leaf(Src().Index(st.ts), Call(name, args), kids) == Src().Place(Atom(Call(name, args)), st.ts)
    {
      hide G.ParsePrimary, G.ParseFuncCall, Reads, Input.Place, Input.PlacePrimary, Input.PlaceList, Input.From, Input.NumbersAt;
      CallIsPrimary(st, room);
      CallPlaced(Src(), name, args, st.ts, t2);
      LeafPlaced(st, room, Call(name, args), kids);
    }

    /** The name of a call and its opening bracket. */
    method ParseCallee() returns (r: Result<Lexeme>)
      requires Valid() && Numbered() && G.IsIdentKind(Kind()) && Next().LP?
      modifies this`i
      ensures match CalleeAt(old(St()))
              case Ok(name, st) =>
                && r == Success(name) && Stands(st, depth) && i > old(i)
                && old(St()).ts.Cons? && old(St()).ts.tail.Cons? && st.ts == old(St()).ts.tail.tail
              case Err(e) => Fails(r, e)
    {
      hide Parser.Blames, Parser.RegisterAt, Input.From, Input.NumbersAt;
      var t :- Step();
      var _ :- Expect(LP);
      return Success(Lexeme(t.kind, TextOf(t)));
    }

    /** The arguments of a call, with the closing bracket, against `o`. */
    ghost predicate Arguments(r: Result<(CallArgs, seq<Node>)>, o: Outcome<CallArgs>, ts: Toks, d: nat)
      reads this
      requires Src().WellFormed()
    {
      match o
      case Ok(args, st) =>
        && r.Success? && r.value.0 == args && Stands(st, d)
        && (st.deferred.Quiet? ==>
              r.value.1 == if args.Args? then Src().PlaceList(args.list, ArgsStart(args.quantifier, ts)) else [])
      case Err(e) => Fails(r, e)
    }

    method ParseCallArgs() returns (r: Result<(CallArgs, seq<Node>)>)
      requires Valid() && Numbered()
      modifies this
      ensures Arguments(r, G.ParseCallArgs(old(St()), old(Room())), old(St()).ts, old(depth))
      decreases |toks| - i, 10
    {
      hide Parser.Blames, Parser.RegisterAt, Input.WellFormed, G.ParseCallArgs, G.ParseCallList, Engine.Advance, Engine.Expect, Reads, Input.Place, Input.PlaceList, Input.From, Input.NumbersAt;
      ghost var st := St();
      CallArgsUnfolds(st, Room());
      DropFew(st.ts);
      var k := Kind();
      if k.STAR? {
        var _ :- Step();
        var _ :- Expect(RP);
        r := Success((StarArg, []));
      } else if k.DISTINCT? || k.ALL? {
        var _ :- Step();
        r := ParseCallList(if k.DISTINCT? then Distinct else All, st.ts);
      } else {
        r := ParseCallList(NoQuantifier, st.ts);
      }
    }

    method ParseCallList(q: Quantifier, ghost ts: Toks) returns (r: Result<(CallArgs, seq<Node>)>)
      requires Valid() && Numbered() && St().ts == ArgsStart(q, ts)
      modifies this
      ensures Arguments(r, G.ParseCallList(old(St()), old(Room()), q), ts, old(depth))
      decreases |toks| - i, 9
    {
      hide Parser.Blames, Parser.RegisterAt, Good, Input.WellFormed, Engine.Expect, G.ParseCallList, G.ParseExprList, Reads, Input.Place, Input.PlaceList, Input.From, Input.NumbersAt;
      ghost var st := St();
      CallListUnfolds(st, Room(), q);
      if Kind().ORDER? {
        LeftOutLocated();
        return Failure(LeftOut());
      }
      var list: seq<Node> := [];
      if !Kind().RP? {
        list :- ParseExprList();
        if Kind().ORDER? {
          LeftOutLocated();
          return Failure(LeftOut());
        }
      }
      EmptyPlaced(Src(), st.ts);
      var _ :- Expect(RP);
      r := Success((Args(q, ToExprs(list)), list));
    }

    method ParseParenExpr() returns (r: Result<Node>)
      requires Valid() && Numbered() && Kind().LP?
      modifies this
      ensures Agrees(r, G.ParseParenExpr(old(St()), old(Room())), old(St()).ts, old(depth))
      decreases |toks| - i, 3
    {
      hide Parser.Blames, Parser.RegisterAt, Len, Input.WellFormed, Engine.Expect, ToExprs, G.ParsePrimary, G.ParseParenExpr, G.ParseExprList, Reads, Input.Place, Input.PlacePrimary, Input.PlaceList, Input.From, Input.NumbersAt;
      NotLast();
      ghost var st, room := St(), Room();
      BracketUnfolds(st, room);
      var start := i;
      var _ :- Expect(LP);
      if G.AtSelect(Kind()) {
        LeftOutLocated();
        return Failure(LeftOut());
      }
      var list :- ParseExprList();
      var _ :- Expect(RP);
      var p := Bracket(ToExprs(list));
      r := Success(Leaf(start, p, list));
      BracketPlaced(Src(), ToExprs(list), st.ts);
      LeafPlaced(st, room, p, list);
    }

    /** The whole input as one expression: nothing may be left over, and an error deferred to
        the very end is reported there. */
    method ParseWhole() returns (r: Result<Node>)
      requires Src().WellFormed() && i == 0 && depth == 0 && deferred.NoError? && Numbered()
      modifies this
      ensures match G.ParseWhole(Src().From(0), MAX_DEPTH)
              case Ok(e, _) => r == Success(Src().Place(e, Src().From(0)))
              case Err(e) => Fails(r, e)
    {
      hide G.ParseExpr, Input.Place, Reads;
      FirstToken(Src());
      var _ :- CheckIllegal();
      var e :- ParseExpr(G.LOWEST);
      SyntaxErrorLocated();
      if !Kind().EOF? {
        return Failure(SyntaxError());
      }
      if deferred.Raised? {
        return Failure(deferred.error);
      }
      return Success(e);
    }
  }

  /** ParseExpr(src): one whole expression, from a parser of its own. */
  method ParseExpression(src: string, toks: seq<SourceToken>) returns (r: Result<Node>)
    requires Input(src, toks).WellFormed()
    ensures var input := Input(src, toks);
            match G.ParseWhole(input.From(0), MAX_DEPTH)
            case Ok(e, _) => r == Success(input.Place(e, input.From(0)))
            case Err(e) =>
              && e.left < |toks| && r == Failure(ParseError(e.msg, toks[|toks| - 1 - e.left].pos))
              && Tells(e.msg, toks[|toks| - 1 - e.left].kind, input.Text(|toks| - 1 - e.left))
  {
    hide G.ParseWhole, Input.Place, Reads;
    var p := new Parser(src, toks);
    r := p.ParseWhole();
  }

  lemma {:induction false} FirstToken(input: Input)
    requires input.WellFormed()
    ensures |input.toks| > 1 ==> Text(input.From(0)) == input.Text(0)
  {
  }

  ghost function PairAt(st: State): Outcome<(Lexeme, Lexeme)>
    requires Good(st)
  {
    var (a, s1) :- Engine.ExpectName(st);
    var (_, s2) :- Engine.Expect(s1, DOT);
    var (b, s3) :- Engine.ExpectName(s2);
    Ok((a, b), s3)
  }

  ghost function ThirdAt(st: State, a: Lexeme, b: Lexeme): Outcome<Primary>
    requires Good(st)
  {
    if Cur(st.ts).DOT? then
      var (_, s1) :- Engine.Advance(st);
      var (c, s2) :- Engine.ExpectName(s1);
      Ok(QualifiedRef3(a, b, c), s2)
    else
      Ok(QualifiedRef2(a, b), st)
  }

  lemma ReferenceUnfolds(st: State)
    requires Good(st)
    ensures PairAt(st).Err? ==> G.ParseQualifiedRef(st) == Err(PairAt(st).error)
    ensures PairAt(st).Ok? ==>
              var s3 := PairAt(st).state;
              var third := ThirdAt(s3, PairAt(st).value.0, PairAt(st).value.1);
              && Good(s3) && s3.deferred.Quiet?
              && G.ParseQualifiedRef(st) == (match third case Ok(p, s) => Ok(Atom(p), s) case Err(e) => Err(e))
  {
    hide Engine.ExpectName, Engine.Expect;
  }

  /** The name of a call and its opening bracket. */
  ghost function CalleeAt(st: State): Outcome<Lexeme>
    requires Good(st)
  {
    var (name, s1) :- Engine.Advance(st);
    var (_, s2) :- Engine.Expect(s1, LP);
    Ok(name, s2)
  }

  /** What a call with these arguments comes to. */
  ghost function CallOf(name: Lexeme, o: Outcome<CallArgs>): Outcome<Expr> {
    match o
    case Ok(args, st) =>
      if Cur(st.ts).FILTER? || Cur(st.ts).OVER? then Err(G.LeftOut(st)) else Ok(Atom(Call(name, args)), st)
    case Err(e) => Err(e)
  }

  lemma CallUnfolds(st: State, room: nat)
    requires Good(st)
    ensures CalleeAt(st).Err? ==> G.ParseFuncCall(st, room) == Err(CalleeAt(st).error)
    ensures CalleeAt(st).Ok? && st.ts.Cons? ==>
              && Good(CalleeAt(st).state)
              && G.ParseFuncCall(st, room) == CallOf(CalleeAt(st).value, G.ParseCallArgs(CalleeAt(st).state, room))
  {
    hide G.ParseCallArgs;
  }

  /** One WHEN/THEN pair at the lookahead. */
  ghost function ArmAt(st: State, room: nat): Outcome<(Expr, Expr)>
    requires Good(st)
  {
    var (_, s1) :- Engine.Advance(st);
    var (cond, s2) :- G.ParseExpr(s1, room, G.LOWEST);
    var (_, s3) :- Engine.Expect(s2, THEN);
    var (value, s4) :- G.ParseExpr(s3, room, G.LOWEST);
    Ok((cond, value), s4)
  }

  /** What is left to compute at a LIKE, a BETWEEN or an IN. */
  ghost function LikeAt(st: State, room: nat, negated: bool): Outcome<Suffix>
    requires Good(st)
  {
    var (t, s1) :- Engine.Advance(st);
    G.ParseLike(s1, room, negated, t)
  }

  ghost function BetweenAt(st: State, room: nat, negated: bool): Outcome<Suffix>
    requires Good(st)
  {
    var (_, s1) :- Engine.Advance(st);
    G.ParseBetween(s1, room, negated)
  }

  ghost function InAt(st: State, room: nat, negated: bool): Outcome<Suffix>
    requires Good(st)
  {
    var (_, s1) :- Engine.Advance(st);
    G.ParseIn(s1, room, negated)
  }

  /** An optional clause: the word `kw` and an expression, or nothing. */
  ghost function ClauseAt(st: State, room: nat, kw: Kind, min: nat): Outcome<OptExpr>
    requires Good(st)
  {
    if Cur(st.ts) != kw then Ok(None, st)
    else
      var (_, s1) :- Engine.Advance(st);
      var (e, s2) :- G.ParseExpr(s1, room, min);
      Ok(Some(e), s2)
  }

  ghost function LikeOf(negated: bool, like: Lexeme, y: Expr, o: Outcome<OptExpr>): Outcome<Suffix> {
    match o
    case Ok(escape, st) => Ok(Like(negated, like, y, escape), st)
    case Err(e) => Err(e)
  }

  /** DISTINCT FROM, if it is there. */
  ghost function DistinctAt(st: State): Outcome<bool>
    requires Good(st)
  {
    if Cur(st.ts).DISTINCT? then
      var (_, s1) :- Engine.Advance(st);
      var (_, s2) :- Engine.Expect(s1, FROM);
      Ok(true, s2)
    else Ok(false, st)
  }

  ghost function IsOf(negated: bool, distinct: bool, o: Outcome<Expr>): Outcome<Suffix> {
    match o
    case Ok(y, st) => Ok(Is(negated, distinct, y), st)
    case Err(e) => Err(e)
  }

  lemma IsOperandUnfolds(st: State, room: nat, negated: bool)
    requires Good(st)
    ensures var d := DistinctAt(st);
            && (d.Err? ==> G.ParseIsOperand(st, room, negated) == Err(d.error))
            && (d.Ok? ==>
                  && Good(d.state)
                  && G.ParseIsOperand(st, room, negated) == IsOf(negated, d.value, G.ParseExpr(d.state, room, G.AFTER_COMPARE)))
  {
    hide G.ParseExpr;
  }

  lemma TermUnfolds(st: State, room: nat)
    requires Good(st) && (G.IsLiteralKind(Cur(st.ts)) || (Cur(st.ts).STRING? && !Peek(st.ts).DOT?))
    ensures G.ParsePrimary(st, room) == G.ParseTerm(st)
    ensures Engine.Advance(st).Err? ==> G.ParseTerm(st) == Err(Engine.Advance(st).error)
    ensures Engine.Advance(st).Ok? ==>
              var t := Engine.Advance(st).value;
              G.ParseTerm(st) ==
              if t.kind.QNUMBER? && Digits.DequoteNumber(t.text).Misplaced? then
                Err(Error(Unrecognized(Digits.DequoteNumber(t.text).buffer), Len(st.ts)))
              else Ok(Atom(Literal(t)), Engine.Advance(st).state)
  {
    hide Digits.DequoteNumber;
  }

  ghost function BracketOf(o: Outcome<Exprs>): Outcome<Expr>
    requires o.Ok? ==> Good(o.state)
  {
    var (list, s1) :- o;
    var (_, s2) :- Engine.Expect(s1, RP);
    Ok(Atom(Bracket(list)), s2)
  }

  lemma BracketUnfolds(st: State, room: nat)
    requires Good(st) && Cur(st.ts).LP?
    ensures G.ParsePrimary(st, room) == G.ParseParenExpr(st, room)
    ensures var t := Engine.Expect(st, LP);
            && (t.Err? ==> G.ParseParenExpr(st, room) == Err(t.error))
            && (t.Ok? ==>
                  && Good(t.state)
                  && G.ParseParenExpr(st, room) ==
                     if G.AtSelect(Cur(t.state.ts)) then Err(G.LeftOut(t.state)) else BracketOf(G.ParseExprList(t.state, room)))
  {
    hide G.ParseExprList, G.ParseCase, G.ParseFuncCall, G.ParseQualifiedRef, G.ParseTerm;
  }

  lemma NumbersStep(input: Input, start: nat)
    requires input.WellFormed() && start + 1 < |input.toks| && input.toks[start].kind.VARIABLE?
    ensures input.NumbersAt(start + 1) == Binds.Bind(input.NumbersAt(start), input.Text(start))
  {
  }

  lemma BracketPlaced(input: Input, list: Exprs, ts: Toks)
    requires input.WellFormed() && ts.Cons?
    ensures input.PlacePrimary(Bracket(list), ts) == input.PlaceList(list, ts.tail)
  {
    hide Input.PlaceList;
    DropFew(ts);
  }

  ghost function SomeOf(o: Outcome<Expr>): Outcome<OptExpr> {
    match o
    case Ok(e, st) => Ok(Some(e), st)
    case Err(e) => Err(e)
  }

  lemma ClauseUnfolds(st: State, room: nat, kw: Kind, min: nat)
    requires Good(st) && kw != EOF
    ensures Cur(st.ts) != kw ==> ClauseAt(st, room, kw, min) == Ok(None, st)
    ensures Cur(st.ts) == kw ==>
              var t := Engine.Expect(st, kw);
              && (t.Err? ==> ClauseAt(st, room, kw, min) == Err(t.error))
              && (t.Ok? ==> Good(t.state) && ClauseAt(st, room, kw, min) == SomeOf(G.ParseExpr(t.state, room, min)))
  {
    hide G.ParseExpr;
  }

  ghost function BinaryOf(op: Operator, o: Outcome<Expr>): Outcome<Suffix> {
    match o
    case Ok(y, st) => Ok(Binary(op, y), st)
    case Err(e) => Err(e)
  }

  lemma BinaryUnfolds(st: State, room: nat)
    requires Good(st) && G.InfixPrec(Cur(st.ts)) > 0
    ensures G.Prec(st.ts) > 0 && !Cur(st.ts).EOF? && !Cur(st.ts).VARIABLE? && G.InfixPrec(Cur(st.ts)) < CLOSED
    ensures Engine.Advance(st).Err? ==> G.ParseSuffix(st, room) == Err(Engine.Advance(st).error)
    ensures Engine.Advance(st).Ok? && st.ts.Cons? ==>
              var s1 := Engine.Advance(st).state;
              && Good(s1) && s1.ts == st.ts.tail
              && G.ParseSuffix(st, room) ==
                 BinaryOf(G.InfixOperator(st.ts.head), G.ParseExpr(s1, room, G.InfixPrec(Cur(st.ts)) + 1))
  {
    hide G.ParseExpr, G.ParseIs, G.ParseLike, G.ParseBetween, G.ParseIn, G.ParseNegated, G.InfixOperator;
  }

  lemma CollateUnfolds(st: State, room: nat)
    requires Good(st) && Cur(st.ts).COLLATE?
    ensures G.Prec(st.ts) > 0
    ensures Engine.Advance(st).Err? ==> G.ParseSuffix(st, room) == Err(Engine.Advance(st).error)
    ensures Engine.Advance(st).Ok? ==>
              && Good(Engine.Advance(st).state)
              && var name := Engine.ExpectIDS(Engine.Advance(st).state);
                 && (name.Err? ==> G.ParseSuffix(st, room) == Err(name.error))
                 && (name.Ok? ==> G.ParseSuffix(st, room) == Ok(Collate(name.value), name.state))
  {
    hide G.ParseExpr, G.ParseIs, G.ParseLike, G.ParseBetween, G.ParseIn, G.ParseNegated, Engine.ExpectIDS;
  }

  lemma NullTestUnfolds(st: State, room: nat)
    requires Good(st) && (Cur(st.ts).ISNULL? || Cur(st.ts).NOTNULL?)
    ensures G.Prec(st.ts) > 0
    ensures Engine.Advance(st).Err? ==> G.ParseSuffix(st, room) == Err(Engine.Advance(st).error)
    ensures Engine.Advance(st).Ok? ==>
              G.ParseSuffix(st, room) ==
              Ok(NullCheck(if Cur(st.ts).NOTNULL? then TestNotNull else TestIsNull), Engine.Advance(st).state)
  {
    hide G.ParseExpr, G.ParseIs, G.ParseLike, G.ParseBetween, G.ParseIn, G.ParseNegated;
  }

  ghost function ArgsOf(q: Quantifier, list: Exprs, o: Outcome<Lexeme>): Outcome<CallArgs> {
    match o
    case Ok(_, st) => Ok(Args(q, list), st)
    case Err(e) => Err(e)
  }

  lemma CallListUnfolds(st: State, room: nat, q: Quantifier)
    requires Good(st)
    ensures Cur(st.ts).ORDER? ==> G.ParseCallList(st, room, q) == Err(G.LeftOut(st))
    ensures Cur(st.ts).RP? ==> G.ParseCallList(st, room, q) == ArgsOf(q, Nil, Engine.Expect(st, RP))
    ensures !Cur(st.ts).ORDER? && !Cur(st.ts).RP? ==>
              var l := G.ParseExprList(st, room);
              && (l.Err? ==> G.ParseCallList(st, room, q) == Err(l.error))
              && (l.Ok? ==>
                    && Good(l.state)
                    && G.ParseCallList(st, room, q) ==
                       if Cur(l.state.ts).ORDER? then Err(G.LeftOut(l.state)) else ArgsOf(q, l.value, Engine.Expect(l.state, RP)))
  {
    hide G.ParseExprList;
  }

  lemma LikeUnfolds(st: State, room: nat, negated: bool, like: Lexeme)
    requires Good(st)
    ensures var y := G.ParseExpr(st, room, G.AFTER_COMPARE);
            && (y.Err? ==> G.ParseLike(st, room, negated, like) == Err(y.error))
            && (y.Ok? ==>
                  && Good(y.state)
                  && G.ParseLike(st, room, negated, like) ==
                     LikeOf(negated, like, y.value, ClauseAt(y.state, room, ESCAPE, G.AFTER_COMPARE)))
  {
    hide G.ParseExpr;
  }

  lemma ExprUnfolds(st: State, room: nat, min: nat)
    requires Good(st)
    ensures room == 0 ==> G.ParseExpr(st, room, min) == Err(Error(RecursionLimit, Len(st.ts)))
    ensures room > 0 ==>
              var x := G.ParsePrefix(st, room - 1);
              && (x.Err? ==> G.ParseExpr(st, room, min) == Err(x.error))
              && (x.Ok? ==>
                    Good(x.state) && G.ParseExpr(st, room, min) == G.ParseOperators(x.state, room - 1, x.value, min, false))
  {
    hide G.ParsePrefix, G.ParseOperators;
  }

  lemma BoundUnfolds(st: State, room: nat)
    requires Good(st)
    ensures room == 0 ==> G.ParseBetweenBound(st, room) == Err(Error(RecursionLimit, Len(st.ts)))
    ensures room > 0 ==>
              var x := G.ParsePrefix(st, room - 1);
              && (x.Err? ==> G.ParseBetweenBound(st, room) == Err(x.error))
              && (x.Ok? ==>
                    Good(x.state) && G.ParseBetweenBound(st, room) == G.ParseOperators(x.state, room - 1, x.value, 1, true))
  {
    hide G.ParsePrefix, G.ParseOperators;
  }

  ghost function BoundsAt(st: State, room: nat): Outcome<(Expr, Expr)>
    requires Good(st)
  {
    var (lo, s1) :- G.ParseBetweenBound(st, room);
    var (_, s2) :- Engine.Expect(s1, AND);
    var (hi, s3) :- G.ParseExpr(s2, room, G.AFTER_COMPARE);
    Ok((lo, hi), s3)
  }

  ghost function BoundsOf(lo: Expr, o: Outcome<Expr>): Outcome<(Expr, Expr)> {
    match o
    case Ok(hi, st) => Ok((lo, hi), st)
    case Err(e) => Err(e)
  }

  lemma BoundsUnfold(st: State, room: nat)
    requires Good(st)
    ensures var lo := G.ParseBetweenBound(st, room);
            && (lo.Err? ==> BoundsAt(st, room) == Err(lo.error))
            && (lo.Ok? ==>
                  && Good(lo.state)
                  && var t := Engine.Expect(lo.state, AND);
                     && (t.Err? ==> BoundsAt(st, room) == Err(t.error))
                     && (t.Ok? ==>
                           Good(t.state) && BoundsAt(st, room) == BoundsOf(lo.value, G.ParseExpr(t.state, room, G.AFTER_COMPARE))))
  {
    hide G.ParseExpr, G.ParseBetweenBound;
  }

  ghost function UnaryOf(pre: Prefix, o: Outcome<Expr>): Outcome<Expr> {
    match o
    case Ok(x, st) => Ok(Unary(pre, x), st)
    case Err(e) => Err(e)
  }

  ghost function BetweenOf(negated: bool, o: Outcome<(Expr, Expr)>): Outcome<Suffix> {
    match o
    case Ok(bounds, st) => Ok(Between(negated, bounds.0, bounds.1), st)
    case Err(e) => Err(e)
  }

  lemma BetweenUnfolds(st: State, room: nat, negated: bool)
    requires Good(st)
    ensures G.ParseBetween(st, room, negated) == BetweenOf(negated, BoundsAt(st, room))
  {
    hide G.ParseExpr, G.ParseBetweenBound;
  }

  /** The postfix operator a NOT begins. */
  lemma NegatedUnfolds(st: State, room: nat)
    requires Good(st) && Cur(st.ts).NOT?
    ensures G.Prec(st.ts) > 0
    ensures Engine.Advance(st).Err? ==> G.ParseSuffix(st, room) == Err(Engine.Advance(st).error)
    ensures Engine.Advance(st).Ok? ==>
              var s1 := Engine.Advance(st).state;
              var k := Cur(s1.ts);
              && Good(s1) && s1.ts == st.ts.tail
              && (k.LIKE_KW? || k.MATCH? ==> G.ParseSuffix(st, room) == LikeAt(s1, room, true))
              && (k.BETWEEN? ==> G.ParseSuffix(st, room) == BetweenAt(s1, room, true))
              && (k.IN? ==> G.ParseSuffix(st, room) == InAt(s1, room, true))
              && (k.NULL? && Engine.Advance(s1).Err? ==> G.ParseSuffix(st, room) == Err(Engine.Advance(s1).error))
              && (k.NULL? && Engine.Advance(s1).Ok? ==>
                    G.ParseSuffix(st, room) == Ok(NullCheck(TestNotNullWords), Engine.Advance(s1).state))
              && (!k.LIKE_KW? && !k.MATCH? && !k.BETWEEN? && !k.IN? && !k.NULL? ==>
                    G.ParseSuffix(st, room) == Err(Engine.SyntaxError(s1)))
  {
    hide G.ParseExpr, G.ParseIs, G.ParseLike, G.ParseBetween, G.ParseIn;
  }

  lemma CallArgsUnfolds(st: State, room: nat)
    requires Good(st)
    ensures var k := Cur(st.ts);
            if k.STAR? || k.DISTINCT? || k.ALL? then
              && (Engine.Advance(st).Err? ==> G.ParseCallArgs(st, room) == Err(Engine.Advance(st).error))
              && (Engine.Advance(st).Ok? ==>
                    var s1 := Engine.Advance(st).state;
                    && Good(s1) && st.ts.Cons? && s1.ts == st.ts.tail
                    && (k.STAR? && Engine.Expect(s1, RP).Err? ==> G.ParseCallArgs(st, room) == Err(Engine.Expect(s1, RP).error))
                    && (k.STAR? && Engine.Expect(s1, RP).Ok? ==> G.ParseCallArgs(st, room) == Ok(StarArg, Engine.Expect(s1, RP).state))
                    && (!k.STAR? ==>
                          G.ParseCallArgs(st, room) == G.ParseCallList(s1, room, if k.DISTINCT? then Distinct else All)))
            else G.ParseCallArgs(st, room) == G.ParseCallList(st, room, NoQuantifier)
  {
    hide G.ParseCallList;
  }

  lemma PrefixPlain(k: Kind, pre: Prefix)
    requires G.PrefixOf(k) == [pre]
    ensures !k.VARIABLE? && !k.EOF? && G.PrefixMin(pre) <= CLOSED
  {
  }

  lemma UnaryUnfolds(st: State, room: nat, pre: Prefix)
    requires Good(st) && G.PrefixOf(Cur(st.ts)) == [pre]
    ensures G.ParsePrefix(st, room) == UnaryOf(pre, WordAt(st, room, G.PrefixMin(pre)))
    ensures st.ts.Cons? ==> st.ts.head.kind == PrefixKind(pre)
  {
    hide G.ParseExpr, G.ParsePrimary;
  }

  lemma ClauseSteps(st: State, room: nat, kw: Kind, min: nat)
    requires Good(st) && kw != EOF
    ensures ClauseAt(st, room, kw, min).Ok? ==> Good(ClauseAt(st, room, kw, min).state)
    ensures ClauseAt(st, room, kw, min).Ok? && ClauseAt(st, room, kw, min).value.Some? ==> st.deferred.Quiet?
  {
    hide G.ParseExpr;
  }

  /** The ELSE of a CASE, if it is there, and its END. */
  ghost function CaseEndAt(st: State, room: nat): Outcome<OptExpr>
    requires Good(st)
  {
    ClauseSteps(st, room, ELSE, G.LOWEST);
    var (otherwise, s1) :- ClauseAt(st, room, ELSE, G.LOWEST);
    var (_, s2) :- Engine.Expect(s1, END);
    Ok(otherwise, s2)
  }

  ghost function CaseOf(operand: OptExpr, ws: Whens, o: Outcome<OptExpr>): Outcome<Expr> {
    match o
    case Ok(otherwise, st) => Ok(Atom(Case(operand, ws, otherwise)), st)
    case Err(e) => Err(e)
  }

  lemma CaseEndUnfolds(st: State, room: nat)
    requires Good(st)
    ensures var clause := ClauseAt(st, room, ELSE, G.LOWEST);
            && (clause.Err? ==> CaseEndAt(st, room) == Err(clause.error))
            && (clause.Ok? ==>
                  && Good(clause.state) && (clause.value.Some? ==> st.deferred.Quiet?)
                  && var t := Engine.Expect(clause.state, END);
                     && (t.Err? ==> CaseEndAt(st, room) == Err(t.error))
                     && (t.Ok? ==> CaseEndAt(st, room) == Ok(clause.value, t.state)))
  {
    hide ClauseAt, Engine.Expect;
    ClauseSteps(st, room, ELSE, G.LOWEST);
  }

  ghost function EndOf(o: OptExpr, t: Outcome<Lexeme>): Outcome<OptExpr> {
    match t
    case Ok(_, st) => Ok(o, st)
    case Err(e) => Err(e)
  }

  lemma CaseEndIs(st: State, room: nat)
    requires Good(st)
    ensures !Cur(st.ts).ELSE? ==> CaseEndAt(st, room) == EndOf(None, Engine.Expect(st, END))
    ensures Cur(st.ts).ELSE? && Engine.Advance(st).Err? ==> CaseEndAt(st, room) == Err(Engine.Advance(st).error)
    ensures Cur(st.ts).ELSE? && Engine.Advance(st).Ok? ==>
              && Good(Engine.Advance(st).state)
              && var e := G.ParseExpr(Engine.Advance(st).state, room, G.LOWEST);
                 && (e.Err? ==> CaseEndAt(st, room) == Err(e.error))
                 && (e.Ok? ==> Good(e.state) && CaseEndAt(st, room) == EndOf(Some(e.value), Engine.Expect(e.state, END)))
  {
    hide G.ParseExpr, Engine.Expect;
    ClauseSteps(st, room, ELSE, G.LOWEST);
  }

  lemma NoArmsUnfold(st: State, room: nat, operand: OptExpr)
    requires Good(st) && !Cur(st.ts).WHEN?
    ensures G.ParseCaseArms(st, room, operand) == Err(Engine.SyntaxError(st)) && G.ParseWhens(st, room) == Ok(NoWhens, st)
  {
    hide G.ParseExpr;
  }

  lemma ArmsUnfold(st: State, room: nat, operand: OptExpr)
    requires Good(st) && Cur(st.ts).WHEN?
    ensures var ws := G.ParseWhens(st, room);
            && (ws.Err? ==> G.ParseCaseArms(st, room, operand) == Err(ws.error))
            && (ws.Ok? ==>
                  && Good(ws.state) && ws.value.When?
                  && G.ParseCaseArms(st, room, operand) == CaseOf(operand, ws.value, CaseEndAt(ws.state, room)))
  {
    hide G.ParseExpr, G.ParseWhens, Engine.Expect, Engine.Advance, Engine.SyntaxError, CaseEndAt;
    var ws := G.ParseWhens(st, room);
    if ws.Ok? {
      CaseEndIs(ws.state, room);
    }
  }

  /** The lookahead, and the expression after it. */
  ghost function WordAt(st: State, room: nat, min: nat): Outcome<Expr>
    requires Good(st)
  {
    var (_, s1) :- Engine.Advance(st);
    G.ParseExpr(s1, room, min)
  }

  ghost function ThenAt(st: State, room: nat): Outcome<Expr>
    requires Good(st)
  {
    var (_, s1) :- Engine.Expect(st, THEN);
    G.ParseExpr(s1, room, G.LOWEST)
  }

  lemma ArmUnfolds(st: State, room: nat)
    requires Good(st) && Cur(st.ts).WHEN?
    ensures WordAt(st, room, G.LOWEST).Err? ==> ArmAt(st, room) == Err(WordAt(st, room, G.LOWEST).error)
    ensures WordAt(st, room, G.LOWEST).Ok? ==>
              var s2 := WordAt(st, room, G.LOWEST).state;
              && Good(s2)
              && (ThenAt(s2, room).Err? ==> ArmAt(st, room) == Err(ThenAt(s2, room).error))
              && (ThenAt(s2, room).Ok? ==>
                    ArmAt(st, room) == Ok((WordAt(st, room, G.LOWEST).value, ThenAt(s2, room).value), ThenAt(s2, room).state))
  {
    hide G.ParseExpr;
  }

  function SnocWhen(ws: Whens, cond: Expr, value: Expr): Whens {
    AppendWhens(ws, When(cond, value, NoWhens))
  }

  function AppendWhens(a: Whens, b: Whens): Whens {
    if a.NoWhens? then b else When(a.cond, a.value, AppendWhens(a.rest, b))
  }

  function PrependWhens(ws: Whens, o: Outcome<Whens>): Outcome<Whens> {
    match o
    case Ok(rest, st) => Ok(AppendWhens(ws, rest), st)
    case Err(e) => Err(e)
  }

  /** `kids` are the arms read from `ts` up to `k`, placed. */
  ghost predicate ArmsSoFar(input: Input, ws: Whens, kids: seq<Node>, ts: Toks, k: Toks)
    requires input.WellFormed()
  {
    ReadsWhens(ws, ts) == To(k) && kids == input.PlaceWhens(ws, ts)
  }

  ghost predicate ArmPlaced(input: Input, cond: Node, value: Node, ts: Toks)
    requires input.WellFormed()
  {
    && cond == input.Place(cond.expr, Drop(1, ts))
    && value == input.Place(value.expr, Drop(1, After(Reads(cond.expr, Drop(1, ts)))))
  }

  lemma NoArms(input: Input, st: State, room: nat)
    requires input.WellFormed() && Good(st)
    ensures ArmsSoFar(input, NoWhens, [], st.ts, st.ts)
    ensures PrependWhens(NoWhens, G.ParseWhens(st, room)) == G.ParseWhens(st, room)
  {
    var o := G.ParseWhens(st, room);
    hide G.ParseWhens;
    assert o.Ok? ==> AppendWhens(NoWhens, o.value) == o.value;
  }

  lemma ArmsPlaced(input: Input, ws: Whens, kids: seq<Node>, ts: Toks, k: Toks)
    requires input.WellFormed() && ArmsSoFar(input, ws, kids, ts, k)
    ensures kids == input.PlaceWhens(ws, ts)
  {
  }

  lemma {:induction false} AppendSnocWhen(ws: Whens, cond: Expr, value: Expr, rest: Whens)
    ensures AppendWhens(SnocWhen(ws, cond, value), rest) == AppendWhens(ws, When(cond, value, rest))
  {
    if ws.When? {
      AppendSnocWhen(ws.rest, cond, value, rest);
    } else {
      assert AppendWhens(NoWhens, rest) == rest;
    }
  }

  /** The arms so far and the rest, one arm further on. */
  lemma WhensUnfold(ws: Whens, st: State, room: nat)
    requires Good(st) && Cur(st.ts).WHEN?
    ensures ArmAt(st, room).Err? ==> PrependWhens(ws, G.ParseWhens(st, room)) == Err(ArmAt(st, room).error)
    ensures ArmAt(st, room).Ok? ==>
              var arm := ArmAt(st, room);
              && Good(arm.state) && st.deferred.Quiet?
              && PrependWhens(SnocWhen(ws, arm.value.0, arm.value.1), G.ParseWhens(arm.state, room))
                 == PrependWhens(ws, G.ParseWhens(st, room))
  {
    hide G.ParseExpr, SnocWhen, AppendWhens;
    var arm := ArmAt(st, room);
    if arm.Ok? {
      var rest := G.ParseWhens(arm.state, room);
      if rest.Ok? {
        AppendSnocWhen(ws, arm.value.0, arm.value.1, rest.value);
      }
    }
  }

  lemma {:induction false} AppendNoWhens(ws: Whens)
    ensures AppendWhens(ws, NoWhens) == ws
  {
    if ws.When? {
      AppendNoWhens(ws.rest);
    }
  }

  lemma ArmsEnd(ws: Whens, st: State, room: nat)
    requires Good(st) && !Cur(st.ts).WHEN?
    ensures PrependWhens(ws, G.ParseWhens(st, room)) == Ok(ws, st)
  {
    AppendNoWhens(ws);
  }

  /** One arm, read and placed at `ts`. */
  lemma {:induction false} OneArm(input: Input, cond: Expr, value: Expr, rest: Whens, ts: Toks)
    requires input.WellFormed() && ReadsWhens(When(cond, value, NoWhens), ts).To?
    ensures var t1 := Drop(1, ts);
            var t2 := Drop(1, After(Reads(cond, t1)));
            var t3 := After(ReadsWhens(When(cond, value, NoWhens), ts));
            && t3 == After(Reads(value, t2))
            && ReadsWhens(When(cond, value, rest), ts) == ReadsWhens(rest, t3)
            && input.PlaceWhens(When(cond, value, rest), ts) == [input.Place(cond, t1), input.Place(value, t2)] + input.PlaceWhens(rest, t3)
  {
    hide Reads, Input.Place;
    var t1 := Drop(1, ts);
    assert ts.Cons? ==> t1 == ts.tail by { assert ts.Cons? ==> Drop(0, ts.tail) == ts.tail; }
    var k := After(Reads(cond, t1));
    assert k.Cons? ==> Drop(1, k) == k.tail by { assert k.Cons? ==> Drop(0, k.tail) == k.tail; }
  }

  lemma {:induction false} NoArmRead(input: Input, ts: Toks)
    requires input.WellFormed()
    ensures ReadsWhens(NoWhens, ts) == To(ts) && input.PlaceWhens(NoWhens, ts) == []
  {
  }

  lemma {:induction false} ArmFirst(cond: Expr, value: Expr, rest: Whens, ts: Toks)
    requires ReadsWhens(When(cond, value, rest), ts).To?
    ensures ReadsWhens(When(cond, value, NoWhens), ts).To?
  {
    hide Reads;
  }

  lemma {:induction false} NextArm(input: Input, ws: Whens, kids: seq<Node>, cond: Expr, value: Expr, ts: Toks, k: Toks, k2: Toks)
    requires input.WellFormed() && ArmsSoFar(input, ws, kids, ts, k)
    requires ReadsWhens(When(cond, value, NoWhens), k) == To(k2)
    ensures var c := input.Place(cond, Drop(1, k));
            var v := input.Place(value, Drop(1, After(Reads(cond, Drop(1, k)))));
            ArmsSoFar(input, SnocWhen(ws, cond, value), kids + [c, v], ts, k2)
    decreases ws
  {
    hide Reads, ReadsWhens, Input.Place, Input.PlaceWhens;
    OneArm(input, cond, value, NoWhens, k);
    NoArmRead(input, k2);
    NoArmRead(input, ts);
    if ws.When? {
      var t3 := After(ReadsWhens(When(ws.cond, ws.value, NoWhens), ts));
      ArmFirst(ws.cond, ws.value, ws.rest, ts);
      OneArm(input, ws.cond, ws.value, ws.rest, ts);
      OneArm(input, ws.cond, ws.value, SnocWhen(ws.rest, cond, value), ts);
      NextArm(input, ws.rest, input.PlaceWhens(ws.rest, t3), cond, value, t3, k, k2);
    }
  }

  lemma {:induction false} CasePlaced(input: Input, operand: OptExpr, whens: Whens, otherwise: OptExpr, ts: Toks, t2: Toks, t3: Toks)
    requires input.WellFormed() && t2 == After(ReadsOperand(operand, Drop(1, ts))) && ReadsWhens(whens, t2) == To(t3)
    requires otherwise.Some? ==> t3.Cons?
    ensures input.PlacePrimary(Case(operand, whens, otherwise), ts) ==
            input.PlaceOpt(operand, Drop(1, ts)) + input.PlaceWhens(whens, t2)
            + (if otherwise.Some? then [input.Place(otherwise.expr, t3.tail)] else [])
  {
    hide Reads, ReadsOperand, ReadsWhens, Input.Place, Input.PlaceWhens;
    assert t3.Cons? ==> Drop(1, t3) == t3.tail;
  }

  function ListTail(st: State, room: nat): Outcome<Exprs>
    requires Good(st)
  {
    if Cur(st.ts).COMMA? then
      var (_, s1) :- Engine.Advance(st);
      G.ParseExprList(s1, room)
    else Ok(Nil, st)
  }

  function Append(a: Exprs, b: Exprs): Exprs {
    if a.Nil? then b else More(a.head, Append(a.tail, b))
  }

  function Prepend(es: Exprs, o: Outcome<Exprs>): Outcome<Exprs> {
    match o
    case Ok(rest, st) => Ok(Append(es, rest), st)
    case Err(e) => Err(e)
  }

  /** A list is its first element and a tail. */
  lemma ListUnfolds(st: State, room: nat)
    requires Good(st)
    ensures G.ParseExpr(st, room, G.LOWEST).Err? ==>
              G.ParseExprList(st, room) == Err(G.ParseExpr(st, room, G.LOWEST).error)
    ensures G.ParseExpr(st, room, G.LOWEST).Ok? ==>
              var x := G.ParseExpr(st, room, G.LOWEST);
              G.ParseExprList(st, room) == Prepend(More(x.value, Nil), ListTail(x.state, room))
  {
    hide G.ParseExpr;
    var x := G.ParseExpr(st, room, G.LOWEST);
    if x.Ok? {
      var t := ListTail(x.state, room);
      assert t.Ok? ==> Append(Nil, t.value) == t.value;
    }
  }

  lemma TailUnfolds(s1: State, s2: State, room: nat)
    requires Good(s1) && Cur(s1.ts).COMMA? && s1.ts.Cons? && Engine.Advance(s1) == Ok(s1.ts.head, s2)
    ensures ListTail(s1, room) == G.ParseExprList(s2, room)
  {
  }

  lemma {:induction false} OneExpr(n: Node)
    ensures ToExprs([n]) == More(n.expr, Nil)
  {
    assert [n][1..] == [];
  }

  lemma TailStep(es: Exprs, st: State, room: nat)
    requires Good(st) && Cur(st.ts).COMMA?
    ensures Engine.Advance(st).Err? ==> Prepend(es, ListTail(st, room)) == Err(Engine.Advance(st).error)
    ensures Engine.Advance(st).Ok? ==> (var s2 := Engine.Advance(st).state;
              G.ParseExpr(s2, room, G.LOWEST).Err? ==> Prepend(es, ListTail(st, room)) == Err(G.ParseExpr(s2, room, G.LOWEST).error))
  {
    hide G.ParseExpr;
  }

  lemma {:induction false} AppendNil(es: Exprs)
    ensures Append(es, Nil) == es
  {
    if es.More? {
      AppendNil(es.tail);
    }
  }

  lemma ListEnds(es: Exprs, st: State, room: nat)
    requires Good(st) && !Cur(st.ts).COMMA?
    ensures Prepend(es, ListTail(st, room)) == Ok(es, st)
  {
    AppendNil(es);
  }

  function Snoc(es: Exprs, e: Expr): Exprs { Append(es, More(e, Nil)) }

  lemma {:induction false} AppendSnoc(es: Exprs, e: Expr, rest: Exprs)
    ensures Append(Snoc(es, e), rest) == Append(es, More(e, rest))
  {
    if es.More? {
      AppendSnoc(es.tail, e, rest);
    }
  }

  lemma PrependSnoc(es: Exprs, e: Expr, o: Outcome<Exprs>)
    ensures Prepend(Snoc(es, e), o) == Prepend(es, Prepend(More(e, Nil), o))
  {
    if o.Ok? {
      AppendSnoc(es, e, o.value);
      assert Append(Nil, o.value) == o.value;
    }
  }

  lemma {:induction false} ToExprsSnoc(nodes: seq<Node>, n: Node)
    ensures ToExprs(nodes + [n]) == Snoc(ToExprs(nodes), n.expr)
  {
    if nodes == [] {
      assert nodes + [n] == [n];
      assert ToExprs([n]) == More(n.expr, ToExprs([n][1..]));
    } else {
      assert (nodes + [n])[1..] == nodes[1..] + [n];
      ToExprsSnoc(nodes[1..], n);
    }
  }

  lemma {:induction false} ToExprsMore(nodes: seq<Node>)
    ensures ToExprs(nodes).More? <==> |nodes| > 0
  {
  }

  /** Which rule a lookahead selects. */
  lemma CallIsPrimary(st: State, room: nat)
    requires Good(st) && G.IsIdentKind(Cur(st.ts)) && Peek(st.ts).LP?
    ensures G.ParsePrimary(st, room) == G.ParseFuncCall(st, room)
  {
    hide G.ParseFuncCall;
  }

  lemma IdentIsPrimary(st: State, room: nat)
    requires Good(st) && G.IsIdentKind(Cur(st.ts)) && !Peek(st.ts).LP? && !Peek(st.ts).DOT?
    ensures Engine.Advance(st).Err? ==> G.ParsePrimary(st, room) == Err(Engine.Advance(st).error)
    ensures Engine.Advance(st).Ok? ==>
              G.ParsePrimary(st, room) == Ok(Atom(Ident(Engine.Advance(st).value)), Engine.Advance(st).state)
  {
  }

  lemma ReferenceIsPrimary(st: State, room: nat)
    requires Good(st) && QualifierKind(Cur(st.ts)) && Peek(st.ts).DOT?
    ensures G.ParsePrimary(st, room) == G.ParseQualifiedRef(st)
  {
    hide G.ParseQualifiedRef;
  }

  lemma {:induction false} EmptyPlaced(input: Input, ts: Toks)
    requires input.WellFormed()
    ensures input.PlaceList(Nil, ts) == [] && ToExprs([]) == Nil
  {
  }

  lemma {:induction false} OneListed(input: Input, e: Expr, ts: Toks)
    requires input.WellFormed()
    ensures ReadsList(More(e, Nil), ts) == Reads(e, ts)
    ensures input.PlaceList(More(e, Nil), ts) == [input.Place(e, ts)]
  {
    hide Reads, Input.Place;
  }

  lemma {:induction false} SnocListed(input: Input, es: Exprs, e: Expr, ts: Toks, k: Toks, k2: Toks)
    requires input.WellFormed() && es.More?
    requires ReadsList(es, ts) == To(k) && Take(COMMA, k).To? && Reads(e, k.tail) == To(k2)
    ensures ReadsList(Snoc(es, e), ts) == To(k2)
    ensures input.PlaceList(Snoc(es, e), ts) == input.PlaceList(es, ts) + [input.Place(e, k.tail)]
  {
    hide Reads, Input.Place;
    var k1 := Reads(es.head, ts).ts;
    if es.tail.Nil? {
      assert Append(Nil, More(e, Nil)) == More(e, Nil);
      assert ReadsList(Nil, k1) == To(k1);
      OneListed(input, e, k.tail);
      assert Drop(1, k1) == k1.tail;
    } else {
      assert Drop(1, k1) == k1.tail;
      SnocListed(input, es.tail, e, k1.tail, k, k2);
    }
  }

  lemma {:induction false} VariablePlaced(input: Input, ts: Toks, k: Toks)
    requires input.WellFormed() && ts.Cons? && k == ts.tail && 0 <= input.Index(ts)
    ensures input.Place(Atom(BindParam(ts.head)), ts) ==
            Node(Span(input.toks[input.Index(ts)].pos, input.toks[input.Index(ts)].end), input.Index(ts), input.Index(ts) + 1,
                 Atom(BindParam(ts.head)), Binds.NumberOf(input.NumbersAt(input.Index(ts)), ts.head.text), [])
  {
    hide Input.NumbersAt;
    AtomPlaced(input, BindParam(ts.head), ts, k);
  }

  lemma {:induction false} IsPlaced(input: Input, negated: bool, distinct: bool, y: Expr, ts: Toks)
    requires input.WellFormed()
    ensures input.PlaceSuffix(Is(negated, distinct, y), ts) == [input.Place(y, IsStart(negated, distinct, ts))]
  {
    hide Input.Place;
  }

  lemma {:induction false} IsDrops(negated: bool, ts: Toks, t1: Toks, t2: Toks)
    requires ts.Cons? && t1 == ts.tail
    requires if negated then t1.Cons? && t2 == t1.tail else t2 == t1
    ensures Drop(if negated then 2 else 1, ts) == t2
  {
    assert Drop(0, t1) == t1;
    assert t1.Cons? ==> Drop(1, t1) == t1.tail;
  }

  lemma {:induction false} DropMore(n: nat, m: nat, ts: Toks)
    ensures Drop(n + m, ts) == Drop(m, Drop(n, ts))
  {
    if n > 0 && ts.Cons? {
      DropMore(n - 1, m, ts.tail);
    }
  }

  lemma {:induction false} DistinctDrops(negated: bool, distinct: bool, ts: Toks, t2: Toks, t4: Toks)
    requires t2 == Drop(if negated then 2 else 1, ts)
    requires if distinct then t2.Cons? && t2.tail.Cons? && t4 == t2.tail.tail else t4 == t2
    ensures IsStart(negated, distinct, ts) == t4
  {
    if distinct {
      assert Drop(1, t2.tail) == t4;
      DropMore(if negated then 2 else 1, 2, ts);
    }
  }

  lemma {:induction false} LikeStart(negated: bool, ts: Toks, k: Toks)
    requires k == Drop(if negated then 1 else 0, ts) && k.Cons?
    ensures Drop(if negated then 2 else 1, ts) == k.tail
  {
    assert Drop(1, k) == k.tail;
  }

  lemma {:induction false} LikePlaced(input: Input, s: Suffix, ts: Toks, t1: Toks, t2: Toks)
    requires input.WellFormed() && s.Like? && Drop(if s.negated then 2 else 1, ts) == t1 && Reads(s.y, t1) == To(t2)
    requires s.escape.Some? ==> t2.Cons?
    ensures input.PlaceSuffix(s, ts) == [input.Place(s.y, t1)] + (if s.escape.Some? then [input.Place(s.escape.expr, t2.tail)] else [])
  {
    hide Input.Place, Reads;
    assert t2.Cons? ==> Drop(1, t2) == t2.tail;
  }

  lemma {:induction false} InPlaced(input: Input, s: Suffix, ts: Toks, t1: Toks)
    requires input.WellFormed() && s.In? && Drop(if s.negated then 2 else 1, ts) == t1
    ensures input.PlaceSuffix(s, ts) == input.PlaceTarget(s.target, t1)
  {
    hide Input.PlaceTarget;
  }

  lemma {:induction false} InArgsPlaced(input: Input, table: TableName, args: Exprs, t1: Toks, t2: Toks)
    requires input.WellFormed() && ReadsTable(table, t1) == To(t2) && t2.Cons?
    ensures input.PlaceTarget(InTableArgs(table, args), t1) == input.PlaceList(args, t2.tail)
  {
    hide Input.PlaceList, Reads, ReadsTable;
    assert Drop(1, t2) == t2.tail;
  }

  lemma {:induction false} TableReads(st: State)
    requires Good(st) && G.ParseTableName(st).Ok?
    ensures ReadsTable(G.ParseTableName(st).value, st.ts) == To(G.ParseTableName(st).state.ts)
  {
    TableImage(st);
  }

  lemma {:induction false} NullPlaced(input: Input, test: NullTest, ts: Toks)
    requires input.WellFormed()
    ensures input.PlaceSuffix(NullCheck(test), ts) == []
  {
  }

  lemma {:induction false} BinaryPlaced(input: Input, op: Operator, y: Expr, ts: Toks)
    requires input.WellFormed() && ts.Cons?
    ensures input.PlaceSuffix(Binary(op, y), ts) == [input.Place(y, ts.tail)]
  {
    assert Drop(1, ts) == ts.tail;
  }
}
