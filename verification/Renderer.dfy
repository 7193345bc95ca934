/** The renderer (ast/render.go): a writer that puts a space before a token unless the text
    is empty or ends in a space or an opening bracket, driven by recursion on the tree. */
module Renderer {
  import opened Token
  import opened Ast
  import opened Emission

  function ItemText(item: Item): string {
    if item.Content? then item.token.text else item.text
  }

  /** The last byte written; an empty text counts as ending in a space. */
  function Last(buf: string): char { if buf == "" then ' ' else buf[|buf| - 1] }

  /** What `kw` makes of the text. */
  function AddKw(buf: string, s: string): string {
    if Last(buf) == ' ' || Last(buf) == '(' then buf + s else buf + " " + s
  }

  function AddItem(buf: string, item: Item): string {
    if item.glued then buf + ItemText(item) else AddKw(buf, ItemText(item))
  }

  /** The text after all of `items` are written to it. */
  function Render(buf: string, items: Items): string
    decreases items
  {
    if items.Stop? then buf else Render(AddItem(buf, items.item), items.rest)
  }

  /** String(n): the text of a tree. */
  function RenderText(e: Expr): string { Render("", ExprItems(e, Stop)) }

  lemma RenderThen(buf: string, item: Item, rest: Items)
    ensures Render(buf, Then(item, rest)) == Render(AddItem(buf, item), rest)
  {
  }

  /** Two words written as one are written as the two: nothing ends in a space. */
  lemma TwoWords(buf: string, k1: Kind, k2: Kind, words: string, rest: Items)
    requires words == Spelling(k1) + " " + Spelling(k2)
    requires Spelling(k1) != "" && Last(Spelling(k1)) != ' ' && Last(Spelling(k1)) != '('
    ensures Render(buf, Kw(k1, Kw(k2, rest))) == Render(AddKw(buf, words), rest)
  {
    hide Render, Spelling;
    var s1, s2 := Spelling(k1), Spelling(k2);
    RenderThen(buf, Fixed(k1, s1, false), Kw(k2, rest));
    RenderThen(AddKw(buf, s1), Fixed(k2, s2, false), rest);
    KwTwice(buf, s1, s2);
  }

  lemma KwTwice(buf: string, s1: string, s2: string)
    requires s1 != "" && Last(s1) != ' ' && Last(s1) != '('
    ensures AddKw(AddKw(buf, s1), s2) == AddKw(buf, s1 + " " + s2)
  {
    var b1 := AddKw(buf, s1);
    assert Last(b1) == Last(s1);
    assert (buf + s1) + " " + s2 == buf + (s1 + " " + s2);
    assert (buf + " " + s1) + " " + s2 == buf + " " + (s1 + " " + s2);
  }

  /** w: the builder the tree is written to. */
  class Writer {
    var b: string

    constructor ()
      ensures b == ""
    {
      b := "";
    }

    method Kw(s: string)
      modifies this
      ensures b == AddKw(old(b), s)
    {
      if |b| > 0 {
        var c := b[|b| - 1];
        if c != ' ' && c != '(' {
          b := b + " ";
        }
      }
      b := b + s;
    }

    method Raw(s: string)
      modifies this
      ensures b == old(b) + s
    {
      b := b + s;
    }

    /** `kw` of the word for `k`. */
    method Word(s: string, ghost k: Kind, ghost rest: Items)
      requires s == Spelling(k)
      modifies this
      ensures Render(b, rest) == Render(old(b), Emission.Kw(k, rest))
    {
      RenderThen(b, Fixed(k, s, false), rest);
      Kw(s);
    }

    /** `raw` of the mark for `k`. */
    method Mark(s: string, ghost k: Kind, ghost rest: Items)
      requires s == Spelling(k)
      modifies this
      ensures Render(b, rest) == Render(old(b), Emission.Raw(k, rest))
    {
      RenderThen(b, Fixed(k, s, true), rest);
      Raw(s);
    }

    /** `kw` of a token the tree holds. */
    method Held(t: Lexeme, ghost rest: Items)
      modifies this
      ensures Render(b, rest) == Render(old(b), KwToken(t, rest))
    {
      RenderThen(b, Content(t, false), rest);
      Kw(t.text);
    }

    /** A dot and the next part of a name. */
    method Part(t: Lexeme, ghost rest: Items)
      modifies this
      ensures Render(b, rest) == Render(old(b), Emission.Raw(DOT, RawToken(t, rest)))
    {
      Mark(".", DOT, RawToken(t, rest));
      RenderThen(b, Content(t, true), rest);
      Raw(t.text);
    }

    /** write(): appends `e`. Whatever is to be written after it, the text comes out as if all
        the items were. */
    method Write(e: Expr, ghost rest: Items)
      modifies this
      ensures Render(b, rest) == Render(old(b), ExprItems(e, rest))
      decreases e
    {
      hide Render, PrimaryItems, SuffixItems;
      match e
      case Atom(p) =>
        WritePrimary(p, rest);
      case Unary(pre, x) =>
        Word(PrefixText(pre), PrefixKind(pre), ExprItems(x, rest));
        Write(x, rest);
      case Apply(x, s) =>
        Write(x, SuffixItems(s, rest));
        WriteSuffix(s, rest);
    }

    method WritePrimary(p: Primary, ghost rest: Items)
      modifies this
      ensures Render(b, rest) == Render(old(b), PrimaryItems(p, rest))
      decreases p
    {
      hide Render, ExprItems, SuffixItems, ListItems, WhensItems, ArgsItems;
      match p
      case Ident(n) => Held(n, rest);
      case QualifiedRef2(x, y) =>
        Held(x, Emission.Raw(DOT, RawToken(y, rest)));
        Part(y, rest);
      case QualifiedRef3(x, y, z) =>
        Held(x, Emission.Raw(DOT, RawToken(y, Emission.Raw(DOT, RawToken(z, rest)))));
        Part(y, Emission.Raw(DOT, RawToken(z, rest)));
        Part(z, rest);
      case Literal(t) => Held(t, rest);
      case BindParam(t) => Held(t, rest);
      case Case(_, _, _) => WriteCase(p, rest);
      case Bracket(list) =>
        Word("(", LP, ListItems(list, Emission.Raw(RP, rest)));
        WriteExprs(list, Emission.Raw(RP, rest));
        Mark(")", RP, rest);
      case Call(name, args) =>
        Held(name, Emission.Raw(LP, ArgsItems(args, Emission.Raw(RP, rest))));
        Mark("(", LP, ArgsItems(args, Emission.Raw(RP, rest)));
        WriteArgs(args, Emission.Raw(RP, rest));
        Mark(")", RP, rest);
    }

    method WriteArgs(args: CallArgs, ghost rest: Items)
      modifies this
      ensures Render(b, rest) == Render(old(b), ArgsItems(args, rest))
      decreases args
    {
      hide Render, ExprItems, SuffixItems, ListItems;
      match args
      case StarArg => Mark("*", STAR, rest);
      case Args(q, list) =>
        if q.Distinct? {
          Word("DISTINCT", DISTINCT, ListItems(list, rest));
        }
        if q.All? {
          Word("ALL", ALL, ListItems(list, rest));
        }
        WriteExprs(list, rest);
    }

    method WriteCase(p: Primary, ghost rest: Items)
      requires p.Case?
      modifies this
      ensures Render(b, rest) == Render(old(b), PrimaryItems(p, rest))
      decreases p, 0
    {
      hide Render, ExprItems, SuffixItems, WhensItems;
      ghost var i2 := Emission.Kw(END, rest);
      ghost var i1 := OptItems(ELSE, p.otherwise, i2);
      ghost var i0 := WhensItems(p.whens, i1);
      Word("CASE", CASE, OperandItems(p.operand, i0));
      if p.operand.Some? {
        Write(p.operand.expr, i0);
      }
      WriteWhens(p.whens, i1);
      if p.otherwise.Some? {
        Word("ELSE", ELSE, ExprItems(p.otherwise.expr, i2));
        Write(p.otherwise.expr, i2);
      }
      Word("END", END, rest);
    }

    method WriteWhens(ws: Whens, ghost rest: Items)
      modifies this
      ensures Render(b, rest) == Render(old(b), WhensItems(ws, rest))
      decreases ws
    {
      hide Render, ExprItems, SuffixItems;
      if ws.When? {
        ghost var i2 := WhensItems(ws.rest, rest);
        ghost var i1 := ExprItems(ws.value, i2);
        Word("WHEN", WHEN, ExprItems(ws.cond, Emission.Kw(THEN, i1)));
        Write(ws.cond, Emission.Kw(THEN, i1));
        Word("THEN", THEN, i1);
        Write(ws.value, i2);
        WriteWhens(ws.rest, rest);
      }
    }

    /** writeExprs(): with commas between. */
    method WriteExprs(es: Exprs, ghost rest: Items)
      modifies this
      ensures Render(b, rest) == Render(old(b), ListItems(es, rest))
      decreases es
    {
      hide Render, ExprItems, SuffixItems;
      if es.More? {
        if es.tail.More? {
          Write(es.head, Emission.Raw(COMMA, ListItems(es.tail, rest)));
          Mark(",", COMMA, ListItems(es.tail, rest));
          WriteExprs(es.tail, rest);
        } else {
          Write(es.head, rest);
        }
      }
    }

    method WriteTable(t: TableName, ghost rest: Items)
      modifies this
      ensures Render(b, rest) == Render(old(b), TableItems(t, rest))
    {
      hide Render;
      match t
      case Bare(n) => Held(n, rest);
      case Dotted(s, n) =>
        Held(s, Emission.Raw(DOT, RawToken(n, rest)));
        Part(n, rest);
    }

    method WriteTarget(target: InSet, ghost rest: Items)
      modifies this
      ensures Render(b, rest) == Render(old(b), TargetItems(target, rest))
      decreases target
    {
      hide Render, ExprItems, SuffixItems, ListItems, TableItems;
      match target
      case InList(list) =>
        Word("(", LP, ListItems(list, Emission.Raw(RP, rest)));
        WriteExprs(list, Emission.Raw(RP, rest));
        Mark(")", RP, rest);
      case InTable(table) =>
        WriteTable(table, rest);
      case InTableArgs(table, args) =>
        WriteTable(table, Emission.Raw(LP, ListItems(args, Emission.Raw(RP, rest))));
        Mark("(", LP, ListItems(args, Emission.Raw(RP, rest)));
        WriteExprs(args, Emission.Raw(RP, rest));
        Mark(")", RP, rest);
    }

    method WriteSuffix(s: Suffix, ghost rest: Items)
      modifies this
      ensures Render(b, rest) == Render(old(b), SuffixItems(s, rest))
      decreases s
    {
      hide Render, ExprItems, TargetItems;
      match s
      case Binary(op, y) =>
        RenderThen(b, Fixed(OperatorKind(op), OperatorText(op), false), ExprItems(y, rest));
        Kw(OperatorName(op));
        Write(y, rest);
      case Collate(name) =>
        Word("COLLATE", COLLATE, KwToken(name, rest));
        Held(name, rest);
      case Like(_, _, _, _) => WriteLike(s, rest);
      case Is(_, _, _) => WriteIs(s, rest);
      case NullCheck(test) => WriteTest(test, rest);
      case Between(_, _, _) => WriteBetween(s, rest);
      case In(negated, target) => WriteIn(s, rest);
    }

    method WriteTest(test: NullTest, ghost rest: Items)
      modifies this
      ensures Render(b, rest) == Render(old(b), SuffixItems(NullCheck(test), rest))
    {
      hide Render, ExprItems, TargetItems;
      match test
      case TestIsNull => Word("ISNULL", ISNULL, rest);
      case TestNotNull => Word("NOTNULL", NOTNULL, rest);
      case TestNotNullWords => WriteNotNull(rest);
    }

    method WriteNotNull(ghost rest: Items)
      modifies this
      ensures Render(b, rest) == Render(old(b), Emission.Kw(NOT, Emission.Kw(NULL, rest)))
    {
      hide Render;
      TwoWords(b, NOT, NULL, "NOT NULL", rest);
      Kw("NOT NULL");
    }

    method WriteIn(s: Suffix, ghost rest: Items)
      requires s.In?
      modifies this
      ensures Render(b, rest) == Render(old(b), SuffixItems(s, rest))
      decreases s, 0
    {
      hide Render, ExprItems, TargetItems;
      if s.negated {
        Word("NOT", NOT, Emission.Kw(IN, TargetItems(s.target, rest)));
      }
      Word("IN", IN, TargetItems(s.target, rest));
      WriteTarget(s.target, rest);
    }

    method WriteLike(s: Suffix, ghost rest: Items)
      requires s.Like?
      modifies this
      ensures Render(b, rest) == Render(old(b), SuffixItems(s, rest))
      decreases s, 0
    {
      hide Render, ExprItems, TargetItems;
      ghost var i1 := OptItems(ESCAPE, s.escape, rest);
      if s.negated {
        Word("NOT", NOT, KwToken(s.like, ExprItems(s.y, i1)));
      }
      Held(s.like, ExprItems(s.y, i1));
      Write(s.y, i1);
      if s.escape.Some? {
        Word("ESCAPE", ESCAPE, ExprItems(s.escape.expr, rest));
        Write(s.escape.expr, rest);
      }
    }

    method WriteIs(s: Suffix, ghost rest: Items)
      requires s.Is?
      modifies this
      ensures Render(b, rest) == Render(old(b), SuffixItems(s, rest))
      decreases s, 0
    {
      hide Render, ExprItems, TargetItems;
      ghost var i2 := ExprItems(s.y, rest);
      ghost var i1 := KwIf(s.distinct, DISTINCT, KwIf(s.distinct, FROM, i2));
      Word("IS", IS, KwIf(s.negated, NOT, i1));
      if s.negated {
        Word("NOT", NOT, i1);
      }
      if s.distinct {
        TwoWords(b, DISTINCT, FROM, "DISTINCT FROM", i2);
        Kw("DISTINCT FROM");
      }
      Write(s.y, rest);
    }

    method WriteBetween(s: Suffix, ghost rest: Items)
      requires s.Between?
      modifies this
      ensures Render(b, rest) == Render(old(b), SuffixItems(s, rest))
      decreases s, 0
    {
      hide Render, ExprItems, TargetItems;
      ghost var i1 := Emission.Kw(AND, ExprItems(s.hi, rest));
      if s.negated {
        Word("NOT", NOT, Emission.Kw(BETWEEN, ExprItems(s.lo, i1)));
      }
      Word("BETWEEN", BETWEEN, ExprItems(s.lo, i1));
      Write(s.lo, i1);
      Word("AND", AND, ExprItems(s.hi, rest));
      Write(s.hi, rest);
    }
  }

  /** BinaryOp.String() */
  function OperatorName(op: Operator): (s: string)
    ensures s == OperatorText(op)
  {
    match op
    case OpOr => "OR"
    case OpAnd => "AND"
    case OpEq => "="
    case OpNe => "<>"
    case OpLt => "<"
    case OpLe => "<="
    case OpGt => ">"
    case OpGe => ">="
    case OpBitAnd => "&"
    case OpBitOr => "|"
    case OpLShift => "<<"
    case OpRShift => ">>"
    case OpAdd => "+"
    case OpSub => "-"
    case OpMul => "*"
    case OpDiv => "/"
    case OpMod => "%"
    case OpConcat => "||"
    case OpPtr => "->"
    case OpPtr2 => "->>"
  }

  /** UnaryOp.String() */
  function PrefixText(pre: Prefix): (s: string)
    ensures s == Spelling(PrefixKind(pre))
  {
    match pre
    case OpNot => "NOT"
    case OpBitNot => "~"
    case OpPlus => "+"
    case OpMinus => "-"
  }

  /** String(n) */
  method String(e: Expr) returns (text: string)
    ensures text == RenderText(e)
  {
    var w := new Writer();
    w.Write(e, Stop);
    return w.b;
  }
}
