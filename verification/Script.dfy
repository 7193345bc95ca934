/** A script is split into statements at its semicolons (parseScript in parser/parser.go). */
module Script {
  import opened Token
  import opened Engine
  import Grammar
  import opened Layout
  import opened Parser

  /** What parsing one command from a token on comes to: the lookahead after it, with the error
      deferred at its last token if there is one, or a failure. */
  datatype Command = Read(to: nat, deferred: OptError) | Broken(error: ParseError)

  /** A parser of commands consumes at least one token and stops before EOF is consumed, in a
      state that can go on. */
  ghost predicate Reader(input: Input, cmd: nat -> Command)
    requires input.WellFormed()
  {
    forall i :: 0 <= i < |input.toks| - 1 && cmd(i).Read? ==>
      && i < cmd(i).to < |input.toks| && !input.toks[cmd(i).to].kind.ILLEGAL?
      && (cmd(i).deferred.Raised? ==>
            var t := input.toks[cmd(i).to - 1];
            && cmd(i).deferred.error == ParseError(Near(input.src[t.pos..t.end]), t.pos)
            && t.kind.VARIABLE? && Grammar.IsRegister(input.src[t.pos..t.end]))
  }

  /** A statement: its tokens, from the first to the terminating semicolon or the last, and its
      span. */
  datatype Statement = Statement(from: nat, to: nat, span: Span)

  function StatementAt(input: Input, from: nat, to: nat): Statement
    requires input.WellFormed() && from < to < |input.toks|
  {
    Statement(from, to, Span(input.toks[from].pos, input.toks[to - 1].end))
  }

  /** The error the lookahead `i` is rejected with. */
  function ErrorAt(input: Input, i: nat): ParseError
    requires input.WellFormed() && i < |input.toks|
  {
    ParseError(if input.toks[i].kind.EOF? then Incomplete else Near(input.Text(i)), input.toks[i].pos)
  }

  /** The error an illegal token is rejected with when it becomes the lookahead. */
  function Illegal(input: Input, i: nat): ParseError
    requires input.WellFormed() && i < |input.toks|
  {
    ParseError(Unrecognized(input.Text(i)), input.toks[i].pos)
  }

  /** The statements from token `i` on. */
  function Statements(input: Input, cmd: nat -> Command, i: nat): Result<seq<Statement>>
    requires input.WellFormed() && i < |input.toks|
    decreases |input.toks| - i
  {
    var toks := input.toks;
    if toks[i].kind.EOF? then Success([])
    else if toks[i].kind.SEMI? then
      (if toks[i + 1].kind.ILLEGAL? then Failure(Illegal(input, i + 1)) else Statements(input, cmd, i + 1))
    else
      match cmd(i)
      case Broken(e) => Failure(e)
      case Read(to, deferred) =>
        if to <= i || to >= |toks| then Failure(ErrorAt(input, i))
        else if toks[to].kind.SEMI? then
          if deferred.Raised? then Failure(deferred.error)
          else if toks[to + 1].kind.ILLEGAL? then Failure(Illegal(input, to + 1))
          else
            var rest :- Statements(input, cmd, to + 1);
            Success([StatementAt(input, i, to + 1)] + rest)
        else if !toks[to].kind.EOF? then Failure(ErrorAt(input, to))
        else if deferred.Raised? then Failure(deferred.error)
        else Success([StatementAt(input, i, to)])
  }

  /** Extends what was found so far by the rest. */
  function Continue(done: seq<Statement>, r: Result<seq<Statement>>): Result<seq<Statement>> {
    if r.Success? then Success(done + r.value) else r
  }

  lemma ContinueNone(r: Result<seq<Statement>>)
    ensures Continue([], r) == r
  {
    assert r.Success? ==> [] + r.value == r.value;
  }

  lemma ContinueOne(done: seq<Statement>, s: Statement, r: Result<seq<Statement>>)
    ensures Continue(done + [s], r) == Continue(done, Continue([s], r))
  {
    assert r.Success? ==> done + [s] + r.value == done + ([s] + r.value);
  }

  /** One turn of the loop. */
  lemma StatementsStep(input: Input, cmd: nat -> Command, i: nat)
    requires input.WellFormed() && Reader(input, cmd) && i < |input.toks|
    ensures Statements(input, cmd, i) ==
            if input.toks[i].kind.EOF? then Success([])
            else if input.toks[i].kind.SEMI? then
              (if input.toks[i + 1].kind.ILLEGAL? then Failure(Illegal(input, i + 1)) else Statements(input, cmd, i + 1))
            else if cmd(i).Broken? then Failure(cmd(i).error)
            else AfterCommand(input, cmd, i, cmd(i).to, cmd(i).deferred)
  {
    if input.toks[i].kind.EOF? || input.toks[i].kind.SEMI? || cmd(i).Broken? {
    } else if input.toks[cmd(i).to].kind.EOF? {
      assert Statements(input, cmd, cmd(i).to) == Success([]);
      assert [StatementAt(input, i, cmd(i).to)] + [] == [StatementAt(input, i, cmd(i).to)];
    }
  }

  /** What follows a command that was read from `i` to `to`. */
  function AfterCommand(input: Input, cmd: nat -> Command, i: nat, to: nat, deferred: OptError): Result<seq<Statement>>
    requires input.WellFormed() && i < to < |input.toks|
  {
    var toks := input.toks;
    if toks[to].kind.SEMI? && deferred.Raised? then Failure(deferred.error)
    else if toks[to].kind.SEMI? && toks[to + 1].kind.ILLEGAL? then Failure(Illegal(input, to + 1))
    else if !toks[to].kind.SEMI? && !toks[to].kind.EOF? then Failure(ErrorAt(input, to))
    else if deferred.Raised? then Failure(deferred.error)
    else
      var end := if toks[to].kind.SEMI? then to + 1 else to;
      Continue([StatementAt(input, i, end)], Statements(input, cmd, end))
  }

  /** parseScript(), with `cmd` for the statement families. */
  method ParseScript(p: Parser, cmd: nat -> Command) returns (r: Result<seq<Statement>>)
    requires p.Valid() && p.deferred.NoError? && Reader(p.Src(), cmd)
    modifies p
    ensures r == Statements(p.Src(), cmd, old(p.i))
  {
    hide Statements;
    ghost var input := p.Src();
    var stmts: seq<Statement> := [];
    ContinueNone(Statements(input, cmd, p.i));
    while !p.Kind().EOF?
      invariant p.Valid() && p.deferred.NoError?
      invariant Continue(stmts, Statements(input, cmd, p.i)) == Statements(input, cmd, old(p.i))
      decreases |p.toks| - p.i
    {
      StatementsStep(input, cmd, p.i);
      if p.Kind().SEMI? {
        var _ :- Take(p);
        continue;
      }
      var from := p.i;
      var start := p.toks[p.i].pos;
      match cmd(p.i) {
        case Broken(e) => return Failure(e);
        case Read(to, deferred) =>
          p.i, p.deferred, p.deferIndex := to, deferred, to;
      }
      var end := p.PrevEnd();
      if p.Kind().SEMI? {
        end := p.toks[p.i].end;
        var _ :- Take(p);
      } else if !p.Kind().EOF? {
        return Failure(p.SyntaxError());
      }
      if p.deferred.Raised? {
        return Failure(p.deferred.error);
      }
      ContinueOne(stmts, Statement(from, p.i, Span(start, end)), Statements(input, cmd, p.i));
      stmts := stmts + [Statement(from, p.i, Span(start, end))];
    }
    StatementsStep(input, cmd, p.i);
    assert stmts + [] == stmts;
    return Success(stmts);
  }

  /** advance() past a token that is not the last. */
  method Take(p: Parser) returns (r: Result<SourceToken>)
    requires p.Valid() && p.i < |p.toks| - 1
    modifies p`i
    ensures p.i == old(p.i) + 1
    ensures r == if p.deferred.Raised? then Failure(p.deferred.error)
                 else if p.toks[p.i].kind.ILLEGAL? then Failure(Illegal(p.Src(), p.i))
                 else Success(p.toks[old(p.i)])
    ensures r.Success? ==> p.Valid()
  {
    r := p.Advance();
  }

  /** The statements stand in order between the tokens `i` and `end`, and cover every token
      there that is not a semicolon. */
  ghost predicate Partitions(input: Input, cmd: nat -> Command, stmts: seq<Statement>, i: nat)
    requires input.WellFormed() && i < |input.toks|
  {
    && (forall k :: 0 <= k < |stmts| ==> IsStatement(input, cmd, stmts[k], i))
    && (forall k, l :: 0 <= k < l < |stmts| ==> stmts[k].to <= stmts[l].from)
    && (forall j :: i <= j < |input.toks| - 1 && !input.toks[j].kind.SEMI? ==> exists k :: 0 <= k < |stmts| && Holds(stmts[k], j))
  }

  predicate Holds(s: Statement, j: nat) { s.from <= j < s.to }

  /** A statement runs from its first token, no semicolon, over one command to the semicolon
      after it, or to the last token of the input; its span is theirs. */
  ghost predicate IsStatement(input: Input, cmd: nat -> Command, s: Statement, i: nat)
    requires input.WellFormed()
  {
    && i <= s.from < s.to < |input.toks| && !input.toks[s.from].kind.SEMI?
    && s.span == Span(input.toks[s.from].pos, input.toks[s.to - 1].end)
    && cmd(s.from).Read? && cmd(s.from).deferred.NoError?
    && (if s.to == cmd(s.from).to then s.to == |input.toks| - 1
        else s.to == cmd(s.from).to + 1 && input.toks[s.to - 1].kind.SEMI?)
  }

  lemma StatementFrom(input: Input, cmd: nat -> Command, s: Statement, i: nat, i2: nat)
    requires input.WellFormed() && IsStatement(input, cmd, s, i) && i2 <= i
    ensures IsStatement(input, cmd, s, i2) && i <= s.from < s.to
  {
  }

  /** A statement in front of others. */
  lemma {:induction false} PartitionGrows(input: Input, cmd: nat -> Command, s: Statement, rest: seq<Statement>, i: nat)
    requires input.WellFormed() && IsStatement(input, cmd, s, i) && i == s.from < s.to < |input.toks|
    requires Partitions(input, cmd, rest, s.to)
    ensures Partitions(input, cmd, [s] + rest, i)
  {
    hide IsStatement, Holds;
    var all := [s] + rest;
    forall k | 0 <= k < |all|
      ensures IsStatement(input, cmd, all[k], i) && (k > 0 ==> s.to <= all[k].from)
    {
      if k > 0 {
        StatementFrom(input, cmd, rest[k - 1], s.to, i);
      }
    }
    forall k, l | 0 <= k < l < |all|
      ensures all[k].to <= all[l].from
    {
      assert k > 0 ==> all[k] == rest[k - 1] && all[l] == rest[l - 1];
    }
    forall j | i <= j < |input.toks| - 1 && !input.toks[j].kind.SEMI?
      ensures exists k :: 0 <= k < |all| && Holds(all[k], j)
    {
      Covered(s, rest, j);
    }
  }

  lemma Covered(s: Statement, rest: seq<Statement>, j: nat)
    requires s.from <= j && (s.to <= j ==> exists k :: 0 <= k < |rest| && Holds(rest[k], j))
    ensures exists k :: 0 <= k < |[s] + rest| && Holds(([s] + rest)[k], j)
  {
    if j < s.to {
      assert Holds(([s] + rest)[0], j);
    } else {
      var k :| 0 <= k < |rest| && Holds(rest[k], j);
      assert Holds(([s] + rest)[k + 1], j);
    }
  }

  lemma NoStatements(input: Input, cmd: nat -> Command, i: nat)
    requires input.WellFormed() && i == |input.toks| - 1
    ensures Partitions(input, cmd, [], i)
  {
  }

  lemma SkipSemicolon(input: Input, cmd: nat -> Command, stmts: seq<Statement>, i: nat)
    requires input.WellFormed() && i + 1 < |input.toks| && input.toks[i].kind.SEMI? && Partitions(input, cmd, stmts, i + 1)
    ensures Partitions(input, cmd, stmts, i)
  {
  }

  /** Every token but the semicolons between statements lies in exactly one statement; the spans
      are in order and do not overlap. */
  lemma {:induction false} ScriptPartitioned(input: Input, cmd: nat -> Command, i: nat)
    requires input.WellFormed() && Reader(input, cmd) && i < |input.toks| && Statements(input, cmd, i).Success?
    ensures Partitions(input, cmd, Statements(input, cmd, i).value, i)
    decreases |input.toks| - i
  {
    hide Statements, Partitions;
    StatementsStep(input, cmd, i);
    if input.toks[i].kind.EOF? {
      NoStatements(input, cmd, i);
    } else if input.toks[i].kind.SEMI? {
      ScriptPartitioned(input, cmd, i + 1);
      SkipSemicolon(input, cmd, Statements(input, cmd, i).value, i);
    } else {
      var to := cmd(i).to;
      var end := if input.toks[to].kind.SEMI? then to + 1 else to;
      ScriptPartitioned(input, cmd, end);
      PartitionGrows(input, cmd, StatementAt(input, i, end), Statements(input, cmd, end).value, i);
    }
  }

  /** In bytes: of two statements, the earlier ends before the later begins, and no token is in
      both. */
  lemma {:induction false} StatementsApart(input: Input, cmd: nat -> Command, i: nat, k: nat, l: nat)
    requires input.WellFormed() && input.InOrder() && Reader(input, cmd)
    requires i < |input.toks| && Statements(input, cmd, i).Success?
    requires k < l < |Statements(input, cmd, i).value|
    ensures var s, t := Statements(input, cmd, i).value[k], Statements(input, cmd, i).value[l];
            s.span.start < s.span.stop <= t.span.start < t.span.stop && forall j :: !(Holds(s, j) && Holds(t, j))
  {
    hide Statements, Partitions, Input.WellFormed, Input.InOrder, Reader;
    ScriptPartitioned(input, cmd, i);
    var stmts := Statements(input, cmd, i).value;
    TwoOf(input, cmd, stmts, i, k, l);
    SpanOrdered(input, stmts[k].from, stmts[k].to - 1);
    SpanOrdered(input, stmts[l].from, stmts[l].to - 1);
    assert input.toks[stmts[k].to - 1].end <= input.toks[stmts[l].from].pos by { Earlier(input, stmts[k].to - 1, stmts[l].from); }
  }

  lemma TwoOf(input: Input, cmd: nat -> Command, stmts: seq<Statement>, i: nat, k: nat, l: nat)
    requires input.WellFormed() && i < |input.toks| && Partitions(input, cmd, stmts, i) && k < l < |stmts|
    ensures IsStatement(input, cmd, stmts[k], i) && IsStatement(input, cmd, stmts[l], i) && stmts[k].to <= stmts[l].from
  {
  }

  lemma Earlier(input: Input, a: nat, b: nat)
    requires input.InOrder() && a < b < |input.toks|
    ensures input.toks[a].end <= input.toks[b].pos
  {
  }

  lemma SpanOrdered(input: Input, a: nat, b: nat)
    requires input.WellFormed() && input.InOrder() && a <= b < |input.toks| - 1
    ensures input.toks[a].pos < input.toks[b].end
  {
    if a < b {
      Earlier(input, a, b);
    }
  }

  /** No illegal token comes right after a semicolon that ends a statement or stands by itself. */
  ghost predicate Clears(input: Input, stmts: seq<Statement>, i: nat)
    requires input.WellFormed()
  {
    forall j :: i <= j < |input.toks| - 1 && input.toks[j].kind.SEMI? && Ends(stmts, j) ==> !input.toks[j + 1].kind.ILLEGAL?
  }

  /** The token `j` is in no statement, or is the last of one. */
  ghost predicate Ends(stmts: seq<Statement>, j: nat) {
    forall k :: 0 <= k < |stmts| && Holds(stmts[k], j) ==> j == stmts[k].to - 1
  }

  lemma {:induction false} ClearsOn(input: Input, cmd: nat -> Command, s: Statement, rest: seq<Statement>, i: nat)
    requires input.WellFormed() && IsStatement(input, cmd, s, i) && i == s.from < s.to < |input.toks|
    requires Partitions(input, cmd, rest, s.to)
    ensures Clears(input, [s] + rest, i) <==>
              Clears(input, rest, s.to) && (input.toks[s.to - 1].kind.SEMI? ==> !input.toks[s.to].kind.ILLEGAL?)
  {
    hide IsStatement;
    var all := [s] + rest;
    forall k | 0 <= k < |rest|
      ensures s.to <= rest[k].from
    {
      StatementFrom(input, cmd, rest[k], s.to, s.to);
    }
    forall j | i <= j < |input.toks| - 1
      ensures Ends(all, j) <==> if j < s.to then j == s.to - 1 else Ends(rest, j)
    {
      EndsOn(s, rest, j);
    }
  }

  lemma EndsOn(s: Statement, rest: seq<Statement>, j: nat)
    requires s.from <= j && s.from < s.to && forall k :: 0 <= k < |rest| ==> s.to <= rest[k].from
    ensures Ends([s] + rest, j) <==> if j < s.to then j == s.to - 1 else Ends(rest, j)
  {
    var all := [s] + rest;
    assert all[0] == s;
    forall k | 0 <= k < |rest|
      ensures all[k + 1] == rest[k]
    {
    }
    if j < s.to {
      assert Holds(all[0], j);
    } else if Ends(all, j) {
      forall k | 0 <= k < |rest| && Holds(rest[k], j)
        ensures j == rest[k].to - 1
      {
        assert Holds(all[k + 1], j);
      }
    }
  }

  /** The first statement of a partition that begins with no semicolon. */
  lemma {:induction false} FirstOf(input: Input, cmd: nat -> Command, stmts: seq<Statement>, i: nat)
    requires input.WellFormed() && i < |input.toks| - 1 && !input.toks[i].kind.SEMI? && Partitions(input, cmd, stmts, i)
    ensures |stmts| > 0 && stmts[0].from == i && IsStatement(input, cmd, stmts[0], i) && stmts[0].to < |input.toks|
    ensures stmts == [stmts[0]] + stmts[1..] && Partitions(input, cmd, stmts[1..], stmts[0].to)
  {
    hide Input.WellFormed, Partitions, IsStatement;
    HeldFirst(input, cmd, stmts, i);
    StatementBounds(input, cmd, stmts[0], i);
    RestOf(input, cmd, stmts, i);
  }

  lemma HeldFirst(input: Input, cmd: nat -> Command, stmts: seq<Statement>, i: nat)
    requires input.WellFormed() && i < |input.toks| - 1 && !input.toks[i].kind.SEMI? && Partitions(input, cmd, stmts, i)
    ensures |stmts| > 0 && stmts[0].from == i && IsStatement(input, cmd, stmts[0], i) && stmts[0].to < |input.toks|
  {
    hide Input.WellFormed, IsStatement;
    var k :| 0 <= k < |stmts| && Holds(stmts[k], i);
    StatementBounds(input, cmd, stmts[k], i);
    StatementBounds(input, cmd, stmts[0], i);
  }

  lemma StatementBounds(input: Input, cmd: nat -> Command, s: Statement, i: nat)
    requires input.WellFormed() && IsStatement(input, cmd, s, i)
    ensures i <= s.from < s.to < |input.toks|
  {
  }

  lemma {:induction false} RestOf(input: Input, cmd: nat -> Command, stmts: seq<Statement>, i: nat)
    requires input.WellFormed() && i < |input.toks| && Partitions(input, cmd, stmts, i)
    requires |stmts| > 0 && i <= stmts[0].from < stmts[0].to < |input.toks|
    ensures Partitions(input, cmd, stmts[1..], stmts[0].to)
  {
    hide Input.WellFormed, IsStatement, Holds;
    var rest := stmts[1..];
    var to := stmts[0].to;
    forall l | 0 <= l < |rest|
      ensures IsStatement(input, cmd, rest[l], to)
    {
      assert rest[l] == stmts[l + 1] && IsStatement(input, cmd, stmts[l + 1], i) && to <= stmts[l + 1].from;
      LaterFrom(input, cmd, stmts[l + 1], i, to);
    }
    forall j | to <= j < |input.toks| - 1 && !input.toks[j].kind.SEMI?
      ensures exists l :: 0 <= l < |rest| && Holds(rest[l], j)
    {
      var l :| 0 <= l < |stmts| && Holds(stmts[l], j);
      NotHeld(stmts[0], j);
      assert Holds(rest[l - 1], j);
    }
  }

  lemma LaterFrom(input: Input, cmd: nat -> Command, s: Statement, i: nat, i2: nat)
    requires input.WellFormed() && IsStatement(input, cmd, s, i) && i2 <= s.from
    ensures IsStatement(input, cmd, s, i2)
  {
  }

  lemma NotHeld(s: Statement, j: nat)
    requires s.to <= j
    ensures !Holds(s, j)
  {
  }

  /** A script is accepted as just the statements that partition it, provided that nothing
      illegal follows the semicolons between them. */
  lemma {:induction false} ScriptExact(input: Input, cmd: nat -> Command, i: nat, stmts: seq<Statement>)
    requires input.WellFormed() && Reader(input, cmd) && i < |input.toks|
    ensures Statements(input, cmd, i) == Success(stmts) <==> Partitions(input, cmd, stmts, i) && Clears(input, stmts, i)
    decreases |input.toks| - i
  {
    hide Statements, Partitions, Clears, Reader;
    StatementsStep(input, cmd, i);
    if input.toks[i].kind.EOF? {
      ExactEnd(input, cmd, i, stmts);
    } else if input.toks[i].kind.SEMI? {
      ScriptExact(input, cmd, i + 1, stmts);
      ExactSemicolon(input, cmd, i, stmts);
    } else {
      if Statements(input, cmd, i) == Success(stmts) {
        ReaderAt(input, cmd, i);
        var end := if input.toks[cmd(i).to].kind.SEMI? then cmd(i).to + 1 else cmd(i).to;
        var rest := Statements(input, cmd, end).value;
        assert stmts == [StatementAt(input, i, end)] + rest;
        ScriptExact(input, cmd, end, rest);
        PartitionGrows(input, cmd, StatementAt(input, i, end), rest, i);
        ClearsOn(input, cmd, StatementAt(input, i, end), rest, i);
      }
      if Partitions(input, cmd, stmts, i) && Clears(input, stmts, i) {
        FirstOf(input, cmd, stmts, i);
        ClearsOn(input, cmd, stmts[0], stmts[1..], i);
        ScriptExact(input, cmd, stmts[0].to, stmts[1..]);
        ReaderAt(input, cmd, i);
      }
    }
  }

  lemma ReaderAt(input: Input, cmd: nat -> Command, i: nat)
    requires input.WellFormed() && Reader(input, cmd) && i < |input.toks| - 1 && cmd(i).Read?
    ensures i < cmd(i).to < |input.toks|
  {
  }

  lemma ExactEnd(input: Input, cmd: nat -> Command, i: nat, stmts: seq<Statement>)
    requires input.WellFormed() && i == |input.toks| - 1
    ensures Partitions(input, cmd, stmts, i) && Clears(input, stmts, i) <==> stmts == []
  {
    if stmts != [] {
      assert !IsStatement(input, cmd, stmts[0], i);
    }
  }

  lemma {:induction false} ExactSemicolon(input: Input, cmd: nat -> Command, i: nat, stmts: seq<Statement>)
    requires input.WellFormed() && i < |input.toks| - 1 && input.toks[i].kind.SEMI?
    ensures Partitions(input, cmd, stmts, i) && Clears(input, stmts, i) <==>
              !input.toks[i + 1].kind.ILLEGAL? && Partitions(input, cmd, stmts, i + 1) && Clears(input, stmts, i + 1)
  {
    hide Partitions, Clears, Input.WellFormed;
    if Partitions(input, cmd, stmts, i) {
      PassSemicolon(input, cmd, stmts, i);
      ClearsSemicolon(input, stmts, i);
    } else if Partitions(input, cmd, stmts, i + 1) {
      SkipSemicolon(input, cmd, stmts, i);
    }
  }

  lemma {:induction false} PassSemicolon(input: Input, cmd: nat -> Command, stmts: seq<Statement>, i: nat)
    requires input.WellFormed() && i < |input.toks| - 1 && input.toks[i].kind.SEMI? && Partitions(input, cmd, stmts, i)
    ensures Partitions(input, cmd, stmts, i + 1) && Ends(stmts, i)
  {
    hide Input.WellFormed;
    forall k | 0 <= k < |stmts|
      ensures IsStatement(input, cmd, stmts[k], i + 1) && !Holds(stmts[k], i)
    {
      assert IsStatement(input, cmd, stmts[k], i);
    }
  }

  lemma ClearsSemicolon(input: Input, stmts: seq<Statement>, i: nat)
    requires input.WellFormed() && i < |input.toks| - 1 && input.toks[i].kind.SEMI? && Ends(stmts, i)
    ensures Clears(input, stmts, i) <==> !input.toks[i + 1].kind.ILLEGAL? && Clears(input, stmts, i + 1)
  {
    hide Ends, Input.WellFormed;
  }

  /** Why a script is rejected with `e`: the command at `k` failed; it was read up to `j`, where a
      statement should have ended but did not; an error was deferred in it; or `j` is an illegal
      token after a semicolon. */
  ghost predicate Explains(input: Input, cmd: nat -> Command, e: ParseError, k: nat, j: nat)
    requires input.WellFormed() && k < |input.toks| && j < |input.toks|
  {
    var t := input.toks[j];
    || (j == k && cmd(k).Broken? && e == cmd(k).error)
    || (cmd(k).Read? && cmd(k).to == j && !t.kind.SEMI? && !t.kind.EOF? && e == ParseError(Near(input.Text(j)), t.pos))
    || (cmd(k) == Read(j, Raised(e)) && (t.kind.SEMI? || t.kind.EOF?))
    || (j == k + 1 && input.toks[k].kind.SEMI? && t.kind.ILLEGAL? && e == ParseError(Unrecognized(input.Text(j)), t.pos))
  }

  /** A rejected script is rejected for one of these reasons. */
  lemma {:induction false} ScriptRejected(input: Input, cmd: nat -> Command, i: nat) returns (k: nat, j: nat)
    requires input.WellFormed() && Reader(input, cmd) && i < |input.toks| && Statements(input, cmd, i).Failure?
    ensures i <= k < |input.toks| && j < |input.toks| && Explains(input, cmd, Statements(input, cmd, i).error, k, j)
    decreases |input.toks| - i
  {
    hide Statements, Reader;
    StatementsStep(input, cmd, i);
    if input.toks[i].kind.SEMI? {
      if input.toks[i + 1].kind.ILLEGAL? {
        k, j := i, i + 1;
      } else {
        k, j := ScriptRejected(input, cmd, i + 1);
      }
    } else if cmd(i).Broken? {
      k, j := i, i;
    } else {
      ReaderAt(input, cmd, i);
      var to := cmd(i).to;
      k, j := i, to;
      if cmd(i).deferred.NoError? && input.toks[to].kind.SEMI? {
        if input.toks[to + 1].kind.ILLEGAL? {
          k, j := to, to + 1;
        } else {
          k, j := ScriptRejected(input, cmd, to + 1);
        }
      } else if cmd(i).deferred.NoError? && input.toks[to].kind.EOF? {
        k, j := ScriptRejected(input, cmd, to);
      }
    }
  }
}
