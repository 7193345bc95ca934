/** The parser engine as a state machine over the remaining tokens (parser/parser.go).

    A panic carrying a `bail` becomes the `Err` outcome. Positions are counted from the end
    of the token slice: a token is named by how many tokens are left when it is the lookahead. */
module Engine {
  import opened Token

  datatype Message =
    | Near(text: string)          // near "X": syntax error
    | Unrecognized(text: string)  // unrecognized token: "X"
    | Incomplete                  // incomplete input
    | RecursionLimit              // Recursion limit
    | OutOfFragment               // syntax this model leaves out

  /** An error at the token that has `left` tokens from itself to the end of the input. */
  datatype Error = Error(msg: Message, left: nat)

  /** An error a grammar action raised, final once the token it was raised at is consumed. */
  datatype Deferral = Quiet | Deferred(error: Error, left: nat)

  datatype State = State(ts: Toks, deferred: Deferral)

  datatype Outcome<+T> = Ok(value: T, state: State) | Err(error: Error) {
    predicate IsFailure() { Err? }

    function PropagateFailure<U>(): Outcome<U>
      requires Err?
    {
      Err(error)
    }

    function Extract(): (T, State)
      requires Ok?
    {
      (value, state)
    }
  }

  /** The engine invariant: the lookahead is legal, and a deferred error belongs to the
      token before the lookahead. */
  predicate Good(st: State) {
    && Cur(st.ts) != ILLEGAL
    && (st.deferred.Deferred? ==>
          st.deferred.left == Len(st.ts) && st.deferred.error.left == Len(st.ts) + 1)
  }

  /** Where a rejection from `st` may point: inside the remaining input, and, once an error
      is deferred, only at the token the deferral waits on. */
  predicate MayFail(st: State, e: Error) {
    if st.deferred.Deferred? then
      e == st.deferred.error || e.left == Len(st.ts)
    else
      e.left <= Len(st.ts)
  }

  /** What every parse function keeps: success consumes a token, which a deferred error
      makes impossible, and failure points where it may. */
  predicate Steps<T>(st: State, r: Outcome<T>) {
    match r
    case Ok(_, st1) => Len(st1.ts) < Len(st.ts) && st.deferred.Quiet? && Good(st1)
    case Err(e) => MayFail(st, e)
  }

  function SyntaxError(st: State): (e: Error)
    ensures e.left == Len(st.ts)
  {
    Error(if Cur(st.ts) == EOF then Incomplete else Near(Text(st.ts)), Len(st.ts))
  }

  /** Consumes the lookahead. A deferred error becomes final when its token has been
      consumed; only then is the new lookahead checked for being illegal. */
  function Advance(st: State): (r: Outcome<Lexeme>)
    requires Good(st)
    ensures st.ts.Cons? ==> Steps(st, r)
    ensures r.Ok? && st.ts.Cons? ==> r.value == st.ts.head && r.state == State(st.ts.tail, Quiet)
  {
    var t := if st.ts.End? then Lexeme(EOF, "") else st.ts.head;
    var rest := if st.ts.End? then End else st.ts.tail;
    if st.deferred.Deferred? && Len(rest) < st.deferred.left then
      Err(st.deferred.error)
    else if Cur(rest) == ILLEGAL then
      Err(Error(Unrecognized(Text(rest)), Len(rest)))
    else
      Ok(t, State(rest, st.deferred))
  }

  /** Consumes the lookahead, which must have kind `k`. */
  function Expect(st: State, k: Kind): (r: Outcome<Lexeme>)
    requires Good(st) && k != EOF
    ensures Steps(st, r)
    ensures r.Ok? ==> st.ts.Cons? && st.ts.head.kind == k && r.value == st.ts.head && r.state == State(st.ts.tail, Quiet)
  {
    if Cur(st.ts) != k then Err(SyntaxError(st)) else Advance(st)
  }

  /** Consumes a token of the class `nm`. */
  function ExpectName(st: State): (r: Outcome<Lexeme>)
    requires Good(st)
    ensures Steps(st, r)
    ensures r.Ok? ==> st.ts.Cons? && IsName(st.ts.head.kind) && r.value == st.ts.head && r.state == State(st.ts.tail, Quiet)
  {
    if !IsName(Cur(st.ts)) then Err(SyntaxError(st)) else Advance(st)
  }

  /** Consumes a token of the class `ids`. */
  function ExpectIDS(st: State): (r: Outcome<Lexeme>)
    requires Good(st)
    ensures Steps(st, r)
    ensures r.Ok? ==> st.ts.Cons? && IsIDS(st.ts.head.kind) && r.value == st.ts.head && r.state == State(st.ts.tail, Quiet)
  {
    if !IsIDS(Cur(st.ts)) then Err(SyntaxError(st)) else Advance(st)
  }

  /** Records an error to be reported once the lookahead has been consumed; the first stays. */
  function Defer(st: State, e: Error): State {
    if st.deferred.Quiet? then State(st.ts, Deferred(e, Len(st.ts))) else st
  }

  /** Ends a run: a deferred error whose token was never consumed is reported now. */
  function Flush<T>(value: T, st: State): Outcome<T> {
    if st.deferred.Deferred? then Err(st.deferred.error) else Ok(value, st)
  }
}
