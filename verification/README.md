# meyer: the expression parser, the renderer and the lexer

A model of the core of meyer, a hand-written parser for SQLite's SQL, with proofs of what its
parts promise each other: the precedence-climbing expression parser (`parser/parse_expr.go`), its
engine (`parser/parser.go`), the renderer (`ast/render.go`), the tokenizer (`lexer/lexer.go`) and
the keyword index (`token/keywords.go`). `dafny verify dfyconfig.toml` checks all of it.

## What is proved

The main results, each for every input:

- **The renderer's promise.** Whatever text is accepted as an expression, the text rendered from its
  tree is accepted too and gives the same tree (`RoundTrip.RenderedParses`). The proof goes through
  bytes: the rendered text is scanned as exactly the tokens written, none merged, split or lost in a
  comment (`RoundTrip.SpacingIsSafe`), and their kinds, window words included, come out as before.
- **The parser's exact image.** `parseExpr(min)` returns a tree exactly when the consumed tokens
  spell it and it is *canonical* (`ExactImage.ParserCharacterized`, both directions). Canonical is
  defined without the parser: no operator on the left spine is below the level, every left operand
  has ended before the operator, every right operand does not begin weaker than the operator lets
  it, a plain IS is not followed by NOT, a LIKE with an ESCAPE has no open LIKE at the right edge of
  its pattern, a BETWEEN's lower bound keeps AND out of reach. Hence no token list spells two
  canonical trees, and a tree needs no bracket beyond those it contains.
- **The declared precedences.** The precedence block of the grammar is written out as an ordered list
  of groups, and the trees that fit it are defined by it, with the name classes and the spelling of
  every form as literal lists; nothing of the parser is used. A token list is accepted as a tree
  exactly when it is the tree's words, the tree fits, and there is room
  (`Precedence.ParsesAsDeclared`, both directions). Hence any operator written after any accepted
  expression goes to the innermost operand at its right edge whose operator binds weaker
  (`Precedence.OperatorExtends`), any prefix operator takes the longest left part in which everything
  binds tighter (`Precedence.PrefixExtends`), and `a o1 b o2 c` is `(a o1 b) o2 c` exactly when the group
  of `o1` is not declared before that of `o2` (`Precedence.InfixPair`).
- **Nesting.** The recursion is at most 14 levels deep for every opening token consumed so far, plus
  14: a run that ends at the recursion limit has consumed that many (`Runs.LimitNeedsOpeners`, for
  every input). For an accepted input these are the openers of its tree (`Openers.OpenersCounted`), so
  14 levels for each and 14 more always suffice (`Openers.AcceptedWithRoom`). A flat chain of any
  operands and infix operators, of any length, is accepted with 14 levels (`Runs.FlatAccepted`). A
  level is one child inside another, whatever the form (`Children.LevelPerChild`), and 9999 pairs of
  brackets are the most there can be (`Depth.LimitIsTenThousand`).
- **The engine.** Every method of the parser object does what the corresponding rule says on
  success and on failure: depth is restored, the lookahead is legal, at least one token is consumed,
  an error is inside the input, and once an error is deferred nothing succeeds any more and the run
  ends with that error or one at the token it waits for; an input with a register reference is
  rejected, no further on than at the token after the first (`Runs.RegisterStops`). Every error's message is
  true of the token it points at. Every node's span is that of its own tokens, children nest in it in
  order, and its tokens alone parse to it. Every subtree has exactly one node, with all its children
  (`Children.EverySubtreePlaced`), and the parameters of the tree are those of the input, with the
  numbers of the input's run (`Children.ParametersConserved`, `Children.ParameterNumbered`).
- **The lexer.** The loops compute the scanning rules, and what these make of a text is said of its
  bytes for every first byte: where comments, blanks, words, numbers, parameters and quoted tokens end
  and which kind they have (`Bytes`). Tokens and trivia tile the text up to its
  first NUL, which is the end of the input in every respect; the window words are resolved by an
  in-place pass that decides each token by its neighbours as they were scanned; quoting, digit separators and bind
  numbers behave as their comments say; the keyword index is the keyword map.

## How it is organised

- `Token`, `Ast`, `Engine`, `Grammar`: kinds, trees without positions, the engine as a state machine
  over the remaining tokens, and each function of `parser/parse_expr.go` as a function of the state.
  A panic with a `bail` is the `Err` outcome; a position is the number of tokens left; `room` is how
  many more `enter` calls fit below the limit.
- `Canonical`, `Forms`, `Image`, `Parts`, `Completeness`, `ExactImage`: `Reads` (which tokens spell a
  tree) and `Canon`, the formation rules with soundness, their inverses with completeness, and the
  theorem that joins them. `Runs`, `Openers`: what holds over whole runs, failing ones included, and
  how deep a tree goes.
- `Reference`, `Precedence`, `Errors`, `Depth`: the words of every form, the declared precedences and
  what follows from them, which error wins, and the limit.
- `Layout`, `Binds`, `Parser`, `Spans`, `Children`, `Script`: source positions, parameter numbers, the
  parser object with its fields and methods, slice stability, completeness of the nodes, and statements.
- `Scanner`, `Bytes`, `Locality`, `Keywords`, `Windows`, `Lexing`, `Lexer`, `Quotes`, `Digits`, `Separators`:
  the scanning rules, what a scan depends on, the index, the window words, whole texts, the loops,
  and the contents of tokens.
- `Emission`, `Links`, `Renderer`, `Spacing`, `RoundTrip`, `Rendered`, `Entry`: what is written for a
  tree, which tokens are written next to each other, the writer, its spacing, the round trip, the
  rendered text in plain words, and the entry point.

A text is a `string` whose characters are bytes. An operator node is split into its left operand and
a `Suffix` with everything to its right, which is how the climbing loop grows it; `ParenExpr` and
`VectorExpr` are `Bracket` lists of one and of more elements. The parser object builds `Node`s, trees
with spans; its methods are proved to build what `Layout.Input.Place` puts at each tree. Loops that
the source writes once per character class are one method here, `Lexer.Skip`. The keyword map is a
parameter: `Spacing.Speaks` asks of it only that it has the renderer's own words.

Where the code and a comment differ, the code is followed. The comment at `lexer/lexer.go:430` lists
`?` among the spellings `scanVariable` handles; `scan` handles it itself. The grammar declares NOT
right-associative (`internal/reference/parse.y:311`), by which a NOT after the operand of a NOT belongs
to that operand; `parser/parse_expr.go:101-104` parses the operand one level higher, so `NOT a NOT NULL`
is read as `(NOT a) NOT NULL` (`Precedence.NotOfNotNull`). It is the only place where a prefix operator
meets one of its own group (`Precedence.EqualGroups`).

The counter of parameters is a Go `int` and wraps at its maximum. Everything promised of parameter
numbers holds exactly for the runs of `Binds.StaysBelow` (`Binds.NumberedAsPromised`): before every
parameter that takes a new number, fewer than the largest int took one, and no explicit number and
the new ones after it add up to the largest int. Two things fail without it. A new number can be below
an earlier one: `?9223372036854775807` and then `?` (`Binds.WrapsAround`). And two names can share a
number: in `:a`, `?9223372036854775807`, `?`, `?0`, `:b` both names get 1 (`Binds.NamesCollide`). Equal
names share a number in every run (`Binds.SameNameShares`). That different names get different numbers
is by itself not tied to the condition in the other direction, since a run may wrap and have no two
names, or names that happen not to meet.

## Model

| member | source | states |
|---|---|---|
| `RoundTrip.RenderedParses` | ast/render.go:5-13 | the renderer's promise: any accepted text, rendered from its tree, is accepted as the same tree, consuming everything |
| `RoundTrip.TextRoundTrip` | ast/render.go:80-267 | the same for a given tree and any nesting room: rendered text, lexed with window words resolved and parsed, gives the tree back with no more nesting |
| `RoundTrip.RenderIdempotent` | ast/render.go:5-13 | rendering the tree of a rendered text gives that text again |
| `RoundTrip.SpacingIsSafe` | ast/render.go:63-78 | the text rendered for an accepted tree is scanned as one token per emission, with the emitted text, of the kind the source text's own tokens had |
| `RoundTrip.AcceptedEnds` | parser/parser.go:214-219 | an accepted text is consumed to its end with no deferred error left |
| `RoundTrip.LexedInput` | lexer/lexer.go:45-82 | what the lexer returns is what the parser relies on: one EOF, at the end; every other token a non-empty stretch inside the text; in order |
| `Spacing.SpacedScans` | ast/render.go:69-78 | for any sequence of kw and raw emissions whose neighbours the renderer lets meet, scanning the text yields exactly these tokens |
| `Spacing.Apart` | ast/render.go:69-78 | where no space is written, the next byte cannot extend the token before it |
| `Spacing.FixedOwn` | ast/render.go:105-267 | every word and operator the renderer spells itself is scanned whole, as the kind it stands for |
| `Spacing.ScanEnds` | ast/render.go:69-76 | no token but an opening bracket ends in a byte after which kw leaves the space out |
| `Links.ExprLinked` | ast/render.go:86-267 | for every canonical tree the renderer puts next to each other only tokens that may meet |
| `Links.RegistersRejected` | parser/parse_expr.go:678-690 | no run survives a register reference: an accepted input has none anywhere |
| `ExactImage.ParserCharacterized` | parser/parse_expr.go:77-317 | parseExpr(min) succeeds with a tree, leaving given tokens, if and only if the tree is canonical of that level, the consumed tokens spell it, what follows does not go on with it and it nests within the limit |
| `ExactImage.WholeCharacterized` | parser/parser.go:202-219 | a whole input is accepted as a tree if and only if it spells it, and it is canonical and within the limit |
| `ExactImage.ImageIsCanonical` | ast/render.go:11-13 | the trees the parser can return are precisely the canonical ones within the limit |
| `ExactImage.Unambiguous` | ast/render.go:11-13 | two canonical trees spelled by the same tokens are equal |
| `ExactImage.TokenRoundTrip` | ast/render.go:5-13 | the rendered tokens of an accepted tree parse to it with no more nesting than the first time |
| `ExactImage.LowerBoundIsTight` | parser/parse_expr.go:83-93 | although parsed at OR's level, the lower bound of an accepted BETWEEN has no bare AND or OR on its left spine |
| `Forms.OrTakesAnd` | parser/parse_expr.go:123-134 | once a bound reached at OR's level has taken an OR, its right operand has swallowed every AND, so none can follow |
| `Image.ExprImage` | parser/parse_expr.go:77-81 | soundness: what parseExpr returns is canonical, spelled by what it consumed, and ends where it must |
| `Image.BoundImage` | parser/parse_expr.go:89-93 | what parseBetweenBound returns, with no AND on the spine |
| `Image.OperatorsImage` | parser/parse_expr.go:123-224 | the climbing loop keeps a canonical tree of its level that may still go on |
| `Image.SuffixImage` | parser/parse_expr.go:126-224 | each turn of the loop reads one operator with canonical right operands |
| `Image.IsImage` | parser/parse_expr.go:237-253 | IS takes NOT and DISTINCT FROM whenever they are there |
| `Image.LikeImage` | parser/parse_expr.go:259-273 | an ESCAPE goes to the innermost open LIKE |
| `Image.PrimaryImage` | parser/parse_expr.go:340-399 | primaries: what is read, and which next token would have been read into it |
| `Completeness.ExprParses` | parser/parse_expr.go:77-81 | completeness: every canonical tree is found from any spelling of it followed by a token that does not extend it |
| `Completeness.ClimbReaches` | parser/parse_expr.go:98-224 | climbing from the start of a canonical tree comes to a loop that holds exactly that tree |
| `Completeness.SuffixParses` | parser/parse_expr.go:126-224 | every operator with canonical right operands is read back as itself |
| `Completeness.PrimaryParses` | parser/parse_expr.go:340-399 | the same for the forms without an operator |
| `Emission.ItemsRead` | ast/render.go:86-267 | reading a tree by the grammar is reading the renderer's emissions one by one |
| `Emission.EmitReads` | ast/render.go:86-267 | the emitted tokens spell the tree |
| `Runs.LimitNeedsOpeners` | parser/parser.go:244-264 | a run that ends at the recursion limit had room for fewer than 14 * (1 + the openers consumed before the token it stops at) levels; on every input |
| `Runs.RoomSuffices` | parser/parser.go:244-264 | with 14 levels for every opener of the input and 14 more, no run reports the limit |
| `Runs.ExprWithin` | parser/parse_expr.go:77-119 | one call of parseExpr(min): success ends after an operand, the limit is met only after openers enough for its room and level, and no error is past the token after the first register reference |
| `Runs.RegisterStops` | parser/parser.go:286-299 | an input with a register reference is rejected, no further on than at the token after the first |
| `Runs.FlatAccepted` | parser/fuzz_test.go:134-138 | a flat chain of any one-token operands, LIKE and MATCH names among them, and any infix operators, of any length, is accepted with 14 levels |
| `Openers.NeedBounded` | parser/parse_expr.go:77-119 | a canonical tree of level min needs at most 14 * (1 + its openers) levels, less min |
| `Openers.OpenersCounted` | parser/parse_expr.go:98-119 | the openers counted token by token in a spelling of a canonical tree are those of the tree: no token is miscounted |
| `Openers.AcceptedWithRoom` | parser/parser.go:244-264 | every spelling of a canonical tree is accepted with 14 levels for each of its openers and 14 more |
| `Engine.Advance` | parser/parser.go:286-299 | a deferred error becomes final before the new lookahead is checked; success leaves nothing deferred |
| `Engine.Expect` | parser/parser.go:311-344 | success consumes exactly the token asked for; failure points at the lookahead |
| `Grammar.ParseExpr` | parser/parse_expr.go:77-81 | on every run: success consumed a token, with nothing deferred before and a legal lookahead after; failure lies inside the rest of the input, or where a deferred error allows |
| `Grammar.ParseBetweenBound` | parser/parse_expr.go:89-93 | the same for the lower bound |
| `Grammar.ParseOperators` | parser/parse_expr.go:123-224 | the same, or nothing was there to take and the state is unchanged |
| `Grammar.ParseWhens` | parser/parse_expr.go:512-518 | the arms of a CASE: none leaves the state unchanged, a WHEN makes progress or fails |
| `Grammar.BindParamAction` | parser/parse_expr.go:678-690 | a register reference, and nothing else, defers an error, at the lookahead after it |
| `Parser.Parser.Advance` | parser/parser.go:286-299 | the index moves by one unless at EOF; with an error deferred the result is that error, with an illegal token ahead it is the tokenizer's |
| `Parser.Parser.Enter` | parser/parser.go:256-262 | depth rises by one, or the limit is reported at the lookahead |
| `Parser.Parser.ParseExpr` | parser/parse_expr.go:77-81 | the object's method computes Grammar.ParseExpr, restores depth, leaves a valid state, places the node, and reports failures at the byte offset inside the source that the deferral rules allow, a deferral always being that of a register reference |
| `Parser.Parser.ParseBetweenBound` | parser/parse_expr.go:89-93 | the same for the lower bound |
| `Parser.Parser.ParsePrefix` | parser/parse_expr.go:98-119 | the same for prefix operators and primaries |
| `Parser.Parser.ParseOperators` | parser/parse_expr.go:123-224 | the loop that reassigns x computes the recursive rule |
| `Parser.Parser.Turn` | parser/parse_expr.go:126-222 | one turn of the loop applies the operator at the lookahead |
| `Parser.Parser.ParseBinary` | parser/parse_expr.go:227-231 | an infix operator with its right operand one level up |
| `Parser.Parser.ParseIs` | parser/parse_expr.go:237-253 | the four IS forms |
| `Parser.Parser.ParseLike` | parser/parse_expr.go:259-273 | LIKE and MATCH with the optional ESCAPE |
| `Parser.Parser.ParseBetween` | parser/parse_expr.go:277-288 | BETWEEN with its own AND |
| `Parser.Parser.ParseIn` | parser/parse_expr.go:292-318 | IN with a list, a table, or a table with arguments |
| `Parser.Parser.ParseNegated` | parser/parse_expr.go:182-219 | the postfix forms that begin with NOT, and the error after a NOT that begins none |
| `Parser.Parser.ParseExprList` | parser/parse_expr.go:331-337 | the comma loop computes the list rule |
| `Parser.Parser.ParsePrimary` | parser/parse_expr.go:340-399 | which form the lookahead and the token after it select |
| `Parser.Parser.ParseTerm` | parser/parse_expr.go:409-456 | literals; a misplaced digit separator is rejected at the number, once it was consumed |
| `Parser.Parser.ParseParenExpr` | parser/parse_expr.go:463-481 | one bracketed expression or a vector |
| `Parser.Parser.ParseQualifiedRef` | parser/parse_expr.go:486-501 | two or three names with dots |
| `Parser.Parser.ParseCase` | parser/parse_expr.go:506-529 | CASE with its optional operand |
| `Parser.Parser.ParseWhens` | parser/parse_expr.go:511-518 | the loop over the WHEN/THEN pairs computes the recursive rule |
| `Parser.Parser.ParseFuncCall` | parser/parse_expr.go:561-589 | calls with a star, a quantifier or a list |
| `Parser.Parser.BindParam` | parser/parse_expr.go:678-728 | the counter and the map after a parameter are those of the run of parameters, and a register reference is deferred once |
| `Parser.Parser.ParseWhole` | parser/parser.go:213-219 | nothing may be left over; a failure after a deferral is the deferred error or at the token it waited for |
| `Parser.ParseExpression` | parser/parser.go:202-219 | from tokens to a placed tree or a located error whose message is true of the token it points at |
| `Entry.ParseExpr` | parser/parser.go:202-219 | from a text to a placed tree or an error inside the text |
| `Entry.Check` | internal/roundtrip/roundtrip.go:30-59 | the round-trip check, run on the tree of any accepted text, never finds a rejected rendering, a changed tree or a second rendering that differs |
| `Spans.SlicesStand` | parser/parser.go:462-473 | every node, at any path, spans from its first to its last token, and those tokens alone parse to its expression; the root spans the input |
| `Spans.SpansNest` | parser/parser.go:462-473 | in bytes: children nest in their parent, in order, without overlap |
| `Spans.PlaceTidy` | parser/parse_expr.go:98-317 | every placed node has these properties, by the structure of the tree |
| `Layout.NumbersAreOfRun` | parser/parse_expr.go:692-727 | the numbers known at a token are those of the run of parameters before it |
| `Script.ParseScript` | parser/parser.go:372-394 | the loop computes the statements of the script, whatever the command parser |
| `Script.ScriptPartitioned` | parser/parser.go:372-394 | each statement runs from its first token over one command to its semicolon or the last token; every token that is not a semicolon lies in one |
| `Script.StatementsApart` | parser/parser.go:372-394 | statements are in source order and share no token and no byte |
| `Binds.RisingUnlessWrapped` | parser/parse_expr.go:692-727 | every new number is above all earlier ones if and only if the spellings keep the counter below the largest int |
| `Binds.CounterIsLargest` | parser/parse_expr.go:692-727 | after every part of a run the counter is the largest number handed out, if and only if the spellings keep it below the largest int |
| `Binds.NamesShare` | parser/parse_expr.go:706-726 | while the spellings keep the counter below the largest int, two named parameters share a number exactly when they are spelled the same |
| `Binds.SameNameShares` | parser/parse_expr.go:717-725 | in every run, parameters spelled the same share a number |
| `Binds.NumberedAsPromised` | parser/parse_expr.go:692-727 | rising new numbers, the largest in the counter and a number per name hold together if and only if the spellings keep the counter below the largest int |
| `Binds.BelowIsNoWrap` | parser/parse_expr.go:692-727 | that condition on the spellings holds exactly when the counter is never incremented at the largest int |
| `Binds.WrapsAround` | parser/parse_expr.go:692-704 | a run on which the counter wraps: the second number is below the first |
| `Binds.NamesCollide` | parser/parse_expr.go:692-727 | a run on which two different names get the same number, after the counter wrapped and was set back |
| `Digits.DequoteInPlace` | parser/parse_expr.go:734-758 | the compaction of the buffer in place computes the rule, including the partly rewritten text it reports |
| `Separators.DequotesWellSeparated` | parser/parse_expr.go:730-758 | removal succeeds if and only if every separator stands between two digits of the right base, and then only the separators go |
| `Separators.DequotedRescans` | parser/parse_expr.go:431-440 | what is left of any QNUMBER is scanned at full length as the INTEGER or FLOAT parseTerm makes of it |
| `Quotes.QuotedScans` | lexer/lexer.go:257-280 | any content without a NUL, doubled and delimited, is one token whose name is the content |
| `Quotes.QuotedFromOne` | parser/parser.go:497-528 | every quoted token the scanner accepts is written from exactly one content, its name |
| `Quotes.BracketedName` | lexer/lexer.go:291-298 | a name in square brackets is its content, which has no NUL and no closing bracket |
| `Lexer.Scan` | lexer/lexer.go:152-353 | the switch and its loops compute the scanning rule |
| `Lexer.ScanSymbol` | lexer/lexer.go:182-255 | the operators and the punctuation, by their first bytes |
| `Lexer.ScanNumber` | lexer/lexer.go:370-428 | numbers, with their separators, fractions and exponents, and the identifier characters that spoil them |
| `Lexer.ScanVariable` | lexer/lexer.go:433-472 | the loop over a parameter's name computes the rule |
| `Lexer.ScanQuoted` | lexer/lexer.go:257-280 | the loop to the closing delimiter computes the rule |
| `Lexer.ScanSlash` | lexer/lexer.go:193-207 | the loop to the end of a block comment computes the rule |
| `Lexer.Lex` | lexer/lexer.go:25-28 | the tokens of a text |
| `Lexer.LexFile` | lexer/lexer.go:30-43 | the same tokens, and the trivia between them |
| `Lexer.Split` | lexer/lexer.go:45-82 | the pass over the text, with the window words resolved only if there were any |
| `Lexing.Lossless` | lexer/lexer.go:37-40 | tokens and trivia, merged in order, tile the text up to its end and spell it |
| `Lexing.NulEndsInput` | lexer/lexer.go:130-147 | cutting a text at its first NUL changes no token and no trivia, no token holds a NUL, and none reaches past it |
| `Locality.ScanCut` | lexer/lexer.go:134-147 | one scan: a NUL reads as the end of the input, every scan makes progress, and none passes it |
| `Locality.ScanLocal` | lexer/lexer.go:152-353 | a token of content is scanned the same wherever its text is followed by a byte that may follow it |
| `Windows.ResolveWindowKeywords` | lexer/lexer.go:87-125 | the left-to-right rewrite in place decides every token from the original kinds of its neighbours |
| `Windows.ResolveIdempotent` | lexer/lexer.go:87-125 | resolving again changes nothing |
| `Windows.ResolveSkips` | lexer/lexer.go:74-79 | without a window word the pass changes nothing |
| `Windows.ResolveByKinds` | lexer/lexer.go:87-125 | lists with the same kinds are resolved alike |
| `Keywords.KeywordIndex.constructor` | token/keywords.go:249-269 | sorting by length and spelling and counting groups builds an index that describes the map |
| `Keywords.KeywordIndex.Lookup` | token/keywords.go:277-292 | looking up any byte string gives the map's entry for its upper-case form, or ID |
| `Keywords.EqualUpper` | token/keywords.go:296-307 | the comparison holds exactly when the upper-case form is the word |
| `Keywords.SortOrders` | token/keywords.go:254-259 | the sorted names are in order and the same names |
| `Keywords.GroupGrows` | token/keywords.go:260-268 | in sorted order, counting a name keeps its group one contiguous stretch of rows |
| `Renderer.Writer.Kw` | ast/render.go:69-76 | a space goes before a word unless the text is empty or ends in a space or an opening bracket |
| `Renderer.Writer.Write` | ast/render.go:80-267 | writing a tree appends its emissions, whatever is written after it |
| `Renderer.Writer.WriteExprs` | ast/render.go:749-756 | lists, with commas between |
| `Renderer.String` | ast/render.go:17-22 | the text of a tree |
| `Precedence.ParsesAsDeclared` | internal/reference/parse.y:309-320 | for every token list, tree and room: acceptance as that tree is equivalent to being its words, the tree fitting the declared groups and name classes, and nesting within the room |
| `Precedence.OperatorExtends` | parser/parse_expr.go:121-224 | any operator with its right side after any accepted expression: it goes into the innermost last operand of an operator of an earlier group, else to the whole |
| `Precedence.PrefixExtends` | parser/parse_expr.go:98-119 | any prefix operator before any accepted expression takes the longest left part whose operators are all of later groups |
| `Precedence.InfixPair` | internal/reference/parse.y:309-320 | for all one-token operands and infix operators, `a o1 b o2 c` groups to the left exactly when the group of o1 is not before that of o2 |
| `Precedence.PrefixPair` | internal/reference/parse.y:309-320 | for all one-token operands: NOT takes `a o b` exactly when the group of o comes after NOT's; a sign or `~` takes only `a` |
| `Precedence.FitsCanon` | parser/parse_expr.go:11-34 | the trees that fit the declared groups are exactly the canonical ones |
| `Precedence.NotOfNotNull` | parser/parse_expr.go:101-104 | `NOT a NOT NULL` is `(NOT a) NOT NULL`, against the declared right associativity of NOT |
| `Precedence.EqualGroups` | parser/parse_expr.go:193-199 | a prefix operator meets one of its own group only there |
| `Precedence.OneToken` | parser/parse_expr.go:340-399 | a token is an expression by itself exactly if its kind is in the list written out, its separators stand between digits, or it is a parameter and no register reference |
| `Reference.ReadsWords` | parser/parse_expr.go:98-589 | the tokens read as a tree are exactly those of its words, kind by kind, in the order written out for each form |
| `Reference.WritesWords` | ast/render.go:86-267 | what the renderer emits for a tree are its words, with the texts and the glued marks written out |
| `Rendered.RenderedAsWords` | ast/render.go:63-78 | the rendered text of any accepted tree is its words with one space between them, none before a mark and none after an opening bracket |
| `Depth.BracketsNest` | parser/parser.go:256-262 | a token in n pairs of brackets is accepted exactly if n is below the room; beyond it the limit is reported at the first token too deep |
| `Depth.LimitIsTenThousand` | parser/parser.go:251-251 | 9999 pairs of brackets are accepted, 10000 are not |
| `Errors.NotBeginsNone` | parser/parse_expr.go:215-219 | after an operand a NOT that begins no operator is consumed, and the error is at the token after it |
| `Errors.BadNumber` | parser/parse_expr.go:431-440 | a misplaced separator is reported after the number is consumed, unless the next token is illegal |
| `Errors.ReferenceRejected` | parser/parse_expr.go:678-690 | a register reference is reported once the next token is consumed or the input ends; an illegal or unusable next token is reported instead |
| `Bytes.LineComment` | lexer/lexer.go:166-173 | a text beginning with two dashes is a COMMENT up to its first newline, which is not part of it, or to the end |
| `Bytes.BlockComment` | lexer/lexer.go:193-207 | a block comment ends with the first star and slash from byte 2 on, or with the text; otherwise the slash is alone |
| `Bytes.BlanksScan` | lexer/lexer.go:159-164 | a run of blanks is the longest; a vertical tab goes on with one and begins none |
| `Bytes.MinusScans` | lexer/lexer.go:174-180 | the longest of the operators that begin with a dash |
| `Bytes.OperatorsScan` | lexer/lexer.go:212-248 | the longest operator the text begins with |
| `Bytes.MarksScan` | lexer/lexer.go:182-255 | the marks of one byte |
| `Bytes.WordScans` | lexer/lexer.go:328-350 | a word is the longest stretch of name bytes, and is looked up exactly if it is two or more letters and underscores that begin with a letter other than x |
| `Bytes.CapitalsAre` | token/keywords.go:296-307 | the form looked up has every small letter replaced by its capital and nothing else changed |
| `Bytes.NumberScans` | lexer/lexer.go:370-428 | where a number ends and what kind it has: hexadecimal, whole part, fraction, exponent; separators, points and marks decide the kind; a name byte spoils it |
| `Bytes.ParameterScans` | lexer/lexer.go:433-472 | a parameter's name is the longest row of name bytes and pairs of colons with at least one name byte, perhaps with an argument in brackets |
| `Bytes.NumberedScans` | lexer/lexer.go:300-305 | a question mark and the figures after it |
| `Bytes.BlobScans` | lexer/lexer.go:310-326 | a blob is an even number of hexadecimal figures in quotes; a bad one reaches to the next quote or the end |
| `Bytes.BracketsScan` | lexer/lexer.go:291-298 | a bracketed name ends with the first closing bracket; an unclosed one is bad to the end |
| `Bytes.QuotesScan` | lexer/lexer.go:257-280 | the kind of a quoted token is that of its delimiter, which ends it; an unclosed one is bad to the end |
| `Bytes.OrderMark` | lexer/lexer.go:330-333 | a byte order mark is a blank of three bytes |
| `Bytes.StrayBytes` | lexer/lexer.go:352-352 | the bytes no token begins with are bad one by one |
| `Bytes.SeparatorsStand` | parser/parse_expr.go:730-758 | separators can be removed exactly if each stands between two figures of the base the prefix says |
| `Lexing.TriviaAreBlank` | lexer/lexer.go:45-82 | trivia are the runs of blanks and the comments and nothing else, and every token is what scanning finds at its first byte |
| `Windows.WindowWordsDecided` | lexer/lexer.go:87-125 | FILTER stays exactly between brackets, OVER exactly after a closing and before an opening one or a name, WINDOW exactly before a name and AS; all others become names and no other token changes |
| `Windows.NamesStayNames` | lexer/lexer.go:110-120 | without a closing bracket right before it, "filter" and "over" are names |
| `Binds.ExplicitGiven` | parser/parse_expr.go:697-705 | in every run a written number is the parameter's number; one that is no int is 0 and changes nothing |
| `Binds.ExplicitShare` | parser/parse_expr.go:697-705 | two written numbers are shared exactly if they are equal |
| `Binds.NewIsNext` | parser/parse_expr.go:692-727 | a new number is one more than the largest so far, 1 if there is none |
| `Children.KidsAreChildren` | parser/parse_expr.go:98-589 | the nodes placed below an expression are those of all its children, in order, for each form |
| `Children.EverySubtreePlaced` | parser/parse_expr.go:98-589 | every subtree of an accepted tree, at any path, has exactly one node, and that node has all the children of its expression |
| `Children.ParameterNumbered` | parser/parse_expr.go:678-728 | every parameter of an accepted tree has a node at its token, with the number that token has in the run of the input's parameters |
| `Children.ParametersConserved` | parser/parse_expr.go:678-728 | the parameters of an accepted tree, in order, are the parameter tokens of the input |
| `Children.ParamsAreChildrens` | parser/parse_expr.go:98-589 | the parameters of a tree are itself or those of its children, one after the other |
| `Children.LevelPerChild` | parser/parser.go:244-264 | one level for every child inside another, whatever the form, but none for the left operand of an operator |
| `Script.ScriptExact` | parser/parser.go:372-394 | a script is accepted as given statements if and only if they partition it and nothing illegal follows the semicolons between them |
| `Script.ScriptRejected` | parser/parser.go:372-394 | a rejected script is rejected for a failed command, a missing semicolon, an error deferred in a command, or an illegal token after a semicolon |
| `Separators.MisplacedReport` | parser/parse_expr.go:745-756 | the reported text is closed up to the first bad separator and as it stands from there |
| `Quotes.PlainName` | parser/parser.go:497-511 | an unquoted name is its spelling, and the quotes of one style leave the others alone |

## Left out

- Script.ParseScript: the statement families are left out; it is about `parseScript` with any parser of commands that consumes a token and can go on; EXPLAIN belongs to it.
- Subqueries, EXISTS, CAST, RAISE, ORDER BY inside calls, FILTER and OVER: the parser answers `OutOfFragment` where one begins. They add forms without new precedence.
- Parser.Parser.ParseIn: a select on the right side is answered so.
- Parser.Parser.ParsePrimary: CAST, EXISTS and RAISE are answered so.
- Parser.Parser.ParseParenExpr: a select in the brackets is answered so.
- Parser.Parser.ParseFuncCall: ORDER BY in the arguments, FILTER and OVER are answered so.
- Renderer.Writer.Write: the nodes of these forms are not written.
- Parser.Parser.ParseTerm: the literal keeps its token; its kind and dequoted value are not stored beside it.
- Parser.Parser.ParseCase: the arms of a CASE are children of the CASE, condition and value in turn, with no node of their own.
- Parser.Parser.ParseWhens: for the same reason the arms carry no span.
- Entry.Check: one expression, where the source's check takes a list of statements.
- Binds.NamesShare: one direction, because different names may keep apart in a run that wraps; the three promises together are exact.
- Conformance to SQLite itself, the vendored grammar and the comparison tools.
- `io.Reader` entry points, JSON, dumping, error text formatting, line and column numbers, capacity hints.
- Panic and recover: a panic with a `bail` is a failure result.
- The keyword list and the fallback entries as data: they are a map parameter, and kinds `FallbackKw` and `ReservedKw` stand for the keywords the modelled code never names.
- An identifier's unquoted name, a literal's value, a parameter's kind and name are not stored in the tree; `Quotes` and `Separators` are about the functions that compute them.
- Spans.SlicesStand: the tokens under a node are parsed, with an EOF after them; lexing its bytes on their own is not modelled, and parameter numbers, which depend on what came before, are left out of the comparison.
- Options: none reaches an expression.
- Keywords.KeywordIndex.Lookup: for maps of at most 255 words of 2 to 17 bytes, upper case, beginning with a letter, which is what the one-byte offsets and the table's shape hold.
