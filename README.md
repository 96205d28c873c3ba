# HectoClash expression engine in Dafny

HectoClash is a puzzle that gives the player six digits, each from 1 to 9. The player inserts
binary operators (`+ - * / ^`) and parentheses into the gaps between tokens to build an
expression worth 100. The digits are never reordered. This project models the engine that
builds that expression:

- the token sequence, which starts as the digits;
- the splice that puts the armed ("pending") symbol into a gap;
- the whole-sequence count of `(` against `)`;
- the gap validator, which decides whether a symbol may go at a gap;
- the handlers that arm a symbol, click a gap and reset the game.

Modules:

- `Tokens` (`tokens.dfy`) holds the token datatype and the operations on sequences.
  A token is `Digit(value) | Op(BinOp) | Open | Close`. The game's string tests
  (`/^\d+$/`, `=== '('`) become tag tests; the digit tokens are single digits, so this is
  exact. Also here: `Count`, `Digits` (the digit values in order), `InitialTokens`, and
  `InsertAt`, which is `splice(i, 0, x)` with JavaScript's clamping of the index.
- `Gaps` (`gaps.dfy`) holds the validator `GapValid(tokens, i, op)`. It is total: any gap
  index and any token. A `Digit` as `op` stands for a symbol the validator does not know.
  Its partner is the follow relation of an arithmetic expression grammar (`Follows`,
  `CanStart`, `CanEnd`). `GapValidByAdjacency` states that the validator agrees with that
  grammar, in both directions, with one exception, which it names.
- `Reachability` (`reachability.dfy`) holds `Step`, one guarded click, and `Play`, a series
  of clicks from the puzzle digits. It proves the shape every reachable sequence keeps.
- `Game` (`game.dfy`) holds the class `Home`. Its fields are the component state:
  `tokens`, `pendingOp`, `result`, `won` and `showModal`, with `digits` as a constant.
  Its methods are the handlers.

## Model

| member | source | states |
|---|---|---|
| `Tokens.InitialTokens` | src/app/page.js:13-15 | the starting sequence holds exactly the puzzle digits, in order, has their length, and contains no operator or parenthesis |
| `Tokens.SpliceStart` | src/app/page.js:69 | the splice index is clamped into `0..n` and equals the requested gap whenever that gap exists |
| `Tokens.InsertAt` | src/app/page.js:68-69 | splicing adds exactly one token: the length grows by one, the new token sits at the splice index, and the multiset of tokens gains exactly that token |
| `Tokens.CountMultiplicity` | src/app/page.js:22-29 | the number of occurrences that the counting loop tallies for a token is that token's multiplicity in the multiset of the sequence |
| `Tokens.InsertAtCount` | src/app/page.js:68-69 | after a splice, every token's count is unchanged except the inserted token's, which rises by one |
| `Tokens.InsertAtKeepsDigits` | src/app/page.js:66-73 | splicing in an operator or parenthesis leaves the digit values and their order unchanged |
| `Gaps.HasUnmatched` | src/app/page.js:22-29 | the value the `)` rule asks for: true exactly when `(` occurs more often than `)` in the multiset of all tokens, wherever they stand |
| `Gaps.GapValid` | src/app/page.js:32-63 | the validator never accepts a gap outside `0..length`; it never accepts a symbol other than the seven it knows; it never accepts a binary operator at gap 0 or at the last gap; it never accepts `)` unless `(` outnumbers `)`; it never accepts `(` right after a digit or `)` |
| `Gaps.GapValidByAdjacency` | src/app/page.js:32-63 | a symbol is accepted iff it is an operator or parenthesis at an existing gap, it may follow its left neighbour (or start the expression), it may precede its right neighbour (or end it; `(` is also let through at the end), and for `)` some `(` is unmatched |
| `Reachability.Step` | src/app/page.js:154-157 | a click never changes the digit values or their order, and it either leaves the sequence as it was or adds one token |
| `Reachability.Play` | src/app/page.js:154-157 | a series of clicks from the puzzle digits keeps the digits in order, and each click adds at most one token |
| `Reachability.StepKeepsWellShaped` | src/app/page.js:32-73 | a guarded click keeps the invariant on the sequence: the digits, `)` never outnumbering `(`, a digit or `(` first, a digit or `)` last, and the follow relation between every pair of neighbours |
| `Reachability.PlayWellShaped` | src/app/page.js:154-157 | every sequence reachable from the puzzle digits satisfies that invariant |
| `Reachability.ReachableShape` | src/app/page.js:52-60 | from the puzzle digits, whatever the clicks: the digits keep their values and order; `(` − `)` is never negative; the first token is a digit or `(`; the last is a digit or `)`; no two operators, `()`, `)(`, digit-then-`(` or `)`-then-digit are ever neighbours |
| `Reachability.WellShapedReachable` | src/app/page.js:32-73 | every sequence that has the invariant's shape can be built from its digits by guarded clicks, by the moves returned |
| `Reachability.ReachableIffWellShaped` | src/app/page.js:154-157 | a sequence can be built from the puzzle digits iff it has the invariant's shape |
| `Reachability.CloseAcceptedBeforeItsOpen` | src/app/page.js:22-29 | the `)` rule counts over the whole sequence: from digits 1 2, the clicks `+`@1, `(`@2, `)`@1 build `1 ) + ( 2`, whose two-token prefix has more `)` than `(` |
| `Game.Home.constructor` | src/app/page.js:14-19 | the initial state: tokens are the digits, nothing pending, no result, not won, no modal |
| `Game.Home.HasUnmatchedLeft` | src/app/page.js:22-29 | the counting loop returns exactly `HasUnmatched` of the sequence, the value the validator uses: more `(` tokens than `)` tokens in the whole sequence |
| `Game.Home.InsertAtGap` | src/app/page.js:66-73 | with nothing pending, nothing changes; otherwise the pending symbol is spliced in at the gap and the pending symbol and result are cleared; `won` and `showModal` are untouched |
| `Game.Home.HandleOperatorClick` | src/app/page.js:76-78 | arms the symbol and changes nothing but `pendingOp` |
| `Game.Home.ClickGap` | src/app/page.js:151-157 | the sequence changes only when a symbol is pending and the gap is valid for it; then it is that one guarded step; the state stays one the player can reach |
| `Game.Home.ResetGame` | src/app/page.js:100-106 | tokens are the puzzle digits again, nothing pending, no result, not won, no modal, and the state is again a reachable one |

Behaviours of the code a reader may not expect:

- The `)` rule asks whether `(` outnumbers `)` in the whole sequence. It does not ask
  whether an unmatched `(` lies to the left of the gap (src/app/page.js:22-29, 56).
  `CloseAcceptedBeforeItsOpen` shows the difference.
- The last gap also accepts `(` when the last token is an operator or `(`
  (src/app/page.js:46-47). `GapValidByAdjacency` keeps that exception. `ReachableShape`
  shows that it never comes into play from the puzzle digits, because the last token is
  always a digit or `)`.
- The code has no evaluator of its own. It passes the joined string to JavaScript's `eval`.

## Left out

- Evaluate (`src/app/page.js:81-97`) is not modelled. It hands the joined tokens to
  JavaScript's `eval`, which computes in floating point, reads `^` as bitwise XOR, and
  reports errors by exception. `result`, `won` and `showModal` are therefore only ever
  cleared or kept here. `Outcome` stands for the value `result` can hold.
- Generating the digits (`src/app/page.js:8-10`) uses `Math.random`. The constructor takes
  the six digits as a parameter instead and requires each to be from 1 to 9.
- The win sound (`src/app/page.js:109-114`), the rendering, the confetti and the modal
  (`src/app/page.js:116-200`) are presentation only.
- React batches state updates and applies them later. Each handler here is one atomic
  state change.
- Game.Home.InsertAtGap: the splice on a fresh copy of the array is modelled as a new
  sequence value. The copy is never shared, so there is no aliasing to model.
- Game.Home.ClickGap: requires the object invariant `Valid()`, which the constructor and
  `ResetGame` establish. A direct call of `InsertAtGap` at an unchecked gap can break it;
  the game only calls `InsertAtGap` from a gap click.
- The operator buttons (`src/app/page.js:175-181`) arm only the seven known symbols.
  `HandleOperatorClick` accepts any token, as the handler itself accepts any value.
