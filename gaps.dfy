/** Which symbol may be placed at which gap of the token sequence.

    Gap `i` is the insertion point just before `s[i]` (or at the end when
    `i == |s|`). The answer depends on the token left of the gap, the token
    right of it and, for `)`, on the parenthesis count of the whole sequence. */
module Gaps {
  import opened Tokens

  /** There are more `(` than `)` in the whole sequence (not prefix by prefix):
      the multiplicity of `(` in the multiset of tokens exceeds that of `)`. */
  predicate HasUnmatched(s: seq<Token>): (b: bool)
    ensures b <==> multiset(s)[Open] > multiset(s)[Close]
  {
    CountMultiplicity(s, Open);
    CountMultiplicity(s, Close);
    Count(s, Open) > Count(s, Close)
  }

  /** The validator of the game. `op` may be any token: a digit, which is none
      of the seven symbols it knows, is refused like every unknown symbol.
      A gap outside `0..|s|` sees no neighbours (JavaScript reads `undefined`
      there) and is refused. */
  function GapValid(s: seq<Token>, i: int, op: Token): (r: bool)
    ensures r ==> 0 <= i <= |s|
    ensures op.Digit? ==> !r
    ensures op.Op? && (i == 0 || i == |s|) ==> !r
    ensures op == Close && !HasUnmatched(s) ==> !r
    ensures op == Open && 0 < i <= |s| && (s[i - 1].Digit? || s[i - 1] == Close) ==> !r
  {
    var left := if 0 <= i - 1 < |s| then Some(s[i - 1]) else None;
    var right := if 0 <= i < |s| then Some(s[i]) else None;
    match op
    case Op(_) =>
      left.Some? && right.Some? &&
      (left.value.Digit? || left.value == Close) &&
      (right.value.Digit? || right.value == Open)
    case Open =>
      (i == 0 || (left.Some? && (left.value.Op? || left.value == Open))) &&
      (right.None? || right.value.Digit? || right.value == Open)
    case Close =>
      left.Some? && (left.value.Digit? || left.value == Close) &&
      HasUnmatched(s) &&
      (right.None? || right.value.Op? || right.value == Close)
    case Digit(_) => false
  }

  // The reference the validator is measured against: which token may come
  // directly after which in an arithmetic expression whose numbers are runs
  // of digit tokens, E ::= T (op T)*, T ::= digit+ | ( E ).

  /** `b` may directly follow `a`. */
  predicate Follows(a: Token, b: Token)
  {
    match a
    case Digit(_) => b.Digit? || b.Op? || b == Close
    case Close => b.Op? || b == Close
    case Op(_) => b.Digit? || b == Open
    case Open => b.Digit? || b == Open
  }

  /** `t` may begin an expression. */
  predicate CanStart(t: Token)
  {
    t.Digit? || t == Open
  }

  /** `t` may end an expression. */
  predicate CanEnd(t: Token)
  {
    t.Digit? || t == Close
  }

  /** A symbol is accepted at a gap exactly when it is an operator or a
      parenthesis, the gap exists, the symbol may follow its left neighbour
      (or begin the expression), may precede its right neighbour (or end the
      expression; `(` is also let through at the end), and, for `)`, some `(`
      is still unmatched. */
  lemma GapValidByAdjacency(s: seq<Token>, i: int, x: Token)
    ensures GapValid(s, i, x) <==>
      !x.Digit? && 0 <= i <= |s| &&
      (if i == 0 then CanStart(x) else Follows(s[i - 1], x)) &&
      (if i == |s| then CanEnd(x) || x == Open else Follows(x, s[i])) &&
      (x == Close ==> HasUnmatched(s))
  {
  }
}
