/** The token sequence of the expression under construction.

    In the game the sequence is an array of strings: the six puzzle digits
    as one-character strings, with the operator and parenthesis strings the
    player inserts between them. Here a token is a tagged value instead, so
    the string tests of the game (`/^\d+$/`, `=== '('`, ...) become tag tests. */
module Tokens {

  datatype Option<T> = None | Some(value: T)

  /** The five binary operators of the operator buttons: + - * / ^ */
  datatype BinOp = Add | Sub | Mul | Div | Pow

  /** A puzzle digit, a binary operator, `(` or `)`. */
  datatype Token = Digit(value: nat) | Op(op: BinOp) | Open | Close

  /** Number of occurrences of `t` in `s`. */
  function Count(s: seq<Token>, t: Token): (n: nat)
    ensures n <= |s|
    ensures n == 0 <==> t !in s
  {
    if s == [] then 0
    else Count(s[..|s| - 1], t) + (if s[|s| - 1] == t then 1 else 0)
  }

  /** The digit values of `s`, in the order they appear. */
  function Digits(s: seq<Token>): (d: seq<nat>)
    ensures |d| <= |s|
  {
    if s == [] then []
    else Digits(s[..|s| - 1]) + (if s[|s| - 1].Digit? then [s[|s| - 1].value] else [])
  }

  /** The starting sequence: each puzzle digit as a token of its own. It holds
      exactly the puzzle digits, in order, and no operator or parenthesis. */
  function InitialTokens(digits: seq<nat>): (r: seq<Token>)
    ensures |r| == |digits|
    ensures Digits(r) == digits
    ensures forall k :: 0 <= k < |r| ==> r[k].Digit?
  {
    if digits == [] then []
    else
      var n := |digits| - 1;
      var r := InitialTokens(digits[..n]) + [Digit(digits[n])];
      assert r[..n] == InitialTokens(digits[..n]);
      assert digits[..n] + [digits[n]] == digits;
      r
  }

  /** Where `Array.prototype.splice` starts for a requested index `i` on an
      array of length `n`: a negative index counts from the end, and the
      result is clamped to `0..n`. */
  function SpliceStart(i: int, n: nat): (k: nat)
    ensures k <= n
    ensures 0 <= i <= n ==> k == i
  {
    if i < 0 then (if n + i < 0 then 0 else n + i)
    else if i > n then n
    else i
  }

  /** `s` with `x` spliced in at index `i` and nothing removed, as
      `splice(i, 0, x)` does on a copy of the array. */
  function InsertAt(s: seq<Token>, i: int, x: Token): (r: seq<Token>)
    ensures |r| == |s| + 1
    ensures r[SpliceStart(i, |s|)] == x
    ensures multiset(r) == multiset(s) + multiset{x}
  {
    var k := SpliceStart(i, |s|);
    assert s == s[..k] + s[k..];
    s[..k] + [x] + s[k..]
  }

  /** `Count` is the multiplicity of the token in the multiset of the sequence. */
  lemma {:induction false} CountMultiplicity(s: seq<Token>, t: Token)
    ensures Count(s, t) == multiset(s)[t]
  {
    if s != [] {
      var n := |s| - 1;
      CountMultiplicity(s[..n], t);
      assert s == s[..n] + [s[n]];
    }
  }

  lemma {:induction false} DigitsAppend(a: seq<Token>, b: seq<Token>)
    ensures Digits(a + b) == Digits(a) + Digits(b)
  {
    if b != [] {
      assert (a + b)[..|a + b| - 1] == a + b[..|b| - 1];
      DigitsAppend(a, b[..|b| - 1]);
    } else {
      assert a + b == a;
    }
  }

  /** Splicing in a token adds exactly one occurrence of it. */
  lemma InsertAtCount(s: seq<Token>, i: int, x: Token, t: Token)
    ensures Count(InsertAt(s, i, x), t) == Count(s, t) + (if x == t then 1 else 0)
  {
    CountMultiplicity(InsertAt(s, i, x), t);
    CountMultiplicity(s, t);
  }

  /** Splicing in an operator or parenthesis keeps the digits and their order. */
  lemma DigitsSkip(a: seq<Token>, x: Token, b: seq<Token>)
    requires !x.Digit?
    ensures Digits(a + ([x] + b)) == Digits(a + b)
  {
    assert Digits([x]) == [] by {
      assert [x][..0] == [];
    }
    DigitsAppend([x], b);
    DigitsAppend(a, [x] + b);
    DigitsAppend(a, b);
  }

  lemma InsertAtKeepsDigits(s: seq<Token>, i: int, x: Token)
    requires !x.Digit?
    ensures Digits(InsertAt(s, i, x)) == Digits(s)
  {
    var k := SpliceStart(i, |s|);
    assert InsertAt(s, i, x) == s[..k] + ([x] + s[k..]);
    DigitsSkip(s[..k], x, s[k..]);
    assert s[..k] + s[k..] == s;
  }
}
