/** What every sequence the player can build looks like.

    A move is what the player does between two insertions: arm a symbol with
    an operator button, then click a gap. The click inserts only when the gap
    is valid for the armed symbol; otherwise nothing changes. */
module Reachability {
  import opened Tokens
  import opened Gaps

  datatype Move = Move(gap: int, symbol: Token)

  /** One guarded click. */
  function Step(s: seq<Token>, m: Move): (r: seq<Token>)
    ensures Digits(r) == Digits(s)
    ensures r == s || |r| == |s| + 1
  {
    if GapValid(s, m.gap, m.symbol) then
      InsertAtKeepsDigits(s, m.gap, m.symbol);
      InsertAt(s, m.gap, m.symbol)
    else s
  }

  /** The sequence reached from the puzzle digits by a series of moves. */
  function Play(digits: seq<nat>, moves: seq<Move>): (r: seq<Token>)
    ensures Digits(r) == digits
    ensures |digits| <= |r| <= |digits| + |moves|
  {
    if moves == [] then InitialTokens(digits)
    else Step(Play(digits, moves[..|moves| - 1]), moves[|moves| - 1])
  }

  /** The shape every reachable sequence keeps. */
  ghost predicate WellShaped(digits: seq<nat>, s: seq<Token>)
  {
    |s| > 0 &&
    Digits(s) == digits &&
    Count(s, Close) <= Count(s, Open) &&
    CanStart(s[0]) &&
    CanEnd(s[|s| - 1]) &&
    forall j :: 0 <= j < |s| - 1 ==> Follows(s[j], s[j + 1])
  }

  lemma InitialWellShaped(digits: seq<nat>)
    requires |digits| > 0
    ensures WellShaped(digits, InitialTokens(digits))
  {
    var s := InitialTokens(digits);
    assert forall k :: 0 <= k < |s| ==> s[k] != Close;
    assert Count(s, Close) == 0;
  }

  /** Neighbours of a valid insertion fit the follow relation on both sides. */
  lemma InsertFollows(s: seq<Token>, i: int, x: Token)
    requires GapValid(s, i, x)
    requires forall j :: 0 <= j < |s| - 1 ==> Follows(s[j], s[j + 1])
    ensures var r := InsertAt(s, i, x);
      forall j :: 0 <= j < |r| - 1 ==> Follows(r[j], r[j + 1])
  {
    GapValidByAdjacency(s, i, x);
  }

  /** A valid insertion keeps `)` from outnumbering `(`. */
  lemma InsertKeepsBalance(s: seq<Token>, i: int, x: Token)
    requires GapValid(s, i, x)
    requires Count(s, Close) <= Count(s, Open)
    ensures var r := InsertAt(s, i, x); Count(r, Close) <= Count(r, Open)
  {
    InsertAtCount(s, i, x, Open);
    InsertAtCount(s, i, x, Close);
  }

  /** A valid insertion keeps a digit or `(` first and a digit or `)` last. */
  lemma InsertKeepsEnds(s: seq<Token>, i: int, x: Token)
    requires GapValid(s, i, x)
    requires |s| > 0 && CanStart(s[0]) && CanEnd(s[|s| - 1])
    ensures var r := InsertAt(s, i, x); CanStart(r[0]) && CanEnd(r[|r| - 1])
  {
    var r := InsertAt(s, i, x);
    GapValidByAdjacency(s, i, x);
    if i == 0 {
      assert r[0] == x;
    } else {
      assert r[0] == s[0];
    }
    if i == |s| {
      // `(` at the end needs an operator or `(` on its left, but the
      // last token is a digit or `)`.
      assert r[|r| - 1] == x;
    } else {
      assert r[|r| - 1] == s[|s| - 1];
    }
  }

  /** A guarded click keeps the shape. */
  lemma StepKeepsWellShaped(digits: seq<nat>, s: seq<Token>, m: Move)
    requires WellShaped(digits, s)
    ensures WellShaped(digits, Step(s, m))
  {
    if GapValid(s, m.gap, m.symbol) {
      InsertKeepsBalance(s, m.gap, m.symbol);
      InsertKeepsEnds(s, m.gap, m.symbol);
      InsertFollows(s, m.gap, m.symbol);
    }
  }

  lemma {:induction false} PlayWellShaped(digits: seq<nat>, moves: seq<Move>)
    requires |digits| > 0
    ensures WellShaped(digits, Play(digits, moves))
  {
    if moves == [] {
      InitialWellShaped(digits);
    } else {
      PlayWellShaped(digits, moves[..|moves| - 1]);
      StepKeepsWellShaped(digits, Play(digits, moves[..|moves| - 1]), moves[|moves| - 1]);
    }
  }

  /** Whatever the player does, starting from the puzzle digits: the digits
      stay as they are and in order, there are never more `)` than `(`, the
      sequence begins with a digit or `(` and ends with a digit or `)`, and no
      two operators, no `()`, no `)(`, no digit before `(` and no `)` before
      a digit ever become neighbours. */
  lemma ReachableShape(digits: seq<nat>, moves: seq<Move>)
    requires |digits| > 0
    ensures var s := Play(digits, moves);
      |s| >= |digits| &&
      Digits(s) == digits &&
      Count(s, Open) - Count(s, Close) >= 0 &&
      (s[0].Digit? || s[0] == Open) &&
      (s[|s| - 1].Digit? || s[|s| - 1] == Close) &&
      forall j :: 0 <= j < |s| - 1 ==> Follows(s[j], s[j + 1])
  {
    var s := Play(digits, moves);
    PlayWellShaped(digits, moves);
    assert CanStart(s[0]) && CanEnd(s[|s| - 1]);
  }

  /** A sequence of digit tokens only is the starting sequence of its digits. */
  lemma {:induction false} DigitsOnly(s: seq<Token>)
    requires forall k :: 0 <= k < |s| ==> s[k].Digit?
    ensures |Digits(s)| == |s|
    ensures forall k :: 0 <= k < |s| ==> Digits(s)[k] == s[k].value
  {
    if s != [] {
      DigitsOnly(s[..|s| - 1]);
    }
  }

  lemma AllDigitsInitial(s: seq<Token>)
    requires forall k :: 0 <= k < |s| ==> s[k].Digit?
    ensures InitialTokens(Digits(s)) == s
  {
    var r := InitialTokens(Digits(s));
    DigitsOnly(s);
    DigitsOnly(r);
  }

  /** Taking the token at `j` out of a sequence and splicing it back in at
      gap `j` gives the sequence back. */
  lemma RemoveInsert(s: seq<Token>, j: nat)
    requires j < |s|
    ensures InsertAt(s[..j] + s[j + 1..], j, s[j]) == s
  {
    var t := s[..j] + s[j + 1..];
    assert t[..j] == s[..j] && t[j..] == s[j + 1..];
    assert s[..j] + [s[j]] + s[j + 1..] == s;
  }

  /** Neighbours that fit the follow relation still do after a token is taken
      out, when the two tokens that become neighbours fit it too. */
  lemma RemoveFollows(s: seq<Token>, j: nat)
    requires j < |s|
    requires forall k :: 0 <= k < |s| - 1 ==> Follows(s[k], s[k + 1])
    requires 0 < j < |s| - 1 ==> Follows(s[j - 1], s[j + 1])
    ensures var t := s[..j] + s[j + 1..];
      forall k :: 0 <= k < |t| - 1 ==> Follows(t[k], t[k + 1])
  {
    var t := s[..j] + s[j + 1..];
    forall k | 0 <= k < |t| - 1
      ensures Follows(t[k], t[k + 1])
    {
      if k < j - 1 {
        assert t[k] == s[k] && t[k + 1] == s[k + 1];
      } else if k == j - 1 {
        assert t[k] == s[j - 1] && t[k + 1] == s[j + 1];
      } else {
        assert t[k] == s[k + 1] && t[k + 1] == s[k + 2];
        assert Follows(s[k + 1], s[k + 2]);
      }
    }
  }

  /** A well-shaped sequence with an operator or parenthesis at `j` that may
      be taken out: a `)`; a `(` when there is no `)`; an operator when there
      is no parenthesis. What is left keeps the shape, except possibly the
      balance, which the counts give. */
  lemma RemoveKeepsEnds(digits: seq<nat>, s: seq<Token>, j: nat)
    requires WellShaped(digits, s)
    requires j < |s| && !s[j].Digit?
    ensures |s| > 1
    ensures var t := s[..j] + s[j + 1..];
      CanStart(t[0]) && CanEnd(t[|t| - 1])
  {
    var t := s[..j] + s[j + 1..];
    if j == 0 {
      assert t[0] == s[1];
    } else {
      assert t[0] == s[0];
    }
    if j == |s| - 1 {
      assert Follows(s[j - 1], s[j]);
      assert t[|t| - 1] == s[j - 1];
    } else {
      assert t[|t| - 1] == s[|s| - 1];
    }
  }

  lemma RemoveKeepsShape(digits: seq<nat>, s: seq<Token>, j: nat)
    requires WellShaped(digits, s)
    requires j < |s| && !s[j].Digit?
    requires s[j] == Close || Close !in s
    requires s[j].Op? ==> Open !in s
    ensures var t := s[..j] + s[j + 1..];
      WellShaped(digits, t) && GapValid(t, j, s[j]) && InsertAt(t, j, s[j]) == s
  {
    var t := s[..j] + s[j + 1..];
    var x := s[j];
    RemoveInsert(s, j);
    InsertAtKeepsDigits(t, j, x);
    InsertAtCount(t, j, x, Open);
    InsertAtCount(t, j, x, Close);
    RemoveKeepsEnds(digits, s, j);
    if 0 < j < |s| - 1 {
      assert Follows(s[j - 1], x) && Follows(x, s[j + 1]);
      if x.Op? {
        assert s[j - 1] != Close && s[j + 1] != Open;
      }
    }
    RemoveFollows(s, j);
    assert j > 0 ==> t[j - 1] == s[j - 1] && Follows(s[j - 1], x);
    assert j < |t| ==> t[j] == s[j + 1] && Follows(x, s[j + 1]);
    GapValidByAdjacency(t, j, x);
  }

  /** Which token to take out: a `)` if there is one, else a `(`, else an
      operator. */
  lemma RemovableIndex(s: seq<Token>) returns (j: nat)
    requires exists k :: 0 <= k < |s| && !s[k].Digit?
    ensures j < |s| && !s[j].Digit?
    ensures s[j] == Close || Close !in s
    ensures s[j].Op? ==> Open !in s
  {
    if Close in s {
      j :| j < |s| && s[j] == Close;
    } else if Open in s {
      j :| j < |s| && s[j] == Open;
    } else {
      j :| j < |s| && !s[j].Digit?;
    }
  }

  lemma PlayAppend(digits: seq<nat>, moves: seq<Move>, m: Move)
    ensures Play(digits, moves + [m]) == Step(Play(digits, moves), m)
  {
    assert (moves + [m])[..|moves|] == moves;
  }

  /** The converse of `PlayWellShaped`: every well-shaped sequence can be
      built from its digits, by the moves returned. Take out a `)` if there
      is one, else a `(`, else an operator; what is left is well-shaped and
      shorter, and one valid click puts the token back. */
  lemma {:induction false} WellShapedReachable(digits: seq<nat>, s: seq<Token>)
    returns (moves: seq<Move>)
    requires WellShaped(digits, s)
    ensures Play(digits, moves) == s
    decreases |s|
  {
    if forall k :: 0 <= k < |s| ==> s[k].Digit? {
      AllDigitsInitial(s);
      moves := [];
    } else {
      var j := RemovableIndex(s);
      var t := s[..j] + s[j + 1..];
      RemoveKeepsShape(digits, s, j);
      var earlier := WellShapedReachable(digits, t);
      moves := earlier + [Move(j, s[j])];
      PlayAppend(digits, earlier, Move(j, s[j]));
    }
  }

  /** The sequences the player can build from the puzzle digits are exactly
      the well-shaped ones. */
  lemma ReachableIffWellShaped(digits: seq<nat>, s: seq<Token>)
    requires |digits| > 0
    ensures (exists moves :: Play(digits, moves) == s) <==> WellShaped(digits, s)
  {
    if exists moves :: Play(digits, moves) == s {
      var moves :| Play(digits, moves) == s;
      PlayWellShaped(digits, moves);
    }
    if WellShaped(digits, s) {
      var moves := WellShapedReachable(digits, s);
    }
  }

  /** The `)` rule counts over the whole sequence, not over the tokens left
      of the gap: from the digits 1 2, the moves `+` at gap 1, `(` at gap 2
      and `)` at gap 1 build 1 ) + ( 2, whose first two tokens close a group
      that was never opened. */
  lemma CloseAcceptedBeforeItsOpen(digits: seq<nat>, moves: seq<Move>)
    requires digits == [1, 2]
    requires moves == [Move(1, Op(Add)), Move(2, Open), Move(1, Close)]
    ensures Play(digits, moves) == [Digit(1), Close, Op(Add), Open, Digit(2)]
    ensures Count(Play(digits, moves)[..2], Close) > Count(Play(digits, moves)[..2], Open)
  {
    var s2 := [Digit(1), Op(Add), Open, Digit(2)];
    var s3 := [Digit(1), Close, Op(Add), Open, Digit(2)];
    FirstTwoMoves(digits, moves[..2]);
    ThirdMove(s2);
    PlayExtends(digits, moves, s2, s3);
    OverClosedPrefix(s3);
  }

  lemma FirstTwoMoves(digits: seq<nat>, moves: seq<Move>)
    requires digits == [1, 2]
    requires moves == [Move(1, Op(Add)), Move(2, Open)]
    ensures Play(digits, moves) == [Digit(1), Op(Add), Open, Digit(2)]
  {
    var s0 := [Digit(1), Digit(2)];
    var s1 := [Digit(1), Op(Add), Digit(2)];
    var s2 := [Digit(1), Op(Add), Open, Digit(2)];
    FirstMove(digits);
    assert moves[..1][..0] == [];
    PlayExtends(digits, moves[..1], s0, s1);
    SecondMove(s1);
    PlayExtends(digits, moves, s1, s2);
  }

  lemma PlayExtends(digits: seq<nat>, moves: seq<Move>, s: seq<Token>, r: seq<Token>)
    requires moves != []
    requires Play(digits, moves[..|moves| - 1]) == s
    requires Step(s, moves[|moves| - 1]) == r
    ensures Play(digits, moves) == r
  {
  }

  lemma OverClosedPrefix(s: seq<Token>)
    requires s == [Digit(1), Close, Op(Add), Open, Digit(2)]
    ensures Count(s[..2], Close) == 1 && Count(s[..2], Open) == 0
  {
  }

  lemma FirstMove(digits: seq<nat>)
    requires digits == [1, 2]
    ensures Play(digits, []) == [Digit(1), Digit(2)]
    ensures Step(Play(digits, []), Move(1, Op(Add))) == [Digit(1), Op(Add), Digit(2)]
  {
    assert digits[..1] == [1] && digits[..1][..0] == [];
  }

  lemma SecondMove(s: seq<Token>)
    requires s == [Digit(1), Op(Add), Digit(2)]
    ensures Step(s, Move(2, Open)) == [Digit(1), Op(Add), Open, Digit(2)]
  {
  }

  lemma ThirdMove(s: seq<Token>)
    requires s == [Digit(1), Op(Add), Open, Digit(2)]
    ensures Step(s, Move(1, Close)) == [Digit(1), Close, Op(Add), Open, Digit(2)]
  {
    ThirdMoveValid(s);
    assert InsertAt(s, 1, Close) == s[..1] + [Close] + s[1..];
  }

  lemma ThirdMoveValid(s: seq<Token>)
    requires s == [Digit(1), Op(Add), Open, Digit(2)]
    ensures GapValid(s, 1, Close)
  {
    assert HasUnmatched(s) by {
      assert Open in s && Close !in s;
    }
  }
}
