/** The state of the puzzle component and its handlers.

    Each handler is one atomic state change: the component's separate state
    setters called by one handler are applied together. */
module Game {
  import opened Tokens
  import opened Gaps
  import opened Reachability

  /** What Evaluate shows: a number, or the text 'Invalid Expression'. */
  datatype Outcome = Number(value: real) | InvalidExpression

  /** Six digits, each from 1 to 9. */
  predicate PuzzleDigits(digits: seq<nat>)
  {
    |digits| == 6 && forall k :: 0 <= k < |digits| ==> 1 <= digits[k] <= 9
  }

  class Home {
    /** The puzzle digits, fixed for the life of the component. */
    const digits: seq<nat>
    var tokens: seq<Token>
    /** The symbol armed by an operator button, not yet placed. */
    var pendingOp: Option<Token>
    var result: Option<Outcome>
    var won: bool
    var showModal: bool

    /** The digits are a puzzle and the sequence is one the player can build
        from them by guarded clicks (`ReachableIffWellShaped`). */
    ghost predicate Valid()
      reads this
    {
      PuzzleDigits(digits) && WellShaped(digits, tokens)
    }

    constructor (digits: seq<nat>)
      requires PuzzleDigits(digits)
      ensures Valid()
      ensures this.digits == digits && tokens == InitialTokens(digits)
      ensures pendingOp == None && result == None && !won && !showModal
    {
      this.digits := digits;
      tokens := InitialTokens(digits);
      pendingOp := None;
      result := None;
      won := false;
      showModal := false;
      new;
      InitialWellShaped(digits);
    }

    /** Whether some `(` is still unmatched, counting over the whole sequence. */
    method HasUnmatchedLeft() returns (b: bool)
      ensures b == HasUnmatched(tokens)
    {
      var count := 0;
      for k := 0 to |tokens|
        invariant count == Count(tokens[..k], Open) - Count(tokens[..k], Close)
      {
        assert tokens[..k + 1][..k] == tokens[..k];
        if tokens[k] == Open {
          count := count + 1;
        }
        if tokens[k] == Close {
          count := count - 1;
        }
      }
      assert tokens[..|tokens|] == tokens;
      b := count > 0;
    }

    /** Places the pending symbol at gap `i` without checking the gap, then
        clears the pending symbol and the shown result. With nothing pending
        it does nothing. */
    method InsertAtGap(i: int)
      modifies this
      ensures old(pendingOp).None? ==>
        tokens == old(tokens) && pendingOp == old(pendingOp) && result == old(result)
      ensures old(pendingOp).Some? ==>
        tokens == InsertAt(old(tokens), i, old(pendingOp).value) &&
        pendingOp == None && result == None
      ensures won == old(won) && showModal == old(showModal)
    {
      if pendingOp.None? {
        return;
      }
      tokens := InsertAt(tokens, i, pendingOp.value);
      pendingOp := None;
      result := None;
    }

    /** An operator button arms its symbol; nothing else changes. */
    method HandleOperatorClick(op: Token)
      modifies this`pendingOp
      ensures pendingOp == Some(op)
    {
      pendingOp := Some(op);
    }

    /** A click on gap `i`: inserts only when a symbol is pending and the
        gap is valid for it, and keeps the sequence one the player can build. */
    method ClickGap(i: int)
      requires Valid()
      modifies this
      ensures Valid()
      ensures old(pendingOp).Some? ==>
        tokens == Step(old(tokens), Move(i, old(pendingOp).value))
      ensures old(pendingOp).Some? && GapValid(old(tokens), i, old(pendingOp).value) ==>
        |tokens| == |old(tokens)| + 1 && pendingOp == None && result == None
      ensures !(old(pendingOp).Some? && GapValid(old(tokens), i, old(pendingOp).value)) ==>
        tokens == old(tokens) && pendingOp == old(pendingOp) && result == old(result)
      ensures won == old(won) && showModal == old(showModal)
    {
      if pendingOp.Some? && GapValid(tokens, i, pendingOp.value) {
        StepKeepsWellShaped(digits, tokens, Move(i, pendingOp.value));
        InsertAtGap(i);
      }
    }

    /** Clear / Play Again: back to the puzzle digits with nothing pending,
        no result, not won and no modal. */
    method ResetGame()
      modifies this
      ensures tokens == InitialTokens(digits)
      ensures pendingOp == None && result == None && !won && !showModal
      ensures PuzzleDigits(digits) ==> Valid()
    {
      tokens := InitialTokens(digits);
      pendingOp := None;
      result := None;
      won := false;
      showModal := false;
      if PuzzleDigits(digits) {
        InitialWellShaped(digits);
      }
    }
  }
}
