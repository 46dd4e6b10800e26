/**
 * The state of the pairwise-reduction game and its transition rule
 * (class GameState in main.cpp).
 *
 * A move picks two adjacent tokens, replaces them by a single token that
 * depends on their sum, adjusts one score and hands the turn over.
 */
module GameStates {

  /** A snapshot of the game: the tokens left, both scores and whose move is next. */
  datatype GameState = GameState(
    sequence: seq<int>,
    player1Score: int,
    player2Score: int,
    isPlayer1Turn: bool)
  {
    /** The game is over when exactly one token is left. */
    predicate IsTerminal() {
      |sequence| == 1
    }

    /** The score of player 1 when `player1` holds, of player 2 otherwise. */
    function ScoreOf(player1: bool): int {
      if player1 then player1Score else player2Score
    }

    /** 1 or 2 for the player ahead in a finished game; 0 for a draw or a game still running. */
    function Winner(): (w: int)
      ensures w == 1 <==> IsTerminal() && player1Score > player2Score
      ensures w == 2 <==> IsTerminal() && player2Score > player1Score
      ensures w == 0 <==> !IsTerminal() || player1Score == player2Score
    {
      if !IsTerminal() then 0
      else if player1Score > player2Score then 1
      else if player2Score > player1Score then 2
      else 0
    }

    /** Field-by-field comparison; it is exactly datatype equality, the key equality of the state cache. */
    predicate Equals(other: GameState)
      ensures Equals(other) <==> this == other
    {
      && sequence == other.sequence
      && player1Score == other.player1Score
      && player2Score == other.player2Score
      && isPlayer1Turn == other.isPlayer1Turn
    }
  }

  /** The token that replaces a pair of tokens whose sum is `sum`. */
  function ReplacementToken(sum: int): (t: int)
    ensures 1 <= t <= 3
    ensures t == 1 <==> sum > 7
    ensures t == 2 <==> sum == 7
    ensures t == 3 <==> sum < 7
  {
    if sum > 7 then 1 else if sum < 7 then 3 else 2
  }

  /**
   * The state reached by reducing the pair at positions `i` and `i + 1`:
   * a sum above 7 gives the mover 2 points, a sum of exactly 7 costs the
   * mover 1 point, a sum below 7 costs the opponent 1 point.
   */
  function Successor(s: GameState, i: nat): (r: GameState)
    requires i + 1 < |s.sequence|
    ensures |r.sequence| == |s.sequence| - 1
    ensures forall k :: 0 <= k < i ==> r.sequence[k] == s.sequence[k]
    ensures r.sequence[i] == ReplacementToken(s.sequence[i] + s.sequence[i + 1])
    ensures forall k :: i < k < |r.sequence| ==> r.sequence[k] == s.sequence[k + 1]
    ensures r.isPlayer1Turn == !s.isPlayer1Turn
    ensures var sum, mover := s.sequence[i] + s.sequence[i + 1], s.isPlayer1Turn;
      && (sum > 7 ==> r.ScoreOf(mover) == s.ScoreOf(mover) + 2 && r.ScoreOf(!mover) == s.ScoreOf(!mover))
      && (sum == 7 ==> r.ScoreOf(mover) == s.ScoreOf(mover) - 1 && r.ScoreOf(!mover) == s.ScoreOf(!mover))
      && (sum < 7 ==> r.ScoreOf(mover) == s.ScoreOf(mover) && r.ScoreOf(!mover) == s.ScoreOf(!mover) - 1)
  {
    var sum := s.sequence[i] + s.sequence[i + 1];
    var newSequence := s.sequence[..i] + [ReplacementToken(sum)] + s.sequence[i + 2..];
    var p1, p2 := s.player1Score, s.player2Score;
    if sum > 7 then
      (if s.isPlayer1Turn then GameState(newSequence, p1 + 2, p2, false)
       else GameState(newSequence, p1, p2 + 2, true))
    else if sum < 7 then
      (if s.isPlayer1Turn then GameState(newSequence, p1, p2 - 1, false)
       else GameState(newSequence, p1 - 1, p2, true))
    else
      (if s.isPlayer1Turn then GameState(newSequence, p1 - 1, p2, false)
       else GameState(newSequence, p1, p2 - 1, true))
  }

  /**
   * All states one move away, ordered by the index of the reduced pair.
   * On an empty sequence the source asks for a capacity of size() - 1,
   * which wraps around and throws, so a state must hold at least one token.
   */
  function NextStates(s: GameState): (r: seq<GameState>)
    requires s.sequence != []
    ensures |r| == |s.sequence| - 1
    ensures r == [] <==> s.IsTerminal()
    ensures forall i :: 0 <= i < |r| ==> r[i] == Successor(s, i)
    ensures forall i :: 0 <= i < |r| ==> |r[i].sequence| == |s.sequence| - 1
  {
    seq(|s.sequence| - 1, i requires 0 <= i < |s.sequence| - 1 => Successor(s, i))
  }

  /** Erasing the pair at `i` and then inserting `t` at `i` replaces the pair by `t`. */
  lemma EraseThenInsert(xs: seq<int>, i: nat, t: int)
    requires i + 1 < |xs|
    ensures var erased := xs[..i] + xs[i + 2..];
      erased[..i] + [t] + erased[i..] == xs[..i] + [t] + xs[i + 2..]
  {
    var erased := xs[..i] + xs[i + 2..];
    assert erased[..i] == xs[..i];
    assert erased[i..] == xs[i + 2..];
  }

  /**
   * generateNextStates: copies the sequence for every pair index, erases
   * the pair, inserts the replacement token and appends the new state.
   */
  method GenerateNextStates(s: GameState) returns (nextStates: seq<GameState>)
    requires s.sequence != []
    ensures nextStates == NextStates(s)
  {
    nextStates := [];
    var i := 0;
    while i < |s.sequence| - 1
      invariant 0 <= i <= |s.sequence| - 1
      invariant nextStates == NextStates(s)[..i]
    {
      var sum := s.sequence[i] + s.sequence[i + 1];
      var newSequence := s.sequence;
      newSequence := newSequence[..i] + newSequence[i + 2..];
      var newP1, newP2 := s.player1Score, s.player2Score;
      var token;
      if sum > 7 {
        token := 1;
        if s.isPlayer1Turn { newP1 := newP1 + 2; } else { newP2 := newP2 + 2; }
      } else if sum < 7 {
        token := 3;
        if s.isPlayer1Turn { newP2 := newP2 - 1; } else { newP1 := newP1 - 1; }
      } else {
        token := 2;
        if s.isPlayer1Turn { newP1 := newP1 - 1; } else { newP2 := newP2 - 1; }
      }
      EraseThenInsert(s.sequence, i, token);
      newSequence := newSequence[..i] + [token] + newSequence[i..];
      nextStates := nextStates + [GameState(newSequence, newP1, newP2, !s.isPlayer1Turn)];
      i := i + 1;
    }
  }
}
