/**
 * The computer opponent. The search engine runs as a separate process; here
 * it is an oracle that, given a board and the search settings, names a move,
 * and `Sound` states that the move it names is legal whenever the game is on.
 */
module Opponent {
  import opened Chess
  import opened Difficulty

  datatype Engine = Engine(play: (Board, nat, nat) -> Move)

  ghost predicate Sound(r: Rules, e: Engine)
  {
    forall b: Board, skill: nat, depth: nat ::
      !r.isGameOver(b) ==> e.play(b, skill, depth) in r.legalMoves(b)
  }

  /** The board after the computer's turn: one engine move when the game is on and Black is to move. */
  function ComputerReply(r: Rules, e: Engine, b: Board, level: Level): Board
  {
    if !r.isGameOver(b) && Turn(b) == Black then
      Push(b, e.play(b, SettingsOf(level).skillLevel, SettingsOf(level).depth))
    else
      b
  }

  /**
   * The reply pushes exactly one legal move when the game is on and Black is
   * to move, and leaves the board alone otherwise; either way, if Black was to
   * move, afterwards White is to move or the game is over.
   */
  lemma ComputerReplyIsOneLegalMove(r: Rules, e: Engine, b: Board, level: Level)
    requires Sound(r, e)
    ensures var b' := ComputerReply(r, e, b, level);
      if !r.isGameOver(b) && Turn(b) == Black then
        && |b'.moveStack| == |b.moveStack| + 1
        && b'.moveStack[..|b.moveStack|] == b.moveStack
        && b'.moveStack[|b.moveStack|] in r.legalMoves(b)
      else
        b' == b
    ensures Turn(b) == Black ==> Turn(ComputerReply(r, e, b, level)) == White || r.isGameOver(ComputerReply(r, e, b, level))
  {
  }
}
