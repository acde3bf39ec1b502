/**
 * The game session as a value: the board, the selected square, the win
 * tally, the two flags, the chosen level and the "Play Again" button once it
 * has been drawn; and what a mouse click and a redraw do to it. The class in
 * module Game performs these same transitions in place.
 */
module Match {
  import opened Wrappers
  import opened Chess
  import opened Geometry
  import opened Difficulty
  import opened Opponent

  datatype GameState = GameState(
    board: Board,
    selected: Option<Square>,
    whiteWins: nat,
    blackWins: nat,
    gameEnded: bool,
    gameStarted: bool,
    difficulty: Option<Level>,
    replayRect: Option<Rect>)

  /** The state when the program starts: a fresh board, nothing chosen, no wins. */
  function Initial(): GameState
  {
    GameState(StartingBoard(), None, 0, 0, false, false, None, None)
  }

  /** A game is only ever under way with a level chosen. */
  predicate LevelChosen(s: GameState)
  {
    s.gameStarted ==> s.difficulty.Some?
  }

  /** What holds of every state the program reaches. */
  predicate Inv(r: Rules, s: GameState)
  {
    && LevelChosen(s)
    // the start menu is only ever shown over a fresh, unfinished game with nothing selected
    && (!s.gameStarted ==> s.board == StartingBoard() && s.selected.None? && !s.gameEnded)
    // the selected square holds one of the player's own pieces
    && (s.selected.Some? ==> HoldsWhitePiece(r, s.board, s.selected.value))
    // a game is marked as ended only once its board is over
    && (s.gameEnded ==> r.isGameOver(s.board))
    // no human input is ever awaited while the computer is to move
    && (Turn(s.board) == White || r.isGameOver(s.board))
    && (s.replayRect.Some? ==> s.replayRect.value == PlayAgainButton)
  }

  lemma InitialInv(r: Rules)
    ensures Inv(r, Initial())
  {
  }

  /**
   * A click on board square `sq` while the game is on: with a selection, the
   * move from it to `sq` is pushed if legal (no promotion piece is given) and
   * the computer replies; otherwise, and without a selection, `sq` becomes
   * the selection if it holds a White piece. In every other case nothing changes.
   */
  function BoardClick(r: Rules, e: Engine, s: GameState, sq: Square): GameState
    requires s.difficulty.Some?
  {
    if s.selected.Some? then
      var move := Move(s.selected.value, sq, None);
      if r.isLegal(s.board, move) then
        s.(board := ComputerReply(r, e, Push(s.board, move), s.difficulty.value), selected := None)
      else if HoldsWhitePiece(r, s.board, sq) then
        s.(selected := Some(sq))
      else
        s
    else if HoldsWhitePiece(r, s.board, sq) then
      s.(selected := Some(sq))
    else
      s
  }

  /** A fresh board, and both flags cleared; the tally, the level and the selection are left alone. */
  function ResetGame(s: GameState): GameState
  {
    s.(board := StartingBoard(), gameEnded := false, gameStarted := false)
  }

  /** A mouse click at window pixel (x, y). */
  function Click(r: Rules, e: Engine, s: GameState, x: int, y: int): GameState
    requires 0 <= x < WindowWidth && 0 <= y < WindowHeight
    requires LevelChosen(s)
  {
    if !s.gameStarted then
      match MenuChoice(x, y)
      case Some(level) => s.(difficulty := Some(level), gameStarted := true)
      case None => s
    else
      var moved := if !r.isGameOver(s.board) && y < BoardSize then BoardClick(r, e, s, SquareAt(x, y)) else s;
      if (moved.replayRect.Some? && Collides(moved.replayRect.value, x, y)) || Collides(ReplayButton, x, y) then
        ResetGame(moved).(selected := None)
      else
        moved
  }

  /** The win tally, counted once per game: only the first call after the game ends credits the winner. */
  function TallyResult(s: GameState, result: string): GameState
  {
    if !s.gameEnded then
      s.(whiteWins := if result == "1-0" then s.whiteWins + 1 else s.whiteWins,
         blackWins := if result == "0-1" then s.blackWins + 1 else s.blackWins,
         gameEnded := true)
    else
      s
  }

  /** The banner shown over a finished game. */
  function Message(result: string): string
  {
    if result == "1-0" then "White Won!"
    else if result == "0-1" then "Black Won!"
    else if result == "1/2-1/2" then "Draw!"
    else "Game Over!"
  }

  /** One redraw: over a finished game the tally is updated and the "Play Again" button appears. */
  function Frame(r: Rules, s: GameState): GameState
  {
    if s.gameStarted && r.isGameOver(s.board) then
      TallyResult(s, r.result(s.board)).(replayRect := Some(PlayAgainButton))
    else
      s
  }

  datatype Event = MouseDown(x: int, y: int) | Redraw

  predicate InWindow(ev: Event)
  {
    ev.MouseDown? ==> 0 <= ev.x < WindowWidth && 0 <= ev.y < WindowHeight
  }

  function Step(r: Rules, e: Engine, s: GameState, ev: Event): (s': GameState)
    requires InWindow(ev) && LevelChosen(s)
    ensures LevelChosen(s')
  {
    match ev
    case MouseDown(x, y) => Click(r, e, s, x, y)
    case Redraw => Frame(r, s)
  }

  /** The state after the events `evs`, handled in order. */
  function Run(r: Rules, e: Engine, s: GameState, evs: seq<Event>): (s': GameState)
    requires LevelChosen(s) && forall i :: 0 <= i < |evs| ==> InWindow(evs[i])
    ensures LevelChosen(s')
    decreases |evs|
  {
    if evs == [] then s else Run(r, e, Step(r, e, s, evs[0]), evs[1..])
  }

  /** How many of the events `evs` mark a game as ended. */
  function GamesConcluded(r: Rules, e: Engine, s: GameState, evs: seq<Event>): nat
    requires LevelChosen(s) && forall i :: 0 <= i < |evs| ==> InWindow(evs[i])
    decreases |evs|
  {
    if evs == [] then 0
    else
      var s' := Step(r, e, s, evs[0]);
      (if !s.gameEnded && s'.gameEnded then 1 else 0) + GamesConcluded(r, e, s', evs[1..])
  }

  // ----- selection -----

  /** With nothing selected, a click selects its square if it holds a White piece; otherwise nothing changes. */
  lemma ClickWithoutSelection(r: Rules, e: Engine, s: GameState, sq: Square)
    requires s.difficulty.Some? && s.selected.None?
    ensures BoardClick(r, e, s, sq) == if HoldsWhitePiece(r, s.board, sq) then s.(selected := Some(sq)) else s
  {
  }

  /**
   * With a selection from which a move to the clicked square is legal, that
   * move is pushed first, from a White piece while White is to move; the
   * selection is cleared; then the computer replies.
   */
  lemma ClickCompletesLegalMove(r: Rules, e: Engine, s: GameState, sq: Square)
    requires Inv(r, s) && s.gameStarted && !r.isGameOver(s.board)
    requires s.selected.Some? && r.isLegal(s.board, Move(s.selected.value, sq, None))
    ensures var move := Move(s.selected.value, sq, None);
      && Turn(s.board) == White
      && HoldsWhitePiece(r, s.board, move.from)
      && BoardClick(r, e, s, sq) ==
         s.(board := ComputerReply(r, e, Push(s.board, move), s.difficulty.value), selected := None)
  {
  }

  /**
   * Clicking the destination of a highlighted move without a promotion piece
   * makes that move. The converse does not hold: a click can also make a move
   * that is not highlighted (a king onto its own rook, as castling).
   */
  lemma HighlightedMoveIsAccepted(r: Rules, e: Engine, s: GameState, m: Move)
    requires Lawful(r) && s.difficulty.Some? && s.selected.Some?
    requires m in GetLegalMoves(r, s.board, s.selected.value) && m.promotion.None?
    ensures BoardClick(r, e, s, m.to) ==
      s.(board := ComputerReply(r, e, Push(s.board, m), s.difficulty.value), selected := None)
  {
    assert m == Move(s.selected.value, m.to, None);
  }

  /**
   * With a selection and no legal move to the clicked square, the board is
   * untouched; the selection moves to the square if it holds a White piece and
   * stays where it was otherwise.
   */
  lemma ClickWithIllegalMove(r: Rules, e: Engine, s: GameState, sq: Square)
    requires s.difficulty.Some? && s.selected.Some?
    requires !r.isLegal(s.board, Move(s.selected.value, sq, None))
    ensures BoardClick(r, e, s, sq) ==
      if HoldsWhitePiece(r, s.board, sq) then s.(selected := Some(sq)) else s
  {
  }

  /** A click that pushes no move, repeated, changes nothing more: clicking an own piece twice keeps it selected. */
  lemma ReclickIsIdempotent(r: Rules, e: Engine, s: GameState, sq: Square)
    requires Lawful(r) && s.difficulty.Some?
    requires BoardClick(r, e, s, sq).board == s.board
    ensures BoardClick(r, e, BoardClick(r, e, s, sq), sq) == BoardClick(r, e, s, sq)
  {
    var s1 := BoardClick(r, e, s, sq);
    if s1.selected == Some(sq) {
      assert !r.isLegal(s1.board, Move(sq, sq, None));
    }
  }

  /**
   * A click builds its move without a promotion piece, so a selected pawn
   * clicked onto the last rank is never moved: a pawn cannot promote.
   */
  lemma NoPromotionByClick(r: Rules, e: Engine, s: GameState, sq: Square)
    requires Lawful(r) && s.difficulty.Some? && s.selected.Some?
    requires r.pieceAt(s.board, s.selected.value).Some? && r.pieceAt(s.board, s.selected.value).value.kind == Pawn
    requires OnLastRank(sq)
    ensures BoardClick(r, e, s, sq).board == s.board
  {
    assert !r.isLegal(s.board, Move(s.selected.value, sq, None));
  }

  // ----- the whole click handler -----

  /** Before a game is under way, a click only picks the level whose menu button it hits. */
  lemma MenuClick(r: Rules, e: Engine, s: GameState, x: int, y: int)
    requires 0 <= x < WindowWidth && 0 <= y < WindowHeight
    requires LevelChosen(s) && !s.gameStarted
    ensures var s' := Click(r, e, s, x, y);
      if MenuChoice(x, y).Some? then s' == s.(difficulty := MenuChoice(x, y), gameStarted := true) else s' == s
  {
  }

  /** Once the game is over, a click anywhere but on a replay button changes nothing. */
  lemma ClickAfterGameOver(r: Rules, e: Engine, s: GameState, x: int, y: int)
    requires 0 <= x < WindowWidth && 0 <= y < WindowHeight
    requires LevelChosen(s) && s.gameStarted && r.isGameOver(s.board)
    requires !Collides(ReplayButton, x, y) && (s.replayRect.Some? ==> !Collides(s.replayRect.value, x, y))
    ensures Click(r, e, s, x, y) == s
  {
  }

  /** A click on the replay button under the board starts over: fresh board, no selection, back to the menu, tally kept. */
  lemma ReplayButtonResets(r: Rules, e: Engine, s: GameState, x: int, y: int)
    requires LevelChosen(s) && s.gameStarted && Collides(ReplayButton, x, y)
    ensures Click(r, e, s, x, y) == ResetGame(s).(selected := None)
  {
  }

  /**
   * Once a game has ended, its "Play Again" button is never removed, so in a
   * later game a click on the board where it was drawn also starts over, after
   * whatever move the click made; the tally is kept.
   */
  lemma StalePlayAgainResets(r: Rules, e: Engine, s: GameState, x: int, y: int)
    requires LevelChosen(s) && s.gameStarted
    requires s.replayRect == Some(PlayAgainButton) && Collides(PlayAgainButton, x, y)
    ensures
      var s' := Click(r, e, s, x, y);
      && s'.board == StartingBoard() && s'.selected.None? && !s'.gameEnded && !s'.gameStarted
      && s'.whiteWins == s.whiteWins && s'.blackWins == s.blackWins
  {
  }

  /**
   * A game that ends on a click inside the stale "Play Again" rectangle is
   * never counted: the same click resets the game before any redraw can run
   * the game-over step, so the next redraw finds a fresh board and leaves the
   * tally as it was.
   */
  lemma StaleClickLosesWin(r: Rules, e: Engine, s: GameState, x: int, y: int)
    requires LevelChosen(s) && s.gameStarted
    requires s.replayRect == Some(PlayAgainButton) && Collides(PlayAgainButton, x, y)
    ensures var s' := Frame(r, Click(r, e, s, x, y));
      && s'.board == StartingBoard() && !s'.gameEnded
      && s'.whiteWins == s.whiteWins && s'.blackWins == s.blackWins
  {
  }

  /** During a game, a click below the board that misses the replay button changes nothing. */
  lemma ClickBelowBoard(r: Rules, e: Engine, s: GameState, x: int, y: int)
    requires 0 <= x < WindowWidth && BoardSize <= y < WindowHeight
    requires Inv(r, s) && s.gameStarted && !Collides(ReplayButton, x, y)
    ensures Click(r, e, s, x, y) == s
  {
    if s.replayRect.Some? && Collides(s.replayRect.value, x, y) {
      PlayAgainOnBoard(x, y);
    }
  }

  /** No event takes the "Play Again" button away once it has been drawn. */
  lemma PlayAgainPersists(r: Rules, e: Engine, s: GameState, ev: Event)
    requires InWindow(ev) && LevelChosen(s) && s.replayRect.Some?
    ensures Step(r, e, s, ev).replayRect.Some?
  {
  }

  // ----- tally -----

  /** Calling the game-over step again, whatever the result then reads, changes nothing. */
  lemma TallyResultOnce(s: GameState, result: string, later: string)
    ensures TallyResult(TallyResult(s, result), later) == TallyResult(s, result)
  {
  }

  /** Redrawing a finished game again leaves the tally as the first redraw left it. */
  lemma FrameIsIdempotent(r: Rules, s: GameState)
    ensures Frame(r, Frame(r, s)) == Frame(r, s)
  {
  }

  /** The banner names the side the tally credits, and over a finished game it never falls back to "Game Over!". */
  lemma MessageAgreesWithTally(r: Rules, s: GameState)
    requires Lawful(r) && r.isGameOver(s.board) && !s.gameEnded
    ensures var t := TallyResult(s, r.result(s.board)); var msg := Message(r.result(s.board));
      && (t.whiteWins == s.whiteWins + 1 <==> msg == "White Won!")
      && (t.blackWins == s.blackWins + 1 <==> msg == "Black Won!")
      && (t.whiteWins + t.blackWins == s.whiteWins + s.blackWins <==> msg == "Draw!")
      && msg != "Game Over!"
  {
  }

  /** No event lowers a count; a count goes up by one at most, and only on the event that ends the game. */
  lemma StepTally(r: Rules, e: Engine, s: GameState, ev: Event)
    requires InWindow(ev) && LevelChosen(s)
    ensures var s' := Step(r, e, s, ev);
      && s.whiteWins <= s'.whiteWins && s.blackWins <= s'.blackWins
      && s'.whiteWins + s'.blackWins <= s.whiteWins + s.blackWins + (if !s.gameEnded && s'.gameEnded then 1 else 0)
  {
  }

  /** Over any run of events, the counts never go down and grow by at most one per game concluded. */
  lemma {:induction false} RunTally(r: Rules, e: Engine, s: GameState, evs: seq<Event>)
    requires LevelChosen(s) && forall i :: 0 <= i < |evs| ==> InWindow(evs[i])
    ensures var s' := Run(r, e, s, evs);
      && s.whiteWins <= s'.whiteWins && s.blackWins <= s'.blackWins
      && s'.whiteWins + s'.blackWins <= s.whiteWins + s.blackWins + GamesConcluded(r, e, s, evs)
    decreases |evs|
  {
    if evs != [] {
      StepTally(r, e, s, evs[0]);
      RunTally(r, e, Step(r, e, s, evs[0]), evs[1..]);
    }
  }

  // ----- the invariant -----

  lemma BoardClickInv(r: Rules, e: Engine, s: GameState, sq: Square)
    requires Lawful(r) && Sound(r, e) && Inv(r, s) && s.gameStarted && !r.isGameOver(s.board)
    ensures Inv(r, BoardClick(r, e, s, sq))
  {
    if s.selected.Some? {
      var move := Move(s.selected.value, sq, None);
      if r.isLegal(s.board, move) {
        var pushed := Push(s.board, move);
        PushFlipsTurn(s.board, move);
        ComputerReplyIsOneLegalMove(r, e, pushed, s.difficulty.value);
      }
    }
  }

  lemma StepInv(r: Rules, e: Engine, s: GameState, ev: Event)
    requires Lawful(r) && Sound(r, e) && Inv(r, s) && InWindow(ev)
    ensures Inv(r, Step(r, e, s, ev))
  {
    match ev
    case MouseDown(x, y) =>
      if s.gameStarted && !r.isGameOver(s.board) && y < BoardSize {
        BoardClickInv(r, e, s, SquareAt(x, y));
      }
    case Redraw =>
  }

  /** Every state reached from one that satisfies the invariant satisfies it too. */
  lemma {:induction false} RunInv(r: Rules, e: Engine, s: GameState, evs: seq<Event>)
    requires Lawful(r) && Sound(r, e) && Inv(r, s) && forall i :: 0 <= i < |evs| ==> InWindow(evs[i])
    ensures Inv(r, Run(r, e, s, evs))
    decreases |evs|
  {
    if evs != [] {
      StepInv(r, e, s, evs[0]);
      RunInv(r, e, Step(r, e, s, evs[0]), evs[1..]);
    }
  }

  /** In every reachable state, a move made by clicking is made by White, from a White piece. */
  lemma {:induction false} HumanMovesAreWhite(r: Rules, e: Engine, evs: seq<Event>, sq: Square)
    requires Lawful(r) && Sound(r, e) && forall i :: 0 <= i < |evs| ==> InWindow(evs[i])
    ensures var s := Run(r, e, Initial(), evs);
      s.gameStarted && !r.isGameOver(s.board) && s.selected.Some? && r.isLegal(s.board, Move(s.selected.value, sq, None))
      ==> Turn(s.board) == White && HoldsWhitePiece(r, s.board, s.selected.value)
  {
    RunInv(r, e, Initial(), evs);
  }
}
