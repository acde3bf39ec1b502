/**
 * The running game: one object holding the session state that the program
 * keeps in globals and in the locals of its event loop, with one method per
 * piece of code that changes it. Each method performs in place the transition
 * of the same name in module Match and keeps its invariant.
 */
module Game {
  import opened Wrappers
  import opened Chess
  import opened Geometry
  import opened Difficulty
  import opened Opponent
  import Match

  class Session {
    const rules: Rules
    const engine: Engine
    var board: Board
    var selected: Option<Square>
    var whiteWins: nat
    var blackWins: nat
    var gameEnded: bool
    var gameStarted: bool
    var difficulty: Option<Level>
    var replayRect: Option<Rect>

    ghost function State(): Match.GameState
      reads this
    {
      Match.GameState(board, selected, whiteWins, blackWins, gameEnded, gameStarted, difficulty, replayRect)
    }

    ghost predicate Valid()
      reads this
    {
      Lawful(rules) && Sound(rules, engine) && Match.Inv(rules, State())
    }

    constructor (rules: Rules, engine: Engine)
      requires Lawful(rules) && Sound(rules, engine)
      ensures Valid() && State() == Match.Initial()
      ensures this.rules == rules && this.engine == engine
    {
      this.rules := rules;
      this.engine := engine;
      board := StartingBoard();
      selected := None;
      whiteWins, blackWins := 0, 0;
      gameEnded, gameStarted := false, false;
      difficulty := None;
      replayRect := None;
    }

    /** The engine's move for Black, searched with the settings of `level`, if the game is on and Black is to move. */
    method ComputerMove(level: Level)
      requires Sound(rules, engine)
      modifies this`board
      ensures board == ComputerReply(rules, engine, old(board), level)
      ensures old(Turn(board)) == Black ==> Turn(board) == White || rules.isGameOver(board)
    {
      if !rules.isGameOver(board) && Turn(board) == Black {
        var settings := SettingsOf(level);
        var move := engine.play(board, settings.skillLevel, settings.depth);
        board := Push(board, move);
      }
      ComputerReplyIsOneLegalMove(rules, engine, old(board), level);
    }

    /** A click on board square `square` while the game is on. */
    method BoardClick(square: Square)
      requires Valid() && gameStarted && !rules.isGameOver(board)
      modifies this`board, this`selected
      ensures Valid()
      ensures State() == Match.BoardClick(rules, engine, old(State()), square)
    {
      Match.BoardClickInv(rules, engine, State(), square);
      if selected.Some? {
        var move := Move(selected.value, square, None);
        if rules.isLegal(board, move) {
          board := Push(board, move);
          selected := None;
          ComputerMove(difficulty.value);
        } else if HoldsWhitePiece(rules, board, square) {
          selected := Some(square);
        }
      } else {
        if HoldsWhitePiece(rules, board, square) {
          selected := Some(square);
        }
      }
    }

    /** A fresh board and both flags cleared; the tally, the level and the selection are untouched. */
    method ResetGame()
      modifies this`board, this`gameEnded, this`gameStarted
      ensures board == StartingBoard() && !gameEnded && !gameStarted
    {
      board := StartingBoard();
      gameEnded := false;
      gameStarted := false;
    }

    /** A mouse click at window pixel (x, y). */
    method Click(x: int, y: int)
      requires Valid()
      requires 0 <= x < WindowWidth && 0 <= y < WindowHeight
      modifies this
      ensures Valid()
      ensures State() == Match.Click(rules, engine, old(State()), x, y)
      ensures whiteWins == old(whiteWins) && blackWins == old(blackWins)
    {
      if !gameStarted {
        if Collides(ButtonOf(Easy), x, y) {
          difficulty := Some(Easy);
          gameStarted := true;
        } else if Collides(ButtonOf(Normal), x, y) {
          difficulty := Some(Normal);
          gameStarted := true;
        } else if Collides(ButtonOf(Hard), x, y) {
          difficulty := Some(Hard);
          gameStarted := true;
        }
      } else {
        if !rules.isGameOver(board) {
          if y < BoardSize {
            var square := SquareAt(x, y);
            BoardClick(square);
          }
        }
        if (replayRect.Some? && Collides(replayRect.value, x, y)) || Collides(ReplayButton, x, y) {
          ResetGame();
          selected := None;
        }
      }
    }

    /** Credits the winner once per game and returns the banner for the result. */
    method ShowGameOver() returns (message: string)
      requires Valid() && gameStarted && rules.isGameOver(board)
      modifies this`whiteWins, this`blackWins, this`gameEnded
      ensures Valid()
      ensures State() == Match.TallyResult(old(State()), rules.result(board))
      ensures message == Match.Message(rules.result(board))
    {
      if !gameEnded {
        var result := rules.result(board);
        if result == "1-0" {
          whiteWins := whiteWins + 1;
        } else if result == "0-1" {
          blackWins := blackWins + 1;
        }
        gameEnded := true;
      }
      var result := rules.result(board);
      if result == "1-0" {
        message := "White Won!";
      } else if result == "0-1" {
        message := "Black Won!";
      } else if result == "1/2-1/2" {
        message := "Draw!";
      } else {
        message := "Game Over!";
      }
    }

    /** One redraw: over a finished game, the game-over step runs and the "Play Again" button is kept. */
    method Frame()
      requires Valid()
      modifies this`whiteWins, this`blackWins, this`gameEnded, this`replayRect
      ensures Valid()
      ensures State() == Match.Frame(rules, old(State()))
    {
      if gameStarted {
        if rules.isGameOver(board) {
          var _ := ShowGameOver();
          replayRect := Some(PlayAgainButton);
        }
      }
    }
  }
}
