# SimpleChess game session, modelled in Dafny

A model of the interaction state machine of `game.py`, a pygame chess board on
which a human plays White against the Stockfish engine playing Black at one of
three strengths. The model covers what happens to the game state when the
mouse is clicked and when the screen is redrawn: the start menu that picks a
level, the click-to-square arithmetic, selection of a White piece, the move
from the selected square, the engine's reply, the win tally counted at most
once per finished game, and the two ways of starting over.

Modules:

- `Chess` (chess.dfy): squares, moves, the board, and the queries the game
  makes of the python-chess library. A board is the starting position plus
  its stack of pushed moves, so `Push` appends and `Turn` is the parity of the
  stack. The generated list of legal moves, the membership test for a move,
  pieces, game-over detection and the result string are the fields of a
  `Rules` record. The list and the test are kept apart because python-chess
  answers them differently: its membership test also accepts a king moving
  onto its own rook as castling, a move the list names only by the king's
  destination square. `Lawful` holds the facts the game relies on:
  - every listed move passes the test;
  - no legal move has the same origin and destination;
  - a pawn move to the last rank is legal only with a promotion piece;
  - a finished game reads "1-0", "0-1" or "1/2-1/2".

  `MovesFrom` and `GetLegalMoves` are `get_legal_moves`.
- `Geometry` (geometry.dfy): the 60-pixel cells, the click-to-square formula
  and its inverse used for drawing, and the two replay buttons.
- `Difficulty` (difficulty.dfy): the `DIFFICULTY` table and the start menu.
- `Opponent` (opponent.dfy): the engine as an oracle `play(board, skill,
  depth)`. `Sound` says the move it names is legal whenever the game is not
  over. `ComputerReply` is `computer_move`.
- `Match` (match.dfy): the session state as a value and the transitions of a
  click (`Click`, `BoardClick`), a redraw (`Frame`, `TallyResult`) and
  `ResetGame`. It also defines runs of events and the invariant `Inv` that
  every reachable state satisfies. `Inv` covers the following:
  - a level is chosen whenever a game is under way;
  - the selection always holds a White piece;
  - `gameEnded` implies the board is over;
  - White is to move unless the game is over, so a human move is never made
    while the engine is to move.
- `Game` (game.dfy): class `Session`, the same state held in fields and
  updated in place by methods that follow the Python code branch for branch.
  `Click`, `BoardClick`, `ShowGameOver` and `Frame` ensure that the new state
  is the `Match` transition of the old one and that `Valid()` is kept.
  `ComputerMove` and `ResetGame` are steps inside them: `ComputerMove` ties
  the board to `ComputerReply`, and `ResetGame` states its three fields. Neither
  keeps `Valid()` on its own. The selection is cleared only after the reset,
  and the engine replies only after White's move.

Behaviour of the code that the model keeps:

- With a square selected, a click that is neither a legal move nor on a White
  piece keeps the selection (game.py:267-269 has no else branch), so a
  selection cannot be cancelled by clicking elsewhere.
- No check that White is to move guards the click handler. `Inv` shows none is
  needed, because the engine's reply always follows a human move before the
  next click.
- The move built from two clicks never names a promotion piece
  (game.py:262). No promotion piece can be chosen and none is defaulted. A
  pawn move to the last rank is legal only with a promotion piece, so such a
  click never moves the pawn (`NoPromotionByClick`).
- A click is accepted by the library's membership test (game.py:263), while
  the highlighted moves come from the generated list (game.py:117). Every
  highlighted move without a promotion piece is accepted
  (`HighlightedMoveIsAccepted`). A pawn's highlighted last-rank squares can
  never be clicked to (`NoPromotionByClick`). The test also accepts a king
  clicked onto its own rook, which castles, though that square is not
  highlighted.
- The "Play Again" rectangle is remembered once drawn and never cleared
  (game.py:231, 274, 285). In every later game, a click on the board where it
  was drawn starts over, after the click's own move (`StalePlayAgainResets`).
  The rectangle covers files c to f of ranks 2 and 3. A game that ends on
  such a click, by White's move or by the engine's reply, is never counted in
  the tally, because the reset comes before any redraw (`StaleClickLosesWin`).

## Model

| member | source | states |
|---|---|---|
| `Chess.PushFlipsTurn` | game.py:221 | every push hands the move to the other side |
| `Chess.MovesFrom` | game.py:116-117 | the kept moves are exactly the given moves whose origin is the square, never more than there were |
| `Chess.MovesFromAppend` | game.py:116-117 | the filter keeps the original order: filtering a concatenation concatenates the filtered parts |
| `Chess.MovesFromExtremes` | game.py:116-117 | a list whose moves all start on the square is kept whole; a list with none yields the empty list |
| `Chess.GetLegalMoves` | game.py:116-117 | a move is returned iff it is in the generated list of legal moves and starts on the square; the result is empty iff no legal move starts there |
| `Geometry.SquareAt` | game.py:257-259 | a board click maps to a square in 0..63 whose drawn column and row are `x // 60` and `y // 60` |
| `Geometry.CellRoundTrip` | game.py:127 | every pixel of the cell where a square is drawn maps back to that square |
| `Geometry.ReplayButtonOffBoard` | game.py:159 | the replay button under the board holds no board pixel |
| `Geometry.PlayAgainOnBoard` | game.py:206 | the "Play Again" button lies wholly on the board |
| `Difficulty.StrongerLevelSearchesHarder` | game.py:88-92 | one level ranks above another iff both its skill level and its depth are strictly higher |
| `Difficulty.MenuButtonsDisjoint` | game.py:99-111 | no point lies on two level buttons |
| `Difficulty.MenuChoice` | game.py:244-254 | a chosen level's button contains the click; no level is chosen iff no button contains it |
| `Opponent.ComputerReplyIsOneLegalMove` | game.py:220-224 | when the game is on and Black is to move, exactly one legal move is pushed, otherwise the board is unchanged; after Black's turn White is to move or the game is over |
| `Match.InitialInv` | game.py:77-85 | the program's initial state satisfies the session invariant |
| `Match.Step` | game.py:239-285 | no click or redraw leaves a game under way without a chosen level |
| `Match.Run` | game.py:235-288 | no sequence of events leaves a game under way without a chosen level |
| `Match.ClickWithoutSelection` | game.py:270-273 | with no selection, a click selects its square iff it holds a White piece, and changes nothing else |
| `Match.ClickCompletesLegalMove` | game.py:261-266 | a (selected, clicked) move that passes the membership test is made by White from a White piece, is pushed, clears the selection and is followed by the computer's reply |
| `Match.HighlightedMoveIsAccepted` | game.py:116-117 | clicking the destination of a highlighted move without a promotion piece makes that move |
| `Match.ClickWithIllegalMove` | game.py:267-269 | with an illegal pair the board is untouched and the selection moves to the square iff it holds a White piece, else stays |
| `Match.ReclickIsIdempotent` | game.py:261-273 | repeating a click that moved nothing changes nothing more; an own piece clicked twice stays selected |
| `Match.NoPromotionByClick` | game.py:262-263 | a selected pawn clicked onto the last rank is never moved, because the clicked move names no promotion piece |
| `Match.MenuClick` | game.py:244-254 | before a game starts, a click sets the level and starts the game iff it hits a level button, and otherwise changes nothing |
| `Match.ClickAfterGameOver` | game.py:256-276 | over a finished game, a click off both replay buttons changes nothing |
| `Match.ReplayButtonResets` | game.py:274-276 | a click on the replay button resets the game and clears the selection, keeping the tally and the level |
| `Match.StalePlayAgainResets` | game.py:274-276 | once drawn, the "Play Again" rectangle resets any later game clicked inside it, keeping the tally |
| `Match.StaleClickLosesWin` | game.py:274-276 | a game that ends on a click inside the stale "Play Again" rectangle is reset before the next redraw, which then leaves the tally unchanged |
| `Match.ClickBelowBoard` | game.py:257 | during a game, a click below the board that misses the replay button changes nothing |
| `Match.PlayAgainPersists` | game.py:285 | no event removes the "Play Again" rectangle once drawn |
| `Match.TallyResultOnce` | game.py:172-178 | a second game-over step changes nothing, whatever the result then reads |
| `Match.FrameIsIdempotent` | game.py:284-285 | redrawing a finished game again leaves the tally as the first redraw left it |
| `Match.MessageAgreesWithTally` | game.py:172-188 | the banner names White or Black iff that side is credited, says "Draw!" iff neither is, and is never "Game Over!" for a finished game |
| `Match.StepTally` | game.py:172-178 | no event lowers a count; the counts rise by at most one, and only on the event that marks the game ended |
| `Match.RunTally` | game.py:172-178 | over any run the counts never fall and rise by at most the number of games concluded in it |
| `Match.BoardClickInv` | game.py:256-273 | a board click in a game that is on keeps the session invariant |
| `Match.StepInv` | game.py:239-285 | every click and redraw keeps the session invariant |
| `Match.RunInv` | game.py:235-288 | every state reached by a run of events keeps the session invariant |
| `Match.HumanMovesAreWhite` | game.py:256-266 | in every reachable state, a move made by clicking is made with White to move, from a White piece |
| `Game.Session.constructor` | game.py:77-85 | a new session has a fresh board, no selection, zero wins, both flags false, no level and no "Play Again" rectangle |
| `Game.Session.ComputerMove` | game.py:220-224 | the board becomes the computer's reply with the level's settings; after Black's turn White is to move or the game is over |
| `Game.Session.BoardClick` | game.py:256-273 | selection and board change as `Match.BoardClick` says; the invariant is kept |
| `Game.Session.ResetGame` | game.py:214-218 | fresh board, `gameEnded` and `gameStarted` false, tally, level and selection untouched |
| `Game.Session.Click` | game.py:239-276 | the session changes as `Match.Click` says, the tally is untouched and the invariant is kept |
| `Game.Session.ShowGameOver` | game.py:169-188 | the winner is credited only on the first call of a game; the banner classifies the result string |
| `Game.Session.Frame` | game.py:278-285 | over a finished game the tally step runs and the "Play Again" rectangle is set; the invariant is kept |

## Left out

- Rendering: surfaces, fonts, colours, `draw_board` (including its highlight colours), `draw_score`, `draw_replay_button` and its hover effect, the overlay and the menu drawing. Only the rectangles that clicks are tested against are kept.
- Loading of piece images, the replay icon and the GIF, and the GIF animation timed by `pygame.time.get_ticks`: file I/O and wall-clock time.
- The Stockfish process: starting it, `configure` as engine state, the 0.1-second time limit and `quit`. The engine is an oracle that is assumed (`Sound`) to return a legal move whenever the game is on. An engine that fails or returns no move is not modelled.
- The rules of chess inside python-chess: move generation, check, mate and draw detection, and how the result string is formed. They appear only as the fields of `Chess.Rules`, with the facts in `Lawful`.
- The event loop itself: the QUIT event, `clock.tick(60)`, and the exception handler around `main`. Each mouse click is one `Click` call and each pass through the drawing code is one `Frame` call. `Match.Run` handles any sequence of them.
- Mouse positions are assumed to lie inside the 480x520 window, as pygame reports them.
