/**
 * Window geometry: the 8x8 board of 60-pixel cells drawn with White at the
 * bottom, the strip of 40 pixels below it, and the buttons the game hit-tests.
 */
module Geometry {
  import opened Chess

  const SquareSize: int := 60
  const BoardSize: int := SquareSize * 8
  const WindowWidth: int := BoardSize
  const WindowHeight: int := BoardSize + 40

  /** An axis-aligned rectangle in window pixels. */
  datatype Rect = Rect(left: int, top: int, width: int, height: int)

  /** A point on the right or bottom edge is outside, as in pygame's `collidepoint`. */
  predicate Collides(r: Rect, x: int, y: int)
  {
    r.left <= x < r.left + r.width && r.top <= y < r.top + r.height
  }

  /** The small replay button in the strip under the board. */
  const ReplayButton: Rect := Rect(10, WindowWidth, 40, 40)

  /** The "Play Again" button drawn over a finished game. */
  const PlayAgainButton: Rect := Rect(WindowWidth / 2 - 100, WindowWidth / 2 + 70, 200, 60)

  /** Column of a square on screen, counted from the left. */
  function Col(s: Square): int
  {
    s % 8
  }

  /** Row of a square on screen, counted from the top: rank 8 is drawn first. */
  function Row(s: Square): int
  {
    7 - s / 8
  }

  /** The square under a click on the board; it is drawn in the cell the click hit. */
  function SquareAt(x: int, y: int): (s: Square)
    requires 0 <= x < BoardSize && 0 <= y < BoardSize
    ensures Col(s) == x / SquareSize && Row(s) == y / SquareSize
  {
    (7 - y / SquareSize) * 8 + x / SquareSize
  }

  /** Every pixel of the cell where square `s` is drawn maps back to `s`. */
  lemma CellRoundTrip(s: Square, dx: int, dy: int)
    requires 0 <= dx < SquareSize && 0 <= dy < SquareSize
    ensures 0 <= Col(s) * SquareSize + dx < BoardSize && 0 <= Row(s) * SquareSize + dy < BoardSize
    ensures SquareAt(Col(s) * SquareSize + dx, Row(s) * SquareSize + dy) == s
  {
    var x, y := Col(s) * SquareSize + dx, Row(s) * SquareSize + dy;
    assert x / SquareSize == Col(s);
    assert y / SquareSize == Row(s);
  }

  /** The replay button lies wholly below the board. */
  lemma ReplayButtonOffBoard(x: int, y: int)
    requires Collides(ReplayButton, x, y)
    ensures 0 <= x < WindowWidth && BoardSize <= y < WindowHeight
  {
  }

  /** The "Play Again" button lies wholly on the board. */
  lemma PlayAgainOnBoard(x: int, y: int)
    requires Collides(PlayAgainButton, x, y)
    ensures 0 <= x < BoardSize && 0 <= y < BoardSize
  {
  }
}
