/**
 * The chess rules library, seen from the game: squares, moves, the board as
 * the stack of moves pushed on the starting position, and the queries the
 * game asks of the library. The library's rules themselves are not modelled:
 * they are the fields of a `Rules` record, and `Lawful` lists the few facts
 * about them that the game relies on.
 */
module Chess {
  import opened Wrappers

  datatype Color = White | Black

  datatype PieceKind = Pawn | Knight | Bishop | Rook | Queen | King

  datatype Piece = Piece(kind: PieceKind, color: Color)

  /** a1 = 0, b1 = 1, ..., h8 = 63: rank * 8 + file. */
  type Square = s: int | 0 <= s < 64

  /** A move carries a promotion piece only when a pawn reaches the last rank. */
  datatype Move = Move(from: Square, to: Square, promotion: Option<PieceKind>)

  /** A board is the standard starting position with `moveStack` pushed on it, in order. */
  datatype Board = Board(moveStack: seq<Move>)

  function StartingBoard(): Board
  {
    Board([])
  }

  function Push(b: Board, m: Move): Board
  {
    Board(b.moveStack + [m])
  }

  /** White moves first and every push hands the move to the other side. */
  function Turn(b: Board): Color
  {
    if |b.moveStack| % 2 == 0 then White else Black
  }

  lemma PushFlipsTurn(b: Board, m: Move)
    ensures Turn(Push(b, m)) != Turn(b)
  {
  }

  /**
   * The queries the game makes of the rules library. `legalMoves` is the
   * generated list of legal moves, the one the game iterates over; `isLegal`
   * is the library's membership test, which the game uses to accept a click.
   * The two differ: the test also accepts a king move onto its own rook as
   * castling, a move the list names only by the king's destination.
   */
  datatype Rules = Rules(
    legalMoves: Board -> seq<Move>,
    isLegal: (Board, Move) -> bool,
    pieceAt: (Board, Square) -> Option<Piece>,
    isGameOver: Board -> bool,
    result: Board -> string)

  /** Rank 1 or rank 8, where a pawn must promote. */
  predicate OnLastRank(sq: Square)
  {
    sq / 8 == 0 || sq / 8 == 7
  }

  /** The facts about the rules library that the game depends on. */
  ghost predicate Lawful(r: Rules)
  {
    // every generated move passes the membership test
    && (forall b: Board, m: Move :: m in r.legalMoves(b) ==> r.isLegal(b, m))
    // no legal move leaves its piece where it stands
    && (forall b: Board, m: Move :: r.isLegal(b, m) ==> m.from != m.to)
    // a pawn move to the last rank is legal only if it names a promotion piece
    && (forall b: Board, m: Move ::
          r.isLegal(b, m) && r.pieceAt(b, m.from).Some? && r.pieceAt(b, m.from).value.kind == Pawn && OnLastRank(m.to)
          ==> m.promotion.Some?)
    // a finished game has a decisive or drawn result
    && (forall b: Board :: r.isGameOver(b) ==> r.result(b) in ["1-0", "0-1", "1/2-1/2"])
  }

  predicate HoldsWhitePiece(r: Rules, b: Board, sq: Square)
  {
    r.pieceAt(b, sq).Some? && r.pieceAt(b, sq).value.color == White
  }

  /** The moves of `moves` that start on `sq`, in their original order. */
  function MovesFrom(moves: seq<Move>, sq: Square): (r: seq<Move>)
    ensures forall m :: m in r <==> m in moves && m.from == sq
    ensures |r| <= |moves|
  {
    if moves == [] then []
    else if moves[0].from == sq then [moves[0]] + MovesFrom(moves[1..], sq)
    else MovesFrom(moves[1..], sq)
  }

  /** Filtering keeps order: the moves from `sq` of a concatenation are those of each part, in turn. */
  lemma {:induction false} MovesFromAppend(a: seq<Move>, b: seq<Move>, sq: Square)
    ensures MovesFrom(a + b, sq) == MovesFrom(a, sq) + MovesFrom(b, sq)
  {
    if a == [] {
      assert a + b == b;
    } else {
      assert (a + b)[0] == a[0];
      assert (a + b)[1..] == a[1..] + b;
      MovesFromAppend(a[1..], b, sq);
    }
  }

  /** Filtering is the identity on moves that all start on `sq`, and empties any list that has none. */
  lemma {:induction false} MovesFromExtremes(moves: seq<Move>, sq: Square)
    ensures (forall i :: 0 <= i < |moves| ==> moves[i].from == sq) ==> MovesFrom(moves, sq) == moves
    ensures (forall i :: 0 <= i < |moves| ==> moves[i].from != sq) ==> MovesFrom(moves, sq) == []
  {
    if moves != [] {
      MovesFromExtremes(moves[1..], sq);
      assert forall i :: 1 <= i < |moves| ==> moves[1..][i - 1] == moves[i];
    }
  }

  /** The legal moves of `b` whose origin is `sq`: the destinations the board highlights. */
  function GetLegalMoves(r: Rules, b: Board, sq: Square): (ms: seq<Move>)
    ensures forall m :: m in ms <==> m in r.legalMoves(b) && m.from == sq
    ensures ms == [] <==> forall m :: m in r.legalMoves(b) ==> m.from != sq
  {
    var ms := MovesFrom(r.legalMoves(b), sq);
    assert ms != [] ==> ms[0] in ms;
    ms
  }
}
