/**
  Shared vocabulary of the chess engine: piece kinds, colours, squares, the
  game-state enumeration, the movement tables and the size constants.
  The enumerations keep the numeric codes of the C enums, because those codes
  travel over the wire (the promotion piece of a move message) and because an
  all-zero piece record is the engine's empty square.
 */
module Types {

  datatype Option<T> = None | Some(value: T)

  datatype PieceKind = NoKind | King | Queen | Bishop | Knight | Rook | Pawn

  datatype Color = NoColor | White | Black

  datatype Piece = Piece(kind: PieceKind, color: Color, hasMoved: bool)

  /** A square as (row, col); row 0 is Black's back rank (rank 8). */
  datatype Pos = Pos(row: int, col: int)

  datatype GameStatus = Playing | Check | Checkmate | Stalemate | Promoting

  /** An unsigned char. */
  type Byte = bv8

  const BoardSize: int := 8
  /** Capacity of the move log. */
  const MaxMoves: int := 256
  /** Size of one notation buffer, terminating NUL included. */
  const MoveNotationLen: int := 12

  /** The sentinel "no square". */
  const InvalidPos: Pos := Pos(-1, -1)

  /** The square contents written by clearing (all fields zero). */
  const EmptySquare: Piece := Piece(NoKind, NoColor, false)

  /** The OPPONENT_COLOR macro: White maps to Black and every other colour, NoColor included, to White. */
  function Opponent(c: Color): Color
  {
    if c == White then Black else White
  }

  lemma OpponentSwaps()
    ensures Opponent(White) == Black && Opponent(Black) == White
    ensures Opponent(NoColor) == White
    ensures forall c | c != NoColor :: Opponent(Opponent(c)) == c && Opponent(c) != c
  {
  }

  // ---------------------------------------------------------------------------
  // Numeric codes of the enumerations
  // ---------------------------------------------------------------------------

  function KindCode(k: PieceKind): int
  {
    match k
    case NoKind => 0
    case King => 1
    case Queen => 2
    case Bishop => 3
    case Knight => 4
    case Rook => 5
    case Pawn => 6
  }

  /** Reads a PieceType code; codes outside the enumeration name no kind. */
  function KindOfCode(n: int): (r: Option<PieceKind>)
    ensures r.Some? <==> 0 <= n <= 6
    ensures r.Some? ==> KindCode(r.value) == n
  {
    if n == 0 then Some(NoKind)
    else if n == 1 then Some(King)
    else if n == 2 then Some(Queen)
    else if n == 3 then Some(Bishop)
    else if n == 4 then Some(Knight)
    else if n == 5 then Some(Rook)
    else if n == 6 then Some(Pawn)
    else None
  }

  function ColorCode(c: Color): int
  {
    match c
    case NoColor => 0
    case White => 1
    case Black => 2
  }

  function ColorOfCode(n: int): (r: Option<Color>)
    ensures r.Some? <==> 0 <= n <= 2
    ensures r.Some? ==> ColorCode(r.value) == n
  {
    if n == 0 then Some(NoColor)
    else if n == 1 then Some(White)
    else if n == 2 then Some(Black)
    else None
  }

  /** Codes and kinds are in one-to-one correspondence. */
  lemma KindCodeRoundTrip(k: PieceKind)
    ensures KindOfCode(KindCode(k)) == Some(k)
  {
  }

  /** The piece obtained from a zero-filled record is the empty square. */
  lemma ZeroPieceIsEmpty()
    ensures KindOfCode(0) == Some(NoKind) && ColorOfCode(0) == Some(NoColor)
    ensures Piece(KindOfCode(0).value, ColorOfCode(0).value, false) == EmptySquare
  {
  }

  // ---------------------------------------------------------------------------
  // Movement tables
  // ---------------------------------------------------------------------------

  const RookDirections: seq<(int, int)> := [(-1, 0), (1, 0), (0, -1), (0, 1)]
  const BishopDirections: seq<(int, int)> := [(-1, -1), (-1, 1), (1, -1), (1, 1)]
  const KnightMoves: seq<(int, int)> :=
    [(-2, -1), (-2, 1), (-1, -2), (-1, 2), (1, -2), (1, 2), (2, -1), (2, 1)]
  /** The eight neighbours, in the order of the nested dr/dc loops that skip (0, 0). */
  const KingSteps: seq<(int, int)> :=
    [(-1, -1), (-1, 0), (-1, 1), (0, -1), (0, 1), (1, -1), (1, 0), (1, 1)]

  function Abs(x: int): nat
  {
    if x < 0 then -x else x
  }

  predicate IsUnit(d: (int, int))
  {
    -1 <= d.0 <= 1 && -1 <= d.1 <= 1 && d != (0, 0)
  }

  lemma RookDirectionsAreOrthogonalSteps()
    ensures |RookDirections| == 4
    ensures forall d :: d in RookDirections <==> IsUnit(d) && (d.0 == 0 || d.1 == 0)
  {
  }

  lemma BishopDirectionsAreDiagonalSteps()
    ensures |BishopDirections| == 4
    ensures forall d :: d in BishopDirections <==> IsUnit(d) && d.0 != 0 && d.1 != 0
  {
  }

  lemma KingStepsAreTheNeighbours()
    ensures |KingSteps| == 8
    ensures forall d :: d in KingSteps <==> IsUnit(d)
    ensures forall i, j | 0 <= i < j < 8 :: KingSteps[i] != KingSteps[j]
  {
  }

  predicate IsKnightJump(d: (int, int))
  {
    (Abs(d.0) == 1 && Abs(d.1) == 2) || (Abs(d.0) == 2 && Abs(d.1) == 1)
  }

  lemma KnightMovesAreTheJumps()
    ensures |KnightMoves| == 8
    ensures forall d :: d in KnightMoves <==> IsKnightJump(d)
    ensures forall i, j | 0 <= i < j < 8 :: KnightMoves[i] != KnightMoves[j]
  {
  }
}
