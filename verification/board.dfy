/**
  The board store: an 8x8 grid of pieces with point queries, the starting
  position, and the king lookup by scanning the board.
 */
module Board {
  import opened Types

  predicate IsGrid(b: seq<seq<Piece>>)
  {
    |b| == 8 && forall r | 0 <= r < 8 :: |b[r]| == 8
  }

  /** The board, indexed board[row][col]. */
  type Grid = b: seq<seq<Piece>> | IsGrid(b) witness seq(8, _ => seq(8, _ => EmptySquare))

  /** IsValidPosition. */
  predicate IsValidPosition(row: int, col: int)
  {
    0 <= row < BoardSize && 0 <= col < BoardSize
  }

  predicate InBounds(p: Pos)
  {
    IsValidPosition(p.row, p.col)
  }

  lemma IsValidPositionIsTheBoard(row: int, col: int)
    ensures IsValidPosition(row, col) <==> 0 <= row < 8 && 0 <= col < 8
    ensures !InBounds(InvalidPos)
  {
  }

  function At(b: Grid, p: Pos): Piece
    requires InBounds(p)
  {
    b[p.row][p.col]
  }

  /** Writes one square; every other square keeps its piece. */
  function Put(b: Grid, p: Pos, x: Piece): (r: Grid)
    requires InBounds(p)
    ensures At(r, p) == x
    ensures forall q | InBounds(q) && q != p :: At(r, q) == At(b, q)
  {
    b[p.row := b[p.row][p.col := x]]
  }

  predicate IsEmpty(b: Grid, p: Pos)
    requires InBounds(p)
  {
    At(b, p).kind == NoKind
  }

  predicate IsEnemy(b: Grid, p: Pos, c: Color)
    requires InBounds(p)
  {
    At(b, p).kind != NoKind && At(b, p).color != c
  }

  predicate IsAlly(b: Grid, p: Pos, c: Color)
    requires InBounds(p)
  {
    At(b, p).kind != NoKind && At(b, p).color == c
  }

  /** Every in-bounds square is exactly one of empty, ally-occupied or enemy-occupied. */
  lemma OccupancyTrichotomy(b: Grid, p: Pos, c: Color)
    requires InBounds(p)
    ensures IsEmpty(b, p) || IsAlly(b, p, c) || IsEnemy(b, p, c)
    ensures !(IsEmpty(b, p) && IsAlly(b, p, c))
    ensures !(IsEmpty(b, p) && IsEnemy(b, p, c))
    ensures !(IsAlly(b, p, c) && IsEnemy(b, p, c))
  {
  }

  // ---------------------------------------------------------------------------
  // Lines on the board
  // ---------------------------------------------------------------------------

  /** k times the unit component u, written without a product. */
  function Scale(k: int, u: int): int
  {
    if u > 0 then k else if u < 0 then -k else 0
  }

  /** The square k steps from p in direction d. */
  function Along(p: Pos, d: (int, int), k: int): Pos
  {
    Pos(p.row + Scale(k, d.0), p.col + Scale(k, d.1))
  }

  function Offset(p: Pos, d: (int, int)): Pos
  {
    Pos(p.row + d.0, p.col + d.1)
  }

  lemma AlongStep(p: Pos, d: (int, int), k: int)
    requires IsUnit(d)
    ensures Along(p, d, k + 1) == Offset(Along(p, d, k), d)
    ensures Along(p, d, 1) == Offset(p, d)
    ensures Along(p, d, 0) == p
  {
  }

  // ---------------------------------------------------------------------------
  // Starting position
  // ---------------------------------------------------------------------------

  const BackRow: seq<PieceKind> := [Rook, Knight, Bishop, Queen, King, Bishop, Knight, Rook]

  function InitialSquare(row: int, col: int): Piece
    requires 0 <= col < 8
  {
    if row == 0 then Piece(BackRow[col], Black, false)
    else if row == 1 then Piece(Pawn, Black, false)
    else if row == 6 then Piece(Pawn, White, false)
    else if row == 7 then Piece(BackRow[col], White, false)
    else EmptySquare
  }

  /** InitBoard's piece placement (board.c). */
  function InitialBoard(): (b: Grid)
    ensures forall p | InBounds(p) :: !At(b, p).hasMoved
    ensures forall p | InBounds(p) && 2 <= p.row <= 5 :: IsEmpty(b, p)
    ensures forall c | 0 <= c < 8 ::
      && At(b, Pos(0, c)) == Piece(BackRow[c], Black, false)
      && At(b, Pos(1, c)) == Piece(Pawn, Black, false)
      && At(b, Pos(6, c)) == Piece(Pawn, White, false)
      && At(b, Pos(7, c)) == Piece(BackRow[c], White, false)
  {
    seq(8, row => seq(8, col requires 0 <= col < 8 => InitialSquare(row, col)))
  }

  /** The cached king squares InitBoard installs. */
  const InitialWhiteKing: Pos := Pos(7, 4)
  const InitialBlackKing: Pos := Pos(0, 4)

  const EmptyGrid: Grid := seq(8, _ => seq(8, _ => EmptySquare))

  /**
    The starting position as the single-file revision writes it: a cleared
    board, then the black back rank cell by cell, the black pawns, the white
    back rank and the white pawns. Each rank's eight assignments to a cleared
    row are written as that row's new value.
   */
  function MainInitialBoard(): Grid
  {
    var blackBack := [Piece(Rook, Black, false), Piece(Knight, Black, false), Piece(Bishop, Black, false),
                      Piece(Queen, Black, false), Piece(King, Black, false), Piece(Bishop, Black, false),
                      Piece(Knight, Black, false), Piece(Rook, Black, false)];
    var whiteBack := [Piece(Rook, White, false), Piece(Knight, White, false), Piece(Bishop, White, false),
                      Piece(Queen, White, false), Piece(King, White, false), Piece(Bishop, White, false),
                      Piece(Knight, White, false), Piece(Rook, White, false)];
    EmptyGrid[0 := blackBack][1 := seq(8, _ => Piece(Pawn, Black, false))]
             [7 := whiteBack][6 := seq(8, _ => Piece(Pawn, White, false))]
  }

  /** Both revisions set up the same position. */
  lemma InitialBoardsAgree()
    ensures MainInitialBoard() == InitialBoard()
  {
    var m := MainInitialBoard();
    var b := InitialBoard();
    forall r | 0 <= r < 8
      ensures m[r] == b[r]
    {
      assert forall c | 0 <= c < 8 :: m[r][c] == At(m, Pos(r, c));
    }
  }

  // ---------------------------------------------------------------------------
  // King lookup
  // ---------------------------------------------------------------------------

  predicate IsKingOf(b: Grid, p: Pos, c: Color)
    requires InBounds(p)
  {
    At(b, p).kind == King && At(b, p).color == c
  }

  /** Row-major order of squares. */
  predicate Before(q: Pos, p: Pos)
  {
    q.row < p.row || (q.row == p.row && q.col < p.col)
  }

  function SquareAt(k: int): Pos
  {
    Pos(k / 8, k % 8)
  }

  function IndexOf(p: Pos): int
  {
    p.row * 8 + p.col
  }

  /** The scan of the single-file revision, resumed at square index i. */
  function FindKingFrom(b: Grid, c: Color, i: int): (r: Pos)
    requires 0 <= i <= 64
    decreases 64 - i
    ensures r == InvalidPos || (InBounds(r) && IsKingOf(b, r, c) && i <= IndexOf(r))
    ensures r == InvalidPos ==> forall k | i <= k < 64 :: !IsKingOf(b, SquareAt(k), c)
    ensures r != InvalidPos ==> forall k | i <= k < IndexOf(r) :: !IsKingOf(b, SquareAt(k), c)
  {
    if i == 64 then InvalidPos
    else if IsKingOf(b, SquareAt(i), c) then SquareAt(i)
    else FindKingFrom(b, c, i + 1)
  }

  lemma SquareIndexBijection(p: Pos)
    requires InBounds(p)
    ensures 0 <= IndexOf(p) < 64 && SquareAt(IndexOf(p)) == p
  {
  }

  lemma BeforeIsIndexOrder(q: Pos, p: Pos)
    requires InBounds(q) && InBounds(p)
    ensures Before(q, p) <==> IndexOf(q) < IndexOf(p)
  {
  }

  /**
    FindKing by board scan: the first square in row-major order holding a king of
    colour c, or the sentinel when there is none.
   */
  function FindKing(b: Grid, c: Color): (r: Pos)
    ensures r == InvalidPos <==> forall p | InBounds(p) :: !IsKingOf(b, p, c)
    ensures r != InvalidPos ==> InBounds(r) && IsKingOf(b, r, c)
    ensures r != InvalidPos ==> forall q | InBounds(q) && Before(q, r) :: !IsKingOf(b, q, c)
  {
    var r := FindKingFrom(b, c, 0);
    forall p | InBounds(p) && r == InvalidPos
      ensures !IsKingOf(b, p, c)
    {
      SquareIndexBijection(p);
    }
    forall q | InBounds(q) && r != InvalidPos && Before(q, r)
      ensures !IsKingOf(b, q, c)
    {
      SquareIndexBijection(q);
      BeforeIsIndexOrder(q, r);
    }
    r
  }

  /** A king standing alone in its colour is the one the scan finds. */
  lemma FindKingOfSoleKing(b: Grid, p: Pos, c: Color)
    requires InBounds(p) && IsKingOf(b, p, c)
    requires forall q | InBounds(q) && q != p :: !IsKingOf(b, q, c)
    ensures FindKing(b, c) == p
  {
  }

  /** FindKing of the modular revision: the cached square, whatever the board holds. */
  function FindKingCached(whiteKing: Pos, blackKing: Pos, c: Color): (r: Pos)
    ensures c == White ==> r == whiteKing
    ensures c != White ==> r == blackKing
  {
    if c == White then whiteKing else blackKing
  }

  lemma InitialBoardSquare(p: Pos)
    requires InBounds(p)
    ensures At(InitialBoard(), p) == InitialSquare(p.row, p.col)
  {
  }

  lemma InitialKingSquares(p: Pos, c: Color)
    requires InBounds(p) && IsKingOf(InitialBoard(), p, c)
    ensures (c == White && p == InitialWhiteKing) || (c == Black && p == InitialBlackKing)
  {
    InitialBoardSquare(p);
    assert p.row == 0 || p.row == 7;
    assert BackRow[p.col] == King;
  }

  /** The kings stand on the cached squares of the starting position, and nowhere else. */
  lemma InitialKingsMatchCache()
    ensures IsKingOf(InitialBoard(), InitialWhiteKing, White)
    ensures IsKingOf(InitialBoard(), InitialBlackKing, Black)
    ensures FindKing(InitialBoard(), White) == InitialWhiteKing
    ensures FindKing(InitialBoard(), Black) == InitialBlackKing
  {
    var b := InitialBoard();
    forall q, c | InBounds(q) && IsKingOf(b, q, c)
      ensures (c == White && q == InitialWhiteKing) || (c == Black && q == InitialBlackKing)
    {
      InitialKingSquares(q, c);
    }
    FindKingOfSoleKing(b, InitialWhiteKing, White);
    FindKingOfSoleKing(b, InitialBlackKing, Black);
  }
}
