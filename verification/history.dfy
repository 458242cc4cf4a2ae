/**
  The move log and its algebraic notation (history.c): file and rank
  letters, piece letters, the reachability test used for disambiguation,
  the notation of one move and the bounded append-only log.

  The record is built with the kind and colour of the mover passed in, as the
  twelve-parameter form declared in history.h and called from moves.c
  (history.c's own body reads them from the emptied origin square instead).
 */
module History {
  import opened Types
  import opened Board
  import opened Attack

  datatype MoveRecord = MoveRecord(
    from: Pos, to: Pos,
    pieceType: PieceKind, capturedType: PieceKind, color: Color,
    isCapture: bool, isCastleKingside: bool, isCastleQueenside: bool, isEnPassant: bool,
    isPromotion: bool, promotedTo: PieceKind,
    givesCheck: bool, givesCheckmate: bool,
    notation: string)

  // ---------------------------------------------------------------------------
  // Letters
  // ---------------------------------------------------------------------------

  function ColToFile(col: int): (ch: char)
    requires 0 <= col < 8
    ensures 'a' <= ch <= 'h'
  {
    ('a' as int + col) as char
  }

  /** Rank digits count from White's side: row 0 is rank 8. */
  function RowToRank(row: int): (ch: char)
    requires 0 <= row < 8
    ensures '1' <= ch <= '8'
  {
    ('8' as int - row) as char
  }

  predicate IsFile(ch: char)
  {
    'a' <= ch <= 'h'
  }

  predicate IsRank(ch: char)
  {
    '1' <= ch <= '8'
  }

  function FileToCol(ch: char): int
  {
    ch as int - 'a' as int
  }

  function RankToRow(ch: char): int
  {
    '8' as int - ch as int
  }

  /** Files and ranks name columns and rows one-to-one. */
  lemma SquareLettersRoundTrip(col: int, row: int, f: char, r: char)
    requires 0 <= col < 8 && 0 <= row < 8
    ensures FileToCol(ColToFile(col)) == col && RankToRow(RowToRank(row)) == row
    ensures IsFile(f) ==> 0 <= FileToCol(f) < 8 && ColToFile(FileToCol(f)) == f
    ensures IsRank(r) ==> 0 <= RankToRow(r) < 8 && RowToRank(RankToRow(r)) == r
    ensures RowToRank(row) as int - '0' as int == 8 - row
  {
  }

  /** PieceToChar: a letter for the pieces, the NUL character for pawns and empty squares. */
  function PieceToChar(k: PieceKind): char
  {
    match k
    case King => 'K'
    case Queen => 'Q'
    case Rook => 'R'
    case Bishop => 'B'
    case Knight => 'N'
    case _ => '\0'
  }

  predicate IsPieceLetter(ch: char)
  {
    ch == 'K' || ch == 'Q' || ch == 'R' || ch == 'B' || ch == 'N'
  }

  function KindOfLetter(ch: char): (r: Option<PieceKind>)
    ensures r.Some? <==> IsPieceLetter(ch)
  {
    if ch == 'K' then Some(King)
    else if ch == 'Q' then Some(Queen)
    else if ch == 'R' then Some(Rook)
    else if ch == 'B' then Some(Bishop)
    else if ch == 'N' then Some(Knight)
    else None
  }

  /** Every piece but the pawn has its own letter, so a letter names the kind that moved. */
  lemma PieceLettersIdentifyKinds(k: PieceKind)
    ensures PieceToChar(k) == '\0' <==> k == Pawn || k == NoKind
    ensures PieceToChar(k) != '\0' ==> IsPieceLetter(PieceToChar(k)) && KindOfLetter(PieceToChar(k)) == Some(k)
  {
  }

  // ---------------------------------------------------------------------------
  // CanPieceReachSquare
  // ---------------------------------------------------------------------------

  function Sign(x: int): int
  {
    if x > 0 then 1 else if x < 0 then -1 else 0
  }

  function Max(x: int, y: int): int
  {
    if x >= y then x else y
  }

  /**
    The walk of CanPieceReachSquare: stepping from `from` toward `to` one
    square at a time, every square before `to` is empty.
   */
  predicate PathClear(b: Grid, from: Pos, to: Pos)
  {
    var step := (Sign(to.row - from.row), Sign(to.col - from.col));
    var n := Max(Abs(to.row - from.row), Abs(to.col - from.col));
    forall k | 1 <= k < n :: InBounds(Along(from, step, k)) && IsEmpty(b, Along(from, step, k))
  }

  /**
    CanPieceReachSquare for two distinct squares: the movement pattern of the
    kind and, for sliders, an empty path. Pins are not considered; pawns,
    kings and empty squares never reach.
   */
  function CanReach(b: Grid, from: Pos, to: Pos, kind: PieceKind): bool
    requires InBounds(from) && InBounds(to) && from != to
  {
    var dr := to.row - from.row;
    var dc := to.col - from.col;
    match kind
    case Rook => (dr == 0 || dc == 0) && PathClear(b, from, to)
    case Knight => IsKnightJump((dr, dc))
    case Bishop => Abs(dr) == Abs(dc) && PathClear(b, from, to)
    case Queen =>
      if dr == 0 || dc == 0 then PathClear(b, from, to)
      else Abs(dr) == Abs(dc) && PathClear(b, from, to)
    case _ => false
  }

  /** Some step of a direction table reaches `to` from `from` over empty squares. */
  ghost predicate InSight(b: Grid, from: Pos, to: Pos, dirs: seq<(int, int)>)
  {
    exists d, k | d in dirs && 1 <= k <= 7 :: to == Along(from, d, k) && ClearFrom(b, from, d, 1, k)
  }

  lemma SightAlongStep(b: Grid, from: Pos, to: Pos, d: (int, int), k: int)
    requires InBounds(from) && InBounds(to) && from != to && IsUnit(d) && 1 <= k
    requires to == Along(from, d, k)
    ensures (Sign(to.row - from.row), Sign(to.col - from.col)) == d
    ensures Max(Abs(to.row - from.row), Abs(to.col - from.col)) == k
    ensures PathClear(b, from, to) <==> ClearFrom(b, from, d, 1, k)
  {
  }

  lemma RookSightStep(from: Pos, to: Pos)
    requires InBounds(from) && InBounds(to) && from != to
    requires to.row == from.row || to.col == from.col
    ensures (Sign(to.row - from.row), Sign(to.col - from.col)) in RookDirections
    ensures var k := Max(Abs(to.row - from.row), Abs(to.col - from.col));
      1 <= k <= 7 && to == Along(from, (Sign(to.row - from.row), Sign(to.col - from.col)), k)
  {
  }

  lemma BishopSightStep(from: Pos, to: Pos)
    requires InBounds(from) && InBounds(to) && from != to
    requires Abs(to.row - from.row) == Abs(to.col - from.col)
    ensures (Sign(to.row - from.row), Sign(to.col - from.col)) in BishopDirections
    ensures var k := Max(Abs(to.row - from.row), Abs(to.col - from.col));
      1 <= k <= 7 && to == Along(from, (Sign(to.row - from.row), Sign(to.col - from.col)), k)
  {
  }

  lemma RookReachIsSight(b: Grid, from: Pos, to: Pos)
    requires InBounds(from) && InBounds(to) && from != to
    ensures CanReach(b, from, to, Rook) <==> InSight(b, from, to, RookDirections)
  {
    RookDirectionsAreOrthogonalSteps();
    if to.row == from.row || to.col == from.col {
      RookSightStep(from, to);
      SightAlongStep(b, from, to, (Sign(to.row - from.row), Sign(to.col - from.col)), Max(Abs(to.row - from.row), Abs(to.col - from.col)));
    }
    if InSight(b, from, to, RookDirections) {
      var d, k :| d in RookDirections && 1 <= k <= 7 && to == Along(from, d, k) && ClearFrom(b, from, d, 1, k);
      SightAlongStep(b, from, to, d, k);
    }
  }

  lemma BishopReachIsSight(b: Grid, from: Pos, to: Pos)
    requires InBounds(from) && InBounds(to) && from != to
    ensures CanReach(b, from, to, Bishop) <==> InSight(b, from, to, BishopDirections)
  {
    BishopDirectionsAreDiagonalSteps();
    if Abs(to.row - from.row) == Abs(to.col - from.col) {
      BishopSightStep(from, to);
      SightAlongStep(b, from, to, (Sign(to.row - from.row), Sign(to.col - from.col)), Max(Abs(to.row - from.row), Abs(to.col - from.col)));
    }
    if InSight(b, from, to, BishopDirections) {
      var d, k :| d in BishopDirections && 1 <= k <= 7 && to == Along(from, d, k) && ClearFrom(b, from, d, 1, k);
      SightAlongStep(b, from, to, d, k);
    }
  }

  /**
    The notation's reachability agrees with the attack view's line of sight:
    a rook reaches exactly the squares it sees orthogonally, a bishop those it
    sees diagonally, and a queen either.
   */
  lemma CanReachIsLineOfSight(b: Grid, from: Pos, to: Pos)
    requires InBounds(from) && InBounds(to) && from != to
    ensures CanReach(b, from, to, Rook) <==> InSight(b, from, to, RookDirections)
    ensures CanReach(b, from, to, Bishop) <==> InSight(b, from, to, BishopDirections)
    ensures CanReach(b, from, to, Queen) <==> CanReach(b, from, to, Rook) || CanReach(b, from, to, Bishop)
  {
    RookReachIsSight(b, from, to);
    BishopReachIsSight(b, from, to);
  }


  // ---------------------------------------------------------------------------
  // GetDisambiguationType
  // ---------------------------------------------------------------------------

  const AllSquares: set<Pos> := set k | 0 <= k < 64 :: SquareAt(k)

  lemma AllSquaresIsTheBoard(p: Pos)
    ensures p in AllSquares <==> InBounds(p)
  {
    if InBounds(p) {
      SquareIndexBijection(p);
    }
  }

  /**
    The other pieces of the mover's kind and colour that could also reach the
    destination: every square except the origin and the destination itself.
   */
  function Rivals(b: Grid, m: MoveRecord): (r: set<Pos>)
    requires InBounds(m.from) && InBounds(m.to)
    ensures forall q | q in r :: InBounds(q) && q != m.from && q != m.to
  {
    set q | q in AllSquares && InBounds(q) && q != m.from && q != m.to
      && At(b, q).kind == m.pieceType && At(b, q).color == m.color && CanReach(b, q, m.to, m.pieceType)
  }

  /** 0 = none, 1 = file, 2 = rank, 3 = both. */
  function DisambiguationCode(needsFile: bool, needsRank: bool): int
  {
    if needsFile && needsRank then 3
    else if needsRank then 2
    else if needsFile then 1
    else 0
  }

  function DisambiguationFrom(rivals: set<Pos>, m: MoveRecord): (code: int)
    ensures 0 <= code <= 3
    ensures code >= 2 <==> exists q | q in rivals :: q.col == m.from.col
    ensures code % 2 == 1 <==> exists q | q in rivals :: q.col != m.from.col
  {
    DisambiguationCode(exists q | q in rivals :: q.col != m.from.col, exists q | q in rivals :: q.col == m.from.col)
  }

  /** GetDisambiguationType, with the moved piece skipped at its destination as well as at its origin. */
  function Disambiguation(b: Grid, m: MoveRecord): (code: int)
    requires InBounds(m.from) && InBounds(m.to)
    ensures 0 <= code <= 3
  {
    if m.pieceType == Pawn || m.pieceType == King then 0 else DisambiguationFrom(Rivals(b, m), m)
  }

  /**
    A rival on the mover's file forces the rank, a rival on another file forces
    the file, both force both; pawns and kings, and moves without a rival, get none.
   */
  lemma DisambiguationMeaning(b: Grid, m: MoveRecord)
    requires InBounds(m.from) && InBounds(m.to)
    ensures Disambiguation(b, m) == 0 <==>
      m.pieceType == Pawn || m.pieceType == King || Rivals(b, m) == {}
    ensures m.pieceType != Pawn && m.pieceType != King ==>
      && (Disambiguation(b, m) >= 2 <==> exists q | q in Rivals(b, m) :: q.col == m.from.col)
      && (Disambiguation(b, m) % 2 == 1 <==> exists q | q in Rivals(b, m) :: q.col != m.from.col)
    ensures forall q | q in Rivals(b, m) ::
      At(b, q).kind == m.pieceType && At(b, q).color == m.color && CanReach(b, q, m.to, m.pieceType)
  {
    if m.pieceType != Pawn && m.pieceType != King && Rivals(b, m) != {} {
      var q :| q in Rivals(b, m);
      assert q.col == m.from.col || q.col != m.from.col;
    }
  }

  /**
    What CanPieceReachSquare answers for a square and itself: a rook or queen
    "reaches" its own square (the path loop runs zero times); a knight does not.
    A bishop's walk never returns to its start and runs off the board.
   */
  function SelfReachAsWritten(kind: PieceKind): bool
    requires kind != Bishop
  {
    kind == Rook || kind == Queen
  }

  /**
    GetDisambiguationType as written: the scan skips only the origin, so on the
    board after the move it also examines the destination, where the mover now stands.
   */
  function DisambiguationAsWritten(b: Grid, m: MoveRecord): (code: int)
    requires InBounds(m.from) && InBounds(m.to) && m.pieceType != Bishop
    ensures 0 <= code <= 3
  {
    var self := if m.from != m.to && At(b, m.to).kind == m.pieceType && At(b, m.to).color == m.color
                   && SelfReachAsWritten(m.pieceType) then {m.to} else {};
    if m.pieceType == Pawn || m.pieceType == King then 0 else DisambiguationFrom(Rivals(b, m) + self, m)
  }

  /**
    The as-written scan counts the mover as its own rival: after any rook or
    queen move it asks for the rank (a move along the file) or the file (any
    other move), even with no other rook or queen on the board.
   */
  lemma AsWrittenDisambiguatesEveryRookAndQueenMove(b: Grid, m: MoveRecord)
    requires InBounds(m.from) && InBounds(m.to) && m.from != m.to
    requires m.pieceType == Rook || m.pieceType == Queen
    requires At(b, m.to).kind == m.pieceType && At(b, m.to).color == m.color
    ensures DisambiguationAsWritten(b, m) != 0
    ensures m.to.col == m.from.col ==> DisambiguationAsWritten(b, m) >= 2
    ensures m.to.col != m.from.col ==> DisambiguationAsWritten(b, m) % 2 == 1
    ensures Rivals(b, m) == {} ==> Disambiguation(b, m) == 0
  {
    assert m.to in Rivals(b, m) + {m.to};
    DisambiguationMeaning(b, m);
  }

  /**
    The step of CanPieceReachSquare's bishop walk (and of the queen's diagonal
    walk): a row or column difference that is not positive steps by -1, so a
    zero difference still moves.
   */
  function BishopStepAsWritten(from: Pos, to: Pos): (d: (int, int))
    ensures d.0 != 0 && d.1 != 0
    ensures (d.0 > 0 <==> to.row > from.row) && (d.1 > 0 <==> to.col > from.col)
  {
    (if to.row - from.row > 0 then 1 else -1, if to.col - from.col > 0 then 1 else -1)
  }

  /**
    Between two distinct squares on a diagonal the bishop walk heads for the
    target and meets it after as many steps as the rows differ.
   */
  lemma BishopWalkReachesDiagonalTarget(from: Pos, to: Pos)
    requires from != to && Abs(to.row - from.row) == Abs(to.col - from.col)
    ensures BishopStepAsWritten(from, to) == (Sign(to.row - from.row), Sign(to.col - from.col))
    ensures Along(from, BishopStepAsWritten(from, to), Abs(to.row - from.row)) == to
  {
  }

  /**
    Asked whether a bishop reaches its own square, as the scan of
    GetDisambiguationType asks on the board after a bishop move, the walk
    steps by (-1, -1), never comes back to the square, and after at most
    min(row, col) squares on the board reads a square off it.
   */
  lemma BishopSelfWalkLeavesBoard(p: Pos)
    requires InBounds(p)
    ensures BishopStepAsWritten(p, p) == (-1, -1)
    ensures forall k | 1 <= k :: Along(p, BishopStepAsWritten(p, p), k) != p
    ensures var n := if p.row <= p.col then p.row else p.col;
      && (forall k | 1 <= k <= n :: InBounds(Along(p, BishopStepAsWritten(p, p), k)))
      && !InBounds(Along(p, BishopStepAsWritten(p, p), n + 1))
  {
  }

  // ---------------------------------------------------------------------------
  // GenerateMoveNotation
  // ---------------------------------------------------------------------------

  function Letter(k: PieceKind): string
  {
    if PieceToChar(k) != '\0' then [PieceToChar(k)] else []
  }

  function SquareName(p: Pos): string
    requires InBounds(p)
  {
    [ColToFile(p.col), RowToRank(p.row)]
  }

  /** The characters between the piece letter and the capture mark. */
  function Qualifier(m: MoveRecord, dis: int): (s: string)
    requires InBounds(m.from)
    ensures |s| <= 2
    ensures m.pieceType == Pawn ==> |s| <= 1
  {
    if m.pieceType == Pawn then (if m.isCapture then [ColToFile(m.from.col)] else [])
    else if dis == 3 then [ColToFile(m.from.col), RowToRank(m.from.row)]
    else if dis == 2 then [RowToRank(m.from.row)]
    else if dis == 1 then [ColToFile(m.from.col)]
    else []
  }

  function PromotionPart(m: MoveRecord): string
  {
    if m.isPromotion then ['=', PieceToChar(m.promotedTo)] else []
  }

  function Mark(m: MoveRecord): string
  {
    if m.givesCheckmate then "#" else if m.givesCheck then "+" else ""
  }

  /** Piece letter, qualifier and capture sign: everything before the destination. */
  function FrontOf(m: MoveRecord, dis: int): string
    requires InBounds(m.from)
  {
    Letter(m.pieceType) + Qualifier(m, dis) + (if m.isCapture then "x" else "")
  }

  /** The notation of a move other than castling, before the check mark. */
  function MoveBody(m: MoveRecord, dis: int): string
    requires InBounds(m.from) && InBounds(m.to)
  {
    FrontOf(m, dis) + SquareName(m.to) + PromotionPart(m)
  }

  /**
    GenerateMoveNotation given the disambiguation code: the characters written
    before the terminating NUL. The buffer always has room for them.
   */
  function Render(m: MoveRecord, dis: int): (s: string)
    requires InBounds(m.from) && InBounds(m.to)
    ensures |s| <= 9 && |s| < MoveNotationLen
    ensures (m.isPromotion ==> m.pieceType == Pawn) ==> |s| <= 7
    ensures m.isCastleKingside ==> 3 <= |s| <= 4 && s[..3] == "O-O"
    ensures !m.isCastleKingside && m.isCastleQueenside ==> 5 <= |s| <= 6 && s[..5] == "O-O-O"
  {
    var body := if m.isCastleKingside then "O-O" else if m.isCastleQueenside then "O-O-O" else MoveBody(m, dis);
    body + Mark(m)
  }

  /** The last character shows checkmate, else check, never both. */
  lemma RenderMarks(m: MoveRecord, dis: int)
    requires InBounds(m.from) && InBounds(m.to)
    ensures var s := Render(m, dis);
      && |s| > 0
      && (s[|s| - 1] == '#' <==> m.givesCheckmate)
      && (s[|s| - 1] == '+' <==> m.givesCheck && !m.givesCheckmate)
  {
    var s := Render(m, dis);
    if !m.givesCheckmate && !m.givesCheck && !m.isCastleKingside && !m.isCastleQueenside {
      var body := MoveBody(m, dis);
      assert s == body;
      if m.isPromotion {
        assert s[|s| - 1] == PieceToChar(m.promotedTo);
      } else {
        assert s[|s| - 1] == RowToRank(m.to.row);
      }
    }
  }

  /** GenerateMoveNotation on a board: the disambiguation is read from it. */
  function GenerateNotation(b: Grid, m: MoveRecord): string
    requires InBounds(m.from) && InBounds(m.to)
  {
    Render(m, Disambiguation(b, m))
  }

  /** The notation of a record depends on the move it describes, not on the notation it carries. */
  lemma NotationIgnoresStoredNotation(b: Grid, m: MoveRecord, s: string)
    requires InBounds(m.from) && InBounds(m.to)
    ensures GenerateNotation(b, m.(notation := s)) == GenerateNotation(b, m)
  {
    var m' := m.(notation := s);
    assert Rivals(b, m') == Rivals(b, m);
    assert Disambiguation(b, m') == Disambiguation(b, m);
  }

  // ---------------------------------------------------------------------------
  // Reading the notation back
  // ---------------------------------------------------------------------------

  datatype CheckMark = NoMark | CheckSign | MateSign

  datatype San =
    | Castling(kingside: bool, mark: CheckMark)
    | PieceMove(letter: string, qualifier: string, capture: bool, dest: Pos, promotion: string, mark: CheckMark)

  function MarkOf(m: MoveRecord): CheckMark
  {
    if m.givesCheckmate then MateSign else if m.givesCheck then CheckSign else NoMark
  }

  /** Removes a trailing check or mate sign. */
  function SplitMark(s: string): (string, CheckMark)
  {
    if |s| > 0 && s[|s| - 1] == '#' then (s[..|s| - 1], MateSign)
    else if |s| > 0 && s[|s| - 1] == '+' then (s[..|s| - 1], CheckSign)
    else (s, NoMark)
  }

  /** Removes a trailing "=X" promotion part. */
  function SplitPromotion(body: string): (string, string)
  {
    if |body| >= 2 && body[|body| - 2] == '=' then (body[..|body| - 2], body[|body| - 2..]) else (body, "")
  }

  /** Splits what precedes the destination into piece letter, qualifier and capture sign. */
  function SplitFront(rest: string): (string, string, bool)
  {
    var capture := |rest| > 0 && rest[|rest| - 1] == 'x';
    var front := if capture then rest[..|rest| - 1] else rest;
    var letter := if |front| > 0 && IsPieceLetter(front[0]) then front[..1] else "";
    (letter, front[|letter|..], capture)
  }

  /** Reads the destination from the last two characters. */
  function ParseCore(core: string, promotion: string, mark: CheckMark): Option<San>
  {
    if |core| < 2 || !IsFile(core[|core| - 2]) || !IsRank(core[|core| - 1]) then None
    else
      var dest := Pos(RankToRow(core[|core| - 1]), FileToCol(core[|core| - 2]));
      var (letter, qualifier, capture) := SplitFront(core[..|core| - 2]);
      Some(PieceMove(letter, qualifier, capture, dest, promotion, mark))
  }

  /** Reads a notation without its check mark. */
  function ParseBody(body: string, mark: CheckMark): Option<San>
  {
    if body == "O-O" then Some(Castling(true, mark))
    else if body == "O-O-O" then Some(Castling(false, mark))
    else
      var (core, promotion) := SplitPromotion(body);
      ParseCore(core, promotion, mark)
  }

  /** Splits a notation into its parts. */
  function ParseSan(s: string): Option<San>
  {
    var (body, mark) := SplitMark(s);
    ParseBody(body, mark)
  }

  /** What a reader of the notation learns about the move. */
  function Expected(m: MoveRecord, dis: int): San
    requires InBounds(m.from) && InBounds(m.to)
  {
    if m.isCastleKingside then Castling(true, MarkOf(m))
    else if m.isCastleQueenside then Castling(false, MarkOf(m))
    else PieceMove(Letter(m.pieceType), Qualifier(m, dis), m.isCapture, m.to, PromotionPart(m), MarkOf(m))
  }

  /** A record whose promotion piece has a letter (the promotion choices are Q, R, B, N). */
  predicate Renderable(m: MoveRecord)
  {
    InBounds(m.from) && InBounds(m.to) && (m.isPromotion ==> IsPieceLetter(PieceToChar(m.promotedTo)))
  }

  lemma QualifierChars(m: MoveRecord, dis: int)
    requires InBounds(m.from)
    ensures forall i | 0 <= i < |Qualifier(m, dis)| :: IsFile(Qualifier(m, dis)[i]) || IsRank(Qualifier(m, dis)[i])
  {
  }

  lemma MoveBodyIsNotCastling(m: MoveRecord, dis: int)
    requires Renderable(m)
    ensures MoveBody(m, dis) != "O-O" && MoveBody(m, dis) != "O-O-O"
  {
    var body := MoveBody(m, dis);
    var n := |body|;
    if m.isPromotion {
      assert body[n - 1] == PieceToChar(m.promotedTo);
    } else {
      assert body[n - 1] == RowToRank(m.to.row);
    }
  }

  lemma SplitPromotionOfBody(m: MoveRecord, dis: int)
    requires Renderable(m)
    ensures SplitPromotion(MoveBody(m, dis)) == (FrontOf(m, dis) + SquareName(m.to), PromotionPart(m))
  {
    var core := FrontOf(m, dis) + SquareName(m.to);
    var body := MoveBody(m, dis);
    assert body == core + PromotionPart(m);
    if m.isPromotion {
      assert body[..|body| - 2] == core;
      assert body[|body| - 2..] == PromotionPart(m);
    } else {
      assert body == core;
      assert body[|body| - 2] == ColToFile(m.to.col);
    }
  }

  /** SplitFront takes apart a piece letter, qualifier characters and an optional capture sign. */
  lemma SplitFrontParts(l: string, q: string, capture: bool)
    requires |l| == 0 || (|l| == 1 && IsPieceLetter(l[0]))
    requires forall i | 0 <= i < |q| :: IsFile(q[i]) || IsRank(q[i])
    ensures SplitFront(l + q + (if capture then "x" else "")) == (l, q, capture)
  {
    var front := l + q;
    var rest := l + q + (if capture then "x" else "");
    if capture {
      assert rest == front + "x";
      assert rest[|rest| - 1] == 'x';
      assert rest[..|rest| - 1] == front;
    } else {
      assert rest == front;
      if |q| > 0 {
        assert rest[|rest| - 1] == q[|q| - 1];
      }
    }
    if |l| > 0 {
      assert front[0] == l[0];
      assert front[..1] == l;
    } else {
      assert front == q;
      if |q| > 0 {
        assert !IsPieceLetter(front[0]);
      }
    }
    assert front[|l|..] == q;
  }

  lemma SplitFrontOfFront(m: MoveRecord, dis: int)
    requires Renderable(m)
    ensures SplitFront(FrontOf(m, dis)) == (Letter(m.pieceType), Qualifier(m, dis), m.isCapture)
  {
    QualifierChars(m, dis);
    SplitFrontParts(Letter(m.pieceType), Qualifier(m, dis), m.isCapture);
  }

  lemma ParseCoreOfMove(m: MoveRecord, dis: int, mark: CheckMark)
    requires Renderable(m)
    ensures ParseCore(FrontOf(m, dis) + SquareName(m.to), PromotionPart(m), mark) ==
      Some(PieceMove(Letter(m.pieceType), Qualifier(m, dis), m.isCapture, m.to, PromotionPart(m), mark))
  {
    var front := FrontOf(m, dis);
    var core := front + SquareName(m.to);
    assert core[..|core| - 2] == front;
    assert core[|core| - 2] == ColToFile(m.to.col);
    assert core[|core| - 1] == RowToRank(m.to.row);
    SquareLettersRoundTrip(m.to.col, m.to.row, ColToFile(m.to.col), RowToRank(m.to.row));
    SplitFrontOfFront(m, dis);
  }

  lemma SplitMarkRender(m: MoveRecord, dis: int)
    requires Renderable(m)
    ensures SplitMark(Render(m, dis)) ==
      (if m.isCastleKingside then "O-O" else if m.isCastleQueenside then "O-O-O" else MoveBody(m, dis), MarkOf(m))
  {
    var body := if m.isCastleKingside then "O-O" else if m.isCastleQueenside then "O-O-O" else MoveBody(m, dis);
    var s := Render(m, dis);
    assert s == body + Mark(m);
    if MarkOf(m) == NoMark {
      RenderMarks(m, dis);
      assert s == body;
      assert s[|s| - 1] != '#' && s[|s| - 1] != '+';
    } else {
      assert s[..|s| - 1] == body;
    }
  }

  lemma ParseMoveBodyFully(m: MoveRecord, dis: int, mark: CheckMark)
    requires Renderable(m) && !m.isCastleKingside && !m.isCastleQueenside
    ensures ParseBody(MoveBody(m, dis), mark) ==
      Some(PieceMove(Letter(m.pieceType), Qualifier(m, dis), m.isCapture, m.to, PromotionPart(m), mark))
  {
    MoveBodyIsNotCastling(m, dis);
    SplitPromotionOfBody(m, dis);
    ParseCoreOfMove(m, dis, mark);
  }

  /**
    The notation can be read back: its parts give the castling side, the piece
    letter, the disambiguation, the capture flag, the destination, the
    promotion and the check mark of the record.
   */
  lemma ParseRender(m: MoveRecord, dis: int)
    requires Renderable(m)
    ensures ParseSan(Render(m, dis)) == Some(Expected(m, dis))
  {
    SplitMarkRender(m, dis);
    if !m.isCastleKingside && !m.isCastleQueenside {
      ParseMoveBodyFully(m, dis, MarkOf(m));
    }
  }

  /** The destination, capture flag and check marks are always recoverable from the notation. */
  lemma NotationShowsTheMove(m: MoveRecord, dis: int)
    requires Renderable(m) && !m.isCastleKingside && !m.isCastleQueenside
    ensures var p := ParseSan(Render(m, dis));
      && p.Some? && p.value.PieceMove?
      && p.value.dest == m.to
      && p.value.capture == m.isCapture
      && (p.value.mark == MateSign <==> m.givesCheckmate)
      && (p.value.letter == [] <==> m.pieceType == Pawn || m.pieceType == NoKind)
      && (p.value.letter != [] ==> KindOfLetter(p.value.letter[0]) == Some(m.pieceType))
  {
    ParseRender(m, dis);
    PieceLettersIdentifyKinds(m.pieceType);
  }

  // ---------------------------------------------------------------------------
  // The log
  // ---------------------------------------------------------------------------

  /** InitMoveHistory: the log is empty. */
  const EmptyHistory: seq<MoveRecord> := []

  /**
    RecordMove on the board after the move: a no-op once MaxMoves records are
    kept, otherwise one record appended with both check flags false and its
    notation generated. The captured kind is read from the destination square
    of that board.
   */
  function RecordMove(h: seq<MoveRecord>, b: Grid, from: Pos, to: Pos, pieceType: PieceKind, color: Color,
                      isCapture: bool, isCastleKingside: bool, isCastleQueenside: bool, isEnPassant: bool,
                      isPromotion: bool, promotedTo: PieceKind): (r: seq<MoveRecord>)
    requires InBounds(from) && InBounds(to)
    ensures |h| >= MaxMoves ==> r == h
    ensures |h| < MaxMoves ==> |r| == |h| + 1 && r[..|h|] == h
    ensures |h| < MaxMoves ==>
      var m := r[|h|];
      && m.from == from && m.to == to && m.pieceType == pieceType && m.color == color
      && m.capturedType == At(b, to).kind
      && m.isCapture == isCapture && m.isCastleKingside == isCastleKingside
      && m.isCastleQueenside == isCastleQueenside && m.isEnPassant == isEnPassant
      && m.isPromotion == isPromotion && m.promotedTo == promotedTo
      && !m.givesCheck && !m.givesCheckmate
      && m.notation == GenerateNotation(b, m)
  {
    if |h| >= MaxMoves then h
    else
      var m := MoveRecord(from, to, pieceType, At(b, to).kind, color, isCapture, isCastleKingside, isCastleQueenside,
                          isEnPassant, isPromotion, promotedTo, false, false, "");
      NotationIgnoresStoredNotation(b, m, GenerateNotation(b, m));
      h + [m.(notation := GenerateNotation(b, m))]
  }

  /** Every record's squares are board squares, so its notation can be regenerated. */
  predicate LogWellFormed(h: seq<MoveRecord>)
  {
    |h| <= MaxMoves && forall i | 0 <= i < |h| :: InBounds(h[i].from) && InBounds(h[i].to)
  }

  lemma RecordMoveKeepsLogWellFormed(h: seq<MoveRecord>, b: Grid, from: Pos, to: Pos, pieceType: PieceKind, color: Color,
                                     isCapture: bool, isCastleKingside: bool, isCastleQueenside: bool, isEnPassant: bool,
                                     isPromotion: bool, promotedTo: PieceKind)
    requires InBounds(from) && InBounds(to) && LogWellFormed(h)
    ensures LogWellFormed(RecordMove(h, b, from, to, pieceType, color, isCapture, isCastleKingside, isCastleQueenside,
                                     isEnPassant, isPromotion, promotedTo))
  {
  }

  /**
    UpdateLastMoveStatus: a no-op on an empty log; otherwise only the last
    record's check flags change, and its notation is regenerated.
   */
  function UpdateLastMoveStatus(h: seq<MoveRecord>, b: Grid, givesCheck: bool, givesCheckmate: bool): (r: seq<MoveRecord>)
    requires LogWellFormed(h)
    ensures |r| == |h| && LogWellFormed(r)
    ensures |h| == 0 ==> r == h
    ensures |h| > 0 ==> r[..|h| - 1] == h[..|h| - 1]
    ensures |h| > 0 ==>
      var m := r[|h| - 1];
      && m == h[|h| - 1].(givesCheck := givesCheck, givesCheckmate := givesCheckmate, notation := m.notation)
      && m.notation == GenerateNotation(b, m)
  {
    if |h| == 0 then h
    else
      var m := h[|h| - 1].(givesCheck := givesCheck, givesCheckmate := givesCheckmate);
      var last := m.(notation := GenerateNotation(b, m));
      NotationIgnoresStoredNotation(b, m, last.notation);
      ReplaceLastKeepsPrefix(h, last);
      h[..|h| - 1] + [last]
  }

  lemma ReplaceLastKeepsPrefix(h: seq<MoveRecord>, last: MoveRecord)
    requires |h| > 0 && LogWellFormed(h)
    requires last.from == h[|h| - 1].from && last.to == h[|h| - 1].to
    ensures var r := h[..|h| - 1] + [last];
      |r| == |h| && LogWellFormed(r) && r[..|h| - 1] == h[..|h| - 1] && r[|h| - 1] == last
  {
    var r := h[..|h| - 1] + [last];
    assert r[..|h| - 1] == h[..|h| - 1];
    forall i | 0 <= i < |r|
      ensures InBounds(r[i].from) && InBounds(r[i].to)
    {
      if i < |h| - 1 {
        assert r[i] == h[i];
      }
    }
  }

  /**
    RecordMove followed by UpdateLastMoveStatus, as every caller performs them,
    as written: when the log is full the record is dropped but the status
    update still rewrites the last kept record.
   */
  function LogMoveAsWritten(h: seq<MoveRecord>, b: Grid, from: Pos, to: Pos, pieceType: PieceKind, color: Color,
                            isCapture: bool, isCastleKingside: bool, isCastleQueenside: bool, isEnPassant: bool,
                            isPromotion: bool, promotedTo: PieceKind, givesCheck: bool, givesCheckmate: bool): seq<MoveRecord>
    requires InBounds(from) && InBounds(to) && LogWellFormed(h)
  {
    RecordMoveKeepsLogWellFormed(h, b, from, to, pieceType, color, isCapture, isCastleKingside, isCastleQueenside,
                                 isEnPassant, isPromotion, promotedTo);
    var h1 := RecordMove(h, b, from, to, pieceType, color, isCapture, isCastleKingside, isCastleQueenside,
                         isEnPassant, isPromotion, promotedTo);
    UpdateLastMoveStatus(h1, b, givesCheck, givesCheckmate)
  }

  /**
    The full log is rewritten by a move it cannot hold: the last kept record
    takes the new move's check flags.
   */
  lemma FullLogRewritesLastRecord(h: seq<MoveRecord>, b: Grid, from: Pos, to: Pos, pieceType: PieceKind, color: Color,
                                  isCapture: bool, isCastleKingside: bool, isCastleQueenside: bool, isEnPassant: bool,
                                  isPromotion: bool, promotedTo: PieceKind, givesCheck: bool, givesCheckmate: bool)
    requires InBounds(from) && InBounds(to) && LogWellFormed(h) && |h| == MaxMoves
    requires h[|h| - 1].givesCheck != givesCheck
    ensures var r := LogMoveAsWritten(h, b, from, to, pieceType, color, isCapture, isCastleKingside, isCastleQueenside,
                                      isEnPassant, isPromotion, promotedTo, givesCheck, givesCheckmate);
      |r| == |h| && r[|h| - 1].givesCheck == givesCheck && r != h
  {
  }

  /**
    The log entry of one move: appended with its check flags and notation when
    there is room, and nothing at all when the log is full.
   */
  function LogMove(h: seq<MoveRecord>, b: Grid, from: Pos, to: Pos, pieceType: PieceKind, color: Color,
                   isCapture: bool, isCastleKingside: bool, isCastleQueenside: bool, isEnPassant: bool,
                   isPromotion: bool, promotedTo: PieceKind, givesCheck: bool, givesCheckmate: bool): (r: seq<MoveRecord>)
    requires InBounds(from) && InBounds(to) && LogWellFormed(h)
    ensures LogWellFormed(r)
    ensures |h| >= MaxMoves ==> r == h
    ensures |h| < MaxMoves ==> |r| == |h| + 1 && r[..|h|] == h
    ensures |h| < MaxMoves ==>
      var m := r[|h|];
      && m.from == from && m.to == to && m.pieceType == pieceType && m.color == color
      && m.capturedType == At(b, to).kind
      && m.isCapture == isCapture && m.isCastleKingside == isCastleKingside
      && m.isCastleQueenside == isCastleQueenside && m.isEnPassant == isEnPassant
      && m.isPromotion == isPromotion && m.promotedTo == promotedTo
      && m.givesCheck == givesCheck && m.givesCheckmate == givesCheckmate
      && m.notation == GenerateNotation(b, m)
  {
    if |h| >= MaxMoves then h
    else LogMoveAsWritten(h, b, from, to, pieceType, color, isCapture, isCastleKingside, isCastleQueenside,
                          isEnPassant, isPromotion, promotedTo, givesCheck, givesCheckmate)
  }
}
