/**
  The game state and the operations that change it: InitBoard, MovePiece with
  castling, en passant and the promotion pause, and the promotion choice that
  completes a paused move.

  The C globals (board, currentTurn, selectedPos, validMoves, gameState, the
  en-passant pair, the promotion fields, the cached king squares and the move
  log) are the fields of one immutable Game value; every operation returns the
  next Game.
 */
module Engine {
  import opened Types
  import opened Board
  import opened Attack
  import opened Moves
  import opened History

  datatype Game = Game(
    board: Grid,
    turn: Color,
    selected: Pos,
    validMoves: set<Pos>,
    status: GameStatus,
    ep: EnPassant,
    promotionPos: Pos,
    promotionFrom: Pos,
    promotionWasCapture: bool,
    whiteKing: Pos,
    blackKing: Pos,
    history: seq<MoveRecord>)

  /**
    The en-passant pair describes the position: either it is unset, or the pawn
    it names stands on the board and the target is the empty square it passed.
   */
  predicate EpConsistent(b: Grid, ep: EnPassant)
  {
    || ep == NoEnPassant
    || (&& InBounds(ep.target) && InBounds(ep.pawn)
        && IsEmpty(b, ep.target)
        && At(b, ep.pawn).kind == Pawn
        && ep.target.col == ep.pawn.col
        && ep.target.row == ep.pawn.row - PawnDir(At(b, ep.pawn).color))
  }

  /** The facts every operation below relies on and keeps. */
  predicate Consistent(g: Game)
  {
    EpWellFormed(g.ep) && EpConsistent(g.board, g.ep) && LogWellFormed(g.history)
  }

  // ---------------------------------------------------------------------------
  // InitBoard
  // ---------------------------------------------------------------------------

  /**
    InitBoard of the modular revision: the starting position, White to move,
    nothing selected, no en passant, no promotion pending, the king cache on
    the starting squares and an empty log. The legal-move marks are not
    cleared here.
   */
  function InitBoard(g: Game): (r: Game)
    ensures r.board == InitialBoard() && r.turn == White && r.status == Playing
    ensures r.selected == InvalidPos && r.ep == NoEnPassant
    ensures r.promotionPos == InvalidPos && r.promotionFrom == InvalidPos && !r.promotionWasCapture
    ensures r.history == [] && r.validMoves == g.validMoves
    ensures r.whiteKing == InitialWhiteKing && r.blackKing == InitialBlackKing
  {
    Game(InitialBoard(), White, InvalidPos, g.validMoves, Playing, NoEnPassant, InvalidPos, InvalidPos, false,
         InitialWhiteKing, InitialBlackKing, EmptyHistory)
  }

  /** A fresh game is consistent. */
  lemma InitBoardIsConsistent(g: Game)
    ensures Consistent(InitBoard(g))
  {
  }

  /** A fresh game's cached king squares are where the scan finds the kings. */
  lemma InitBoardCachesTheKings(g: Game)
    ensures InitBoard(g).whiteKing == FindKing(InitBoard(g).board, White)
    ensures InitBoard(g).blackKing == FindKing(InitBoard(g).board, Black)
  {
    InitialKingsMatchCache();
  }

  // ---------------------------------------------------------------------------
  // MovePiece
  // ---------------------------------------------------------------------------

  /** A king moving two files castles. */
  predicate IsCastling(b: Grid, from: Pos, to: Pos)
    requires InBounds(from)
  {
    At(b, from).kind == King && Abs(to.col - from.col) == 2
  }

  /** The squares the castling rook leaves and enters. */
  function RookFrom(from: Pos, to: Pos): Pos
  {
    if to.col > from.col then Pos(from.row, 7) else Pos(from.row, 0)
  }

  function RookTo(from: Pos, to: Pos): Pos
  {
    if to.col > from.col then Pos(from.row, 5) else Pos(from.row, 3)
  }

  /** The castling rook's move on its own: copied alongside the king with hasMoved set, its corner emptied. */
  function CastleRook(b: Grid, from: Pos, to: Pos): (r: Grid)
    requires InBounds(from)
    ensures At(r, RookFrom(from, to)) == EmptySquare
    ensures At(r, RookTo(from, to)) == At(b, RookFrom(from, to)).(hasMoved := true)
    ensures forall q | InBounds(q) && q != RookFrom(from, to) && q != RookTo(from, to) :: At(r, q) == At(b, q)
  {
    var rook := At(b, RookFrom(from, to));
    Put(Put(b, RookTo(from, to), rook.(hasMoved := true)), RookFrom(from, to), EmptySquare)
  }

  /**
    The board update of MovePiece: the en-passant pawn removed, the castling
    rook relocated, the mover written to `to` with hasMoved set, and `from`
    emptied last.
   */
  function MoveBoard(b: Grid, from: Pos, to: Pos, ep: EnPassant): (r: Grid)
    requires InBounds(from) && InBounds(to) && EpWellFormed(ep)
    ensures At(r, from) == EmptySquare
    ensures from != to ==> At(r, to) == At(b, from).(hasMoved := true)
    ensures IsEnPassantMove(b, from, to, ep) && ep.pawn != to && ep.pawn != from ==> At(r, ep.pawn) == EmptySquare
    ensures IsCastling(b, from, to) && from != RookTo(from, to) && to != RookTo(from, to) ==>
      At(r, RookTo(from, to)) == At(b, RookFrom(from, to)).(hasMoved := true)
    ensures IsCastling(b, from, to) && to != RookFrom(from, to) ==> At(r, RookFrom(from, to)) == EmptySquare
    ensures forall q | InBounds(q) && q != from && q != to
                       && !(IsEnPassantMove(b, from, to, ep) && q == ep.pawn)
                       && !(IsCastling(b, from, to) && (q == RookFrom(from, to) || q == RookTo(from, to))) ::
      At(r, q) == At(b, q)
  {
    var mover := At(b, from);
    var b1 := if IsEnPassantMove(b, from, to, ep) then Put(b, ep.pawn, EmptySquare) else b;
    var b2 := if IsCastling(b, from, to) then CastleRook(b1, from, to) else b1;
    Put(Put(b2, to, mover.(hasMoved := true)), from, EmptySquare)
  }

  /** The en-passant pair after a move: set only by a two-row pawn move, to the passed square and the pawn. */
  function NextEnPassant(mover: Piece, from: Pos, to: Pos): (ep: EnPassant)
    requires InBounds(from) && InBounds(to)
    ensures EpWellFormed(ep)
    ensures ep != NoEnPassant <==> mover.kind == Pawn && Abs(to.row - from.row) == 2
    ensures ep != NoEnPassant ==> ep.pawn == to && ep.target.col == from.col
    ensures ep != NoEnPassant ==> InBounds(ep.target) && Abs(ep.target.row - from.row) == 1 && Abs(ep.target.row - to.row) == 1
  {
    if mover.kind == Pawn && Abs(to.row - from.row) == 2 then EnPassant(Pos((from.row + to.row) / 2, from.col), to)
    else NoEnPassant
  }

  /** A pawn of its own colour standing on the far rank promotes. */
  predicate ReachesLastRank(mover: Piece, to: Pos)
  {
    mover.kind == Pawn && ((mover.color == White && to.row == 0) || (mover.color == Black && to.row == 7))
  }

  /**
    MovePiece for the selected piece. A pawn reaching the last rank pauses the
    move: the game waits for the promotion choice with the turn unchanged and
    nothing recorded. Any other move is logged, passes the turn and recomputes
    the status for the side now to move; the log entry carries that status as
    its check flags. The cached king squares are never touched.
   */
  function MovePiece(g: Game, to: Pos): (r: Game)
    requires InBounds(g.selected) && InBounds(to) && EpWellFormed(g.ep) && LogWellFormed(g.history)
    ensures EpWellFormed(r.ep) && LogWellFormed(r.history)
    ensures r.board == MoveBoard(g.board, g.selected, to, g.ep)
    ensures r.ep == NextEnPassant(At(g.board, g.selected), g.selected, to)
    ensures r.selected == InvalidPos && r.validMoves == {}
    ensures r.whiteKing == g.whiteKing && r.blackKing == g.blackKing
    ensures ReachesLastRank(At(g.board, g.selected), to) ==>
      && r.status == Promoting && r.turn == g.turn && r.history == g.history
      && r.promotionPos == to && r.promotionFrom == g.selected
      && r.promotionWasCapture == (!IsEmpty(g.board, to) || IsEnPassantMove(g.board, g.selected, to, g.ep))
    ensures !ReachesLastRank(At(g.board, g.selected), to) ==>
      && r.turn == Opponent(g.turn)
      && r.status == StatusOf(r.board, r.turn, r.ep)
      && r.promotionPos == g.promotionPos && r.promotionFrom == g.promotionFrom
      && (|g.history| >= MaxMoves ==> r.history == g.history)
      && (|g.history| < MaxMoves ==> |r.history| == |g.history| + 1 && r.history[..|g.history|] == g.history)
  {
    var from := g.selected;
    var mover := At(g.board, from);
    var castles := IsCastling(g.board, from, to);
    var isEnPassant := IsEnPassantMove(g.board, from, to, g.ep);
    var isCapture := !IsEmpty(g.board, to) || isEnPassant;
    var b := MoveBoard(g.board, from, to, g.ep);
    var ep := NextEnPassant(mover, from, to);
    if ReachesLastRank(mover, to) then
      g.(board := b, ep := ep, promotionFrom := from, promotionWasCapture := isCapture, promotionPos := to,
         status := Promoting, selected := InvalidPos, validMoves := {})
    else
      var turn := Opponent(g.turn);
      var status := StatusOf(b, turn, ep);
      var h := LogMove(g.history, b, from, to, mover.kind, mover.color, isCapture,
                       castles && to.col > from.col, castles && to.col < from.col, isEnPassant, false, NoKind,
                       status == Check || status == Checkmate, status == Checkmate);
      g.(board := b, ep := ep, turn := turn, selected := InvalidPos, validMoves := {}, status := status, history := h)
  }

  /** The board updates of the single-file revision's MovePiece, in its order. */
  function MainMoveBoard(b: Grid, from: Pos, to: Pos, ep: EnPassant): Grid
    requires InBounds(from) && InBounds(to) && EpWellFormed(ep)
  {
    var piece := At(b, from);
    var b1 := if piece.kind == Pawn && to == ep.target then Put(b, ep.pawn, EmptySquare) else b;
    var b2 :=
      if piece.kind == King && Abs(to.col - from.col) == 2 then
        if to.col > from.col then
          Put(Put(b1, Pos(from.row, 5), At(b1, Pos(from.row, 7)).(hasMoved := true)), Pos(from.row, 7), EmptySquare)
        else
          Put(Put(b1, Pos(from.row, 3), At(b1, Pos(from.row, 0)).(hasMoved := true)), Pos(from.row, 0), EmptySquare)
      else b1;
    Put(Put(b2, to, piece.(hasMoved := true)), from, EmptySquare)
  }

  /** Both revisions change the board in the same way. */
  lemma MainMoveBoardAgrees(b: Grid, from: Pos, to: Pos, ep: EnPassant)
    requires InBounds(from) && InBounds(to) && EpWellFormed(ep)
    ensures MainMoveBoard(b, from, to, ep) == MoveBoard(b, from, to, ep)
  {
  }

  /**
    MovePiece of the single-file revision, written out step by step: no log and
    no saved promotion origin, otherwise the same updates in the same order.
   */
  function MainMovePiece(g: Game, to: Pos): Game
    requires InBounds(g.selected) && InBounds(to) && EpWellFormed(g.ep)
  {
    var from := g.selected;
    var piece := At(g.board, from);
    var ep := if piece.kind == Pawn && Abs(to.row - from.row) == 2 then EnPassant(Pos((from.row + to.row) / 2, from.col), to)
              else NoEnPassant;
    var b3 := MainMoveBoard(g.board, from, to, g.ep);
    if piece.kind == Pawn && ((piece.color == White && to.row == 0) || (piece.color == Black && to.row == 7)) then
      g.(board := b3, ep := ep, promotionPos := to, status := Promoting, selected := InvalidPos, validMoves := {})
    else
      var turn := if g.turn == White then Black else White;
      g.(board := b3, ep := ep, turn := turn, selected := InvalidPos, validMoves := {}, status := StatusOf(b3, turn, ep))
  }

  /** Both revisions make the same move, pass the same turn and reach the same status; only the log differs. */
  lemma MainMovePieceAgrees(g: Game, to: Pos)
    requires InBounds(g.selected) && InBounds(to) && EpWellFormed(g.ep) && LogWellFormed(g.history)
    ensures var m := MainMovePiece(g, to);
      var r := MovePiece(g, to);
      && m.board == r.board && m.ep == r.ep && m.turn == r.turn && m.status == r.status
      && m.selected == r.selected && m.validMoves == r.validMoves && m.promotionPos == r.promotionPos
  {
    var from := g.selected;
    MainMoveBoardAgrees(g.board, from, to, g.ep);
    var m := MainMovePiece(g, to);
    assert m.board == MoveBoard(g.board, from, to, g.ep);
    assert m.ep == NextEnPassant(At(g.board, from), from, to);
    if !ReachesLastRank(At(g.board, from), to) {
      assert m.turn == Opponent(g.turn);
      assert m.status == StatusOf(m.board, m.turn, m.ep);
    }
  }

  /** The log entry of a completed ordinary move names the move, its flags, and the status it produced. */
  lemma MovePieceRecordsTheMove(g: Game, to: Pos)
    requires InBounds(g.selected) && InBounds(to) && EpWellFormed(g.ep) && LogWellFormed(g.history)
    requires !ReachesLastRank(At(g.board, g.selected), to) && |g.history| < MaxMoves
    ensures var r := MovePiece(g, to);
      var m := r.history[|g.history|];
      var mover := At(g.board, g.selected);
      && m.from == g.selected && m.to == to && m.pieceType == mover.kind && m.color == mover.color
      && m.isCapture == (!IsEmpty(g.board, to) || IsEnPassantMove(g.board, g.selected, to, g.ep))
      && m.isEnPassant == IsEnPassantMove(g.board, g.selected, to, g.ep)
      && m.isCastleKingside == (IsCastling(g.board, g.selected, to) && to.col > g.selected.col)
      && m.isCastleQueenside == (IsCastling(g.board, g.selected, to) && to.col < g.selected.col)
      && !m.isPromotion
      && m.givesCheck == (r.status == Check || r.status == Checkmate)
      && m.givesCheckmate == (r.status == Checkmate)
      && m.notation == GenerateNotation(r.board, m)
  {
  }

  // ---------------------------------------------------------------------------
  // Properties of a legal move
  // ---------------------------------------------------------------------------

  /** Apart from castling, the move made and the move the legality filter simulated agree on every square's occupant. */
  lemma MoveBoardMatchesSimulation(b: Grid, from: Pos, to: Pos, ep: EnPassant)
    requires InBounds(from) && InBounds(to) && EpWellFormed(ep) && !IsCastling(b, from, to)
    ensures SameShape(MoveBoard(b, from, to, ep), Simulate(b, from, to, ep))
  {
  }

  /**
    A move taken from the legal set never leaves the mover's king attacked
    (castling, which also relocates a rook, aside).
   */
  lemma LegalMoveLeavesKingSafe(g: Game, to: Pos)
    requires InBounds(g.selected) && EpWellFormed(g.ep) && LogWellFormed(g.history)
    requires to in LegalMoves(g.board, g.selected, g.ep) && !IsCastling(g.board, g.selected, to)
    ensures !IsInCheck(MovePiece(g, to).board, At(g.board, g.selected).color)
  {
    var from := g.selected;
    MoveBoardMatchesSimulation(g.board, from, to, g.ep);
    IsInCheckShape(MoveBoard(g.board, from, to, g.ep), Simulate(g.board, from, to, g.ep), At(g.board, from).color);
  }

  /** A legal two-row pawn move passes over an empty square straight ahead of its start. */
  lemma DoublePushPassesEmptySquare(b: Grid, from: Pos, to: Pos, ep: EnPassant)
    requires InBounds(from) && EpWellFormed(ep) && to in LegalMoves(b, from, ep)
    requires At(b, from).kind == Pawn && Abs(to.row - from.row) == 2
    ensures to == Pos(from.row + 2 * PawnDir(At(b, from).color), from.col)
    ensures InBounds(Pos(from.row + PawnDir(At(b, from).color), from.col))
    ensures IsEmpty(b, Pos(from.row + PawnDir(At(b, from).color), from.col))
  {
    LegalAreCandidates(b, from, ep, to);
    PawnTargetsMeaning(b, from, At(b, from).color, ep, to);
  }

  /** A two-row pawn push over an empty square leaves an en-passant pair that describes the new board. */
  lemma DoublePushSetsConsistentEp(b: Grid, from: Pos, to: Pos, ep: EnPassant)
    requires InBounds(from) && InBounds(to) && EpWellFormed(ep) && At(b, from).kind == Pawn
    requires to == Pos(from.row + 2 * PawnDir(At(b, from).color), from.col)
    requires InBounds(Pos(from.row + PawnDir(At(b, from).color), from.col))
    requires IsEmpty(b, Pos(from.row + PawnDir(At(b, from).color), from.col))
    ensures EpConsistent(MoveBoard(b, from, to, ep), NextEnPassant(At(b, from), from, to))
  {
    var mover := At(b, from);
    var mid := Pos(from.row + PawnDir(mover.color), from.col);
    var r := MoveBoard(b, from, to, ep);
    assert NextEnPassant(mover, from, to) == EnPassant(mid, to);
    assert At(r, to) == mover.(hasMoved := true);
    assert !IsCastling(b, from, to);
    if IsEnPassantMove(b, from, to, ep) && ep.pawn == mid {
      assert At(r, mid) == EmptySquare;
    } else {
      assert At(r, mid) == At(b, mid);
    }
  }

  /** The en-passant pair a legal move sets describes the board the move leaves. */
  lemma LegalMoveSetsConsistentEp(b: Grid, from: Pos, to: Pos, ep: EnPassant)
    requires InBounds(from) && EpWellFormed(ep) && to in LegalMoves(b, from, ep)
    ensures InBounds(to)
    ensures EpConsistent(MoveBoard(b, from, to, ep), NextEnPassant(At(b, from), from, to))
  {
    var mover := At(b, from);
    if mover.kind == Pawn && Abs(to.row - from.row) == 2 {
      DoublePushPassesEmptySquare(b, from, to, ep);
      DoublePushSetsConsistentEp(b, from, to, ep);
    } else {
      assert NextEnPassant(mover, from, to) == NoEnPassant;
    }
  }

  /** A legal move keeps the en-passant pair describing the position. */
  lemma LegalMoveKeepsEpConsistent(g: Game, to: Pos)
    requires InBounds(g.selected) && Consistent(g)
    requires to in LegalMoves(g.board, g.selected, g.ep)
    ensures Consistent(MovePiece(g, to))
  {
    LegalMoveSetsConsistentEp(g.board, g.selected, to, g.ep);
  }

  /** After a sole king's move the scan finds the king on its destination. */
  lemma KingMoveFindsKingOnBoard(b: Grid, from: Pos, to: Pos, ep: EnPassant)
    requires InBounds(from) && InBounds(to) && EpWellFormed(ep)
    requires to != from && At(b, from).kind == King
    requires forall q | InBounds(q) && q != from :: !IsKingOf(b, q, At(b, from).color)
    ensures FindKing(MoveBoard(b, from, to, ep), At(b, from).color) == to
  {
    var c := At(b, from).color;
    var r := MoveBoard(b, from, to, ep);
    forall q | InBounds(q) && q != to
      ensures !IsKingOf(r, q, c)
    {
      if IsCastling(b, from, to) && q == RookTo(from, to) && q != from {
        assert RookFrom(from, to) != from;
      }
    }
    FindKingOfSoleKing(r, to, c);
  }

  /** MovePiece of a sole king: the scan finds it on its destination. */
  lemma KingMoveFindsKing(g: Game, to: Pos)
    requires InBounds(g.selected) && InBounds(to) && EpWellFormed(g.ep) && LogWellFormed(g.history)
    requires to != g.selected && At(g.board, g.selected).kind == King
    requires forall q | InBounds(q) && q != g.selected :: !IsKingOf(g.board, q, At(g.board, g.selected).color)
    ensures FindKing(MovePiece(g, to).board, At(g.board, g.selected).color) == to
  {
    KingMoveFindsKingOnBoard(g.board, g.selected, to, g.ep);
  }

  /**
    The cached king square after a king move: MovePiece leaves it on the
    square the king left, which is now empty, while the scan finds the king
    elsewhere.
   */
  lemma KingCacheGoesStale(g: Game, to: Pos)
    requires InBounds(g.selected) && InBounds(to) && EpWellFormed(g.ep) && LogWellFormed(g.history)
    requires to != g.selected && At(g.board, g.selected).kind == King
    requires forall q | InBounds(q) && q != g.selected :: !IsKingOf(g.board, q, At(g.board, g.selected).color)
    requires FindKingCached(g.whiteKing, g.blackKing, At(g.board, g.selected).color) == g.selected
    ensures var r := MovePiece(g, to);
      var c := At(g.board, g.selected).color;
      && FindKingCached(r.whiteKing, r.blackKing, c) == g.selected
      && At(r.board, g.selected) == EmptySquare
      && FindKingCached(r.whiteKing, r.blackKing, c) != FindKing(r.board, c)
  {
    KingMoveFindsKing(g, to);
  }

  // ---------------------------------------------------------------------------
  // HandlePromotion
  // ---------------------------------------------------------------------------

  /** The promotion panel's options, left to right. */
  const PromotionChoices: seq<PieceKind> := [Queen, Rook, Bishop, Knight]

  /**
    The state changes of HandlePromotion once option `choice` is picked: the
    pawn on the promotion square takes the chosen kind, the move is logged as a
    pawn promotion of that pawn's colour, the turn passes, the promotion fields
    are cleared and the status is recomputed.
   */
  function HandlePromotion(g: Game, choice: int): (r: Game)
    requires 0 <= choice < 4
    requires InBounds(g.promotionPos) && InBounds(g.promotionFrom) && EpWellFormed(g.ep) && LogWellFormed(g.history)
    ensures LogWellFormed(r.history) && r.ep == g.ep
    ensures At(r.board, g.promotionPos) == At(g.board, g.promotionPos).(kind := PromotionChoices[choice])
    ensures forall q | InBounds(q) && q != g.promotionPos :: At(r.board, q) == At(g.board, q)
    ensures r.turn == Opponent(g.turn) && r.status == StatusOf(r.board, r.turn, r.ep)
    ensures r.promotionPos == InvalidPos && r.promotionFrom == InvalidPos
    ensures |g.history| < MaxMoves ==> |r.history| == |g.history| + 1 && r.history[..|g.history|] == g.history
    ensures |g.history| >= MaxMoves ==> r.history == g.history
  {
    var kind := PromotionChoices[choice];
    var pawn := At(g.board, g.promotionPos);
    var b := Put(g.board, g.promotionPos, pawn.(kind := kind));
    var turn := Opponent(g.turn);
    var status := StatusOf(b, turn, g.ep);
    var h := LogMove(g.history, b, g.promotionFrom, g.promotionPos, Pawn, pawn.color, g.promotionWasCapture,
                     false, false, false, true, kind, status == Check || status == Checkmate, status == Checkmate);
    g.(board := b, turn := turn, status := status, promotionPos := InvalidPos, promotionFrom := InvalidPos,
       history := h)
  }

  /**
    HandlePromotion of the single-file revision, after the click has picked a
    panel entry: the pawn takes the chosen kind, the turn passes, the promotion
    square is cleared and the status recomputed. Nothing is logged and the
    saved origin is not touched.
   */
  function MainHandlePromotion(g: Game, choice: int): Game
    requires 0 <= choice < 4 && InBounds(g.promotionPos) && EpWellFormed(g.ep)
  {
    var b := Put(g.board, g.promotionPos, At(g.board, g.promotionPos).(kind := PromotionChoices[choice]));
    var turn := if g.turn == White then Black else White;
    g.(board := b, turn := turn, promotionPos := InvalidPos, status := StatusOf(b, turn, g.ep))
  }

  /** Both revisions complete a promotion with the same board, turn, status and promotion square; only the log differs. */
  lemma MainHandlePromotionAgrees(g: Game, choice: int)
    requires 0 <= choice < 4
    requires InBounds(g.promotionPos) && InBounds(g.promotionFrom) && EpWellFormed(g.ep) && LogWellFormed(g.history)
    ensures var m := MainHandlePromotion(g, choice);
      var r := HandlePromotion(g, choice);
      && m.board == r.board && m.turn == r.turn && m.status == r.status && m.ep == r.ep
      && m.promotionPos == r.promotionPos && m.selected == r.selected && m.validMoves == r.validMoves
      && m.history == g.history && m.promotionFrom == g.promotionFrom
  {
  }

  /** The log entry of a promotion names the pawn's move, the chosen kind, and the status it produced. */
  lemma HandlePromotionRecordsTheMove(g: Game, choice: int)
    requires 0 <= choice < 4
    requires InBounds(g.promotionPos) && InBounds(g.promotionFrom) && EpWellFormed(g.ep) && LogWellFormed(g.history)
    requires |g.history| < MaxMoves
    ensures var r := HandlePromotion(g, choice);
      var m := r.history[|g.history|];
      && m.from == g.promotionFrom && m.to == g.promotionPos && m.pieceType == Pawn
      && m.color == At(g.board, g.promotionPos).color
      && m.isPromotion && m.promotedTo == PromotionChoices[choice] && m.isCapture == g.promotionWasCapture
      && !m.isEnPassant && !m.isCastleKingside && !m.isCastleQueenside
      && m.givesCheck == (r.status == Check || r.status == Checkmate) && m.givesCheckmate == (r.status == Checkmate)
  {
  }

  /**
    A pawn move to the last rank followed by the promotion choice completes the
    move: the destination holds the chosen piece of the mover's colour, the
    origin is empty, the other side is to move, and the log gains exactly one
    promotion record for the move.
   */
  lemma PromotionCompletesTheMove(g: Game, to: Pos, choice: int)
    requires InBounds(g.selected) && InBounds(to) && EpWellFormed(g.ep) && LogWellFormed(g.history)
    requires ReachesLastRank(At(g.board, g.selected), to) && to != g.selected
    requires 0 <= choice < 4 && |g.history| < MaxMoves
    ensures var p := MovePiece(g, to);
      var r := HandlePromotion(p, choice);
      var mover := At(g.board, g.selected);
      && At(r.board, to) == Piece(PromotionChoices[choice], mover.color, true)
      && At(r.board, g.selected) == EmptySquare
      && r.turn == Opponent(g.turn)
      && |r.history| == |g.history| + 1 && r.history[..|g.history|] == g.history
      && r.history[|g.history|].from == g.selected && r.history[|g.history|].to == to
      && r.history[|g.history|].color == mover.color
      && r.history[|g.history|].promotedTo == PromotionChoices[choice]
  {
  }
}
