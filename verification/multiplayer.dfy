/**
  The move gating of a networked game (multiplayer.c): which side the local
  player controls, when a local move is sent to the peer, and how a move
  received from the peer is checked and played on the local game.

  The C globals multiplayerRole, localPlayerColor, isMultiplayerGame and
  processingRemoteMove are the fields of a Session; the game they gate is an
  Engine.Game. The network itself is the Wire module plus a `connected` flag.
 */
module Multiplayer {
  import opened Types
  import opened Board
  import opened Moves
  import opened History
  import opened Engine
  import opened Wire

  datatype Role = RoleNone | Host | Guest

  datatype Session = Session(role: Role, localColor: Color, isMultiplayer: bool, processingRemote: bool)

  /** The session of InitMultiplayer and ResetMultiplayer: no role, no colour, a local game. */
  const NoSession: Session := Session(RoleNone, NoColor, false, false)

  /** InitMultiplayer, without the network start-up and callback registration. */
  function InitMultiplayer(): (s: Session)
    ensures s.role == RoleNone && s.localColor == NoColor && !s.isMultiplayer && !s.processingRemote
  {
    NoSession
  }

  /** ResetMultiplayer, without the disconnect: every field back to its initial value, whatever came before. */
  function ResetMultiplayer(s: Session): (r: Session)
    ensures r == InitMultiplayer()
  {
    NoSession
  }

  /**
    StartMultiplayerGame: the session becomes networked, the host takes White
    and the guest Black (without a role the colour is left as it was), and the
    game starts from InitBoard. The clock is not modelled.
   */
  function StartMultiplayerGame(s: Session, g: Game): (r: (Session, Game))
    ensures r.0.isMultiplayer && r.0.role == s.role && r.0.processingRemote == s.processingRemote
    ensures s.role == Host ==> r.0.localColor == White
    ensures s.role == Guest ==> r.0.localColor == Black
    ensures s.role == RoleNone ==> r.0.localColor == s.localColor
    ensures r.1.board == InitialBoard() && r.1.turn == White && r.1.history == [] && r.1.status == Playing
  {
    var color := match s.role
      case Host => White
      case Guest => Black
      case RoleNone => s.localColor;
    (s.(isMultiplayer := true, localColor := color), InitBoard(g))
  }

  /** IsLocalPlayerTurn: always in a local game, otherwise when the side to move is the local colour. */
  function IsLocalPlayerTurn(s: Session, turn: Color): (r: bool)
  {
    !s.isMultiplayer || turn == s.localColor
  }

  /**
    Host and guest of a started game never both have the move nor both wait:
    for either colour to move exactly one of them may play, and the host moves
    first.
   */
  lemma HostAndGuestAlternate(s: Session, t: Session, g: Game, turn: Color)
    requires s.role == Host && t.role == Guest && turn != NoColor
    ensures var host := StartMultiplayerGame(s, g).0;
      var guest := StartMultiplayerGame(t, g).0;
      && IsLocalPlayerTurn(host, turn) != IsLocalPlayerTurn(guest, turn)
      && IsLocalPlayerTurn(host, StartMultiplayerGame(s, g).1.turn)
      && IsLocalPlayerTurn(host, turn) != IsLocalPlayerTurn(host, Opponent(turn))
  {
  }

  /** A session outside a networked game lets the local player move either colour. */
  lemma LocalGameIsAlwaysYourTurn(s: Session, turn: Color)
    requires !s.isMultiplayer
    ensures IsLocalPlayerTurn(s, turn) && IsLocalPlayerTurn(ResetMultiplayer(s), turn)
  {
  }

  /**
    HandleLocalMove: the move is sent only in a networked game, when no remote
    move is being played and the local side has the move; what goes out is the
    packed move message, which the peer reads back as the same coordinates.
   */
  function HandleLocalMove(s: Session, turn: Color, connected: bool,
                           fromRow: int, fromCol: int, toRow: int, toCol: int, promotion: int): (sent: Option<seq<Byte>>)
    ensures sent.Some? <==> s.isMultiplayer && !s.processingRemote && turn == s.localColor && connected
    ensures sent.Some? ==>
      OnRecv(sent.value, true) == Some(MoveFields(fromRow % 256, fromCol % 256, toRow % 256, toCol % 256, promotion % 256))
  {
    if !s.isMultiplayer then None
    else if !s.processingRemote && IsLocalPlayerTurn(s, turn) then
      var sent := SendMove(connected, fromRow, fromCol, toRow, toCol, promotion);
      if sent.Some? then ReceiveSent(connected, fromRow, fromCol, toRow, toCol, promotion); sent else sent
    else None
  }

  /** The destinations CalculateValidMoves marks for a square; an origin off the board marks nothing. */
  function RemoteMarks(g: Game, from: Pos): (marks: set<Pos>)
    requires EpWellFormed(g.ep)
    ensures marks != {} ==> InBounds(from)
    ensures InBounds(from) ==> marks == LegalMoves(g.board, from, g.ep)
  {
    if InBounds(from) then LegalMoves(g.board, from, g.ep) else {}
  }

  /**
    The game after a received move passes the guards, as the source writes it:
    the origin is selected and its moves computed; a marked destination is
    played with MovePiece and, if that paused for a promotion and a piece code
    was sent, the pawn takes the sent kind and the move is logged as a pawn
    capture of the colour opposite the side to move, with the turn left where
    it was. Nothing is played for an unmarked destination.
   */
  function PlayRemoteMove(g: Game, from: Pos, to: Pos, promotion: int): (r: Game)
    requires EpWellFormed(g.ep) && LogWellFormed(g.history) && promotion <= 6
    ensures EpWellFormed(r.ep) && LogWellFormed(r.history)
    ensures to !in RemoteMarks(g, from) ==>
      r == g.(selected := from, validMoves := RemoteMarks(g, from))
  {
    var marks := RemoteMarks(g, from);
    if to !in marks then g.(selected := from, validMoves := marks)
    else
      var moved := MovePiece(g.(selected := from, validMoves := marks), to);
      if moved.status == Promoting && promotion > 0 then
        var kind := KindOfCode(promotion).value;
        var b := Put(moved.board, to, At(moved.board, to).(kind := kind));
        var status := StatusOf(b, moved.turn, moved.ep);
        var h := LogMove(moved.history, b, from, to, Pawn, Opponent(moved.turn), true, false, false, false, true, kind,
                         status == Check || status == Checkmate, status == Checkmate);
        moved.(board := b, status := status, history := h)
      else moved
  }

  /**
    The game after a received move passes the guards, with a sent promotion
    completed as the local promotion panel completes it: the pawn takes the
    sent kind, the move is logged with the pawn's colour and whether it
    captured, the turn passes, and the promotion fields are cleared.
   */
  function PlayRemoteMoveCorrected(g: Game, from: Pos, to: Pos, promotion: int): (r: Game)
    requires EpWellFormed(g.ep) && LogWellFormed(g.history) && promotion <= 6
    ensures EpWellFormed(r.ep) && LogWellFormed(r.history)
    ensures to !in RemoteMarks(g, from) ==>
      r == g.(selected := from, validMoves := RemoteMarks(g, from))
    ensures r.status == Promoting ==> r.turn == g.turn && r.history == g.history
  {
    var marks := RemoteMarks(g, from);
    if to !in marks then g.(selected := from, validMoves := marks)
    else
      var moved := MovePiece(g.(selected := from, validMoves := marks), to);
      if moved.status == Promoting && promotion > 0 then
        var kind := KindOfCode(promotion).value;
        var pawn := At(moved.board, to);
        var b := Put(moved.board, to, pawn.(kind := kind));
        var turn := Opponent(moved.turn);
        var status := StatusOf(b, turn, moved.ep);
        var h := LogMove(moved.history, b, from, to, Pawn, pawn.color, moved.promotionWasCapture,
                         false, false, false, true, kind, status == Check || status == Checkmate, status == Checkmate);
        moved.(board := b, turn := turn, status := status, promotionPos := InvalidPos, promotionFrom := InvalidPos,
               history := h)
      else moved
  }

  /**
    ProcessRemoteMove: ignored outside a networked game and while the local
    side has the move; otherwise the move is played as PlayRemoteMove says
    under the processing flag, and the selection and the marks are cleared.
   */
  function ProcessRemoteMove(s: Session, g: Game, fromRow: int, fromCol: int, toRow: int, toCol: int,
                             promotion: int): (r: (Session, Game))
    requires EpWellFormed(g.ep) && LogWellFormed(g.history) && promotion <= 6
    ensures EpWellFormed(r.1.ep) && LogWellFormed(r.1.history)
    ensures !s.isMultiplayer || IsLocalPlayerTurn(s, g.turn) ==> r == (s, g)
    ensures s.isMultiplayer && !IsLocalPlayerTurn(s, g.turn) ==>
      && r.0 == s.(processingRemote := false)
      && r.1.selected == InvalidPos && r.1.validMoves == {}
  {
    if !s.isMultiplayer || IsLocalPlayerTurn(s, g.turn) then (s, g)
    else
      var played := PlayRemoteMove(g, Pos(fromRow, fromCol), Pos(toRow, toCol), promotion);
      (s.(processingRemote := false), played.(selected := InvalidPos, validMoves := {}))
  }

  /** ProcessRemoteMove with the received promotion completed as PlayRemoteMoveCorrected completes it. */
  function ProcessRemoteMoveCorrected(s: Session, g: Game, fromRow: int, fromCol: int, toRow: int, toCol: int,
                                      promotion: int): (r: (Session, Game))
    requires EpWellFormed(g.ep) && LogWellFormed(g.history) && promotion <= 6
    ensures EpWellFormed(r.1.ep) && LogWellFormed(r.1.history)
    ensures !s.isMultiplayer || IsLocalPlayerTurn(s, g.turn) ==> r == (s, g)
    ensures s.isMultiplayer && !IsLocalPlayerTurn(s, g.turn) ==>
      && r.0 == s.(processingRemote := false)
      && r.1.selected == InvalidPos && r.1.validMoves == {}
  {
    if !s.isMultiplayer || IsLocalPlayerTurn(s, g.turn) then (s, g)
    else
      var played := PlayRemoteMoveCorrected(g, Pos(fromRow, fromCol), Pos(toRow, toCol), promotion);
      (s.(processingRemote := false), played.(selected := InvalidPos, validMoves := {}))
  }

  /**
    The two revisions differ only in a received promotion that carries a
    piece code: every other received move leaves the same session and game.
   */
  lemma CorrectionOnlyTouchesPromotion(s: Session, g: Game, fromRow: int, fromCol: int, toRow: int, toCol: int,
                                       promotion: int)
    requires EpWellFormed(g.ep) && LogWellFormed(g.history) && promotion <= 6
    requires Pos(toRow, toCol) !in RemoteMarks(g, Pos(fromRow, fromCol)) || promotion <= 0
          || !ReachesLastRank(At(g.board, Pos(fromRow, fromCol)), Pos(toRow, toCol))
    ensures ProcessRemoteMoveCorrected(s, g, fromRow, fromCol, toRow, toCol, promotion)
         == ProcessRemoteMove(s, g, fromRow, fromCol, toRow, toCol, promotion)
  {
    var from := Pos(fromRow, fromCol);
    var to := Pos(toRow, toCol);
    if s.isMultiplayer && !IsLocalPlayerTurn(s, g.turn) && to in RemoteMarks(g, from) {
      var moved := MovePiece(g.(selected := from, validMoves := RemoteMarks(g, from)), to);
      assert moved.status == Promoting ==> ReachesLastRank(At(g.board, from), to);
    }
  }

  /** A received move to an unmarked square changes nothing in the game but the selection and the marks. */
  lemma InvalidRemoteMoveChangesNothing(s: Session, g: Game, fromRow: int, fromCol: int, toRow: int, toCol: int,
                                        promotion: int)
    requires EpWellFormed(g.ep) && LogWellFormed(g.history) && promotion <= 6
    requires s.isMultiplayer && !IsLocalPlayerTurn(s, g.turn)
    requires Pos(toRow, toCol) !in RemoteMarks(g, Pos(fromRow, fromCol))
    ensures var r := ProcessRemoteMove(s, g, fromRow, fromCol, toRow, toCol, promotion);
      && r.1 == g.(selected := InvalidPos, validMoves := {})
      && r.1.board == g.board && r.1.turn == g.turn && r.1.history == g.history
  {
  }

  /**
    A legal remote move that does not promote is played exactly as a local
    selection followed by MovePiece would play it, whatever the colour of the
    piece on the origin: the board is updated and the turn passes.
   */
  lemma LegalRemoteMoveIsPlayed(s: Session, g: Game, fromRow: int, fromCol: int, toRow: int, toCol: int,
                                promotion: int)
    requires EpWellFormed(g.ep) && LogWellFormed(g.history) && promotion <= 6
    requires s.isMultiplayer && !IsLocalPlayerTurn(s, g.turn)
    requires Pos(toRow, toCol) in RemoteMarks(g, Pos(fromRow, fromCol))
    requires !ReachesLastRank(At(g.board, Pos(fromRow, fromCol)), Pos(toRow, toCol))
    ensures InBounds(Pos(fromRow, fromCol))
    ensures var from := Pos(fromRow, fromCol);
      var to := Pos(toRow, toCol);
      var r := ProcessRemoteMove(s, g, fromRow, fromCol, toRow, toCol, promotion);
      && r.1 == MovePiece(g.(selected := from, validMoves := LegalMoves(g.board, from, g.ep)), to)
      && r.1.board == MoveBoard(g.board, from, to, g.ep)
      && r.1.turn == Opponent(g.turn)
  {
  }

  /**
    As written, a remote pawn move to the last rank with a piece code leaves
    the turn with the side that just moved, and logs the move as a capture by
    the other colour, which is the local player's: after a guest receives the
    host's promotion, the host is still to move on the guest's board and the
    guest may not move.
   */
  lemma RemotePromotionKeepsTurn(s: Session, g: Game, from: Pos, to: Pos, promotion: int)
    requires EpWellFormed(g.ep) && LogWellFormed(g.history) && 0 < promotion <= 6
    requires s.isMultiplayer && !IsLocalPlayerTurn(s, g.turn) && s.localColor != NoColor && g.turn != NoColor
    requires to in RemoteMarks(g, from) && At(g.board, from).color == g.turn
    requires ReachesLastRank(At(g.board, from), to)
    requires |g.history| < MaxMoves
    ensures InBounds(from)
    ensures var r := ProcessRemoteMove(s, g, from.row, from.col, to.row, to.col, promotion).1;
      var m := r.history[|g.history|];
      && r.turn == g.turn && r.status != Promoting
      && !IsLocalPlayerTurn(s, r.turn)
      && At(r.board, to).kind == KindOfCode(promotion).value
      && |r.history| == |g.history| + 1 && r.history[..|g.history|] == g.history
      && m.from == from && m.to == to && m.pieceType == Pawn && m.isPromotion && m.isCapture
      && m.color == s.localColor && m.color != At(g.board, from).color
  {
    var moved := MovePiece(g.(selected := from, validMoves := LegalMoves(g.board, from, g.ep)), to);
    assert moved.status == Promoting && moved.turn == g.turn && moved.history == g.history;
  }

  /**
    With the correction, a remote promotion to one of the panel's pieces leaves the local game
    exactly where the local promotion panel would have left it after the same
    pawn move.
   */
  lemma RemotePromotionMatchesLocal(s: Session, g: Game, fromRow: int, fromCol: int, toRow: int, toCol: int,
                                    choice: int)
    requires EpWellFormed(g.ep) && LogWellFormed(g.history) && 0 <= choice < 4
    requires s.isMultiplayer && !IsLocalPlayerTurn(s, g.turn)
    requires Pos(toRow, toCol) in RemoteMarks(g, Pos(fromRow, fromCol))
    requires ReachesLastRank(At(g.board, Pos(fromRow, fromCol)), Pos(toRow, toCol))
    ensures InBounds(Pos(fromRow, fromCol)) && 0 < KindCode(PromotionChoices[choice]) <= 6
    ensures var from := Pos(fromRow, fromCol);
      var moved := MovePiece(g.(selected := from, validMoves := LegalMoves(g.board, from, g.ep)), Pos(toRow, toCol));
      ProcessRemoteMoveCorrected(s, g, fromRow, fromCol, toRow, toCol, KindCode(PromotionChoices[choice])).1
      == HandlePromotion(moved, choice)
  {
    KindCodeRoundTrip(PromotionChoices[choice]);
  }

  /**
    With the correction, a remote pawn move to the last rank with a piece code completes the move:
    the pawn becomes the sent kind, the other side is to move, and the log
    gains one promotion record with the pawn's colour and whether it captured.
   */
  lemma RemotePromotionPassesTurn(s: Session, g: Game, fromRow: int, fromCol: int, toRow: int, toCol: int,
                                  promotion: int)
    requires EpWellFormed(g.ep) && LogWellFormed(g.history) && 0 < promotion <= 6
    requires s.isMultiplayer && !IsLocalPlayerTurn(s, g.turn)
    requires Pos(toRow, toCol) in RemoteMarks(g, Pos(fromRow, fromCol))
    requires ReachesLastRank(At(g.board, Pos(fromRow, fromCol)), Pos(toRow, toCol))
    requires |g.history| < MaxMoves
    ensures InBounds(Pos(fromRow, fromCol))
    ensures var from := Pos(fromRow, fromCol);
      var to := Pos(toRow, toCol);
      var r := ProcessRemoteMoveCorrected(s, g, fromRow, fromCol, toRow, toCol, promotion).1;
      var m := r.history[|g.history|];
      && r.turn == Opponent(g.turn) && r.status == StatusOf(r.board, r.turn, r.ep)
      && At(r.board, to) == Piece(KindOfCode(promotion).value, At(g.board, from).color, true)
      && At(r.board, from) == EmptySquare
      && r.promotionPos == InvalidPos && r.promotionFrom == InvalidPos
      && |r.history| == |g.history| + 1 && r.history[..|g.history|] == g.history
      && m.from == from && m.to == to && m.pieceType == Pawn && m.color == At(g.board, from).color
      && m.isPromotion && m.promotedTo == KindOfCode(promotion).value
      && m.isCapture == (!IsEmpty(g.board, to) || IsEnPassantMove(g.board, from, to, g.ep))
  {
    var from := Pos(fromRow, fromCol);
    var to := Pos(toRow, toCol);
    var moved := MovePiece(g.(selected := from, validMoves := LegalMoves(g.board, from, g.ep)), to);
    assert moved.status == Promoting && moved.turn == g.turn && moved.history == g.history;
    assert At(moved.board, to) == At(g.board, from).(hasMoved := true);
  }

  /** Without a piece code the remote pawn waits on the last rank: the game stays paused and nothing is logged. */
  lemma RemotePromotionWithoutCodePauses(s: Session, g: Game, fromRow: int, fromCol: int, toRow: int, toCol: int,
                                         promotion: int)
    requires EpWellFormed(g.ep) && LogWellFormed(g.history) && promotion <= 0
    requires s.isMultiplayer && !IsLocalPlayerTurn(s, g.turn)
    requires Pos(toRow, toCol) in RemoteMarks(g, Pos(fromRow, fromCol))
    requires ReachesLastRank(At(g.board, Pos(fromRow, fromCol)), Pos(toRow, toCol))
    ensures var r := ProcessRemoteMove(s, g, fromRow, fromCol, toRow, toCol, promotion).1;
      && r.status == Promoting && r.turn == g.turn && r.history == g.history
      && r.promotionPos == Pos(toRow, toCol) && r.promotionFrom == Pos(fromRow, fromCol)
  {
  }
}
