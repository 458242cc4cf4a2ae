# Chess rules engine — a Dafny model

This project models the rules core of a two-player chess game written in C:
- the 8×8 board and its initial position (`board.c`, `types.h`);
- attack and check detection (`check.c`);
- move generation, move execution, castling, en passant and promotion (`moves.c`, and the rules half of the single-file revision `main.c`);
- the move log with its algebraic notation (`history.c`);
- the base64 codec and the six-byte move message of the network layer (`network.c`);
- the gating of local and received moves in a networked game (`multiplayer.c`).

The C program keeps its state in globals: the board array, the side to move, the selection, the valid-move marks, the en passant squares, the promotion squares, the cached king squares and the history array. The model gathers them into one immutable value, `Engine.Game`, and every C routine that mutates them becomes a pure function from one `Game` to the next. Other representations:
- The board is an 8×8 `seq<seq<Piece>>` (`Board.Grid`).
- The valid-move marks are a `set<Pos>`.
- The log is a `seq<MoveRecord>` capped at `MAX_MOVES` = 256.
- Bytes are `bv8`.

Modules and files:

| file | module | what it holds |
|---|---|---|
| `types.dfy` | `Types` | piece kinds and colours with their C codes, positions, game states, direction tables, `OPPONENT_COLOR` |
| `board.dfy` | `Board` | board access, the initial position, `FindKing` (board scan and cached squares) |
| `attack.dfy` | `Attack` | `IsSquareAttacked`, `IsInCheck`, and a geometric reference definition of "attacked" |
| `moves.dfy` | `Moves` | pseudo-legal targets per piece, `WouldBeInCheck`, legal moves, `HasLegalMoves`, `UpdateGameState` |
| `execute.dfy` | `Engine` | the game state, `InitBoard`, `MovePiece`, `HandlePromotion`, and what a legal move preserves |
| `probe.dfy` | `Probe` | the in-place algorithms on a mutable 8×8 array: `WouldBeInCheck` (simulate and restore), `CalculateValidMoves`, `HasLegalMoves` |
| `history.dfy` | `History` | square and piece letters, `CanPieceReachSquare`, disambiguation, `GenerateMoveNotation`, a notation parser used as its inverse, `RecordMove`, `UpdateLastMoveStatus` |
| `base64.dfy` | `Base64` | `base64_encode`, `base64_decode` and their round trip |
| `wire.dfy` | `Wire` | the `MoveMessage` packing of `NetworkSendMove` and its reading in `on_recv` |
| `multiplayer.dfy` | `Multiplayer` | roles and colours, `IsLocalPlayerTurn`, `HandleLocalMove`, `ProcessRemoteMove` |

## Model

Each operation has a partner: an independent reference definition, an inverse, or the other revision of the same routine. Lemmas connect the two.
- **Attacks:** the scan predicates of `check.c` are proved equal to geometric reference predicates.
- **Legal moves:** move generation is proved to follow each piece's movement pattern.
- **Notation:** the notation generator is proved to be inverted by a parser.
- **Base64:** decoding inverts encoding.
- **Move message:** the receiver reads back what the sender packed.
- **`main.c` revision:** where the single-file revision writes a routine differently, it is proved to agree with the modular one.

| member | source | states |
|---|---|---|
| Types.OpponentSwaps | types.h:117 | `OPPONENT_COLOR` swaps White and Black, is an involution on real colours, and maps `COLOR_NONE` to White |
| Types.KindOfCode | types.h:75-83 | the integer codes 0..6 are exactly the piece kinds, and decoding a code gives back a kind with that code |
| Types.ColorOfCode | types.h:85 | the integer codes 0..2 are exactly the colours |
| Types.KindCodeRoundTrip | types.h:75-83 | every piece kind survives the trip through its integer code |
| Types.ZeroPieceIsEmpty | types.h:87-91 | the all-zero piece is the empty square: no kind, no colour, not moved |
| Types.RookDirectionsAreOrthogonalSteps | types.h:123 | the rook table holds exactly the four orthogonal unit steps |
| Types.BishopDirectionsAreDiagonalSteps | types.h:124 | the bishop table holds exactly the four diagonal unit steps |
| Types.KingStepsAreTheNeighbours | moves.c:97-103 | the king's step offsets, taken in the order of the nested `dr`/`dc` loops that skip (0,0), are exactly the eight unit steps, each once |
| Types.KnightMovesAreTheJumps | types.h:125-126 | the knight table holds the eight (±1,±2)/(±2,±1) jumps, each once |
| Board.IsValidPositionIsTheBoard | board.c:84-86 | a position is valid exactly when both coordinates are in 0..7; the invalid position (-1,-1) is off the board |
| Board.Put | moves.c:223-226 | writing one square changes that square and no other |
| Board.OccupancyTrichotomy | board.c:88-96 | every square is exactly one of empty, ally or enemy for a given colour |
| Board.InitialBoard | board.c:38-54 | the starting position: back ranks in the order R N B Q K B N R, pawns on ranks 2 and 7, the middle four rows empty, nothing moved |
| Board.InitialBoardsAgree | main.c:163-199 | the single-file revision sets up the same starting position |
| Board.FindKing | main.c:895-905 | the board scan returns the first king of the colour in row-major order, and (-1,-1) exactly when there is none |
| Board.FindKingOfSoleKing | main.c:895-905 | with a single king of the colour on the board, the scan finds that king |
| Board.FindKingCached | board.c:98-101 | the modular revision answers from the cached squares: White's for White, Black's for any other colour |
| Board.InitialKingsMatchCache | board.c:31-32 | the cached squares e1 and e8 hold the kings of the starting position, and the scan finds them there |
| Board.InitialKingSquares | board.c:39-54 | the starting position holds no other king |
| Attack.PawnAttackMatchesRef | check.c:38-47 | a pawn attacks a square exactly when it stands one row behind it, from the attacker's point of view, on an adjacent file |
| Attack.KnightAttackMatchesRef | check.c:49-57 | a knight attacks exactly the squares one knight jump away |
| Attack.KingAttackMatchesRef | check.c:59-71 | a king attacks exactly the eight neighbouring squares |
| Attack.RayAttackMatchesRef | check.c:15-34 | the ray walk finds an attacker exactly when the first occupied square along the ray holds an enemy rook (or bishop) or queen and every square before it is empty |
| Attack.SlidingAttackMatchesRef | check.c:15-34 | a sliding attack exists exactly when one of the four rays carries one |
| Attack.IsSquareAttackedMatchesRef | check.c:36-82 | `IsSquareAttacked` equals the geometric definition of "attacked by a pawn, knight, king, or sliding piece with a clear line" |
| Attack.IsInCheckMeaning | check.c:84-89 | a side is in check exactly when the king the scan finds is attacked by the opponent; with no king it is never in check |
| Attack.IsInCheckShape | check.c:84-89 | check depends only on each square's kind and colour, not on the has-moved flags |
| Moves.Simulate | check.c:95-126 | the trial move of `WouldBeInCheck` empties the origin, puts the mover on the destination, removes the pawn taken en passant, and leaves every other square alone |
| Moves.MainEnPassantAgrees | main.c:708-716 | the single-file revision offers en passant in exactly the same cases |
| Moves.PawnTargetsMeaning | moves.c:39-67 | the pawn's targets are exactly the ones listed next |
| Moves.PawnTargetsAhead | moves.c:39-67 | every pawn target lies ahead on the same or an adjacent file, and straight moves need an empty square |
| Moves.RayTargetsMeaning | moves.c:69-87 | a ray yields exactly the empty squares up to the first piece, plus that piece's square when it is not an ally |
| Moves.SlidingTargetsMeaning | moves.c:69-87 | a slider's targets are the union over its four rays |
| Moves.KnightTargetsMeaning | moves.c:89-93 | knight targets are exactly the knight jumps |
| Moves.KingStepTargetsMeaning | moves.c:95-104 | king steps are exactly the eight neighbours |
| Moves.CastleTargetsMeaning | moves.c:105-123 | castling targets are the g- and c-files of the king's row, each under the conditions listed next, and each is offered whenever those conditions hold |
| Moves.MainCastlingAgrees | main.c:785-810 | the single-file revision offers the same castling targets |
| Moves.LegalMoves | moves.c:27-33 | every marked destination is on the board, not an ally, and does not leave the mover's king in check; an empty origin has no moves |
| Moves.LegalMovesFollowPattern | moves.c:130-156 | every legal move follows its piece's pattern, as listed next |
| Moves.HasLegalMoves | check.c:153-181 | true exactly when some piece of the colour has a legal move |
| Moves.Evaluate | check.c:183-192 | checkmate is check with no moves, stalemate is no check and no moves, check is check with moves, playing is neither; never promoting |
| Moves.MainEvaluateAgrees | main.c:977-990 | the single-file revision classifies the position the same way |
| Moves.StatusOf | check.c:183-192 | the status of a position is the classification of "in check" and "has a legal move" for the side to move |
| Engine.InitBoard | board.c:56-77 | a new game: initial position, White to move, playing, nothing selected, no en passant or promotion pending, empty log, kings cached on e1/e8 |
| Engine.InitBoardIsConsistent | board.c:38-78 | the new game satisfies the invariants `MovePiece` relies on |
| Engine.InitBoardCachesTheKings | board.c:74-75 | the cached king squares of a new game are where the scan finds the kings |
| Engine.CastleRook | moves.c:202-215 | castling moves the rook from its corner to the square the king passes, marked as moved, and touches nothing else |
| Engine.MoveBoard | moves.c:195-226 | the board after a move, as listed next |
| Engine.NextEnPassant | moves.c:217-221 | en passant is offered exactly after a two-square pawn move, on the square it passed, for the pawn on its destination |
| Engine.MovePiece | moves.c:162-256 | a move to the last rank pauses for promotion, as listed next |
| Engine.MainMoveBoardAgrees | main.c:564-607 | the single-file revision's board updates give the same board |
| Engine.MainMovePieceAgrees | main.c:564-627 | the single-file revision gives the same board, en passant, turn, status, selection, marks and promotion square |
| Engine.MainHandlePromotionAgrees | main.c:541-548 | the single-file revision completes a promotion with the same board, turn, status, en passant and promotion square; it logs nothing and keeps the saved origin |
| Engine.MovePieceRecordsTheMove | moves.c:242-255 | the log entry of a move, as listed next |
| Engine.LegalMoveLeavesKingSafe | check.c:95-147 | after any legal non-castling move, the mover's king is not in check |
| Engine.DoublePushPassesEmptySquare | moves.c:44-50 | a legal two-square pawn move starts from the pawn row and passes an empty square |
| Engine.LegalMoveSetsConsistentEp | moves.c:217-221 | after a legal move, the en passant squares describe the board: an empty passed square behind a pawn of the mover |
| Engine.LegalMoveKeepsEpConsistent | moves.c:162-256 | a legal move preserves the game invariant |
| Engine.KingMoveFindsKing | moves.c:162-256 | after a king move, the board scan finds the king on its destination |
| Engine.KingCacheGoesStale | board.c:98-101 | after a king move, the cached square still names the origin, which is empty, and differs from the scan |
| Engine.HandlePromotion | ui.c:405-441 | the promotion choice is applied, as listed next |
| Engine.HandlePromotionRecordsTheMove | ui.c:420-437 | the promotion is logged as a pawn move from the promotion origin, with the pawn's colour, the chosen kind, the capture flag saved at the pause, and the new status as its check flags |
| Engine.PromotionCompletesTheMove | moves.c:228-240 | a pawn move to the last rank followed by a choice ends, as listed next |
| Probe.Contents | board.c:14 | the array and the immutable board describe the same squares |
| Probe.Store | check.c:124-126 | an in-place write to the array is `Board.Put` on the board it holds |
| Probe.ApplyTemporarily | check.c:97-126 | the in-place trial move turns the array into `Moves.Simulate` of the board, and saves what the restore needs |
| Probe.Restore | check.c:130-144 | the restore undoes the trial move and gives back the original board |
| Probe.WouldBeInCheckFrame | check.c:95-147 | the modular `WouldBeInCheck` answers as detailed next |
| Probe.MainWouldBeInCheckFrame | main.c:916-946 | the single-file `WouldBeInCheck` answers exactly `Moves.WouldBeInCheck` and leaves the board as it found it |
| Probe.FrameAgreesWithScan | check.c:111-122 | when the cache names the colour's sole king and en passant cannot remove it, the cached check test agrees with the scanning one |
| Probe.AddMoveIfValid | moves.c:27-33 | a square is marked when it was already marked or is a safe non-ally board square, and no other mark changes |
| Probe.CalculateValidMoves | moves.c:130-156 | the marks after the calculation are exactly the legal moves of the piece |
| Probe.AnyMarked | check.c:166-174 | true exactly when some board square is marked |
| Probe.TryPiece | check.c:158-174 | one step of the scan: true exactly when the square holds a piece of the colour with a legal move; such a piece becomes the selection and its legal moves the marks, and any other square leaves both as they were |
| Probe.HasLegalMovesScan | check.c:153-181 | the nested scan answers `Moves.HasLegalMoves`; it borrows the selection and the marks for each piece it tries, and on either return puts the selection back and clears the marks |
| Probe.NoneMovableHasNoMoves | check.c:153-181 | when no piece can move, the scan reports no legal moves |
| Probe.SomeMovableHasMoves | check.c:153-181 | one movable piece is enough for the scan to report legal moves |
| History.SquareLettersRoundTrip | history.c:35-37 | file and rank letters name columns a..h and rows 8..1 one-to-one |
| History.PieceLettersIdentifyKinds | history.c:39-54 | pawns and empty squares have no letter; every other kind has its own letter |
| History.CanReachIsLineOfSight | history.c:56-142 | a rook reaches a square exactly along a clear orthogonal line, a bishop along a clear diagonal, and a queen by either |
| History.DisambiguationMeaning | history.c:145-187 | corrected: the qualifier needed, as detailed next, with the mover skipped at its destination as well as its origin |
| History.AsWrittenDisambiguatesEveryRookAndQueenMove | history.c:156-165 | as written, every rook and queen move gets a qualifier, even with no rival; the corrected code gives none when there is no rival |
| History.BishopWalkReachesDiagonalTarget | history.c:89-106 | between two distinct squares on a diagonal, the bishop walk steps toward the target and meets it after as many steps as the rows differ |
| History.BishopSelfWalkLeavesBoard | history.c:89-106 | as written, asking whether a bishop reaches its own square walks by (-1,-1), never meets the square, and steps off the board after at most min(row, col) squares |
| History.Render | history.c:189-251 | the notation fits the 12-character buffer, and castling renders as `O-O` or `O-O-O` |
| History.RenderMarks | history.c:244-248 | the notation ends in `#` exactly for checkmate and in `+` exactly for a check that is not mate |
| History.NotationIgnoresStoredNotation | history.c:189-251 | the notation depends only on the move and the board, not on a previously stored notation |
| History.ParseRender | history.c:189-251 | parsing the generated notation gives back the piece letter, qualifier, capture mark, destination, promotion letter and check mark it was built from |
| History.NotationShowsTheMove | history.c:228-248 | the notation of a non-castling move determines its destination, its capture flag, whether it mates, and the kind of the piece moved |
| History.RecordMove | history.h:49-57 | a full log is left unchanged; otherwise one record is appended, as listed next |
| History.UpdateLastMoveStatus | history.c:287-297 | an empty log is unchanged; otherwise only the last record's check flags change, and its notation is regenerated to match |
| History.FullLogRewritesLastRecord | history.c:257-297 | as written, a move the full log cannot hold still overwrites the check flags of the last record it kept |
| History.LogMove | history.c:257-297 | the log entry of one move, as listed next |
| Base64.ValueOfAlphabet | network.c:40-41 | `base64_char_value` inverts the alphabet on its 64 characters |
| Base64.ValidIffInAlphabet | network.c:61-73 | a character has a value exactly when it is in the alphabet |
| Base64.Encode | network.c:43-59 | the output is a whole number of 4-character groups, fits the buffer with its NUL, is complete whenever the buffer allows, and contains no NUL |
| Base64.Decode | network.c:75-106 | the decoded length stays below the output buffer size |
| Base64.GroupRoundTrip | network.c:50-55 | splitting 24 bits into four 6-bit fields and joining them gives back the three bytes |
| Base64.DecodeEncode | network.c:43-106 | decoding what was encoded gives back the input, padded with zero bytes to a whole group, when both buffers are large enough |
| Base64.DecodeEncodeKeepsInput | network.c:43-106 | the decoded text starts with the original input and has at most two extra bytes |
| Wire.ByteOfValue | network.h:44-51 | a value 0..255 stored in an `unsigned char` field keeps its value |
| Wire.ToByte | network.c:395-412 | an `int` stored in an `unsigned char` field keeps its value modulo 256 |
| Wire.SendMove | network.c:395-412 | a move is sent exactly when connected, as a six-byte message whose type byte is `MSG_MOVE` |
| Wire.OnRecv | network.c:204-219 | a message is delivered exactly when it has at least six bytes, starts with `MSG_MOVE` and a callback is registered; each field is a byte value |
| Wire.ReceiveSent | network.c:204-219 | the receiver reads back each sent coordinate and the promotion code, modulo 256 |
| Wire.ReceiveSentSmall | network.c:204-219 | coordinates and codes in 0..255 arrive unchanged |
| Wire.TrailingBytesIgnored | network.c:204-219 | bytes after the first six do not change what is delivered |
| Multiplayer.InitMultiplayer | multiplayer.c:39-47 | a fresh session: no role, no colour, not networked, no remote move in progress |
| Multiplayer.ResetMultiplayer | multiplayer.c:67-73 | resetting gives the fresh session whatever the session was |
| Multiplayer.StartMultiplayerGame | multiplayer.c:49-65 | a networked game starts from the initial position, as detailed next |
| Multiplayer.HostAndGuestAlternate | multiplayer.c:80-85 | for either colour to move, exactly one of host and guest may play, the host plays first, and a player's permission flips with the turn |
| Multiplayer.LocalGameIsAlwaysYourTurn | multiplayer.c:80-85 | outside a networked game the local player may always move |
| Multiplayer.HandleLocalMove | multiplayer.c:87-97 | a local move is sent only in the cases listed next |
| Multiplayer.RemoteMarks | multiplayer.c:115-118 | the marks computed for a received origin are its legal moves; an origin off the board marks nothing |
| Multiplayer.ProcessRemoteMove | multiplayer.c:99-152 | as written: a received move is ignored outside a networked game or while the local side has the move; otherwise it is played and the selection and marks are cleared |
| Multiplayer.ProcessRemoteMoveCorrected | multiplayer.c:99-152 | the same gating and clearing, with a received promotion completed as the local panel completes it |
| Multiplayer.CorrectionOnlyTouchesPromotion | multiplayer.c:115-144 | the corrected and as-written routines agree on every received move except a promotion that carries a piece code |
| Multiplayer.InvalidRemoteMoveChangesNothing | multiplayer.c:121-123 | a received move to an unmarked square leaves board, turn and log unchanged |
| Multiplayer.LegalRemoteMoveIsPlayed | multiplayer.c:115-124 | a marked non-promoting remote move is played exactly as a local selection followed by `MovePiece`, whatever the colour on the origin |
| Multiplayer.RemotePromotionKeepsTurn | multiplayer.c:126-144 | as written, a received promotion leaves the mover on move and logs it under the local player's colour |
| Multiplayer.RemotePromotionPassesTurn | multiplayer.c:126-144 | corrected, a received promotion completes the move, as detailed next |
| Multiplayer.RemotePromotionMatchesLocal | multiplayer.c:126-144 | corrected, a received promotion to a panel piece leaves the game exactly as `HandlePromotion` would after the same pawn move |
| Multiplayer.RemotePromotionWithoutCodePauses | multiplayer.c:126-127 | a received promotion without a piece code leaves the game paused on the promotion, with nothing logged |

Details of the rows above that say "as listed next" or "as detailed next":
- **Moves.PawnTargetsMeaning:** the pawn's targets are exactly:
  - one step forward onto an empty square;
  - two steps from the start row through two empty squares;
  - a diagonal step onto an enemy;
  - the offered en passant square, when the pawn that double-stepped stands beside this one.
- **Moves.CastleTargetsMeaning:** each castling target requires all of the following:
  - the king has not moved and is not in check;
  - the corner rook is unmoved;
  - the squares between are empty;
  - the squares the king crosses are not attacked.
- **Moves.LegalMovesFollowPattern:** by piece:
  - a knight moves by a jump;
  - a king moves by a step, or to a castling square;
  - a pawn stays within one file and never stands still;
  - a rook moves along a clear orthogonal line, and a bishop along a clear diagonal.
- **Engine.MoveBoard:** the board after a move:
  - the origin is empty;
  - the mover stands on the destination, marked as moved;
  - the pawn taken en passant is removed;
  - the castling rook is moved;
  - every other square is unchanged.
- **Engine.MovePiece:** a move to the last rank pauses for promotion:
  - the turn stays, nothing is logged, and the promotion squares and capture flag are saved.
  
  Any other move:
  - is logged when the log has room;
  - passes the turn;
  - sets the status of the new position.
  
  In both cases:
  - the board is `MoveBoard` and the en passant squares are `NextEnPassant`;
  - the selection is cleared;
  - the cached king squares never change.
- **Engine.MovePieceRecordsTheMove:** the log entry records:
  - the mover's kind and colour;
  - capture, en passant and castling as they happened;
  - check and mate flags matching the new status;
  - notation generated from the board after the move.
- **Engine.HandlePromotion:**
  - the pawn on the promotion square takes the chosen kind, and no other square changes;
  - the turn passes and the status is recomputed;
  - the promotion squares are cleared;
  - the log grows by one record when it has room.
- **Engine.PromotionCompletesTheMove:** the move ends with:
  - the chosen piece of the mover's colour on the last rank and the origin empty;
  - the other side to move;
  - exactly one promotion record.
- **Probe.WouldBeInCheckFrame:** the modular `WouldBeInCheck`:
  - answers "in check" on the simulated board, using the king cache with the moved king's square;
  - gives back the original board and cache.
- **History.DisambiguationMeaning:** the qualifier needed:
  - none for pawns, kings and moves without a rival;
  - the rank when a rival stands on the mover's file;
  - the file when a rival stands on another file;
  - a rival is another piece of the same kind and colour that can reach the destination.
- **History.RecordMove:** the appended record:
  - carries the move's squares, kind, colour and flags;
  - has the captured kind read from the destination;
  - has both check flags false;
  - has notation generated from the board.
- **History.LogMove:** corrected, one move adds nothing to a full log. Otherwise it appends one record carrying its check flags and matching notation, and keeps the log well formed.
- **Multiplayer.StartMultiplayerGame:** a networked game starts from the initial position:
  - the host plays White;
  - the guest plays Black;
  - a session without a role keeps its colour.
- **Multiplayer.HandleLocalMove:** a local move is sent only when all of the following hold:
  - the game is networked;
  - no remote move is being played;
  - the local colour is to move;
  - the peer is connected.
  
  What is sent decodes to the move's fields.
- **Multiplayer.RemotePromotionPassesTurn:** corrected, a received promotion completes the move:
  - the pawn becomes the sent kind;
  - the other side is to move;
  - the promotion squares are cleared;
  - one record is logged with the pawn's colour and the real capture flag.

## Left out

- **Drawing, input and timing:** these are not modelled — the raylib drawing, mouse and keyboard handling, menus, window and sprite layout, and the chess clock (`SwitchClock` and the clock updates `ProcessRemoteMove` triggers). They have no rules content.
- **Networking:** the ICE agent, SDP exchange and connection codes are not modelled. This covers `create_agent`, the offer and answer handling, the candidate gathering that base64-encodes the session description, polling and disconnect. The network becomes a `connected` flag and byte sequences.
- **Operation order:** the model follows the program's order of operations within one call. Concurrency and callback re-entrancy are not modelled.
- **Diagnostic output:** the `printf` messages of `ProcessRemoteMove` carry no state and are not modelled.
- **RecordMove:** the ten-parameter `RecordMove` that `history.c` defines is not modelled. It reads the piece kind and colour from the origin square after `MovePiece` has emptied it. The model follows the twelve-parameter declaration in `history.h` and the calls in `moves.c` and `multiplayer.c`, which pass the kind and colour explicitly. The call in `ui.c` still uses ten arguments; the model gives it the promoted pawn's kind and colour.
- Engine.HandlePromotion: the mouse hit test that picks the option is replaced by the option's index (0..3). A click outside every button is not modelled; it changes nothing.
- Multiplayer.PlayRemoteMove and Multiplayer.PlayRemoteMoveCorrected: require a promotion code of at most 6. The C casts any integer to `PieceType`, and a code above 6 would store a kind the program has no name for. Negative codes and 0 mean "no promotion", as in the source.
- Multiplayer.RemoteMarks: a received origin off the board marks nothing. In C, `CalculateValidMoves` would index outside the board array.
- Multiplayer.ProcessRemoteMove: the model does not expose that `processingRemoteMove` is true while the move is played. Only its final value is modelled, because nothing inside the call reads it.
- Base64.Encode: requires an output buffer of at least 4 bytes. The loop guard `j < outMaxLen - 4` is modelled exactly, but for a smaller buffer the unsigned subtraction wraps around.
- Base64.Decode: requires an output buffer of at least 1 byte. The guard `j < outMaxLen - 1` wraps around for 0.
- Base64.Decode: values of a third or fourth character outside the alphabet are modelled with two's-complement shifts of the value -1. Padding `=` is such a character, and C leaves left shifts of negative values undefined.
- **Probe:** only `WouldBeInCheck`, `CalculateValidMoves` and `HasLegalMoves` are modelled as loops and in-place writes to an array. All other routines are pure functions on the immutable board.
- Engine.LegalMoveLeavesKingSafe: stated for non-castling moves only. For castling, the board `WouldBeInCheck` tests leaves the rook in its corner, so it differs from the board actually played. King safety after castling is not proved.
- History.DisambiguationAsWritten: not defined for bishops. `CanPieceReachSquare` from a square to itself walks a bishop diagonally off the board, reading outside the array, and the model does not give that walk a value (see `History.BishopSelfWalkLeavesBoard`).
- History.RecordMove: the stored notation uses the corrected disambiguation, `History.Disambiguation`, in which the mover is not its own rival. As written, a lone rook a1→a4 is stored as `R1a4` where the model stores `Ra4` (see Findings).
- History.UpdateLastMoveStatus: the regenerated notation uses the corrected disambiguation, as for `History.RecordMove`.
- History.LogMove: the notation uses the corrected disambiguation, as for `History.RecordMove`.
- Engine.MovePiece: logs through the corrected `History.LogMove`, with the corrected notation. As written, a move made with a full log still rewrites the check flags and notation of record 256 (`History.FullLogRewritesLastRecord`); the model leaves a full log unchanged.
- Engine.MovePieceRecordsTheMove: the recorded notation is the corrected one, as for `History.RecordMove`.
- Engine.HandlePromotion: logs through the corrected `History.LogMove`, as for `Engine.MovePiece`. A full log is left unchanged, where the program rewrites record 256.
- Multiplayer.ProcessRemoteMove: the received promotion follows the program as written, but the moves it plays are logged through the corrected `History.LogMove` and the corrected notation, as for `Engine.MovePiece`.

## Findings

| source | as written | input that shows it | evidently intended | confidence | as-written member | corrected member |
|---|---|---|---|---|---|---|
| history.c:156-165 | the disambiguation scan skips only the origin square, but notation is generated after the move, when the mover stands on the destination; `CanPieceReachSquare` says a rook or queen reaches its own square, so the mover counts as its own rival | a lone white rook a1→a4 is written `R1a4`, and a lone queen d1→h5 is written `Qdh5` | skip the destination square as well; a move without a rival gets no qualifier (`Ra4`) | not executed | History.AsWrittenDisambiguatesEveryRookAndQueenMove | History.DisambiguationMeaning |
| history.c:89-106 | the bishop walk of `CanPieceReachSquare` steps by -1 on a zero difference and stops only on the target; the disambiguation scan asks it about the bishop's own destination, where the walk never meets the target and leaves the board unless a piece stops it first | after a white bishop f1→a6 (row 2, column 0) the walk's first read is `board[1][-1]`, outside the row | skip the destination square as well, so a bishop is never asked about its own square | not executed | History.BishopSelfWalkLeavesBoard | History.DisambiguationMeaning |
| board.c:98-101 | `FindKing` answers from `whiteKingPos`/`blackKingPos`, which `InitBoard` sets and `WouldBeInCheck` only changes temporarily; `MovePiece` never updates them | White plays Ke1-f1: `FindKing(White)` still says e1, which is empty, so check detection looks at the wrong square from then on | the cached square follows the king (or the king is found by scanning the board, as `main.c` does) | not executed | Engine.KingCacheGoesStale | Engine.KingMoveFindsKing |
| history.c:257-297 | `RecordMove` returns without recording once `MAX_MOVES` records are kept, but every caller then calls `UpdateLastMoveStatus`, which rewrites the last record that was kept | the 257th move of a game gives check: record 256 gains a `+` it never gave | a move the log cannot hold leaves the log unchanged | not executed | History.FullLogRewritesLastRecord | History.LogMove |
| multiplayer.c:126-144 | after `MovePiece` pauses for promotion (turn unchanged), the remote promotion is applied and `UpdateGameState` runs without passing the turn; the record uses `OPPONENT_COLOR(currentTurn)`, the local player's colour, and `isCapture` true | the guest receives the host's e7-e8=Q: on the guest's board White is still to move, so neither side may move, and the log shows a black capturing promotion | complete the move as `HandlePromotion` does: pass the turn, log the pawn's colour and the real capture flag, clear the promotion squares | not executed | Multiplayer.RemotePromotionKeepsTurn | Multiplayer.RemotePromotionPassesTurn |
