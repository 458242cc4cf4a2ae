/**
  Move generation (moves.c, and the per-piece generators of the single-file
  revision in main.c): the legality filter that tries a move on a copy of the
  board and tests for check, the pseudo-legal targets of each piece kind,
  castling and en passant, and the four-way game-state evaluation.

  A generator marks squares in a boolean matrix; here it returns the set of
  marked squares. The order in which squares are marked never matters, only
  which are marked, so each generator is a set.
 */
module Moves {
  import opened Types
  import opened Board
  import opened Attack

  /** The en-passant state: the square a capturing pawn lands on, and the pawn it removes. */
  datatype EnPassant = EnPassant(target: Pos, pawn: Pos)

  const NoEnPassant: EnPassant := EnPassant(InvalidPos, InvalidPos)

  /**
    Whenever the target is a board square, so is the pawn: the board is
    indexed at the pawn's square exactly when a pawn moves onto the target.
   */
  predicate EpWellFormed(ep: EnPassant)
  {
    InBounds(ep.target) ==> InBounds(ep.pawn)
  }

  /** A pawn moving onto the en-passant target captures en passant. */
  predicate IsEnPassantMove(b: Grid, from: Pos, to: Pos, ep: EnPassant)
    requires InBounds(from)
  {
    At(b, from).kind == Pawn && to == ep.target
  }

  // ---------------------------------------------------------------------------
  // The legality filter
  // ---------------------------------------------------------------------------

  /** The board WouldBeInCheck examines: en-passant pawn removed, mover placed on `to`, `from` emptied. */
  function Simulate(b: Grid, from: Pos, to: Pos, ep: EnPassant): (r: Grid)
    requires InBounds(from) && InBounds(to) && EpWellFormed(ep)
    ensures At(r, from) == EmptySquare
    ensures from != to ==> At(r, to) == At(b, from)
    ensures IsEnPassantMove(b, from, to, ep) && ep.pawn != to ==> At(r, ep.pawn) == EmptySquare
    ensures forall q | InBounds(q) && q != from && q != to && !(IsEnPassantMove(b, from, to, ep) && q == ep.pawn) ::
      At(r, q) == At(b, q)
  {
    var mover := At(b, from);
    var b1 := if IsEnPassantMove(b, from, to, ep) then Put(b, ep.pawn, EmptySquare) else b;
    Put(Put(b1, to, mover), from, EmptySquare)
  }

  /** WouldBeInCheck, with the king found by scanning the simulated board. */
  predicate WouldBeInCheck(b: Grid, from: Pos, to: Pos, c: Color, ep: EnPassant)
    requires InBounds(from) && InBounds(to) && EpWellFormed(ep)
  {
    IsInCheck(Simulate(b, from, to, ep), c)
  }

  /** AddMoveIfValid's test: a board square, not held by an ally, that does not leave colour c in check. */
  predicate Admits(b: Grid, from: Pos, t: Pos, c: Color, ep: EnPassant)
    requires InBounds(from) && EpWellFormed(ep)
  {
    InBounds(t) && !IsAlly(b, t, c) && !WouldBeInCheck(b, from, t, c, ep)
  }

  // ---------------------------------------------------------------------------
  // Pawns
  // ---------------------------------------------------------------------------

  /** Row step of a pawn: White moves toward row 0. */
  function PawnDir(c: Color): int
  {
    if c == White then -1 else 1
  }

  function PawnStartRow(c: Color): int
  {
    if c == White then 6 else 1
  }

  /** Forward moves: one square onto an empty square, and two from the start row when both are empty. */
  function PawnPushes(b: Grid, from: Pos, c: Color): set<Pos>
    requires InBounds(from)
  {
    var one := Pos(from.row + PawnDir(c), from.col);
    var two := Pos(from.row + 2 * PawnDir(c), from.col);
    if InBounds(one) && IsEmpty(b, one) then
      if from.row == PawnStartRow(c) && IsEmpty(b, two) then {one, two} else {one}
    else {}
  }

  function PawnCaptures(b: Grid, from: Pos, c: Color): set<Pos>
  {
    var left := Pos(from.row + PawnDir(c), from.col - 1);
    var right := Pos(from.row + PawnDir(c), from.col + 1);
    (if InBounds(left) && IsEnemy(b, left, c) then {left} else {})
    + (if InBounds(right) && IsEnemy(b, right, c) then {right} else {})
  }

  /** The en-passant condition of CalculatePawnMoves. */
  predicate EnPassantOffered(from: Pos, c: Color, ep: EnPassant)
  {
    && ep.target.row != -1
    && from.row + PawnDir(c) == ep.target.row
    && Abs(from.col - ep.target.col) == 1
    && ep.pawn.row == from.row
    && Abs(ep.pawn.col - from.col) == 1
  }

  /** The en-passant condition as the single-file revision writes it. */
  predicate MainEnPassantOffered(from: Pos, c: Color, ep: EnPassant)
  {
    var direction := if c == White then -1 else 1;
    ep.target.row != -1
    && (from.row + direction == ep.target.row
        && (from.col - 1 == ep.target.col || from.col + 1 == ep.target.col))
    && (ep.pawn.row == from.row && Abs(ep.pawn.col - from.col) == 1)
  }

  lemma MainEnPassantAgrees(from: Pos, c: Color, ep: EnPassant)
    ensures MainEnPassantOffered(from, c, ep) <==> EnPassantOffered(from, c, ep)
  {
  }

  /** Every square CalculatePawnMoves hands to AddMoveIfValid. */
  function PawnTargets(b: Grid, from: Pos, c: Color, ep: EnPassant): set<Pos>
    requires InBounds(from)
  {
    PawnPushes(b, from, c) + PawnCaptures(b, from, c) + (if EnPassantOffered(from, c, ep) then {ep.target} else {})
  }

  /**
    The pawn rules: a move straight ahead goes only onto empty squares, two
    squares only from the start row over an empty square; a diagonal move goes
    one row ahead into an adjacent column, onto an enemy piece or onto the
    en-passant target with the en-passant pawn beside the mover; nothing else.
   */
  lemma PawnTargetsMeaning(b: Grid, from: Pos, c: Color, ep: EnPassant, t: Pos)
    requires InBounds(from)
    ensures t in PawnTargets(b, from, c, ep) <==>
      || (t == Pos(from.row + PawnDir(c), from.col) && InBounds(t) && IsEmpty(b, t))
      || (t == Pos(from.row + 2 * PawnDir(c), from.col) && from.row == PawnStartRow(c)
          && InBounds(Pos(from.row + PawnDir(c), from.col)) && IsEmpty(b, Pos(from.row + PawnDir(c), from.col))
          && InBounds(t) && IsEmpty(b, t))
      || (t.row == from.row + PawnDir(c) && Abs(t.col - from.col) == 1 && InBounds(t) && IsEnemy(b, t, c))
      || (t == ep.target && t.row != -1 && t.row == from.row + PawnDir(c) && Abs(t.col - from.col) == 1
          && ep.pawn.row == from.row && Abs(ep.pawn.col - from.col) == 1)
  {
  }

  /** A pawn never moves sideways, backwards or more than two rows. */
  lemma PawnTargetsAhead(b: Grid, from: Pos, c: Color, ep: EnPassant, t: Pos)
    requires InBounds(from) && t in PawnTargets(b, from, c, ep)
    ensures t.row == from.row + PawnDir(c) || (t.row == from.row + 2 * PawnDir(c) && t.col == from.col)
    ensures Abs(t.col - from.col) <= 1
    ensures t.col == from.col ==> InBounds(t) && IsEmpty(b, t)
  {
    PawnTargetsMeaning(b, from, c, ep, t);
  }

  // ---------------------------------------------------------------------------
  // Sliding pieces
  // ---------------------------------------------------------------------------

  /**
    One direction of CalculateSlidingMoves: cur is the i-th square from the
    piece and fuel = 8 - i. The walk stops before an ally or the board edge,
    and stops after marking the first enemy.
   */
  function RayTargets(b: Grid, cur: Pos, d: (int, int), c: Color, fuel: nat): set<Pos>
    decreases fuel
  {
    if fuel == 0 || !InBounds(cur) || IsAlly(b, cur, c) then {}
    else if IsEnemy(b, cur, c) then {cur}
    else {cur} + RayTargets(b, Offset(cur, d), d, c, fuel - 1)
  }

  function SlidingTargets(b: Grid, from: Pos, c: Color, dirs: seq<(int, int)>): set<Pos>
    requires |dirs| == 4
  {
    RayTargets(b, Offset(from, dirs[0]), dirs[0], c, 7)
    + RayTargets(b, Offset(from, dirs[1]), dirs[1], c, 7)
    + RayTargets(b, Offset(from, dirs[2]), dirs[2], c, 7)
    + RayTargets(b, Offset(from, dirs[3]), dirs[3], c, 7)
  }

  /** t is k steps along d, for some k in i .. 7, not an ally, with steps i .. k-1 empty. */
  ghost predicate ReachableFrom(b: Grid, from: Pos, d: (int, int), c: Color, i: int, t: Pos)
  {
    exists k | i <= k <= 7 :: t == Along(from, d, k) && InBounds(t) && !IsAlly(b, t, c) && ClearFrom(b, from, d, i, k)
  }

  lemma ReachableOffBoard(b: Grid, from: Pos, d: (int, int), c: Color, i: int, t: Pos)
    requires !InBounds(Along(from, d, i))
    ensures !ReachableFrom(b, from, d, c, i, t)
  {
    forall k | i < k <= 7
      ensures !ClearFrom(b, from, d, i, k)
    {
      assert ClearFrom(b, from, d, i, k) ==> InBounds(Along(from, d, i));
    }
  }

  lemma ReachableAtPiece(b: Grid, from: Pos, d: (int, int), c: Color, i: int, t: Pos)
    requires i <= 7 && InBounds(Along(from, d, i)) && !IsEmpty(b, Along(from, d, i))
    ensures ReachableFrom(b, from, d, c, i, t) <==> t == Along(from, d, i) && !IsAlly(b, t, c)
  {
    forall k | i < k <= 7
      ensures !ClearFrom(b, from, d, i, k)
    {
      assert !(InBounds(Along(from, d, i)) && IsEmpty(b, Along(from, d, i)));
    }
    if t == Along(from, d, i) && !IsAlly(b, t, c) {
      assert ClearFrom(b, from, d, i, i);
    }
  }

  lemma ReachableSkipsEmpty(b: Grid, from: Pos, d: (int, int), c: Color, i: int, t: Pos)
    requires i <= 7 && InBounds(Along(from, d, i)) && IsEmpty(b, Along(from, d, i))
    requires ReachableFrom(b, from, d, c, i, t) && t != Along(from, d, i)
    ensures ReachableFrom(b, from, d, c, i + 1, t)
  {
    var k :| i <= k <= 7 && t == Along(from, d, k) && InBounds(t) && !IsAlly(b, t, c) && ClearFrom(b, from, d, i, k);
    assert ClearFrom(b, from, d, i + 1, k);
  }

  lemma ReachableExtendsOverEmpty(b: Grid, from: Pos, d: (int, int), c: Color, i: int, t: Pos)
    requires i <= 7 && InBounds(Along(from, d, i)) && IsEmpty(b, Along(from, d, i))
    requires ReachableFrom(b, from, d, c, i + 1, t)
    ensures ReachableFrom(b, from, d, c, i, t)
  {
    var k :| i + 1 <= k <= 7 && t == Along(from, d, k) && InBounds(t) && !IsAlly(b, t, c) && ClearFrom(b, from, d, i + 1, k);
    assert ClearFrom(b, from, d, i, k);
  }

  lemma ReachablePastEmpty(b: Grid, from: Pos, d: (int, int), c: Color, i: int, t: Pos)
    requires i <= 7 && InBounds(Along(from, d, i)) && IsEmpty(b, Along(from, d, i))
    ensures ReachableFrom(b, from, d, c, i, t) <==> t == Along(from, d, i) || ReachableFrom(b, from, d, c, i + 1, t)
  {
    if ReachableFrom(b, from, d, c, i, t) && t != Along(from, d, i) {
      ReachableSkipsEmpty(b, from, d, c, i, t);
    }
    if t == Along(from, d, i) {
      assert ClearFrom(b, from, d, i, i);
    }
    if ReachableFrom(b, from, d, c, i + 1, t) {
      ReachableExtendsOverEmpty(b, from, d, c, i, t);
    }
  }

  /** One empty square of the walk: the walk from it agrees with the reference when the walk beyond it does. */
  lemma RayTargetsStep(b: Grid, from: Pos, d: (int, int), c: Color, i: int, t: Pos)
    requires IsUnit(d) && 1 <= i < 8
    requires InBounds(Along(from, d, i)) && At(b, Along(from, d, i)).kind == NoKind
    requires t in RayTargets(b, Along(from, d, i + 1), d, c, 8 - (i + 1)) <==> ReachableFrom(b, from, d, c, i + 1, t)
    ensures t in RayTargets(b, Along(from, d, i), d, c, 8 - i) <==> ReachableFrom(b, from, d, c, i, t)
  {
    AlongStep(from, d, i);
    ReachablePastEmpty(b, from, d, c, i, t);
  }

  lemma {:induction false} RayTargetsFrom(b: Grid, from: Pos, d: (int, int), c: Color, i: int, t: Pos)
    requires IsUnit(d) && 1 <= i <= 8
    ensures t in RayTargets(b, Along(from, d, i), d, c, 8 - i) <==> ReachableFrom(b, from, d, c, i, t)
    decreases 8 - i
  {
    var cur := Along(from, d, i);
    if i == 8 {
    } else if !InBounds(cur) {
      ReachableOffBoard(b, from, d, c, i, t);
    } else if At(b, cur).kind != NoKind {
      ReachableAtPiece(b, from, d, c, i, t);
    } else {
      RayTargetsFrom(b, from, d, c, i + 1, t);
      RayTargetsStep(b, from, d, c, i, t);
    }
  }

  /**
    A sliding piece reaches exactly the squares along a direction that lie on
    the board, are not held by an ally, and have only empty squares between.
   */
  lemma RayTargetsMeaning(b: Grid, from: Pos, d: (int, int), c: Color, t: Pos)
    requires IsUnit(d)
    ensures t in RayTargets(b, Offset(from, d), d, c, 7) <==> ReachableFrom(b, from, d, c, 1, t)
  {
    AlongStep(from, d, 0);
    RayTargetsFrom(b, from, d, c, 1, t);
  }

  // ---------------------------------------------------------------------------
  // Knights and kings
  // ---------------------------------------------------------------------------

  function KnightTargets(from: Pos): set<Pos>
  {
    set i | 0 <= i < 8 :: Offset(from, KnightMoves[i])
  }

  /** The knight tries exactly the squares a knight's jump away. */
  lemma KnightTargetsMeaning(from: Pos, t: Pos)
    ensures t in KnightTargets(from) <==> IsKnightJump((t.row - from.row, t.col - from.col))
  {
    KnightMovesAreTheJumps();
    var d := (t.row - from.row, t.col - from.col);
    if IsKnightJump(d) {
      assert d in KnightMoves;
      var i :| 0 <= i < 8 && KnightMoves[i] == d;
      assert Offset(from, KnightMoves[i]) == t;
    }
  }

  function KingStepTargets(from: Pos): set<Pos>
  {
    set i | 0 <= i < 8 :: Offset(from, KingSteps[i])
  }

  lemma KingStepTargetsMeaning(from: Pos, t: Pos)
    ensures t in KingStepTargets(from) <==> IsUnit((t.row - from.row, t.col - from.col))
  {
    KingStepsAreTheNeighbours();
    var d := (t.row - from.row, t.col - from.col);
    if IsUnit(d) {
      assert d in KingSteps;
      var i :| 0 <= i < 8 && KingSteps[i] == d;
      assert Offset(from, KingSteps[i]) == t;
    }
  }

  // ---------------------------------------------------------------------------
  // Castling
  // ---------------------------------------------------------------------------

  /** Castling is considered only for an unmoved king that is not in check. */
  predicate CastlingAllowed(b: Grid, from: Pos, c: Color)
    requires InBounds(from)
  {
    !At(b, from).hasMoved && !IsInCheck(b, c)
  }

  /**
    King side: an unmoved rook in column 7 of the king's row (its colour is
    not examined), columns 5 and 6 empty and not attacked by the opponent.
   */
  predicate KingsideOpen(b: Grid, from: Pos, c: Color)
    requires InBounds(from)
  {
    var r := from.row;
    && At(b, Pos(r, 7)).kind == Rook && !At(b, Pos(r, 7)).hasMoved
    && IsEmpty(b, Pos(r, 5)) && IsEmpty(b, Pos(r, 6))
    && !IsSquareAttacked(b, Pos(r, 5), Opponent(c)) && !IsSquareAttacked(b, Pos(r, 6), Opponent(c))
  }

  /** Queen side: an unmoved rook in column 0, columns 1 to 3 empty, columns 2 and 3 not attacked. */
  predicate QueensideOpen(b: Grid, from: Pos, c: Color)
    requires InBounds(from)
  {
    var r := from.row;
    && At(b, Pos(r, 0)).kind == Rook && !At(b, Pos(r, 0)).hasMoved
    && IsEmpty(b, Pos(r, 1)) && IsEmpty(b, Pos(r, 2)) && IsEmpty(b, Pos(r, 3))
    && !IsSquareAttacked(b, Pos(r, 2), Opponent(c)) && !IsSquareAttacked(b, Pos(r, 3), Opponent(c))
  }

  function CastleTargets(b: Grid, from: Pos, c: Color): set<Pos>
    requires InBounds(from)
  {
    if !CastlingAllowed(b, from, c) then {}
    else
      (if KingsideOpen(b, from, c) then {Pos(from.row, 6)} else {})
      + (if QueensideOpen(b, from, c) then {Pos(from.row, 2)} else {})
  }

  /** The castling block of the single-file revision, written as nested tests. */
  function MainCastleTargets(b: Grid, from: Pos, c: Color): set<Pos>
    requires InBounds(from)
  {
    var r := from.row;
    var enemy := if c == White then Black else White;
    if !At(b, from).hasMoved && !IsInCheck(b, c) then
      var kingside :=
        if At(b, Pos(r, 7)).kind == Rook && !At(b, Pos(r, 7)).hasMoved then
          if IsEmpty(b, Pos(r, 5)) && IsEmpty(b, Pos(r, 6)) then
            if !IsSquareAttacked(b, Pos(r, 5), enemy) && !IsSquareAttacked(b, Pos(r, 6), enemy) then {Pos(r, 6)} else {}
          else {}
        else {};
      var queenside :=
        if At(b, Pos(r, 0)).kind == Rook && !At(b, Pos(r, 0)).hasMoved then
          if IsEmpty(b, Pos(r, 1)) && IsEmpty(b, Pos(r, 2)) && IsEmpty(b, Pos(r, 3)) then
            if !IsSquareAttacked(b, Pos(r, 2), enemy) && !IsSquareAttacked(b, Pos(r, 3), enemy) then {Pos(r, 2)} else {}
          else {}
        else {};
      kingside + queenside
    else {}
  }

  lemma MainCastlingAgrees(b: Grid, from: Pos, c: Color)
    requires InBounds(from)
    ensures MainCastleTargets(b, from, c) == CastleTargets(b, from, c)
  {
  }

  /**
    Castling is offered to (r, 6) only for an unmoved king not in check with an
    unmoved rook in column 7, columns 5 and 6 empty and safe; and to (r, 2) only
    with an unmoved rook in column 0, columns 1 to 3 empty and columns 2 and 3 safe.
   */
  lemma CastleTargetsMeaning(b: Grid, from: Pos, c: Color, t: Pos)
    requires InBounds(from)
    ensures t in CastleTargets(b, from, c) ==> t.row == from.row && (t.col == 6 || t.col == 2)
    ensures t in CastleTargets(b, from, c) ==> !At(b, from).hasMoved && !IsInCheck(b, c)
    ensures t in CastleTargets(b, from, c) && t.col == 6 ==>
      At(b, Pos(t.row, 7)).kind == Rook && !At(b, Pos(t.row, 7)).hasMoved
      && IsEmpty(b, Pos(t.row, 5)) && IsEmpty(b, t)
      && !IsSquareAttacked(b, Pos(t.row, 5), Opponent(c)) && !IsSquareAttacked(b, t, Opponent(c))
    ensures t in CastleTargets(b, from, c) && t.col == 2 ==>
      At(b, Pos(t.row, 0)).kind == Rook && !At(b, Pos(t.row, 0)).hasMoved
      && IsEmpty(b, Pos(t.row, 1)) && IsEmpty(b, t) && IsEmpty(b, Pos(t.row, 3))
      && !IsSquareAttacked(b, t, Opponent(c)) && !IsSquareAttacked(b, Pos(t.row, 3), Opponent(c))
    ensures CastlingAllowed(b, from, c) && KingsideOpen(b, from, c) ==> Pos(from.row, 6) in CastleTargets(b, from, c)
    ensures CastlingAllowed(b, from, c) && QueensideOpen(b, from, c) ==> Pos(from.row, 2) in CastleTargets(b, from, c)
  {
  }

  // ---------------------------------------------------------------------------
  // CalculateValidMoves
  // ---------------------------------------------------------------------------

  /** The squares the generator of the piece on `from` hands to AddMoveIfValid. */
  function Candidates(b: Grid, from: Pos, ep: EnPassant): set<Pos>
    requires InBounds(from)
  {
    var p := At(b, from);
    match p.kind
    case Pawn => PawnTargets(b, from, p.color, ep)
    case Rook => SlidingTargets(b, from, p.color, RookDirections)
    case Knight => KnightTargets(from)
    case Bishop => SlidingTargets(b, from, p.color, BishopDirections)
    case Queen => SlidingTargets(b, from, p.color, RookDirections) + SlidingTargets(b, from, p.color, BishopDirections)
    case King => KingStepTargets(from) + CastleTargets(b, from, p.color)
    case NoKind => {}
  }

  /**
    CalculateValidMoves with the piece on `from` selected: the candidate squares
    that AddMoveIfValid admits.
   */
  function LegalMoves(b: Grid, from: Pos, ep: EnPassant): (r: set<Pos>)
    requires InBounds(from) && EpWellFormed(ep)
    ensures forall t | t in r :: InBounds(t) && !IsAlly(b, t, At(b, from).color)
    ensures forall t | t in r :: !WouldBeInCheck(b, from, t, At(b, from).color, ep)
    ensures At(b, from).kind == NoKind ==> r == {}
  {
    set t | t in Candidates(b, from, ep) && Admits(b, from, t, At(b, from).color, ep)
  }

  lemma LegalAreCandidates(b: Grid, from: Pos, ep: EnPassant, t: Pos)
    requires InBounds(from) && EpWellFormed(ep) && t in LegalMoves(b, from, ep)
    ensures t in Candidates(b, from, ep)
  {
  }

  lemma KnightCandidatesJump(b: Grid, from: Pos, ep: EnPassant, t: Pos)
    requires InBounds(from) && At(b, from).kind == Knight && t in Candidates(b, from, ep)
    ensures IsKnightJump((t.row - from.row, t.col - from.col))
  {
    assert t in KnightTargets(from);
    KnightTargetsMeaning(from, t);
  }

  lemma KingCandidatesStep(b: Grid, from: Pos, ep: EnPassant, t: Pos)
    requires InBounds(from) && At(b, from).kind == King && t in Candidates(b, from, ep)
    ensures IsUnit((t.row - from.row, t.col - from.col)) || (t.row == from.row && (t.col == 6 || t.col == 2))
  {
    var c := At(b, from).color;
    assert t in KingStepTargets(from) || t in CastleTargets(b, from, c);
    KingStepTargetsMeaning(from, t);
    CastleTargetsMeaning(b, from, c, t);
  }

  lemma PawnCandidatesAhead(b: Grid, from: Pos, ep: EnPassant, t: Pos)
    requires InBounds(from) && At(b, from).kind == Pawn && t in Candidates(b, from, ep)
    ensures Abs(t.col - from.col) <= 1 && t != from
  {
    var c := At(b, from).color;
    assert t in PawnTargets(b, from, c, ep);
    PawnTargetsAhead(b, from, c, ep, t);
  }

  lemma RookCandidatesInSight(b: Grid, from: Pos, ep: EnPassant, t: Pos)
    requires InBounds(from) && At(b, from).kind == Rook && t in Candidates(b, from, ep)
    ensures exists d | d in RookDirections :: ReachableFrom(b, from, d, At(b, from).color, 1, t)
  {
    var c := At(b, from).color;
    assert t in SlidingTargets(b, from, c, RookDirections);
    RookDirectionsAreOrthogonalSteps();
    SlidingTargetsMeaning(b, from, c, RookDirections, t);
  }

  lemma BishopCandidatesInSight(b: Grid, from: Pos, ep: EnPassant, t: Pos)
    requires InBounds(from) && At(b, from).kind == Bishop && t in Candidates(b, from, ep)
    ensures exists d | d in BishopDirections :: ReachableFrom(b, from, d, At(b, from).color, 1, t)
  {
    var c := At(b, from).color;
    assert t in SlidingTargets(b, from, c, BishopDirections);
    BishopDirectionsAreDiagonalSteps();
    SlidingTargetsMeaning(b, from, c, BishopDirections, t);
  }

  /** Every legal move of a piece stays on its movement pattern. */
  lemma LegalMovesFollowPattern(b: Grid, from: Pos, ep: EnPassant, t: Pos)
    requires InBounds(from) && EpWellFormed(ep) && t in LegalMoves(b, from, ep)
    ensures At(b, from).kind == Knight ==> IsKnightJump((t.row - from.row, t.col - from.col))
    ensures At(b, from).kind == King ==>
      IsUnit((t.row - from.row, t.col - from.col)) || (t.row == from.row && (t.col == 6 || t.col == 2))
    ensures At(b, from).kind == Pawn ==> Abs(t.col - from.col) <= 1 && t != from
    ensures At(b, from).kind == Rook ==>
      exists d | d in RookDirections :: ReachableFrom(b, from, d, At(b, from).color, 1, t)
    ensures At(b, from).kind == Bishop ==>
      exists d | d in BishopDirections :: ReachableFrom(b, from, d, At(b, from).color, 1, t)
  {
    LegalAreCandidates(b, from, ep, t);
    match At(b, from).kind
    case Knight => KnightCandidatesJump(b, from, ep, t);
    case King => KingCandidatesStep(b, from, ep, t);
    case Pawn => PawnCandidatesAhead(b, from, ep, t);
    case Rook => RookCandidatesInSight(b, from, ep, t);
    case Bishop => BishopCandidatesInSight(b, from, ep, t);
    case _ =>
  }

  lemma SlidingTargetsMeaning(b: Grid, from: Pos, c: Color, dirs: seq<(int, int)>, t: Pos)
    requires |dirs| == 4 && forall i | 0 <= i < 4 :: IsUnit(dirs[i])
    ensures t in SlidingTargets(b, from, c, dirs) <==> exists d | d in dirs :: ReachableFrom(b, from, d, c, 1, t)
  {
    forall i | 0 <= i < 4
      ensures t in RayTargets(b, Offset(from, dirs[i]), dirs[i], c, 7) <==> ReachableFrom(b, from, dirs[i], c, 1, t)
    {
      RayTargetsMeaning(b, from, dirs[i], c, t);
    }
  }

  // ---------------------------------------------------------------------------
  // HasLegalMoves and UpdateGameState
  // ---------------------------------------------------------------------------

  /** A piece of colour c stands on p and has at least one legal move. */
  predicate CanMove(b: Grid, p: Pos, c: Color, ep: EnPassant)
    requires InBounds(p) && EpWellFormed(ep)
  {
    At(b, p).kind != NoKind && At(b, p).color == c && LegalMoves(b, p, ep) != {}
  }

  /** The row-major scan of HasLegalMoves, resumed at square index k. */
  function AnyMoveFrom(b: Grid, c: Color, ep: EnPassant, k: int): (r: bool)
    requires EpWellFormed(ep) && 0 <= k <= 64
    ensures r <==> exists j | k <= j < 64 :: CanMove(b, SquareAt(j), c, ep)
    decreases 64 - k
  {
    if k == 64 then false
    else CanMove(b, SquareAt(k), c, ep) || AnyMoveFrom(b, c, ep, k + 1)
  }

  lemma SquareIndicesCoverBoard(b: Grid, c: Color, ep: EnPassant)
    requires EpWellFormed(ep)
    ensures (exists j | 0 <= j < 64 :: CanMove(b, SquareAt(j), c, ep)) <==> (exists p | InBounds(p) :: CanMove(b, p, c, ep))
  {
    if exists j | 0 <= j < 64 :: CanMove(b, SquareAt(j), c, ep) {
      var j :| 0 <= j < 64 && CanMove(b, SquareAt(j), c, ep);
      assert InBounds(SquareAt(j));
    }
    if exists p | InBounds(p) :: CanMove(b, p, c, ep) {
      var p :| InBounds(p) && CanMove(b, p, c, ep);
      SquareIndexBijection(p);
    }
  }

  /** HasLegalMoves: some piece of colour c has a non-empty legal destination set. */
  function HasLegalMoves(b: Grid, c: Color, ep: EnPassant): (r: bool)
    requires EpWellFormed(ep)
    ensures r <==> exists p | InBounds(p) :: CanMove(b, p, c, ep)
  {
    SquareIndicesCoverBoard(b, c, ep);
    AnyMoveFrom(b, c, ep, 0)
  }

  /** The four-way mapping of UpdateGameState. */
  function Evaluate(inCheck: bool, hasMoves: bool): (s: GameStatus)
    ensures s != Promoting
    ensures s == Checkmate <==> inCheck && !hasMoves
    ensures s == Stalemate <==> !inCheck && !hasMoves
    ensures s == Check <==> inCheck && hasMoves
    ensures s == Playing <==> !inCheck && hasMoves
  {
    if !hasMoves then (if inCheck then Checkmate else Stalemate)
    else (if inCheck then Check else Playing)
  }

  /** The same mapping as the single-file revision writes it. */
  function MainEvaluate(inCheck: bool, hasMoves: bool): GameStatus
  {
    if inCheck && !hasMoves then Checkmate
    else if !inCheck && !hasMoves then Stalemate
    else if inCheck then Check
    else Playing
  }

  lemma MainEvaluateAgrees(inCheck: bool, hasMoves: bool)
    ensures MainEvaluate(inCheck, hasMoves) == Evaluate(inCheck, hasMoves)
  {
  }

  /** UpdateGameState for the side to move. */
  function StatusOf(b: Grid, turn: Color, ep: EnPassant): (s: GameStatus)
    requires EpWellFormed(ep)
    ensures s == Evaluate(IsInCheck(b, turn), exists p | InBounds(p) :: CanMove(b, p, turn, ep))
  {
    Evaluate(IsInCheck(b, turn), HasLegalMoves(b, turn, ep))
  }
}
