/**
  Attack detection and check (check.c, and the same tests in main.c):
  whether any piece of a colour attacks a square, and whether a colour's
  king stands on an attacked square.
 */
module Attack {
  import opened Types
  import opened Board

  /** A piece of kind k and colour byColor stands on p; p may lie off the board. */
  predicate HoldsAt(b: Grid, p: Pos, k: PieceKind, byColor: Color)
  {
    InBounds(p) && At(b, p).kind == k && At(b, p).color == byColor
  }

  /** Row offset from an attacked square to the pawn that attacks it. */
  function PawnAttackDir(byColor: Color): int
  {
    if byColor == White then 1 else -1
  }

  predicate PawnAttack(b: Grid, t: Pos, byColor: Color)
  {
    var pr := t.row + PawnAttackDir(byColor);
    HoldsAt(b, Pos(pr, t.col - 1), Pawn, byColor) || HoldsAt(b, Pos(pr, t.col + 1), Pawn, byColor)
  }

  predicate KnightAttack(b: Grid, t: Pos, byColor: Color)
  {
    exists i | 0 <= i < 8 :: HoldsAt(b, Offset(t, KnightMoves[i]), Knight, byColor)
  }

  predicate KingAttack(b: Grid, t: Pos, byColor: Color)
  {
    exists i | 0 <= i < 8 :: HoldsAt(b, Offset(t, KingSteps[i]), King, byColor)
  }

  /** The slider kinds that attack along a ray whose own kind is primary. */
  predicate IsSlider(p: Piece, byColor: Color, primary: PieceKind)
  {
    p.kind != NoKind && p.color == byColor && (p.kind == primary || p.kind == Queen)
  }

  /**
    One ray of CheckSlidingAttack: cur is the i-th square from the target and
    fuel = 8 - i. The walk stops at the board edge or at the first occupied
    square, which attacks when it is a slider of the attacking colour.
   */
  predicate RayAttack(b: Grid, cur: Pos, d: (int, int), byColor: Color, primary: PieceKind, fuel: nat)
    decreases fuel
  {
    if fuel == 0 || !InBounds(cur) then false
    else if At(b, cur).kind != NoKind then IsSlider(At(b, cur), byColor, primary)
    else RayAttack(b, Offset(cur, d), d, byColor, primary, fuel - 1)
  }

  predicate SlidingAttack(b: Grid, t: Pos, byColor: Color, dirs: seq<(int, int)>, primary: PieceKind)
    requires |dirs| == 4
  {
    exists i | 0 <= i < 4 :: RayAttack(b, Offset(t, dirs[i]), dirs[i], byColor, primary, 7)
  }

  /** IsSquareAttacked: no board square is read except through bounds-checked neighbours of t. */
  predicate IsSquareAttacked(b: Grid, t: Pos, byColor: Color)
  {
    || PawnAttack(b, t, byColor)
    || KnightAttack(b, t, byColor)
    || KingAttack(b, t, byColor)
    || SlidingAttack(b, t, byColor, RookDirections, Rook)
    || SlidingAttack(b, t, byColor, BishopDirections, Bishop)
  }

  /** IsInCheck: false when the colour has no king, else whether its square is attacked by the opponent. */
  predicate IsInCheck(b: Grid, c: Color)
  {
    var k := FindKing(b, c);
    if k.row == -1 then false else IsSquareAttacked(b, k, Opponent(c))
  }

  // ---------------------------------------------------------------------------
  // Reference definitions: which squares attack which
  // ---------------------------------------------------------------------------

  /** A pawn of colour byColor attacks the two squares diagonally ahead of it (White moves toward row 0). */
  ghost predicate PawnAttacksRef(b: Grid, t: Pos, byColor: Color)
  {
    exists s: Pos :: HoldsAt(b, s, Pawn, byColor) && s.row - t.row == PawnAttackDir(byColor) && Abs(s.col - t.col) == 1
  }

  ghost predicate KnightAttacksRef(b: Grid, t: Pos, byColor: Color)
  {
    exists s: Pos :: HoldsAt(b, s, Knight, byColor) && IsKnightJump((s.row - t.row, s.col - t.col))
  }

  ghost predicate KingAttacksRef(b: Grid, t: Pos, byColor: Color)
  {
    exists s: Pos :: HoldsAt(b, s, King, byColor) && IsUnit((s.row - t.row, s.col - t.col))
  }

  /** Every square from the i-th to the (k-1)-th along d from t is on the board and empty. */
  ghost predicate ClearFrom(b: Grid, t: Pos, d: (int, int), i: int, k: int)
  {
    forall j | i <= j < k :: InBounds(Along(t, d, j)) && IsEmpty(b, Along(t, d, j))
  }

  /** Some slider of colour byColor stands k steps from t along d, at most 7 steps, with nothing in between. */
  ghost predicate RayAttackRef(b: Grid, t: Pos, d: (int, int), byColor: Color, primary: PieceKind)
  {
    RayHitFrom(b, t, d, byColor, primary, 1)
  }

  ghost predicate AttackedRef(b: Grid, t: Pos, byColor: Color)
  {
    || PawnAttacksRef(b, t, byColor)
    || KnightAttacksRef(b, t, byColor)
    || KingAttacksRef(b, t, byColor)
    || (exists d | d in RookDirections :: RayAttackRef(b, t, d, byColor, Rook))
    || (exists d | d in BishopDirections :: RayAttackRef(b, t, d, byColor, Bishop))
  }

  lemma PawnAttackMatchesRef(b: Grid, t: Pos, byColor: Color)
    ensures PawnAttack(b, t, byColor) <==> PawnAttacksRef(b, t, byColor)
  {
    var pr := t.row + PawnAttackDir(byColor);
    if PawnAttack(b, t, byColor) {
      if HoldsAt(b, Pos(pr, t.col - 1), Pawn, byColor) {
        assert Abs(t.col - 1 - t.col) == 1;
      } else {
        assert Abs(t.col + 1 - t.col) == 1;
      }
    }
    if PawnAttacksRef(b, t, byColor) {
      var s: Pos :| HoldsAt(b, s, Pawn, byColor) && s.row - t.row == PawnAttackDir(byColor) && Abs(s.col - t.col) == 1;
      assert s == Pos(pr, t.col - 1) || s == Pos(pr, t.col + 1);
    }
  }

  lemma KnightAttackMatchesRef(b: Grid, t: Pos, byColor: Color)
    ensures KnightAttack(b, t, byColor) <==> KnightAttacksRef(b, t, byColor)
  {
    KnightMovesAreTheJumps();
    if KnightAttack(b, t, byColor) {
      var i :| 0 <= i < 8 && HoldsAt(b, Offset(t, KnightMoves[i]), Knight, byColor);
      var s := Offset(t, KnightMoves[i]);
      assert (s.row - t.row, s.col - t.col) == KnightMoves[i];
    }
    if KnightAttacksRef(b, t, byColor) {
      var s: Pos :| HoldsAt(b, s, Knight, byColor) && IsKnightJump((s.row - t.row, s.col - t.col));
      var d := (s.row - t.row, s.col - t.col);
      assert d in KnightMoves;
      var i :| 0 <= i < 8 && KnightMoves[i] == d;
      assert Offset(t, KnightMoves[i]) == s;
    }
  }

  lemma KingAttackMatchesRef(b: Grid, t: Pos, byColor: Color)
    ensures KingAttack(b, t, byColor) <==> KingAttacksRef(b, t, byColor)
  {
    KingStepsAreTheNeighbours();
    if KingAttack(b, t, byColor) {
      var i :| 0 <= i < 8 && HoldsAt(b, Offset(t, KingSteps[i]), King, byColor);
      var s := Offset(t, KingSteps[i]);
      assert (s.row - t.row, s.col - t.col) == KingSteps[i];
    }
    if KingAttacksRef(b, t, byColor) {
      var s: Pos :| HoldsAt(b, s, King, byColor) && IsUnit((s.row - t.row, s.col - t.col));
      var d := (s.row - t.row, s.col - t.col);
      assert d in KingSteps;
      var i :| 0 <= i < 8 && KingSteps[i] == d;
      assert Offset(t, KingSteps[i]) == s;
    }
  }

  /** Some slider stands k steps along d from t, for i <= k <= 7, with steps i .. k-1 clear. */
  ghost predicate RayHitFrom(b: Grid, t: Pos, d: (int, int), byColor: Color, primary: PieceKind, i: int)
  {
    exists k | i <= k <= 7 ::
      InBounds(Along(t, d, k)) && IsSlider(At(b, Along(t, d, k)), byColor, primary) && ClearFrom(b, t, d, i, k)
  }

  lemma RayHitOffBoard(b: Grid, t: Pos, d: (int, int), byColor: Color, primary: PieceKind, i: int)
    requires !InBounds(Along(t, d, i))
    ensures !RayHitFrom(b, t, d, byColor, primary, i)
  {
    forall k | i < k <= 7
      ensures !ClearFrom(b, t, d, i, k)
    {
      assert ClearFrom(b, t, d, i, k) ==> InBounds(Along(t, d, i));
    }
  }

  lemma RayHitAtPiece(b: Grid, t: Pos, d: (int, int), byColor: Color, primary: PieceKind, i: int)
    requires i <= 7 && InBounds(Along(t, d, i)) && !IsEmpty(b, Along(t, d, i))
    ensures RayHitFrom(b, t, d, byColor, primary, i) <==> IsSlider(At(b, Along(t, d, i)), byColor, primary)
  {
    forall k | i < k <= 7
      ensures !ClearFrom(b, t, d, i, k)
    {
      assert !(InBounds(Along(t, d, i)) && IsEmpty(b, Along(t, d, i)));
    }
    if IsSlider(At(b, Along(t, d, i)), byColor, primary) {
      assert ClearFrom(b, t, d, i, i);
    }
  }

  lemma RayHitSkipsEmpty(b: Grid, t: Pos, d: (int, int), byColor: Color, primary: PieceKind, i: int)
    requires InBounds(Along(t, d, i)) && IsEmpty(b, Along(t, d, i))
    requires RayHitFrom(b, t, d, byColor, primary, i)
    ensures RayHitFrom(b, t, d, byColor, primary, i + 1)
  {
    var k :| i <= k <= 7 && InBounds(Along(t, d, k)) && IsSlider(At(b, Along(t, d, k)), byColor, primary)
             && ClearFrom(b, t, d, i, k);
    assert k != i;
    assert ClearFrom(b, t, d, i + 1, k);
  }

  lemma RayHitExtendsOverEmpty(b: Grid, t: Pos, d: (int, int), byColor: Color, primary: PieceKind, i: int)
    requires InBounds(Along(t, d, i)) && IsEmpty(b, Along(t, d, i))
    requires RayHitFrom(b, t, d, byColor, primary, i + 1)
    ensures RayHitFrom(b, t, d, byColor, primary, i)
  {
    var k :| i + 1 <= k <= 7 && InBounds(Along(t, d, k)) && IsSlider(At(b, Along(t, d, k)), byColor, primary)
             && ClearFrom(b, t, d, i + 1, k);
    assert ClearFrom(b, t, d, i, k);
  }

  lemma RayHitPastEmpty(b: Grid, t: Pos, d: (int, int), byColor: Color, primary: PieceKind, i: int)
    requires InBounds(Along(t, d, i)) && IsEmpty(b, Along(t, d, i))
    ensures RayHitFrom(b, t, d, byColor, primary, i) <==> RayHitFrom(b, t, d, byColor, primary, i + 1)
  {
    if RayHitFrom(b, t, d, byColor, primary, i) {
      RayHitSkipsEmpty(b, t, d, byColor, primary, i);
    }
    if RayHitFrom(b, t, d, byColor, primary, i + 1) {
      RayHitExtendsOverEmpty(b, t, d, byColor, primary, i);
    }
  }

  /** One empty square of the walk: the walk from it agrees with the reference when the walk beyond it does. */
  lemma RayAttackStep(b: Grid, t: Pos, d: (int, int), byColor: Color, primary: PieceKind, i: int)
    requires IsUnit(d) && 1 <= i < 8
    requires InBounds(Along(t, d, i)) && At(b, Along(t, d, i)).kind == NoKind
    requires RayAttack(b, Along(t, d, i + 1), d, byColor, primary, 8 - (i + 1)) <==> RayHitFrom(b, t, d, byColor, primary, i + 1)
    ensures RayAttack(b, Along(t, d, i), d, byColor, primary, 8 - i) <==> RayHitFrom(b, t, d, byColor, primary, i)
  {
    AlongStep(t, d, i);
    RayHitPastEmpty(b, t, d, byColor, primary, i);
  }

  /** The ray walk started at the i-th square finds exactly the first occupied square beyond the empty ones. */
  lemma {:induction false} RayAttackFrom(b: Grid, t: Pos, d: (int, int), byColor: Color, primary: PieceKind, i: int)
    requires IsUnit(d) && 1 <= i <= 8
    ensures RayAttack(b, Along(t, d, i), d, byColor, primary, 8 - i) <==> RayHitFrom(b, t, d, byColor, primary, i)
    decreases 8 - i
  {
    var cur := Along(t, d, i);
    if i == 8 {
    } else if !InBounds(cur) {
      RayHitOffBoard(b, t, d, byColor, primary, i);
    } else if At(b, cur).kind != NoKind {
      RayHitAtPiece(b, t, d, byColor, primary, i);
    } else {
      RayAttackFrom(b, t, d, byColor, primary, i + 1);
      RayAttackStep(b, t, d, byColor, primary, i);
    }
  }

  lemma RayAttackMatchesRef(b: Grid, t: Pos, d: (int, int), byColor: Color, primary: PieceKind)
    requires IsUnit(d)
    ensures RayAttack(b, Offset(t, d), d, byColor, primary, 7) <==> RayAttackRef(b, t, d, byColor, primary)
  {
    AlongStep(t, d, 0);
    RayAttackFrom(b, t, d, byColor, primary, 1);
  }

  lemma SlidingAttackMatchesRef(b: Grid, t: Pos, byColor: Color, dirs: seq<(int, int)>, primary: PieceKind)
    requires |dirs| == 4 && forall i | 0 <= i < 4 :: IsUnit(dirs[i])
    ensures SlidingAttack(b, t, byColor, dirs, primary) <==> exists d | d in dirs :: RayAttackRef(b, t, d, byColor, primary)
  {
    forall i | 0 <= i < 4
      ensures RayAttack(b, Offset(t, dirs[i]), dirs[i], byColor, primary, 7) <==> RayAttackRef(b, t, dirs[i], byColor, primary)
    {
      RayAttackMatchesRef(b, t, dirs[i], byColor, primary);
    }
  }

  /**
    A square is attacked exactly when a pawn, knight or king of the attacking colour
    covers it by its pattern, or a rook/queen (orthogonally) or bishop/queen
    (diagonally) sees it over empty squares.
   */
  lemma IsSquareAttackedMatchesRef(b: Grid, t: Pos, byColor: Color)
    ensures IsSquareAttacked(b, t, byColor) <==> AttackedRef(b, t, byColor)
  {
    PawnAttackMatchesRef(b, t, byColor);
    KnightAttackMatchesRef(b, t, byColor);
    KingAttackMatchesRef(b, t, byColor);
    SlidingAttackMatchesRef(b, t, byColor, RookDirections, Rook);
    SlidingAttackMatchesRef(b, t, byColor, BishopDirections, Bishop);
  }

  /** IsInCheck is the attack test on the scanned king square, and false without a king. */
  lemma IsInCheckMeaning(b: Grid, c: Color)
    ensures IsInCheck(b, c) <==>
      exists p | InBounds(p) :: IsKingOf(b, p, c) && FindKing(b, c) == p && AttackedRef(b, p, Opponent(c))
    ensures (forall p | InBounds(p) :: !IsKingOf(b, p, c)) ==> !IsInCheck(b, c)
  {
    var k := FindKing(b, c);
    if k != InvalidPos {
      IsSquareAttackedMatchesRef(b, k, Opponent(c));
    }
  }

  // ---------------------------------------------------------------------------
  // Attacks read only kinds and colours
  // ---------------------------------------------------------------------------

  /** Two boards that agree on every square's kind and colour (hasMoved may differ). */
  ghost predicate SameShape(b1: Grid, b2: Grid)
  {
    forall p | InBounds(p) :: At(b1, p).kind == At(b2, p).kind && At(b1, p).color == At(b2, p).color
  }

  lemma {:induction false} RayAttackShape(b1: Grid, b2: Grid, cur: Pos, d: (int, int), byColor: Color, primary: PieceKind, fuel: nat)
    requires SameShape(b1, b2)
    ensures RayAttack(b1, cur, d, byColor, primary, fuel) == RayAttack(b2, cur, d, byColor, primary, fuel)
    decreases fuel
  {
    if fuel > 0 && InBounds(cur) && At(b1, cur).kind == NoKind {
      RayAttackShape(b1, b2, Offset(cur, d), d, byColor, primary, fuel - 1);
    }
  }

  lemma {:induction false} FindKingFromShape(b1: Grid, b2: Grid, c: Color, i: int)
    requires SameShape(b1, b2) && 0 <= i <= 64
    ensures FindKingFrom(b1, c, i) == FindKingFrom(b2, c, i)
    decreases 64 - i
  {
    if i < 64 {
      FindKingFromShape(b1, b2, c, i + 1);
    }
  }

  lemma SlidingAttackShape(b1: Grid, b2: Grid, t: Pos, byColor: Color, dirs: seq<(int, int)>, primary: PieceKind)
    requires SameShape(b1, b2) && |dirs| == 4
    ensures SlidingAttack(b1, t, byColor, dirs, primary) == SlidingAttack(b2, t, byColor, dirs, primary)
  {
    forall i | 0 <= i < 4
      ensures RayAttack(b1, Offset(t, dirs[i]), dirs[i], byColor, primary, 7) == RayAttack(b2, Offset(t, dirs[i]), dirs[i], byColor, primary, 7)
    {
      RayAttackShape(b1, b2, Offset(t, dirs[i]), dirs[i], byColor, primary, 7);
    }
  }

  lemma SquareAttackedShape(b1: Grid, b2: Grid, t: Pos, byColor: Color)
    requires SameShape(b1, b2)
    ensures IsSquareAttacked(b1, t, byColor) == IsSquareAttacked(b2, t, byColor)
  {
    SlidingAttackShape(b1, b2, t, byColor, RookDirections, Rook);
    SlidingAttackShape(b1, b2, t, byColor, BishopDirections, Bishop);
    assert PawnAttack(b1, t, byColor) == PawnAttack(b2, t, byColor);
    assert KnightAttack(b1, t, byColor) == KnightAttack(b2, t, byColor);
    assert KingAttack(b1, t, byColor) == KingAttack(b2, t, byColor);
  }

  /** Check status depends on kinds and colours only, never on hasMoved flags. */
  lemma IsInCheckShape(b1: Grid, b2: Grid, c: Color)
    requires SameShape(b1, b2)
    ensures FindKing(b1, c) == FindKing(b2, c)
    ensures forall t :: IsSquareAttacked(b1, t, Opponent(c)) == IsSquareAttacked(b2, t, Opponent(c))
    ensures IsInCheck(b1, c) == IsInCheck(b2, c)
  {
    FindKingFromShape(b1, b2, c, 0);
    forall t
      ensures IsSquareAttacked(b1, t, Opponent(c)) == IsSquareAttacked(b2, t, Opponent(c))
    {
      SquareAttackedShape(b1, b2, t, Opponent(c));
    }
  }
}
