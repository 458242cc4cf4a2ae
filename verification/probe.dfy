/**
  The imperative side of the legality test, on a mutable 8x8 array as the C
  code keeps it: WouldBeInCheck's apply-test-restore frame with the cached
  king squares, AddMoveIfValid marking squares, and HasLegalMoves' nested
  scan that saves and restores the selection.

  Each method copies its board value into a fresh array and hands the final
  array contents back as a value, so that "the board is restored" is a plain
  equation between values.
 */
module Probe {
  import opened Types
  import opened Board
  import opened Attack
  import opened Moves

  /** The array holds exactly the grid b. */
  ghost predicate Holds(a: array2<Piece>, b: Grid)
    reads a
  {
    a.Length0 == 8 && a.Length1 == 8 && forall i, j | 0 <= i < 8 && 0 <= j < 8 :: a[i, j] == b[i][j]
  }

  /** The array's contents as a grid. */
  function Contents(a: array2<Piece>): (b: Grid)
    reads a
    requires a.Length0 == 8 && a.Length1 == 8
    ensures Holds(a, b)
  {
    seq(8, i requires 0 <= i < 8 reads a => seq(8, j requires 0 <= j < 8 reads a => a[i, j]))
  }

  lemma ContentsOfHolds(a: array2<Piece>, b: Grid)
    requires Holds(a, b)
    ensures Contents(a) == b
  {
    var c := Contents(a);
    forall i | 0 <= i < 8
      ensures c[i] == b[i]
    {
    }
  }

  method FromGrid(b: Grid) returns (a: array2<Piece>)
    ensures fresh(a) && Holds(a, b)
  {
    a := new Piece[8, 8]((i, j) => if 0 <= i < 8 && 0 <= j < 8 then b[i][j] else EmptySquare);
  }

  /** Writes one square of the array, keeping Holds in step with Put. */
  method Store(a: array2<Piece>, ghost b: Grid, p: Pos, x: Piece)
    requires InBounds(p) && Holds(a, b)
    modifies a
    ensures Holds(a, Put(b, p, x))
  {
    a[p.row, p.col] := x;
  }

  // ---------------------------------------------------------------------------
  // WouldBeInCheck with the king cache
  // ---------------------------------------------------------------------------

  /** IsInCheck of the modular revision: the king is wherever the cache says. */
  predicate CachedInCheck(b: Grid, whiteKing: Pos, blackKing: Pos, c: Color)
  {
    var k := FindKingCached(whiteKing, blackKing, c);
    if k.row == -1 then false else IsSquareAttacked(b, k, Opponent(c))
  }

  /** The cache as it stands during the simulation: a moving king is recorded on `to` under colour c. */
  function SimulatedCache(mover: Piece, to: Pos, c: Color, whiteKing: Pos, blackKing: Pos): (r: (Pos, Pos))
    ensures mover.kind != King ==> r == (whiteKing, blackKing)
    ensures mover.kind == King ==> FindKingCached(r.0, r.1, c) == to
    ensures mover.kind == King ==> FindKingCached(r.0, r.1, Opponent(c)) == FindKingCached(whiteKing, blackKing, Opponent(c))
  {
    if mover.kind != King then (whiteKing, blackKing)
    else if c == White then (to, blackKing)
    else (whiteKing, to)
  }

  /** Two grids with the same piece on every square are the same grid. */
  lemma SameSquaresSameGrid(b1: Grid, b2: Grid)
    requires forall p | InBounds(p) :: At(b1, p) == At(b2, p)
    ensures b1 == b2
  {
    forall i | 0 <= i < 8
      ensures b1[i] == b2[i]
    {
      assert forall j | 0 <= j < 8 :: b1[i][j] == At(b1, Pos(i, j)) && b2[i][j] == At(b2, Pos(i, j));
    }
  }

  /** Writing back the saved origin, destination and en-passant squares undoes the simulation. */
  lemma RestoreUndoesSimulate(b: Grid, from: Pos, to: Pos, ep: EnPassant)
    requires InBounds(from) && InBounds(to) && EpWellFormed(ep)
    ensures var s := Put(Put(Simulate(b, from, to, ep), from, At(b, from)), to, At(b, to));
      (if IsEnPassantMove(b, from, to, ep) then Put(s, ep.pawn, At(b, ep.pawn)) else s) == b
  {
    var s := Put(Put(Simulate(b, from, to, ep), from, At(b, from)), to, At(b, to));
    var r := if IsEnPassantMove(b, from, to, ep) then Put(s, ep.pawn, At(b, ep.pawn)) else s;
    SameSquaresSameGrid(r, b);
  }

  /** The temporary move: en-passant pawn lifted, mover placed on `to`, `from` emptied. */
  method ApplyTemporarily(a: array2<Piece>, ghost b: Grid, from: Pos, to: Pos, ep: EnPassant)
    returns (moving: Piece, captured: Piece, epCaptured: Piece, isEnPassant: bool)
    requires InBounds(from) && InBounds(to) && EpWellFormed(ep) && Holds(a, b)
    modifies a
    ensures Holds(a, Simulate(b, from, to, ep))
    ensures moving == At(b, from) && captured == At(b, to) && isEnPassant == IsEnPassantMove(b, from, to, ep)
    ensures isEnPassant ==> epCaptured == At(b, ep.pawn)
  {
    ghost var cur := b;
    moving := a[from.row, from.col];
    captured := a[to.row, to.col];
    epCaptured := EmptySquare;
    isEnPassant := moving.kind == Pawn && to.row == ep.target.row && to.col == ep.target.col;
    if isEnPassant {
      epCaptured := a[ep.pawn.row, ep.pawn.col];
      Store(a, cur, ep.pawn, EmptySquare);
      cur := Put(cur, ep.pawn, EmptySquare);
    }
    Store(a, cur, to, moving);
    cur := Put(cur, to, moving);
    Store(a, cur, from, EmptySquare);
  }

  /** The restore: origin, destination and en-passant square get their saved pieces back. */
  method Restore(a: array2<Piece>, ghost b: Grid, from: Pos, to: Pos, ep: EnPassant,
                 moving: Piece, captured: Piece, epCaptured: Piece, isEnPassant: bool)
    requires InBounds(from) && InBounds(to) && EpWellFormed(ep) && Holds(a, Simulate(b, from, to, ep))
    requires moving == At(b, from) && captured == At(b, to) && isEnPassant == IsEnPassantMove(b, from, to, ep)
    requires isEnPassant ==> epCaptured == At(b, ep.pawn)
    modifies a
    ensures Holds(a, b)
  {
    ghost var cur := Simulate(b, from, to, ep);
    Store(a, cur, from, moving);
    cur := Put(cur, from, moving);
    Store(a, cur, to, captured);
    cur := Put(cur, to, captured);
    if isEnPassant {
      Store(a, cur, ep.pawn, epCaptured);
      cur := Put(cur, ep.pawn, epCaptured);
    }
    RestoreUndoesSimulate(b, from, to, ep);
  }

  /**
    WouldBeInCheck of the modular revision: the en-passant pawn is lifted, a
    king move updates the cache, the mover is placed, check is decided through
    the cache, and then every square and the cache are put back.
   */
  method WouldBeInCheckFrame(b: Grid, from: Pos, to: Pos, c: Color, ep: EnPassant, whiteKing: Pos, blackKing: Pos)
    returns (inCheck: bool, restored: Grid, whiteKingAfter: Pos, blackKingAfter: Pos)
    requires InBounds(from) && InBounds(to) && EpWellFormed(ep)
    ensures restored == b && whiteKingAfter == whiteKing && blackKingAfter == blackKing
    ensures var cache := SimulatedCache(At(b, from), to, c, whiteKing, blackKing);
      inCheck == CachedInCheck(Simulate(b, from, to, ep), cache.0, cache.1, c)
  {
    var a := FromGrid(b);
    var wk, bk := whiteKing, blackKing;
    var moving, captured, epCaptured, isEnPassant := ApplyTemporarily(a, b, from, to, ep);
    var savedKing := InvalidPos;
    var isKingMove := moving.kind == King;
    if isKingMove {
      if c == White {
        savedKing := wk;
        wk := to;
      } else {
        savedKing := bk;
        bk := to;
      }
    }
    ContentsOfHolds(a, Simulate(b, from, to, ep));
    inCheck := CachedInCheck(Contents(a), wk, bk, c);
    Restore(a, b, from, to, ep, moving, captured, epCaptured, isEnPassant);
    if isKingMove {
      if c == White {
        wk := savedKing;
      } else {
        bk := savedKing;
      }
    }
    ContentsOfHolds(a, b);
    restored := Contents(a);
    whiteKingAfter, blackKingAfter := wk, bk;
  }

  /**
    WouldBeInCheck of the single-file revision: the same frame, with the king
    found by scanning the temporarily changed board.
   */
  method MainWouldBeInCheckFrame(b: Grid, from: Pos, to: Pos, c: Color, ep: EnPassant)
    returns (inCheck: bool, restored: Grid)
    requires InBounds(from) && InBounds(to) && EpWellFormed(ep)
    ensures restored == b
    ensures inCheck == WouldBeInCheck(b, from, to, c, ep)
  {
    var a := FromGrid(b);
    var moving, captured, epCaptured, isEnPassant := ApplyTemporarily(a, b, from, to, ep);
    ContentsOfHolds(a, Simulate(b, from, to, ep));
    inCheck := IsInCheck(Contents(a), c);
    Restore(a, b, from, to, ep, moving, captured, epCaptured, isEnPassant);
    ContentsOfHolds(a, b);
    restored := Contents(a);
  }

  /**
    With an accurate cache and a single king of the mover's colour, the cached
    test agrees with the scanning WouldBeInCheck for every move onto a square
    not held by the mover's own side.
   */
  lemma FrameAgreesWithScan(b: Grid, from: Pos, to: Pos, c: Color, ep: EnPassant, whiteKing: Pos, blackKing: Pos)
    requires InBounds(from) && InBounds(to) && EpWellFormed(ep) && from != to
    requires At(b, from).kind != NoKind && At(b, from).color == c && !IsAlly(b, to, c)
    requires InBounds(FindKingCached(whiteKing, blackKing, c)) && IsKingOf(b, FindKingCached(whiteKing, blackKing, c), c)
    requires forall q | InBounds(q) && q != FindKingCached(whiteKing, blackKing, c) :: !IsKingOf(b, q, c)
    requires ep.pawn != FindKingCached(whiteKing, blackKing, c)
    ensures var cache := SimulatedCache(At(b, from), to, c, whiteKing, blackKing);
      CachedInCheck(Simulate(b, from, to, ep), cache.0, cache.1, c) == WouldBeInCheck(b, from, to, c, ep)
  {
    var s := Simulate(b, from, to, ep);
    var k := FindKingCached(whiteKing, blackKing, c);
    var cache := SimulatedCache(At(b, from), to, c, whiteKing, blackKing);
    var k' := FindKingCached(cache.0, cache.1, c);
    if At(b, from).kind == King {
      assert k == from && k' == to;
    } else {
      assert k != from && k != to && k' == k;
    }
    assert IsKingOf(s, k', c);
    FindKingOfSoleKing(s, k', c);
  }

  // ---------------------------------------------------------------------------
  // AddMoveIfValid, CalculateValidMoves and HasLegalMoves
  // ---------------------------------------------------------------------------

  /** AddMoveIfValid: marks t when the filter admits it; every other mark is left alone. */
  function AddMoveIfValid(marks: set<Pos>, b: Grid, from: Pos, t: Pos, c: Color, ep: EnPassant): (r: set<Pos>)
    requires InBounds(from) && EpWellFormed(ep)
    ensures r - {t} == marks - {t}
    ensures t in r <==> t in marks || (InBounds(t) && !IsAlly(b, t, c) && !WouldBeInCheck(b, from, t, c, ep))
  {
    if Admits(b, from, t, c, ep) then marks + {t} else marks
  }

  /**
    CalculateValidMoves from cleared marks: each candidate square of the
    selected piece offered to AddMoveIfValid in turn, square by square.
   */
  method CalculateValidMoves(b: Grid, from: Pos, ep: EnPassant) returns (marks: set<Pos>)
    requires InBounds(from) && EpWellFormed(ep)
    ensures marks == LegalMoves(b, from, ep)
  {
    var cands := Candidates(b, from, ep);
    var color := At(b, from).color;
    marks := {};
    var k := 0;
    while k < 64
      invariant 0 <= k <= 64
      invariant forall t :: t in marks <==> exists j | 0 <= j < k :: t == SquareAt(j) && t in cands && Admits(b, from, t, color, ep)
    {
      var t := SquareAt(k);
      if t in cands {
        marks := AddMoveIfValid(marks, b, from, t, color, ep);
      }
      k := k + 1;
    }
    forall t | t in LegalMoves(b, from, ep)
      ensures t in marks
    {
      SquareIndexBijection(t);
      assert t == SquareAt(IndexOf(t));
    }
  }

  /** IsValidMove searched over the whole board: does any square carry a mark? */
  method AnyMarked(marks: set<Pos>) returns (r: bool)
    ensures r <==> exists t | InBounds(t) :: t in marks
  {
    var row := 0;
    while row < 8
      invariant 0 <= row <= 8
      invariant forall t | InBounds(t) && t.row < row :: t !in marks
    {
      var col := 0;
      while col < 8
        invariant 0 <= col <= 8
        invariant forall t | InBounds(t) && (t.row < row || (t.row == row && t.col < col)) :: t !in marks
      {
        if Pos(row, col) in marks {
          return true;
        }
        col := col + 1;
      }
      row := row + 1;
    }
    return false;
  }

  /** The marks of a selected piece decide whether it can move. */
  lemma MarksDecideCanMove(b: Grid, p: Pos, c: Color, ep: EnPassant, marks: set<Pos>)
    requires InBounds(p) && EpWellFormed(ep) && marks == LegalMoves(b, p, ep)
    requires At(b, p).kind != NoKind && At(b, p).color == c
    ensures CanMove(b, p, c, ep) <==> exists t | InBounds(t) :: t in marks
  {
    if marks != {} {
      var t :| t in marks;
      assert InBounds(t);
    }
  }

  /**
    One square of the scan: a piece of colour c becomes the selection, the
    marks are cleared and its moves generated, and the marks are searched.
    Any other square leaves the selection and the marks as they were.
   */
  method TryPiece(b: Grid, p: Pos, c: Color, ep: EnPassant, selected: Pos, marks: set<Pos>)
    returns (r: bool, selectedAfter: Pos, marksAfter: set<Pos>)
    requires InBounds(p) && EpWellFormed(ep)
    ensures r == CanMove(b, p, c, ep)
    ensures !IsEmpty(b, p) && At(b, p).color == c ==> selectedAfter == p && marksAfter == LegalMoves(b, p, ep)
    ensures IsEmpty(b, p) || At(b, p).color != c ==> selectedAfter == selected && marksAfter == marks
  {
    if IsEmpty(b, p) || At(b, p).color != c {
      return false, selected, marks;
    }
    selectedAfter := p;
    marksAfter := CalculateValidMoves(b, selectedAfter, ep);
    r := AnyMarked(marksAfter);
    MarksDecideCanMove(b, p, c, ep, marksAfter);
  }

  /**
    HasLegalMoves of the modular revision: every square holding a piece of
    colour c is made the selection in turn, its legal moves computed, and the
    marks searched square by square. The selection and the marks are borrowed:
    between squares they belong to the last piece tried, and on either return
    the selection is put back and the marks are cleared.
   */
  method HasLegalMovesScan(b: Grid, c: Color, ep: EnPassant, selected: Pos)
    returns (found: bool, selectedAfter: Pos, marks: set<Pos>)
    requires EpWellFormed(ep)
    ensures found == HasLegalMoves(b, c, ep)
    ensures selectedAfter == selected && marks == {}
  {
    selectedAfter, marks := selected, {};
    var row := 0;
    while row < 8
      invariant 0 <= row <= 8
      invariant forall p | InBounds(p) && p.row < row :: !CanMove(b, p, c, ep)
      invariant (selectedAfter == selected && marks == {}) || (InBounds(selectedAfter) && marks == LegalMoves(b, selectedAfter, ep))
    {
      var col := 0;
      while col < 8
        invariant 0 <= col <= 8
        invariant forall p | InBounds(p) && (p.row < row || (p.row == row && p.col < col)) :: !CanMove(b, p, c, ep)
        invariant (selectedAfter == selected && marks == {}) || (InBounds(selectedAfter) && marks == LegalMoves(b, selectedAfter, ep))
      {
        var p := Pos(row, col);
        var movable;
        movable, selectedAfter, marks := TryPiece(b, p, c, ep, selectedAfter, marks);
        if movable {
          SomeMovableHasMoves(b, c, ep, p);
          selectedAfter, marks := selected, {};
          return true, selectedAfter, marks;
        }
        col := col + 1;
      }
      row := row + 1;
    }
    NoneMovableHasNoMoves(b, c, ep);
    selectedAfter, marks := selected, {};
    return false, selectedAfter, marks;
  }

  lemma SomeMovableHasMoves(b: Grid, c: Color, ep: EnPassant, p: Pos)
    requires InBounds(p) && EpWellFormed(ep) && CanMove(b, p, c, ep)
    ensures HasLegalMoves(b, c, ep)
  {
  }

  lemma NoneMovableHasNoMoves(b: Grid, c: Color, ep: EnPassant)
    requires EpWellFormed(ep)
    requires forall p | InBounds(p) && p.row < 8 :: !CanMove(b, p, c, ep)
    ensures !HasLegalMoves(b, c, ep)
  {
  }
}
