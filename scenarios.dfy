/**
 * Concrete positions: a crash of the chess_final.py gate, the corner piece dragged along by
 * a plain king step, and the application block as evidently intended, where only a castle
 * moves the rook.
 */
module Scenarios {
  import opened Board
  import opened Paths
  import opened Rules
  import opened RuleFacts
  import opened Game
  import opened GameFacts

  /** A white king on k and a lone black king on (0,0), at least two rows away: no check. */
  lemma CornerKingNoCheck(v: Variant, b: Board, k: Square)
    requires InBounds(k) && k.row >= 2 && At(b, k) == Piece(White, King)
    requires At(b, Square(0, 0)) == Piece(Black, King)
    requires forall q :: InBounds(q) && q != Square(0, 0) ==> !Opposing(b, q, White)
    ensures IsInCheck(v, b, Some(k), White) == Ok(false)
  {
    assert SquareAt(0) == Square(0, 0);
    assert IsValidMove(v, b, Square(0, 0), k, Black, None, None) == Ok(false);
    forall m | 1 <= m < 64 ensures !Opposing(b, SquareAt(m), White) {
      assert SquareAt(m) != Square(0, 0);
    }
    AttackFromSkip(v, b, Some(k), White, 1, 64);
  }

  const DragBoard: Board :=
    Put(Put(Put(EmptyBoard, Square(7, 5), Piece(White, King)), Square(7, 7), Piece(White, Rook)),
        Square(0, 0), Piece(Black, King))

  lemma DragBoardCells(q: Square)
    requires InBounds(q)
    ensures At(DragBoard, q) ==
      if q == Square(7, 5) then Piece(White, King)
      else if q == Square(7, 7) then Piece(White, Rook)
      else if q == Square(0, 0) then Piece(Black, King)
      else Empty
  {
  }

  /** The position before the step: white is not in check. */
  lemma DragNotInCheck(v: Variant)
    ensures FindKing(DragBoard, White) == Some(Square(7, 5))
    ensures IsInCheck(v, DragBoard, Some(Square(7, 5)), White) == Ok(false)
  {
    forall q | InBounds(q) ensures At(DragBoard, q) == Piece(White, King) ==> q == Square(7, 5) {
      DragBoardCells(q);
    }
    forall q | InBounds(q) && q != Square(0, 0) ensures !Opposing(DragBoard, q, White) {
      DragBoardCells(q);
    }
    UniqueKingFound(DragBoard, White, Square(7, 5));
    CornerKingNoCheck(v, DragBoard, Square(7, 5));
  }

  /** The step from (7,5) to (7,6) leaves the king unattacked and away from the other king. */
  lemma DragStepLegal(v: Variant)
    ensures IsValidMove(v, DragBoard, Square(7, 5), Square(7, 6), White, None,
                        Some(Rights(false, false, false, false))) == Ok(true)
  {
    var b, s, e := DragBoard, Square(7, 5), Square(7, 6);
    DragBoardCells(s);
    DragBoardCells(e);
    forall q | InBounds(q) ensures At(b, q) == Piece(White, King) ==> q == s {
      DragBoardCells(q);
    }
    forall q | InBounds(q) ensures At(b, q) == Piece(Black, King) ==> q == Square(0, 0) {
      DragBoardCells(q);
    }
    var sim := Simulate(b, s, e);
    forall q | InBounds(q) && q != Square(0, 0) ensures !Opposing(sim, q, White) {
      DragBoardCells(q);
    }
    CornerKingNoCheck(v, sim, e);
    InCheckAfterKingStep(v, b, s, e, White);
    KingsAdjacentRule(b, e, White, Square(0, 0));
    KingStepRule(v, b, s, e, White, None, Some(Rights(false, false, false, false)));
  }

  /**
   * A white king on (7,5), a white rook on (7,7), the black king on (0,0), no castling
   * rights. Both programs accept the one-square king step to (7,6), and applying it also
   * moves the rook from (7,7) to (7,5), behind the king.
   */
  lemma KingStepDragsRook(v: Variant)
    ensures var st := GameState(DragBoard, White, None, Rights(false, false, false, false));
      var n := Apply(st, Square(7, 5), Square(7, 6));
      && Attempt(v, st, Square(7, 5), Square(7, 6)) == Ok(Outcome(true, n))
      && At(n.board, Square(7, 6)) == Piece(White, King)
      && At(n.board, Square(7, 5)) == Piece(White, Rook)
      && At(n.board, Square(7, 7)) == Empty
  {
    var st := GameState(DragBoard, White, None, Rights(false, false, false, false));
    DragNotInCheck(Final);
    DragStepLegal(v);
    DragBoardCells(Square(7, 5));
    DragBoardCells(Square(7, 7));
    KingMoveRelocatesCorner(st, Square(7, 5), Square(7, 6));
    GateRule(st, Square(7, 5), Square(7, 6));
  }

  /**
   * The application block with the corner piece moved only by a castle, a king move of two
   * columns; everything else as in Apply. A king move of any other length moves the king alone.
   */
  function ApplyIntended(st: GameState, s: Square, e: Square): (n: GameState)
    requires InBounds(s) && InBounds(e)
    ensures IsKind(At(st.board, s), King) && Abs(e.col - s.col) != 2 ==>
      && At(n.board, s) == Empty
      && (s != e ==> At(n.board, e) == At(st.board, s))
      && (forall p :: InBounds(p) && p != s && p != e ==> At(n.board, p) == At(st.board, p))
      && n.(board := st.board) == Apply(st, s, e).(board := st.board)
    ensures !(IsKind(At(st.board, s), King) && Abs(e.col - s.col) != 2) ==> n == Apply(st, s, e)
  {
    var a := Apply(st, s, e);
    if IsKind(At(st.board, s), King) && Abs(e.col - s.col) != 2 then
      a.(board := Simulate(st.board, s, e))
    else a
  }

  /** In the intended block the same king step leaves the rook on its corner. */
  lemma IntendedKingStepKeepsRook()
    ensures var st := GameState(DragBoard, White, None, Rights(false, false, false, false));
      var n := ApplyIntended(st, Square(7, 5), Square(7, 6));
      && At(n.board, Square(7, 6)) == Piece(White, King)
      && At(n.board, Square(7, 5)) == Empty
      && At(n.board, Square(7, 7)) == Piece(White, Rook)
  {
    DragBoardCells(Square(7, 5));
    DragBoardCells(Square(7, 7));
  }

  const CrashBoard: Board :=
    Put(Put(Put(EmptyBoard, Square(7, 4), Piece(White, King)), Square(0, 4), Piece(Black, Rook)),
        Square(0, 0), Piece(Black, King))

  lemma CrashBoardCells(q: Square)
    requires InBounds(q)
    ensures At(CrashBoard, q) ==
      if q == Square(7, 4) then Piece(White, King)
      else if q == Square(0, 4) then Piece(Black, Rook)
      else if q == Square(0, 0) then Piece(Black, King)
      else Empty
  {
  }

  /** The rook on (0,4) reaches the king on (7,4) down the empty column. */
  lemma CrashRookAttacks()
    ensures IsValidMove(Final, CrashBoard, Square(0, 4), Square(7, 4), Black, None, None) == Ok(true)
  {
    var b, k := CrashBoard, Square(7, 4);
    CrashBoardCells(Square(0, 4));
    CrashBoardCells(k);
    forall p | InBounds(p) && StrictlyBetween(Square(0, 4), k, p) ensures At(b, p).Empty? {
      CrashBoardCells(p);
    }
    RookRule(Final, b, Square(0, 4), k, Black, None, None);
  }

  /** The king on (0,0) is too far from (7,4) to reach it. */
  lemma CrashKingSilent()
    ensures IsValidMove(Final, CrashBoard, Square(0, 0), Square(7, 4), Black, None, None) == Ok(false)
  {
    CrashBoardCells(Square(0, 0));
    CrashBoardCells(Square(7, 4));
  }

  /** The king on (0,0), scanned first, does not reach (7,4); the rook on (0,4) gives check. */
  lemma CrashInCheck()
    ensures FindKing(CrashBoard, White) == Some(Square(7, 4))
    ensures IsInCheck(Final, CrashBoard, Some(Square(7, 4)), White) == Ok(true)
  {
    var b, k := CrashBoard, Square(7, 4);
    forall q | InBounds(q) ensures At(b, q) == Piece(White, King) ==> q == k {
      CrashBoardCells(q);
    }
    UniqueKingFound(b, White, k);
    CrashRookAttacks();
    CrashKingSilent();
    CrashBoardCells(Square(0, 0));
    CrashBoardCells(Square(0, 4));
    assert SquareAt(4) == Square(0, 4);
    assert AttackFrom(Final, b, Some(k), White, 4) == Ok(true);
    forall m | 1 <= m < 4 ensures !Opposing(b, SquareAt(m), White) {
      CrashBoardCells(SquareAt(m));
    }
    AttackFromSkip(Final, b, Some(k), White, 1, 4);
    assert SquareAt(0) == Square(0, 0);
    assert AttackFrom(Final, b, Some(k), White, 0) == AttackFrom(Final, b, Some(k), White, 1);
  }

  /** Moving the empty square (4,4) onto the king erases it, and the scan then crashes. */
  lemma CrashSimulated()
    ensures var sim := Simulate(CrashBoard, Square(4, 4), Square(7, 4));
      FindKing(sim, White) == None && IsInCheck(Final, sim, None, White) == Err(UnpackNone)
  {
    var sim := Simulate(CrashBoard, Square(4, 4), Square(7, 4));
    CrashBoardCells(Square(4, 4));
    forall q | InBounds(q) ensures At(sim, q) != Piece(White, King) {
      CrashBoardCells(q);
    }
    CrashBoardCells(Square(0, 4));
    assert Opposing(sim, Square(0, 4), White);
    InCheckMeaning(Final, sim, None, White);
  }

  /**
   * White in check from a rook on the king's column. Selecting the empty square (4,4) and
   * then the king's square makes the chess_final.py gate simulate moving nothing onto the
   * king, which erases it; the king search then finds nothing and the scan crashes.
   * echecs/chess.py has no gate and refuses the same move.
   */
  lemma GateUnpackCrash()
    ensures var st := GameState(CrashBoard, White, None, Rights(true, true, true, true));
      && Attempt(Final, st, Square(4, 4), Square(7, 4)) == Err(UnpackNone)
      && Attempt(Echecs, st, Square(4, 4), Square(7, 4)) == Ok(Outcome(false, st))
  {
    var st := GameState(CrashBoard, White, None, Rights(true, true, true, true));
    CrashInCheck();
    CrashSimulated();
    CrashBoardCells(Square(4, 4));
    assert Decide(Echecs, st, Square(4, 4), Square(7, 4)) == Ok(Outcome(false, st));
    GateRule(st, Square(4, 4), Square(7, 4));
  }
}
