/** What the move rules and check detection mean, stated against the board. */
module RuleFacts {
  import opened Board
  import opened Paths
  import opened Rules

  /** Moving onto the origin itself, or onto any piece of one's own colour, is never legal. */
  lemma NoSelfCapture(v: Variant, b: Board, s: Square, e: Square, turn: Color,
                      ep: Option<Square>, rights: Option<Rights>)
    requires InBounds(s) && InBounds(e)
    ensures IsValidMove(v, b, s, s, turn, ep, rights) == Ok(false)
    ensures At(b, e).Piece? && At(b, e).color == turn ==> IsValidMove(v, b, s, e, turn, ep, rights) == Ok(false)
    ensures At(b, s).Empty? || At(b, s).color != turn ==> IsValidMove(v, b, s, e, turn, ep, rights) == Ok(false)
  {
  }

  /** Rooks move along a row or column over empty squares only. */
  lemma RookRule(v: Variant, b: Board, s: Square, e: Square, turn: Color,
                 ep: Option<Square>, rights: Option<Rights>)
    requires InBounds(s) && InBounds(e) && Movable(b, s, e, turn) && At(b, s).kind == Rook
    ensures IsValidMove(v, b, s, e, turn, ep, rights) == Ok(
      (s.row == e.row || s.col == e.col)
      && forall p :: InBounds(p) && StrictlyBetween(s, e, p) ==> At(b, p).Empty?)
  {
    PathClearIff(b, s, e);
  }

  /** Bishops move along a diagonal over empty squares only. */
  lemma BishopRule(v: Variant, b: Board, s: Square, e: Square, turn: Color,
                   ep: Option<Square>, rights: Option<Rights>)
    requires InBounds(s) && InBounds(e) && Movable(b, s, e, turn) && At(b, s).kind == Bishop
    ensures IsValidMove(v, b, s, e, turn, ep, rights) == Ok(
      Abs(e.row - s.row) == Abs(e.col - s.col)
      && forall p :: InBounds(p) && StrictlyBetween(s, e, p) ==> At(b, p).Empty?)
  {
    PathClearIff(b, s, e);
  }

  /** Queens move as a rook or as a bishop. */
  lemma QueenRule(v: Variant, b: Board, s: Square, e: Square, turn: Color,
                  ep: Option<Square>, rights: Option<Rights>)
    requires InBounds(s) && InBounds(e) && Movable(b, s, e, turn) && At(b, s).kind == Queen
    ensures IsValidMove(v, b, s, e, turn, ep, rights) == Ok(
      (s.row == e.row || s.col == e.col || Abs(e.row - s.row) == Abs(e.col - s.col))
      && forall p :: InBounds(p) && StrictlyBetween(s, e, p) ==> At(b, p).Empty?)
  {
    PathClearIff(b, s, e);
  }

  /** Knights jump two squares one way and one the other, whatever stands between. */
  lemma KnightRule(v: Variant, b: Board, s: Square, e: Square, turn: Color,
                   ep: Option<Square>, rights: Option<Rights>)
    requires InBounds(s) && InBounds(e) && Movable(b, s, e, turn) && At(b, s).kind == Knight
    ensures IsValidMove(v, b, s, e, turn, ep, rights) == Ok(
      (Abs(e.row - s.row), Abs(e.col - s.col)) in {(2, 1), (1, 2)})
  {
  }

  /**
   * Pawns: one step forward onto an empty square, two from row 1 or 6 over two empty
   * squares, or one step diagonally forward onto a piece or onto the en-passant square.
   */
  lemma PawnRule(v: Variant, b: Board, s: Square, e: Square, turn: Color,
                 ep: Option<Square>, rights: Option<Rights>)
    requires InBounds(s) && InBounds(e) && Movable(b, s, e, turn) && At(b, s).kind == Pawn
    ensures var dir := if turn == White then -1 else 1;
      IsValidMove(v, b, s, e, turn, ep, rights) == Ok(
        || (e.col == s.col && e.row == s.row + dir && At(b, e).Empty?)
        || (e.col == s.col && (s.row == 1 || s.row == 6) && e.row == s.row + 2 * dir
            && At(b, Square(s.row + dir, s.col)).Empty? && At(b, e).Empty?)
        || (Abs(e.col - s.col) == 1 && e.row == s.row + dir && (At(b, e).Piece? || ep == Some(e))))
  {
  }

  /**
   * A one-square king step is legal exactly when the mover is not attacked on the board
   * after the step and, in chess_final.py only, it does not land next to the opposing king.
   * It is the only rule that consults check detection, and the only one that can crash.
   */
  lemma KingStepRule(v: Variant, b: Board, s: Square, e: Square, turn: Color,
                     ep: Option<Square>, rights: Option<Rights>)
    requires InBounds(s) && InBounds(e) && Movable(b, s, e, turn) && At(b, s).kind == King
    requires Abs(e.row - s.row) <= 1 && Abs(e.col - s.col) <= 1
    ensures IsValidMove(v, b, s, e, turn, ep, rights) == Ok(true)
        <==> InCheckAfterMove(v, b, s, e, turn) == Ok(false) && (v == Final ==> !KingsAdjacent(b, e, turn))
    ensures IsValidMove(v, b, s, e, turn, ep, rights).Err? <==> InCheckAfterMove(v, b, s, e, turn).Err?
  {
  }

  /**
   * Castling: from column 4 of the mover's back rank to column 6 or 2 of it, with the flag
   * for that side set and every square between column 4 and the corner empty. Nothing
   * tests for attacked squares or for a rook on the corner.
   */
  lemma CastlingRule(v: Variant, b: Board, s: Square, e: Square, turn: Color,
                     ep: Option<Square>, rt: Rights)
    requires InBounds(s) && InBounds(e) && Movable(b, s, e, turn) && At(b, s).kind == King
    requires Abs(e.row - s.row) > 1 || Abs(e.col - s.col) > 1
    ensures var home := if turn == White then 7 else 0;
      IsValidMove(v, b, s, e, turn, ep, Some(rt)) == Ok(
        && s == Square(home, 4) && e.row == home
        && ((e.col == 6 && Flag(rt, turn, true) && forall c :: 4 < c < 7 ==> b[home][c].Empty?)
         || (e.col == 2 && Flag(rt, turn, false) && forall c :: 0 < c < 4 ==> b[home][c].Empty?)))
  {
    var home := if turn == White then 7 else 0;
    CastlingPathClearIff(b, Square(home, 4), Square(home, 7));
    CastlingPathClearIff(b, Square(home, 4), Square(home, 0));
  }

  /**
   * Check detection asks without castling rights, so a king on its home square probing
   * column 6 or 2 of its home row subscripts the absent record and crashes; any other
   * longer king move is refused.
   */
  lemma CastlingWithoutRights(v: Variant, b: Board, s: Square, e: Square, turn: Color, ep: Option<Square>)
    requires InBounds(s) && InBounds(e) && Movable(b, s, e, turn) && At(b, s).kind == King
    requires Abs(e.row - s.row) > 1 || Abs(e.col - s.col) > 1
    ensures var home := if turn == White then 7 else 0;
      IsValidMove(v, b, s, e, turn, ep, None) ==
        if s == Square(home, 4) && e.row == home && (e.col == 6 || e.col == 2) then Err(SubscriptNone)
        else Ok(false)
  {
  }

  /** With a single king of colour c on the board, both king searches find it. */
  lemma UniqueKingFound(b: Board, c: Color, q: Square)
    requires InBounds(q) && At(b, q) == Piece(c, King)
    requires forall p :: InBounds(p) && At(b, p) == Piece(c, King) ==> p == q
    ensures FindKing(b, c) == Some(q) && InlineKing(b, c) == Some(q)
    ensures KingSearch(Final, b, c) == KingSearch(Echecs, b, c) == Some(q)
  {
    SquareAtIndex(q);
    FindKingFromFirst(b, c, 0);
    InlineUnique(b, c, q, 0, None);
  }

  lemma {:induction false} InlineUnique(b: Board, c: Color, q: Square, r: nat, found: Option<Square>)
    requires r <= 8 && InBounds(q) && At(b, q) == Piece(c, King)
    requires forall p :: InBounds(p) && At(b, p) == Piece(c, King) ==> p == q
    requires found == if r > q.row then Some(q) else None
    ensures InlineKingFrom(b, c, r, found) == Some(q)
    decreases 8 - r
  {
    if r < 8 {
      var f := FirstInRow(b[r], c, 0);
      if f.Some? {
        assert At(b, Square(r, f.value)) == Piece(c, King);
      }
      InlineUnique(b, c, q, r + 1, if f.Some? then Some(Square(r, f.value)) else found);
    }
  }

  /**
   * The inline search returns the first king of the last row holding one: a king at q with
   * no king in an earlier column of its row, and none in any later row, is the one found.
   */
  lemma InlineLastRow(b: Board, c: Color, q: Square)
    requires InBounds(q) && At(b, q) == Piece(c, King)
    requires forall j :: 0 <= j < q.col ==> b[q.row][j] != Piece(c, King)
    requires forall p :: InBounds(p) && p.row > q.row ==> At(b, p) != Piece(c, King)
    ensures InlineKing(b, c) == Some(q)
  {
    InlineReaches(b, c, q, 0, None);
  }

  lemma {:induction false} InlineReaches(b: Board, c: Color, q: Square, r: nat, found: Option<Square>)
    requires InBounds(q) && At(b, q) == Piece(c, King) && r <= q.row
    requires found.Some? ==> InBounds(found.value) && At(b, found.value) == Piece(c, King)
    requires forall j :: 0 <= j < q.col ==> b[q.row][j] != Piece(c, King)
    requires forall p :: InBounds(p) && p.row > q.row ==> At(b, p) != Piece(c, King)
    ensures InlineKingFrom(b, c, r, found) == Some(q)
    decreases 8 - r
  {
    var f := FirstInRow(b[r], c, 0);
    if r < q.row {
      if f.Some? {
        assert At(b, Square(r, f.value)) == Piece(c, King);
      }
      InlineReaches(b, c, q, r + 1, if f.Some? then Some(Square(r, f.value)) else found);
    } else {
      assert f == Some(q.col);
      InlinePastLast(b, c, r + 1, Some(q));
    }
  }

  /** With no king in the remaining rows, the inline search keeps what it found. */
  lemma {:induction false} InlinePastLast(b: Board, c: Color, r: nat, found: Option<Square>)
    requires r <= 8
    requires found.Some? ==> InBounds(found.value) && At(b, found.value) == Piece(c, King)
    requires forall p :: InBounds(p) && p.row >= r ==> At(b, p) != Piece(c, King)
    ensures InlineKingFrom(b, c, r, found) == found
    decreases 8 - r
  {
    if r < 8 {
      InlinePastLast(b, c, r + 1, found);
    }
  }

  /** With a single opposing king at q, the adjacency rule tests the distance to q. */
  lemma KingsAdjacentRule(b: Board, e: Square, turn: Color, q: Square)
    requires InBounds(q) && At(b, q) == Piece(Opponent(turn), King)
    requires forall p :: InBounds(p) && At(b, p) == Piece(Opponent(turn), King) ==> p == q
    ensures KingsAdjacent(b, e, turn) <==> Abs(e.row - q.row) <= 1 && Abs(e.col - q.col) <= 1
  {
    UniqueKingFound(b, Opponent(turn), q);
  }

  /**
   * With a single king of the mover's colour, the step test asks whether that king is
   * attacked on its new square of the simulated board, in both programs.
   */
  lemma InCheckAfterKingStep(v: Variant, b: Board, s: Square, e: Square, turn: Color)
    requires InBounds(s) && InBounds(e) && At(b, s) == Piece(turn, King)
    requires !(At(b, e).Piece? && At(b, e).color == turn)
    requires forall p :: InBounds(p) && At(b, p) == Piece(turn, King) ==> p == s
    ensures InCheckAfterMove(v, b, s, e, turn) == IsInCheck(v, Simulate(b, s, e), Some(e), turn)
  {
    var b' := Simulate(b, s, e);
    UniqueKingFound(b', turn, e);
  }

  /** Square q holds an opposing piece that may move onto the king square k. */
  predicate Attacks(v: Variant, b: Board, q: Square, k: Option<Square>, turn: Color)
    requires InBounds(q)
    requires k.Some? ==> InBounds(k.value) && At(b, k.value) == Piece(turn, King)
  {
    Opposing(b, q, turn) && k.Some? && IsValidMove(v, b, q, k.value, Opponent(turn), None, None) == Ok(true)
  }

  lemma {:induction false} AttackFromFacts(v: Variant, b: Board, k: Option<Square>, turn: Color, i: nat)
    requires i <= 64
    requires k.Some? ==> InBounds(k.value) && At(b, k.value) == Piece(turn, King)
    ensures AttackFrom(v, b, k, turn, i) == Ok(true) ==>
      exists j :: i <= j < 64 && Attacks(v, b, SquareAt(j), k, turn)
    ensures AttackFrom(v, b, k, turn, i) == Ok(false) ==>
      forall j :: i <= j < 64 && Opposing(b, SquareAt(j), turn) ==>
        k.Some? && IsValidMove(v, b, SquareAt(j), k.value, Opponent(turn), None, None) == Ok(false)
    ensures (forall j :: i <= j < 64 && Opposing(b, SquareAt(j), turn) ==>
        k.Some? && IsValidMove(v, b, SquareAt(j), k.value, Opponent(turn), None, None).Ok?)
      ==> AttackFrom(v, b, k, turn, i).Ok?
    ensures k.None? ==> AttackFrom(v, b, k, turn, i) in {Ok(false), Err(UnpackNone)}
    decreases 64 - i
  {
    if i < 64 {
      AttackFromFacts(v, b, k, turn, i + 1);
    }
  }

  /**
   * is_in_check reports true only when some opposing piece may move onto the king square,
   * false only when none may, and it crashes only when some opposing piece's verdict
   * crashes or the king position is absent while an opposing piece stands on the board.
   */
  lemma InCheckMeaning(v: Variant, b: Board, k: Option<Square>, turn: Color)
    requires k.Some? ==> InBounds(k.value) && At(b, k.value) == Piece(turn, King)
    ensures IsInCheck(v, b, k, turn) == Ok(true) ==> exists q :: InBounds(q) && Attacks(v, b, q, k, turn)
    ensures IsInCheck(v, b, k, turn) == Ok(false) ==>
      forall q :: InBounds(q) && Opposing(b, q, turn) ==>
        k.Some? && IsValidMove(v, b, q, k.value, Opponent(turn), None, None) == Ok(false)
    ensures (forall q :: InBounds(q) && Opposing(b, q, turn) ==>
        k.Some? && IsValidMove(v, b, q, k.value, Opponent(turn), None, None).Ok?)
      ==> IsInCheck(v, b, k, turn).Ok?
    ensures k.None? ==>
      IsInCheck(v, b, k, turn) == if exists q :: InBounds(q) && Opposing(b, q, turn) then Err(UnpackNone) else Ok(false)
  {
    AttackFromFacts(v, b, k, turn, 0);
    forall q | InBounds(q) ensures SquareAt(Index(q)) == q && 0 <= Index(q) < 64 {
      SquareAtIndex(q);
    }
  }

  /**
   * In echecs/chess.py, where a king step has no adjacency test, the opposing king attacks
   * a square next to it exactly when taking the king there would leave it unattacked.
   */
  lemma EchecsKingAttacks(b: Board, q: Square, k: Square, turn: Color)
    requires InBounds(q) && InBounds(k) && At(b, k) == Piece(turn, King)
    requires At(b, q) == Piece(Opponent(turn), King)
    requires Abs(k.row - q.row) <= 1 && Abs(k.col - q.col) <= 1
    ensures Attacks(Echecs, b, q, Some(k), turn) <==> InCheckAfterMove(Echecs, b, q, k, Opponent(turn)) == Ok(false)
  {
    KingStepRule(Echecs, b, q, k, Opponent(turn), None, None);
  }

  lemma {:induction false} AttackFromSkip(v: Variant, b: Board, k: Option<Square>, turn: Color, i: nat, j: nat)
    requires i <= j <= 64
    requires k.Some? ==> InBounds(k.value) && At(b, k.value) == Piece(turn, King)
    requires forall m :: i <= m < j ==> !Opposing(b, SquareAt(m), turn)
    ensures AttackFrom(v, b, k, turn, i) == AttackFrom(v, b, k, turn, j)
    decreases j - i
  {
    if i < j {
      AttackFromSkip(v, b, k, turn, i + 1, j);
    }
  }

  /**
   * Check detection passes no castling rights, so a white king on (7,4) probing a black
   * king on (7,6) subscripts the absent record: the scan crashes instead of answering.
   */
  lemma CastlingProbeCrashes(v: Variant)
    ensures var b := Put(Put(EmptyBoard, Square(7, 4), Piece(White, King)), Square(7, 6), Piece(Black, King));
      IsInCheck(v, b, Some(Square(7, 6)), Black) == Err(SubscriptNone)
  {
    var b := Put(Put(EmptyBoard, Square(7, 4), Piece(White, King)), Square(7, 6), Piece(Black, King));
    forall m | 0 <= m < 60 ensures !Opposing(b, SquareAt(m), Black) {
      assert SquareAt(m) != Square(7, 4) && SquareAt(m) != Square(7, 6);
    }
    AttackFromSkip(v, b, Some(Square(7, 6)), Black, 0, 60);
    assert SquareAt(60) == Square(7, 4);
    assert IsValidMove(v, b, Square(7, 4), Square(7, 6), White, None, None) == Err(SubscriptNone);
  }
}
