/** What applying a move does to the board, the en-passant square and the castling flags. */
module GameFacts {
  import opened Board
  import opened Paths
  import opened Rules
  import opened RuleFacts
  import opened Game

  /** A new game: the starting position, white to move, every flag set, no en-passant square. */
  lemma NewGameFacts()
    ensures NewGame().turn == White && NewGame().ep == None
    ensures NewGame().rights == Rights(true, true, true, true)
    ensures forall q :: InBounds(q) ==> (At(NewGame().board, q) == Piece(White, King) <==> q == Square(7, 4))
    ensures forall q :: InBounds(q) ==> (At(NewGame().board, q) == Piece(Black, King) <==> q == Square(0, 4))
    ensures forall q :: q in {Square(7, 0), Square(7, 7)} ==> At(NewGame().board, q) == Piece(White, Rook)
    ensures forall q :: q in {Square(0, 0), Square(0, 7)} ==> At(NewGame().board, q) == Piece(Black, Rook)
  {
    InitialPosition();
  }

  /** The move the rules accepted. */
  predicate Accepted(v: Variant, st: GameState, s: Square, e: Square)
    requires InBounds(s) && InBounds(e)
  {
    IsValidMove(v, st.board, s, e, st.turn, st.ep, Some(st.rights)) == Ok(true)
  }

  /** The squares a move from s to e may write. */
  function Touched(st: GameState, s: Square, e: Square): set<Square>
    requires InBounds(s)
  {
    var piece := At(st.board, s);
    {s, e}
    + (if IsKind(piece, Pawn) && st.ep == Some(e) then {Square(s.row, e.col)} else {})
    + (if IsKind(piece, King) && e.col == 6 then {Square(e.row, 5), Square(e.row, 7)}
       else if IsKind(piece, King) && e.col == 2 then {Square(e.row, 3), Square(e.row, 0)}
       else {})
  }

  /** An accepted pawn move always changes row. */
  lemma AcceptedPawnChangesRow(v: Variant, st: GameState, s: Square, e: Square)
    requires InBounds(s) && InBounds(e) && Accepted(v, st, s, e) && IsKind(At(st.board, s), Pawn)
    ensures s.row != e.row
    ensures Abs(e.row - s.row) == 2 ==>
      && s.col == e.col
      && s.row == (if st.turn == White then 6 else 1)
      && e.row == (if st.turn == White then 4 else 3)
      && At(st.board, Square((s.row + e.row) / 2, s.col)).Empty?
  {
    PawnRule(v, st.board, s, e, st.turn, st.ep, Some(st.rights));
  }

  /**
   * After an accepted move the destination holds the moved piece, a pawn taken en passant
   * is gone, and no square outside the ones the move touches changes. The origin is empty
   * except after a king step from column 5 to 6 or 3 to 2, where the corner's content lands.
   */
  lemma AcceptedMoveBoard(v: Variant, st: GameState, s: Square, e: Square)
    requires InBounds(s) && InBounds(e) && Accepted(v, st, s, e)
    ensures var b', piece := Apply(st, s, e).board, At(st.board, s);
      && At(b', e) == piece
      && (At(b', s) == Empty
          || (IsKind(piece, King) && ((e.col == 6 && s == Square(e.row, 5)) || (e.col == 2 && s == Square(e.row, 3)))))
      && (IsKind(piece, Pawn) && st.ep == Some(e) ==> At(b', Square(s.row, e.col)) == Empty)
      && forall p :: InBounds(p) && p !in Touched(st, s, e) ==> At(b', p) == At(st.board, p)
  {
    if IsKind(At(st.board, s), Pawn) {
      AcceptedPawnChangesRow(v, st, s, e);
    }
  }

  /**
   * The en-passant square after an accepted move is set exactly by a pawn's two-row move,
   * and is then the square the pawn passed over: row 5 for white, row 2 for black.
   */
  lemma EnPassantRule(v: Variant, st: GameState, s: Square, e: Square)
    requires InBounds(s) && InBounds(e) && Accepted(v, st, s, e)
    ensures var ep := Apply(st, s, e).ep;
      && (ep.Some? <==> IsKind(At(st.board, s), Pawn) && Abs(e.row - s.row) == 2)
      && (ep.Some? ==>
          && ep.value == Square((s.row + e.row) / 2, s.col)
          && ep.value.row == (if st.turn == White then 5 else 2)
          && At(st.board, ep.value).Empty?)
  {
    if IsKind(At(st.board, s), Pawn) {
      AcceptedPawnChangesRow(v, st, s, e);
    }
  }

  /** An en-passant square never survives two accepted moves in a row. */
  lemma EnPassantExpires(v: Variant, st: GameState, s1: Square, e1: Square, s2: Square, e2: Square)
    requires InBounds(s1) && InBounds(e1) && InBounds(s2) && InBounds(e2)
    requires Accepted(v, st, s1, e1) && Accepted(v, Apply(st, s1, e1), s2, e2)
    ensures var st1 := Apply(st, s1, e1);
      st1.ep.Some? ==> Apply(st1, s2, e2).ep != st1.ep
  {
    EnPassantRule(v, st, s1, e1);
    EnPassantRule(v, Apply(st, s1, e1), s2, e2);
  }

  /**
   * Any king move revokes both of the mover's flags, and a king landing on column 6 or 2
   * moves the content of that row's corner (7 or 0) next to it (5 or 3), whether or not
   * the move was a castle.
   */
  lemma KingMoveRelocatesCorner(st: GameState, s: Square, e: Square)
    requires InBounds(s) && InBounds(e) && IsKind(At(st.board, s), King)
    ensures var n := Apply(st, s, e);
      && !Flag(n.rights, st.turn, true) && !Flag(n.rights, st.turn, false)
      && (e.col == 6 ==>
          && At(n.board, Square(e.row, 5)) == (if s == Square(e.row, 7) then Empty else At(st.board, Square(e.row, 7)))
          && At(n.board, Square(e.row, 7)) == Empty)
      && (e.col == 2 ==>
          && At(n.board, Square(e.row, 3)) == (if s == Square(e.row, 0) then Empty else At(st.board, Square(e.row, 0)))
          && At(n.board, Square(e.row, 0)) == Empty)
  {
  }

  /** The corner a side's rook starts on: column 7 for king-side, column 0 for queen-side. */
  function Corner(c: Color, kingSide: bool): Square {
    Square(if c == White then 7 else 0, if kingSide then 7 else 0)
  }

  /**
   * A flag survives a move unless the mover's king moved (both of the mover's flags) or a
   * rook, of either colour, left that flag's corner. No move sets a flag.
   */
  lemma RightsRule(st: GameState, s: Square, e: Square, c: Color, kingSide: bool)
    requires InBounds(s) && InBounds(e)
    ensures var piece := At(st.board, s);
      Flag(Apply(st, s, e).rights, c, kingSide) == (
        && Flag(st.rights, c, kingSide)
        && !(IsKind(piece, King) && c == st.turn)
        && !(IsKind(piece, Rook) && s == Corner(c, kingSide)))
  {
  }

  /**
   * The chess_final.py gate turns the move away when the mover is in check and stays in
   * check; when the mover is not in check, or the move escapes the check, the rules decide.
   * echecs/chess.py has no gate.
   */
  lemma GateRule(st: GameState, s: Square, e: Square)
    requires InBounds(s) && InBounds(e)
    ensures var k := FindKing(st.board, st.turn);
      IsInCheck(Final, st.board, k, st.turn) == Ok(false) ==> Attempt(Final, st, s, e) == Decide(Final, st, s, e)
    ensures var k, sim := FindKing(st.board, st.turn), Simulate(st.board, s, e);
      IsInCheck(Final, st.board, k, st.turn) == Ok(true) && IsInCheck(Final, sim, FindKing(sim, st.turn), st.turn) == Ok(true)
      ==> Attempt(Final, st, s, e) == Ok(Outcome(false, st))
    ensures var k, sim := FindKing(st.board, st.turn), Simulate(st.board, s, e);
      IsInCheck(Final, st.board, k, st.turn) == Ok(true) && IsInCheck(Final, sim, FindKing(sim, st.turn), st.turn) == Ok(false)
      ==> Attempt(Final, st, s, e) == Decide(Final, st, s, e)
    ensures Attempt(Echecs, st, s, e) == Decide(Echecs, st, s, e)
  {
  }

  /** A selected (origin, destination) pair, as the two clicks give it. */
  datatype Move = Move(from: Square, to: Square)

  predicate MovesInBounds(moves: seq<Move>) {
    forall i :: 0 <= i < |moves| ==> InBounds(moves[i].from) && InBounds(moves[i].to)
  }

  /** A sequence of selected moves, each accepted or refused; a crash ends the game. */
  function Play(v: Variant, st: GameState, moves: seq<Move>): Result<GameState>
    requires MovesInBounds(moves)
    decreases |moves|
  {
    if moves == [] then Ok(st)
    else
      match Attempt(v, st, moves[0].from, moves[0].to)
      case Err(f) => Err(f)
      case Ok(o) => Play(v, o.next, moves[1..])
  }

  /** However the game goes on, a castling flag once cleared is never set again. */
  lemma {:induction false} RightsNeverRestored(v: Variant, st: GameState, moves: seq<Move>, c: Color, kingSide: bool)
    requires MovesInBounds(moves) && Play(v, st, moves).Ok?
    ensures Flag(Play(v, st, moves).value.rights, c, kingSide) ==> Flag(st.rights, c, kingSide)
    decreases |moves|
  {
    if moves != [] {
      var o := Attempt(v, st, moves[0].from, moves[0].to).value;
      if o.accepted {
        RightsRule(st, moves[0].from, moves[0].to, c, kingSide);
      }
      RightsNeverRestored(v, o.next, moves[1..], c, kingSide);
    }
  }

  /**
   * Once a castling flag is cleared, castling to that side stays refused for the rest of
   * the game, even when the king and rook stand on their starting squares again.
   */
  lemma CastlingLostForever(v: Variant, st: GameState, moves: seq<Move>, kingSide: bool)
    requires MovesInBounds(moves) && Play(v, st, moves).Ok?
    requires !Flag(st.rights, Play(v, st, moves).value.turn, kingSide)
    ensures var st' := Play(v, st, moves).value;
      var home := if st'.turn == White then 7 else 0;
      IsValidMove(v, st'.board, Square(home, 4), Square(home, if kingSide then 6 else 2), st'.turn, st'.ep, Some(st'.rights))
        != Ok(true) || !IsKind(At(st'.board, Square(home, 4)), King)
  {
    var st' := Play(v, st, moves).value;
    var home := if st'.turn == White then 7 else 0;
    var e := Square(home, if kingSide then 6 else 2);
    RightsNeverRestored(v, st, moves, st'.turn, kingSide);
    if Movable(st'.board, Square(home, 4), e, st'.turn) && IsKind(At(st'.board, Square(home, 4)), King) {
      CastlingRule(v, st'.board, Square(home, 4), e, st'.turn, st'.ep, st'.rights);
    }
  }
}
