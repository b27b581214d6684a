/**
 * The state of a game and the block of the main loop that handles a click: select a
 * square, or try to move the selected piece there and apply the move when it is legal.
 */
module Game {
  import opened Board
  import opened Paths
  import opened Rules
  import Scans

  datatype GameState = GameState(board: Board, turn: Color, ep: Option<Square>, rights: Rights)

  /** Whether a selected move was played, and the state after it. */
  datatype Outcome = Outcome(accepted: bool, next: GameState)

  function NewGame(): GameState {
    GameState(CreateBoard(), White, None, Rights(true, true, true, true))
  }

  function Revoke(r: Rights, c: Color): Rights {
    if c == White then r.(wK := false, wQ := false) else r.(bK := false, bQ := false)
  }

  predicate IsKind(x: Cell, k: Kind) {
    x.Piece? && x.kind == k
  }

  /**
   * The move-application block: move the piece, take a pawn en passant, set or clear the
   * en-passant square, move the corner piece for any king landing on column 6 or 2 and
   * revoke the mover's flags, revoke a flag for a rook leaving a corner, pass the turn.
   */
  function Apply(st: GameState, s: Square, e: Square): (n: GameState)
    requires InBounds(s) && InBounds(e)
    ensures n.turn == Opponent(st.turn)
    ensures forall c, kingSide :: Flag(n.rights, c, kingSide) ==> Flag(st.rights, c, kingSide)
    ensures IsKind(At(st.board, s), King) ==> !Flag(n.rights, st.turn, true) && !Flag(n.rights, st.turn, false)
    ensures n.ep.Some? <==> IsKind(At(st.board, s), Pawn) && Abs(e.row - s.row) == 2
  {
    var piece := At(st.board, s);
    var b1 := Simulate(st.board, s, e);
    var b2 := if IsKind(piece, Pawn) && st.ep == Some(e) then Put(b1, Square(s.row, e.col), Empty) else b1;
    var ep := if IsKind(piece, Pawn) && Abs(e.row - s.row) == 2
      then Some(Square(e.row + (if st.turn == White then 1 else -1), e.col)) else None;
    var b3 :=
      if IsKind(piece, King) && e.col == 6 then
        Put(Put(b2, Square(e.row, 5), At(b2, Square(e.row, 7))), Square(e.row, 7), Empty)
      else if IsKind(piece, King) && e.col == 2 then
        Put(Put(b2, Square(e.row, 3), At(b2, Square(e.row, 0))), Square(e.row, 0), Empty)
      else b2;
    var r1 := if IsKind(piece, King) then Revoke(st.rights, st.turn) else st.rights;
    var r2 :=
      if !IsKind(piece, Rook) then r1
      else if s == Square(7, 0) then r1.(wQ := false)
      else if s == Square(7, 7) then r1.(wK := false)
      else if s == Square(0, 0) then r1.(bQ := false)
      else if s == Square(0, 7) then r1.(bK := false)
      else r1;
    GameState(b3, Opponent(st.turn), ep, r2)
  }

  /**
   * The gate of chess_final.py: when the mover is in check, a move after which the mover
   * is still in check is turned away before the rules are asked.
   */
  function GateRejects(st: GameState, s: Square, e: Square): Result<bool>
    requires InBounds(s) && InBounds(e)
  {
    match IsInCheck(Final, st.board, FindKing(st.board, st.turn), st.turn)
    case Err(f) => Err(f)
    case Ok(inCheck) =>
      if !inCheck then Ok(false)
      else
        var sim := Simulate(st.board, s, e);
        IsInCheck(Final, sim, FindKing(sim, st.turn), st.turn)
  }

  /** Ask the rules about the selected move and apply it when they accept it. */
  function Decide(v: Variant, st: GameState, s: Square, e: Square): Result<Outcome>
    requires InBounds(s) && InBounds(e)
  {
    match IsValidMove(v, st.board, s, e, st.turn, st.ep, Some(st.rights))
    case Err(f) => Err(f)
    case Ok(legal) => Ok(if legal then Outcome(true, Apply(st, s, e)) else Outcome(false, st))
  }

  /**
   * A selected move from s to e. The side to move changes exactly when the move is
   * accepted, only a move the rules accept is played, and a refused move changes nothing.
   */
  function Attempt(v: Variant, st: GameState, s: Square, e: Square): (r: Result<Outcome>)
    requires InBounds(s) && InBounds(e)
    ensures r.Ok? ==> (r.value.accepted <==> r.value.next.turn != st.turn)
    ensures r.Ok? && !r.value.accepted ==> r.value.next == st
    ensures r.Ok? && r.value.accepted ==>
      IsValidMove(v, st.board, s, e, st.turn, st.ep, Some(st.rights)) == Ok(true)
      && r.value.next == Apply(st, s, e)
    ensures IsValidMove(v, st.board, s, e, st.turn, st.ep, Some(st.rights)) == Ok(true)
      && (v == Echecs || GateRejects(st, s, e) == Ok(false))
      ==> r == Ok(Outcome(true, Apply(st, s, e)))
  {
    if v == Final then
      match GateRejects(st, s, e)
      case Err(f) => Err(f)
      case Ok(rejected) => if rejected then Ok(Outcome(false, st)) else Decide(v, st, s, e)
    else
      Decide(v, st, s, e)
  }

  /** The game as the main loop holds it: the board, the flags and the selected square. */
  class Game {
    const variant: Variant
    var board: Board
    var turn: Color
    var enPassant: Option<Square>
    var rights: Rights
    var selected: Option<Square>

    ghost predicate Valid()
      reads this
    {
      selected.Some? ==> InBounds(selected.value)
    }

    function State(): GameState
      reads this
    {
      GameState(board, turn, enPassant, rights)
    }

    constructor (v: Variant)
      ensures Valid() && variant == v && State() == NewGame() && selected == None
    {
      variant := v;
      board := CreateBoard();
      turn := White;
      enPassant := None;
      rights := Rights(true, true, true, true);
      selected := None;
    }

    /**
     * The in-check gate of chess_final.py (lines 228-235): is the mover in check, and
     * still in check once the selected piece is moved to e?
     */
    method Gate(s: Square, e: Square) returns (rejected: Result<bool>)
      requires InBounds(s) && InBounds(e)
      ensures rejected == GateRejects(State(), s, e)
    {
      var kingPos := Scans.FindKingScan(board, turn);
      var inCheck := Scans.InCheckScan(Final, board, kingPos, turn);
      if inCheck.Err? || !inCheck.value {
        return inCheck;
      }
      var simulated := Simulate(board, s, e);
      kingPos := Scans.FindKingScan(simulated, turn);
      rejected := Scans.InCheckScan(Final, simulated, kingPos, turn);
    }

    /** The move-application block, run once the rules have accepted the move from s to e. */
    method ApplyMove(s: Square, e: Square)
      requires InBounds(s) && InBounds(e)
      modifies this
      ensures State() == Apply(old(State()), s, e) && selected == old(selected)
    {
      var piece := At(board, s);
      board := Put(board, e, piece);
      board := Put(board, s, Empty);
      if IsKind(piece, Pawn) && enPassant == Some(e) {
        board := Put(board, Square(s.row, e.col), Empty);
      }
      if IsKind(piece, Pawn) && Abs(e.row - s.row) == 2 {
        enPassant := Some(Square(e.row + (if turn == White then 1 else -1), e.col));
      } else {
        enPassant := None;
      }
      if IsKind(piece, King) {
        if e.col == 6 {
          board := Put(board, Square(e.row, 5), At(board, Square(e.row, 7)));
          board := Put(board, Square(e.row, 7), Empty);
        } else if e.col == 2 {
          board := Put(board, Square(e.row, 3), At(board, Square(e.row, 0)));
          board := Put(board, Square(e.row, 0), Empty);
        }
        rights := Revoke(rights, turn);
      }
      if IsKind(piece, Rook) {
        if s == Square(7, 0) {
          rights := rights.(wQ := false);
        } else if s == Square(7, 7) {
          rights := rights.(wK := false);
        } else if s == Square(0, 0) {
          rights := rights.(bQ := false);
        } else if s == Square(0, 7) {
          rights := rights.(bK := false);
        }
      }
      turn := Opponent(turn);
    }

    /**
     * A click on square (row, col). With nothing selected it selects the square; otherwise
     * it tries the move from the selected square and clears the selection. A crash in the
     * rules ends the program, which the returned fault reports, leaving the state as it was.
     */
    method Click(row: int, col: int) returns (fault: Option<Fault>)
      requires Valid() && InBounds(Square(row, col))
      modifies this
      ensures Valid()
      ensures old(selected).None? ==>
        fault.None? && selected == Some(Square(row, col)) && State() == old(State())
      ensures old(selected).Some? ==>
        match Attempt(variant, old(State()), old(selected).value, Square(row, col))
        case Err(f) => fault == Some(f) && selected == old(selected) && State() == old(State())
        case Ok(o) => fault.None? && selected == None && State() == o.next
    {
      if selected.None? {
        selected := Some(Square(row, col));
        return None;
      }
      var from, to := selected.value, Square(row, col);
      if variant == Final {
        var rejected := Gate(from, to);
        if rejected.Err? {
          return Some(rejected.fault);
        }
        if rejected.value {
          selected := None;
          return None;
        }
      }
      var verdict := IsValidMove(variant, board, from, to, turn, enPassant, Some(rights));
      if verdict.Err? {
        return Some(verdict.fault);
      }
      if verdict.value {
        ApplyMove(from, to);
      }
      selected := None;
      return None;
    }
  }
}
