/**
 * Move legality and check detection, shared by the two programs of the repository.
 * A Variant selects where they differ: Final is chess_final.py (adjacent kings forbidden,
 * king found by find_king), Echecs is echecs/chess.py (no adjacency rule, inline king search).
 */
module Rules {
  import opened Board
  import opened Paths

  datatype Variant = Final | Echecs

  datatype Option<T> = None | Some(value: T)

  /** The four castling flags: king-side and queen-side, per colour. */
  datatype Rights = Rights(wK: bool, wQ: bool, bK: bool, bQ: bool)

  function Flag(r: Rights, c: Color, kingSide: bool): bool {
    match (c, kingSide)
    case (White, true) => r.wK
    case (White, false) => r.wQ
    case (Black, true) => r.bK
    case (Black, false) => r.bQ
  }

  /**
   * The two ways the rules crash: subscripting an absent castling-rights record,
   * and unpacking an absent king position.
   */
  datatype Fault = SubscriptNone | UnpackNone

  datatype Result<T> = Ok(value: T) | Err(fault: Fault)

  /** Squares in row-major order: index i is row i / 8, column i % 8. */
  function SquareAt(i: int): Square {
    Square(i / 8, i % 8)
  }

  function Index(q: Square): int {
    q.row * 8 + q.col
  }

  lemma SquareAtIndex(q: Square)
    requires InBounds(q)
    ensures 0 <= Index(q) < 64 && SquareAt(Index(q)) == q
  {
  }

  /** A copy of the board with the origin's content on the destination and the origin empty. */
  function Simulate(b: Board, s: Square, e: Square): (b': Board)
    requires InBounds(s) && InBounds(e)
    ensures At(b', s) == Empty
    ensures s != e ==> At(b', e) == At(b, s)
    ensures forall p :: InBounds(p) && p != s && p != e ==> At(b', p) == At(b, p)
  {
    Put(Put(b, e, At(b, s)), s, Empty)
  }

  /** Moving a piece removes exactly the king it lands on, if any. */
  lemma SimulateKingCount(b: Board, s: Square, e: Square)
    requires InBounds(s) && InBounds(e) && s != e && IsKing(At(b, s))
    ensures KingCount(Simulate(b, s, e)) + (if IsKing(At(b, e)) then 1 else 0) == KingCount(b)
  {
    var b1 := Put(b, e, At(b, s));
    KingCountPut(b, e, At(b, s));
    KingCountPut(b1, s, Empty);
  }

  /** find_king: the first square in row-major order, from index i on, holding c's king. */
  function FindKingFrom(b: Board, c: Color, i: nat): (k: Option<Square>)
    requires i <= 64
    ensures k.Some? ==> InBounds(k.value) && At(b, k.value) == Piece(c, King)
    decreases 64 - i
  {
    if i == 64 then None
    else if At(b, SquareAt(i)) == Piece(c, King) then Some(SquareAt(i))
    else FindKingFrom(b, c, i + 1)
  }

  /** The search returns the first king from index i on, and nothing only when there is none. */
  lemma {:induction false} FindKingFromFirst(b: Board, c: Color, i: nat)
    requires i <= 64
    ensures var k := FindKingFrom(b, c, i);
      && (k.Some? ==>
          && i <= Index(k.value)
          && forall j :: i <= j < Index(k.value) ==> At(b, SquareAt(j)) != Piece(c, King))
      && (k.None? ==> forall j :: i <= j < 64 ==> At(b, SquareAt(j)) != Piece(c, King))
    decreases 64 - i
  {
    if i < 64 {
      FindKingFromFirst(b, c, i + 1);
    }
  }

  function FindKing(b: Board, c: Color): Option<Square> {
    FindKingFrom(b, c, 0)
  }

  /** The first column, from j on, of a row holding c's king. */
  function FirstInRow(row: seq<Cell>, c: Color, j: nat): (k: Option<int>)
    requires j <= |row|
    ensures k.Some? ==>
      && j <= k.value < |row| && row[k.value] == Piece(c, King)
      && forall j' :: j <= j' < k.value ==> row[j'] != Piece(c, King)
    ensures k.None? ==> forall j' :: j <= j' < |row| ==> row[j'] != Piece(c, King)
    decreases |row| - j
  {
    if j == |row| then None
    else if row[j] == Piece(c, King) then Some(j)
    else FirstInRow(row, c, j + 1)
  }

  /**
   * The inline king search of echecs/chess.py, from row r on, with the position found so far.
   * Its `break` leaves only the column loop, so a later row with a king overwrites an earlier one.
   */
  function InlineKingFrom(b: Board, c: Color, r: nat, found: Option<Square>): (k: Option<Square>)
    requires r <= 8
    requires found.Some? ==> InBounds(found.value) && At(b, found.value) == Piece(c, King)
    ensures k.Some? ==> InBounds(k.value) && At(b, k.value) == Piece(c, King)
    ensures k.None? ==> found.None? && forall p :: InBounds(p) && p.row >= r ==> At(b, p) != Piece(c, King)
    decreases 8 - r
  {
    if r == 8 then found
    else
      var f := FirstInRow(b[r], c, 0);
      InlineKingFrom(b, c, r + 1, if f.Some? then Some(Square(r, f.value)) else found)
  }

  function InlineKing(b: Board, c: Color): Option<Square> {
    InlineKingFrom(b, c, 0, None)
  }

  /** How each program locates the king of colour c after a simulated move. */
  function KingSearch(v: Variant, b: Board, c: Color): (k: Option<Square>)
    ensures k.Some? ==> InBounds(k.value) && At(b, k.value) == Piece(c, King)
  {
    if v == Final then FindKing(b, c) else InlineKing(b, c)
  }

  /** are_kings_adjacent: e lies within one row and one column of the opposing king. */
  function KingsAdjacent(b: Board, e: Square, turn: Color): bool {
    var k := FindKing(b, Opponent(turn));
    k.Some? && Abs(e.row - k.value.row) <= 1 && Abs(e.col - k.value.col) <= 1
  }

  /**
   * can_castle: the flag for the requested side must be set and the squares between
   * column 4 and that side's corner empty. The record is subscripted only when the
   * destination column asks for that side, so an absent record crashes only then.
   */
  function CanCastle(b: Board, s: Square, e: Square, turn: Color, rights: Option<Rights>): (r: Result<bool>)
    ensures r.Err? <==> rights.None? && (e.col == 6 || e.col == 2)
    ensures r == Ok(true) ==>
      && rights.Some?
      && ((e.col == 6 && Flag(rights.value, turn, true)) || (e.col == 2 && Flag(rights.value, turn, false)))
  {
    var home := if turn == White then 7 else 0;
    var kingSide :=
      if e.col != 6 then Ok(false)
      else if rights.None? then Err(SubscriptNone)
      else Ok(Flag(rights.value, turn, true) && CastlingPathClear(b, Square(home, 4), Square(home, 7)));
    if kingSide != Ok(false) then kingSide
    else if e.col != 2 then Ok(false)
    else if rights.None? then Err(SubscriptNone)
    else Ok(Flag(rights.value, turn, false) && CastlingPathClear(b, Square(home, 4), Square(home, 0)))
  }

  /** The pawn rules; white advances toward row 0, black toward row 7. */
  function PawnMove(b: Board, s: Square, e: Square, turn: Color, ep: Option<Square>): bool
    requires InBounds(s) && InBounds(e)
  {
    var dir := if turn == White then -1 else 1;
    if s.col == e.col then
      || (e.row == s.row + dir && At(b, e).Empty?)
      || ((s.row == 1 || s.row == 6) && e.row == s.row + 2 * dir
          && At(b, Square(s.row + dir, e.col)).Empty? && At(b, e).Empty?)
    else if Abs(s.col - e.col) == 1 && e.row == s.row + dir then
      (At(b, e).Piece? && At(b, e).color != turn) || ep == Some(e)
    else
      false
  }

  /** The own-piece and self-capture tests that open is_valid_move. */
  predicate Movable(b: Board, s: Square, e: Square, turn: Color)
    requires InBounds(s) && InBounds(e)
  {
    At(b, s).Piece? && At(b, s).color == turn && !(At(b, e).Piece? && At(b, e).color == turn)
  }

  /**
   * is_valid_move. The verdict is a Result because check detection, reached through a
   * king step, can crash. Termination: a king step re-enters check detection only on a
   * board where the destination now holds a king or one king fewer stands.
   */
  function IsValidMove(v: Variant, b: Board, s: Square, e: Square, turn: Color,
                       ep: Option<Square>, rights: Option<Rights>): (r: Result<bool>)
    requires InBounds(s) && InBounds(e)
    ensures !Movable(b, s, e, turn) ==> r == Ok(false)
    decreases KingCount(b), if IsKing(At(b, e)) then 0 else 1, 2, 0
  {
    if !Movable(b, s, e, turn) then Ok(false)
    else
      var dr, dc := e.row - s.row, e.col - s.col;
      match At(b, s).kind
      case Pawn => Ok(PawnMove(b, s, e, turn, ep))
      case Rook => Ok((dr == 0 || dc == 0) && PathClear(b, s, e))
      case Bishop => Ok(Abs(dr) == Abs(dc) && PathClear(b, s, e))
      case Queen => Ok((dr == 0 || dc == 0 || Abs(dr) == Abs(dc)) && PathClear(b, s, e))
      case Knight => Ok((Abs(dr) == 2 && Abs(dc) == 1) || (Abs(dr) == 1 && Abs(dc) == 2))
      case King =>
        if Abs(dr) <= 1 && Abs(dc) <= 1 then
          match InCheckAfterMove(v, b, s, e, turn)
          case Err(f) => Err(f)
          case Ok(inCheck) => Ok(!inCheck && !(v == Final && KingsAdjacent(b, e, turn)))
        else if s == Square(7, 4) && turn == White && e.row == 7 && (e.col == 6 || e.col == 2) then
          CanCastle(b, s, e, turn, rights)
        else if s == Square(0, 4) && turn == Black && e.row == 0 && (e.col == 6 || e.col == 2) then
          CanCastle(b, s, e, turn, rights)
        else
          Ok(false)
  }

  /** is_in_check_after_move, reached only from a king step of the mover. */
  function InCheckAfterMove(v: Variant, b: Board, s: Square, e: Square, turn: Color): Result<bool>
    requires InBounds(s) && InBounds(e) && At(b, s) == Piece(turn, King)
    requires !(At(b, e).Piece? && At(b, e).color == turn)
    decreases KingCount(b), if IsKing(At(b, e)) then 0 else 1, 1, 0
  {
    var b' := Simulate(b, s, e);
    SimulateKingCount(b, s, e);
    IsInCheck(v, b', KingSearch(v, b', turn), turn)
  }

  /**
   * is_in_check: some opposing piece, scanned in row-major order, may move onto the king
   * square, asked without an en-passant square or castling rights. An absent king position
   * crashes as soon as an opposing piece is met.
   */
  function IsInCheck(v: Variant, b: Board, k: Option<Square>, turn: Color): Result<bool>
    requires k.Some? ==> InBounds(k.value) && At(b, k.value) == Piece(turn, King)
    decreases KingCount(b), 0, 3, 65
  {
    AttackFrom(v, b, k, turn, 0)
  }

  predicate Opposing(b: Board, q: Square, turn: Color)
    requires InBounds(q)
  {
    At(b, q).Piece? && At(b, q).color == Opponent(turn)
  }

  function AttackFrom(v: Variant, b: Board, k: Option<Square>, turn: Color, i: nat): Result<bool>
    requires i <= 64
    requires k.Some? ==> InBounds(k.value) && At(b, k.value) == Piece(turn, King)
    decreases KingCount(b), 0, 3, 64 - i
  {
    if i == 64 then Ok(false)
    else if !Opposing(b, SquareAt(i), turn) then AttackFrom(v, b, k, turn, i + 1)
    else if k.None? then Err(UnpackNone)
    else
      match IsValidMove(v, b, SquareAt(i), k.value, Opponent(turn), None, None)
      case Err(f) => Err(f)
      case Ok(true) => Ok(true)
      case Ok(false) => AttackFrom(v, b, k, turn, i + 1)
  }
}
