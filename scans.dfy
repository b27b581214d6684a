/**
 * The row-by-row scanning loops of the two programs, each proved to compute the
 * function that the pure rules use.
 */
module Scans {
  import opened Board
  import opened Rules

  lemma FindKingFromAt(b: Board, c: Color, row: int, col: int)
    requires 0 <= row < 8 && 0 <= col < 8
    ensures FindKingFrom(b, c, row * 8 + col) ==
      if b[row][col] == Piece(c, King) then Some(Square(row, col)) else FindKingFrom(b, c, row * 8 + col + 1)
  {
    SquareAtIndex(Square(row, col));
  }

  /** find_king: nested loops returning at the first square holding c's king. */
  method FindKingScan(b: Board, c: Color) returns (k: Option<Square>)
    ensures k == FindKing(b, c)
  {
    var row := 0;
    while row < 8
      invariant 0 <= row <= 8
      invariant FindKing(b, c) == FindKingFrom(b, c, row * 8)
    {
      var col := 0;
      while col < 8
        invariant 0 <= col <= 8
        invariant FindKing(b, c) == FindKingFrom(b, c, row * 8 + col)
      {
        FindKingFromAt(b, c, row, col);
        if b[row][col] == Piece(c, King) {
          return Some(Square(row, col));
        }
        col := col + 1;
      }
      row := row + 1;
    }
    return None;
  }

  /**
   * The king search written inline in echecs/chess.py: the `break` ends only the column
   * loop, so each later row holding the king overwrites the position found before.
   */
  method InlineKingScan(b: Board, c: Color) returns (k: Option<Square>)
    ensures k == InlineKing(b, c)
  {
    k := None;
    var row := 0;
    while row < 8
      invariant 0 <= row <= 8
      invariant k.Some? ==> InBounds(k.value) && At(b, k.value) == Piece(c, King)
      invariant InlineKing(b, c) == InlineKingFrom(b, c, row, k)
    {
      ghost var before := k;
      var col := 0;
      while col < 8
        invariant 0 <= col <= 8 && k == before
        invariant FirstInRow(b[row], c, 0) == FirstInRow(b[row], c, col)
      {
        if b[row][col] == Piece(c, King) {
          k := Some(Square(row, col));
          break;
        }
        col := col + 1;
      }
      row := row + 1;
    }
  }

  /**
   * is_in_check: nested loops over the board asking, for each opposing piece, whether it
   * may move onto the king square; the first yes returns, and a crash propagates.
   */
  method InCheckScan(v: Variant, b: Board, k: Option<Square>, turn: Color) returns (r: Result<bool>)
    requires k.Some? ==> InBounds(k.value) && At(b, k.value) == Piece(turn, King)
    ensures r == IsInCheck(v, b, k, turn)
  {
    var opponent := Opponent(turn);
    var row := 0;
    while row < 8
      invariant 0 <= row <= 8
      invariant IsInCheck(v, b, k, turn) == AttackFrom(v, b, k, turn, row * 8)
    {
      var col := 0;
      while col < 8
        invariant 0 <= col <= 8
        invariant IsInCheck(v, b, k, turn) == AttackFrom(v, b, k, turn, row * 8 + col)
      {
        SquareAtIndex(Square(row, col));
        var piece := b[row][col];
        if piece.Piece? && piece.color == opponent {
          if k.None? {
            return Err(UnpackNone);
          }
          var verdict := IsValidMove(v, b, Square(row, col), k.value, opponent, None, None);
          if verdict.Err? {
            return verdict;
          }
          if verdict.value {
            return Ok(true);
          }
        }
        col := col + 1;
      }
      row := row + 1;
    }
    return Ok(false);
  }
}
