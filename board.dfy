/** The 8x8 board: square contents, coordinates, and the starting position. */
module Board {

  /** The two sides; white moves toward row 0, black toward row 7. */
  datatype Color = White | Black

  function Opponent(c: Color): (o: Color)
    ensures o != c
  {
    if c == White then Black else White
  }

  datatype Kind = Pawn | Knight | Bishop | Rook | Queen | King

  /** What one square holds: nothing, or exactly one piece. */
  datatype Cell = Empty | Piece(color: Color, kind: Kind)

  /** A (row, column) coordinate; row 0 is black's back rank, row 7 white's. */
  datatype Square = Square(row: int, col: int)

  predicate InBounds(q: Square) {
    0 <= q.row < 8 && 0 <= q.col < 8
  }

  const EmptyBoard: seq<seq<Cell>> := seq(8, _ => seq(8, _ => Empty))

  /** A board is eight rows of eight cells. */
  type Board = b: seq<seq<Cell>> | |b| == 8 && forall r :: 0 <= r < |b| ==> |b[r]| == 8
    witness EmptyBoard

  function At(b: Board, q: Square): Cell
    requires InBounds(q)
  {
    b[q.row][q.col]
  }

  /** The board with square q set to x and every other square unchanged. */
  function Put(b: Board, q: Square, x: Cell): (b': Board)
    requires InBounds(q)
    ensures At(b', q) == x
    ensures forall p :: InBounds(p) && p != q ==> At(b', p) == At(b, p)
  {
    b[q.row := b[q.row][q.col := x]]
  }

  predicate IsKing(x: Cell) {
    x.Piece? && x.kind == King
  }

  function KingsInRow(row: seq<Cell>): nat {
    if row == [] then 0 else (if IsKing(row[0]) then 1 else 0) + KingsInRow(row[1..])
  }

  function KingsInRows(rows: seq<seq<Cell>>): nat {
    if rows == [] then 0 else KingsInRow(rows[0]) + KingsInRows(rows[1..])
  }

  /** The number of kings, of either colour, standing on the board. */
  function KingCount(b: Board): nat {
    KingsInRows(b)
  }

  lemma {:induction false} KingsInRowUpdate(row: seq<Cell>, i: nat, x: Cell)
    requires i < |row|
    ensures KingsInRow(row[i := x]) + (if IsKing(row[i]) then 1 else 0)
         == KingsInRow(row) + (if IsKing(x) then 1 else 0)
  {
    if i > 0 {
      assert row[i := x][1..] == row[1..][i - 1 := x];
      KingsInRowUpdate(row[1..], i - 1, x);
    } else {
      assert row[i := x][1..] == row[1..];
    }
  }

  lemma {:induction false} KingsInRowsUpdate(rows: seq<seq<Cell>>, i: nat, row: seq<Cell>)
    requires i < |rows|
    ensures KingsInRows(rows[i := row]) + KingsInRow(rows[i]) == KingsInRows(rows) + KingsInRow(row)
  {
    if i > 0 {
      assert rows[i := row][1..] == rows[1..][i - 1 := row];
      KingsInRowsUpdate(rows[1..], i - 1, row);
    } else {
      assert rows[i := row][1..] == rows[1..];
    }
  }

  /** Writing one square changes the king count by exactly the kings written and overwritten. */
  lemma KingCountPut(b: Board, q: Square, x: Cell)
    requires InBounds(q)
    ensures KingCount(Put(b, q, x)) + (if IsKing(At(b, q)) then 1 else 0)
         == KingCount(b) + (if IsKing(x) then 1 else 0)
  {
    KingsInRowUpdate(b[q.row], q.col, x);
    KingsInRowsUpdate(b, q.row, b[q.row][q.col := x]);
  }

  /** The starting position; rows 0-1 are black, rows 6-7 white. */
  function CreateBoard(): Board {
    var back := [Rook, Knight, Bishop, Queen, King, Bishop, Knight, Rook];
    [ seq(8, c requires 0 <= c < 8 => Piece(Black, back[c])),
      seq(8, _ => Piece(Black, Pawn)),
      seq(8, _ => Empty), seq(8, _ => Empty), seq(8, _ => Empty), seq(8, _ => Empty),
      seq(8, _ => Piece(White, Pawn)),
      seq(8, c requires 0 <= c < 8 => Piece(White, back[c])) ]
  }

  /** Each side has exactly one king, on column 4 of its back rank, and rooks on its corners. */
  lemma InitialPosition()
    ensures forall q :: InBounds(q) ==>
      (At(CreateBoard(), q) == Piece(White, King) <==> q == Square(7, 4))
    ensures forall q :: InBounds(q) ==>
      (At(CreateBoard(), q) == Piece(Black, King) <==> q == Square(0, 4))
    ensures At(CreateBoard(), Square(7, 0)) == Piece(White, Rook)
    ensures At(CreateBoard(), Square(7, 7)) == Piece(White, Rook)
    ensures At(CreateBoard(), Square(0, 0)) == Piece(Black, Rook)
    ensures At(CreateBoard(), Square(0, 7)) == Piece(Black, Rook)
  {
    var b := CreateBoard();
    forall q | InBounds(q)
      ensures At(b, q) == Piece(White, King) <==> q == Square(7, 4)
      ensures At(b, q) == Piece(Black, King) <==> q == Square(0, 4)
    {
      assert q.row in {0, 1, 2, 3, 4, 5, 6, 7};
      assert q.col in {0, 1, 2, 3, 4, 5, 6, 7};
    }
  }
}
