/** Path analysis: are the squares strictly between two aligned squares empty? */
module Paths {
  import opened Board

  function Abs(x: int): nat {
    if x < 0 then -x else x
  }

  function Min(x: int, y: int): int {
    if x < y then x else y
  }

  function Max(x: int, y: int): int {
    if x < y then y else x
  }

  /** The unit step from a toward b along one axis; -1 also when a == b. */
  function Step(a: int, b: int): int {
    if b > a then 1 else -1
  }

  /** e lies n unit steps (dr, dc) away from q. */
  predicate Ray(q: Square, e: Square, dr: int, dc: int, n: int) {
    && n >= 0 && -1 <= dr <= 1 && -1 <= dc <= 1
    && e.row - q.row == (if dr == 1 then n else if dr == -1 then -n else 0)
    && e.col - q.col == (if dc == 1 then n else if dc == -1 then -n else 0)
  }

  function Next(q: Square, dr: int, dc: int): Square {
    Square(q.row + dr, q.col + dc)
  }

  /** One step along a ray stays on the board and leaves a ray one step shorter. */
  lemma RayStep(q: Square, e: Square, dr: int, dc: int, n: int)
    requires InBounds(q) && InBounds(e) && Ray(q, e, dr, dc, n) && n >= 1
    ensures InBounds(Next(q, dr, dc)) && Ray(Next(q, dr, dc), e, dr, dc, n - 1)
  {
    if dr == 1 {} else if dr == -1 {} else {}
    if dc == 1 {} else if dc == -1 {} else {}
  }

  /**
   * p lies strictly between s and e on the row, column or diagonal they share.
   * Squares that share none of these have nothing between them.
   */
  predicate StrictlyBetween(s: Square, e: Square, p: Square) {
    var dr, dc := e.row - s.row, e.col - s.col;
    || (dr == 0 && p.row == s.row && Min(s.col, e.col) < p.col < Max(s.col, e.col))
    || (dr != 0 && dc == 0 && p.col == s.col && Min(s.row, e.row) < p.row < Max(s.row, e.row))
    || (dr != 0 && dc != 0 && Abs(dr) == Abs(dc) && Min(s.row, e.row) < p.row < Max(s.row, e.row)
        && (if dr == dc then p.col - s.col == p.row - s.row else p.col - s.col == s.row - p.row))
  }

  /** Every square after q and before e, walking in steps of (dr, dc), is empty. */
  function RayClear(b: Board, q: Square, e: Square, dr: int, dc: int, n: int): bool
    requires InBounds(q) && InBounds(e) && Ray(q, e, dr, dc, n)
    decreases n
  {
    if n <= 1 then true
    else At(b, Next(q, dr, dc)).Empty? && RayClear(b, Next(q, dr, dc), e, dr, dc, n - 1)
  }

  lemma {:induction false} RayClearIff(b: Board, q: Square, e: Square, dr: int, dc: int, n: int)
    requires InBounds(q) && InBounds(e) && Ray(q, e, dr, dc, n) && (dr != 0 || dc != 0)
    requires dr != 0 && dc != 0 ==> Abs(e.row - q.row) == Abs(e.col - q.col)
    ensures RayClear(b, q, e, dr, dc, n)
        <==> forall p :: InBounds(p) && StrictlyBetween(q, e, p) ==> At(b, p).Empty?
    decreases n
  {
    if n <= 1 {
      forall p | InBounds(p) && StrictlyBetween(q, e, p) ensures false {}
    } else {
      var q' := Next(q, dr, dc);
      RayStep(q, e, dr, dc, n);
      RayClearIff(b, q', e, dr, dc, n - 1);
      forall p | InBounds(p)
        ensures StrictlyBetween(q, e, p) <==> p == q' || StrictlyBetween(q', e, p)
      {
        BetweenStep(q, e, dr, dc, n, p);
      }
    }
  }

  /** The squares strictly between q and e are the first step from q and those after it. */
  lemma BetweenStep(q: Square, e: Square, dr: int, dc: int, n: int, p: Square)
    requires Ray(q, e, dr, dc, n) && n >= 2 && (dr != 0 || dc != 0)
    ensures StrictlyBetween(q, e, p) <==> p == Next(q, dr, dc) || StrictlyBetween(Next(q, dr, dc), e, p)
  {
    if dr == 0 {
      assert e.row == q.row;
    } else if dc == 0 {
      assert e.col == q.col;
    } else if dr == dc {
      assert e.row - q.row == e.col - q.col;
    } else {
      assert e.row - q.row == q.col - e.col;
    }
  }

  /** The path analysis of rooks, bishops and queens. */
  function PathClear(b: Board, s: Square, e: Square): bool
    requires InBounds(s) && InBounds(e)
  {
    if s.row == e.row then
      RayClear(b, s, e, 0, Step(s.col, e.col), Abs(e.col - s.col))
    else if s.col == e.col then
      RayClear(b, s, e, Step(s.row, e.row), 0, Abs(e.row - s.row))
    else if Abs(s.row - e.row) == Abs(s.col - e.col) then
      RayClear(b, s, e, Step(s.row, e.row), Step(s.col, e.col), Abs(e.row - s.row))
    else
      true
  }

  /**
   * The path is clear exactly when every square strictly between the two squares is empty;
   * for squares sharing no row, column or diagonal it is vacuously clear.
   */
  lemma PathClearIff(b: Board, s: Square, e: Square)
    requires InBounds(s) && InBounds(e)
    ensures PathClear(b, s, e) <==> forall p :: InBounds(p) && StrictlyBetween(s, e, p) ==> At(b, p).Empty?
    ensures s.row != e.row && s.col != e.col && Abs(s.row - e.row) != Abs(s.col - e.col) ==> PathClear(b, s, e)
  {
    if s.row == e.row {
      RayClearIff(b, s, e, 0, Step(s.col, e.col), Abs(e.col - s.col));
    } else if s.col == e.col {
      RayClearIff(b, s, e, Step(s.row, e.row), 0, Abs(e.row - s.row));
    } else if Abs(s.row - e.row) == Abs(s.col - e.col) {
      RayClearIff(b, s, e, Step(s.row, e.row), Step(s.col, e.col), Abs(e.row - s.row));
    }
  }

  /** The castling path check: only the start row is looked at, between the two columns. */
  function CastlingPathClear(b: Board, s: Square, e: Square): bool
    requires InBounds(s) && InBounds(e)
  {
    var e' := Square(s.row, e.col);
    RayClear(b, s, e', 0, Step(s.col, e.col), Abs(e.col - s.col))
  }

  lemma CastlingPathClearIff(b: Board, s: Square, e: Square)
    requires InBounds(s) && InBounds(e)
    ensures CastlingPathClear(b, s, e)
        <==> forall c :: Min(s.col, e.col) < c < Max(s.col, e.col) ==> b[s.row][c].Empty?
  {
    var e' := Square(s.row, e.col);
    RayClearIff(b, s, e', 0, Step(s.col, e.col), Abs(e.col - s.col));
    if CastlingPathClear(b, s, e) {
      forall c | Min(s.col, e.col) < c < Max(s.col, e.col) ensures b[s.row][c].Empty? {
        assert StrictlyBetween(s, e', Square(s.row, c));
      }
    }
  }

  /** Walks from s toward e one square at a time, stopping at the first occupied square. */
  method ScanRay(b: Board, s: Square, e: Square, dr: int, dc: int, n: int) returns (clear: bool)
    requires InBounds(s) && InBounds(e) && Ray(s, e, dr, dc, n)
    ensures clear == RayClear(b, s, e, dr, dc, n)
  {
    var p, i := s, 0;
    while i + 1 < n
      invariant 0 <= i <= n && InBounds(p) && Ray(p, e, dr, dc, n - i)
      invariant RayClear(b, s, e, dr, dc, n) == RayClear(b, p, e, dr, dc, n - i)
    {
      var next := Next(p, dr, dc);
      RayStep(p, e, dr, dc, n - i);
      if !At(b, next).Empty? {
        return false;
      }
      p, i := next, i + 1;
    }
    return true;
  }

  /** The three scanning loops of the path analysis: horizontal, vertical, diagonal. */
  method PathClearScan(b: Board, s: Square, e: Square) returns (clear: bool)
    requires InBounds(s) && InBounds(e)
    ensures clear == PathClear(b, s, e)
  {
    if s.row == e.row {
      clear := ScanRay(b, s, e, 0, Step(s.col, e.col), Abs(e.col - s.col));
    } else if s.col == e.col {
      clear := ScanRay(b, s, e, Step(s.row, e.row), 0, Abs(e.row - s.row));
    } else if Abs(s.row - e.row) == Abs(s.col - e.col) {
      clear := ScanRay(b, s, e, Step(s.row, e.row), Step(s.col, e.col), Abs(e.row - s.row));
    } else {
      clear := true;
    }
  }

  method CastlingPathClearScan(b: Board, s: Square, e: Square) returns (clear: bool)
    requires InBounds(s) && InBounds(e)
    ensures clear == CastlingPathClear(b, s, e)
  {
    clear := ScanRay(b, s, Square(s.row, e.col), 0, Step(s.col, e.col), Abs(e.col - s.col));
  }
}
