/** The 8x8 board encoding and the move record shared by the rules, the
 *  search and the board state. */
module Grid {

  /** A board: row-major 8x8 grid of cell codes. Code 0 is empty, 1 a white
   *  man, 2 a black man, 3 a white king, 4 a black king; odd codes are white. */
  type Matrix = seq<seq<int>>

  /** The side to move: 0 plays the odd (white) codes, 1 the even (black) codes. */
  type Side = c: int | 0 <= c <= 1

  /** A move from (x, y) to (x2, y2). `xb == -1` means that nothing is
   *  captured; otherwise (xb, yb) is the cell of the captured piece. */
  datatype Move = Move(x: int, y: int, x2: int, y2: int, xb: int, yb: int)

  /** A move that captures nothing. */
  function Step(x: int, y: int, x2: int, y2: int): Move
  {
    Move(x, y, x2, y2, -1, -1)
  }

  /** The placeholder the search records before it has chosen a move. */
  const NoMove: Move := Move(-1, -1, -1, -1, -1, -1)

  predicate InBoard(r: int, c: int)
  {
    0 <= r < 8 && 0 <= c < 8
  }

  predicate ValidMatrix(b: Matrix)
  {
    |b| == 8 &&
    forall i :: 0 <= i < 8 ==> |b[i]| == 8 && forall j :: 0 <= j < 8 ==> 0 <= b[i][j] <= 4
  }

  /** The number of cells of a board in row-major order (64 on a valid
   *  board); scans over the board run up to it. It is written as a term of
   *  the board rather than the literal 64 so that the verifier does not
   *  unfold the recursive scans 64 times when it meets a call on a
   *  literal bound. */
  function Area(b: Matrix): int
  {
    8 * |b|
  }

  /** Every coordinate the move touches lies on the board. */
  predicate WellPlaced(m: Move)
  {
    InBoard(m.x, m.y) && InBoard(m.x2, m.y2) && (m.xb == -1 || InBoard(m.xb, m.yb))
  }

  /** The board with cell (r, c) overwritten by v. */
  function SetCell(b: Matrix, r: int, c: int, v: int): (b': Matrix)
    requires ValidMatrix(b) && InBoard(r, c) && 0 <= v <= 4
    ensures ValidMatrix(b')
    ensures b'[r][c] == v
    ensures forall i, j :: InBoard(i, j) && (i != r || j != c) ==> b'[i][j] == b[i][j]
  {
    b[r := b[r][c := v]]
  }

  /** Writing a cell's own code back leaves the board as it was. */
  lemma SetCellSame(b: Matrix, r: int, c: int)
    requires ValidMatrix(b) && InBoard(r, c)
    ensures SetCell(b, r, c, b[r][c]) == b
  {
    assert b[r][c := b[r][c]] == b[r];
  }

  /** The board with no piece on it. */
  function EmptyMatrix(): (b: Matrix)
    ensures ValidMatrix(b)
    ensures forall i, j :: InBoard(i, j) ==> b[i][j] == 0
  {
    seq(8, i => seq(8, j => 0))
  }

  /** Number of entries of a row that satisfy f. */
  function RowCount(row: seq<int>, f: int -> bool): nat
  {
    if row == [] then 0
    else RowCount(row[..|row| - 1], f) + (if f(row[|row| - 1]) then 1 else 0)
  }

  /** Number of cells of a board that satisfy f. */
  function Count(b: Matrix, f: int -> bool): nat
  {
    if b == [] then 0
    else Count(b[..|b| - 1], f) + RowCount(b[|b| - 1], f)
  }

  function IsPiece(v: int): bool
  {
    v != 0
  }

  /** Number of pieces on the board (both sides, men and kings). */
  function Pieces(b: Matrix): nat
  {
    Count(b, IsPiece)
  }

  function Ind(p: bool): int
  {
    if p then 1 else 0
  }

  lemma {:induction false} RowCountUpdate(row: seq<int>, c: int, v: int, f: int -> bool)
    requires 0 <= c < |row|
    ensures RowCount(row[c := v], f) == RowCount(row, f) - Ind(f(row[c])) + Ind(f(v))
  {
    var n := |row|;
    var row' := row[c := v];
    if c < n - 1 {
      assert row'[..n - 1] == row[..n - 1][c := v];
      RowCountUpdate(row[..n - 1], c, v, f);
    } else {
      assert row'[..n - 1] == row[..n - 1];
    }
  }

  lemma {:induction false} CountUpdate(b: Matrix, r: int, row: seq<int>, f: int -> bool)
    requires 0 <= r < |b|
    ensures Count(b[r := row], f) == Count(b, f) - RowCount(b[r], f) + RowCount(row, f)
  {
    var n := |b|;
    var b' := b[r := row];
    if r < n - 1 {
      assert b'[..n - 1] == b[..n - 1][r := row];
      CountUpdate(b[..n - 1], r, row, f);
    } else {
      assert b'[..n - 1] == b[..n - 1];
    }
  }

  /** Overwriting one cell changes the piece count by what left and what arrived. */
  lemma PiecesSetCell(b: Matrix, r: int, c: int, v: int)
    requires ValidMatrix(b) && InBoard(r, c) && 0 <= v <= 4
    ensures Pieces(SetCell(b, r, c, v)) == Pieces(b) - Ind(b[r][c] != 0) + Ind(v != 0)
  {
    RowCountUpdate(b[r], c, v, IsPiece);
    CountUpdate(b, r, b[r][c := v], IsPiece);
  }
}
