/** Applying one move to a copy of the board (`make_turn`, Game/Logic.h). */
module Apply {
  import opened Grid

  /** The code that arrives on row `row`: a white man (1) reaching row 0 or a
   *  black man (2) reaching row 7 becomes the king of its side. */
  function Promoted(v: int, row: int): int
  {
    if (v == 1 && row == 0) || (v == 2 && row == 7) then v + 2 else v
  }

  /** The code standing on the origin once the captured cell (if any) is cleared. */
  function Lifted(b: Matrix, m: Move): int
    requires ValidMatrix(b) && WellPlaced(m)
  {
    if m.xb != -1 && m.xb == m.x && m.yb == m.y then 0 else b[m.x][m.y]
  }

  /** Cell (i, j) is one of the cells the move writes. */
  predicate Touches(m: Move, i: int, j: int)
  {
    (i == m.x && j == m.y) || (i == m.x2 && j == m.y2) || (m.xb != -1 && i == m.xb && j == m.yb)
  }

  /** The board after the move: the captured cell is cleared, the piece is
   *  promoted on its far row, copied to the destination, and the origin
   *  emptied. */
  function MakeTurn(b: Matrix, m: Move): (r: Matrix)
    requires ValidMatrix(b) && WellPlaced(m)
    ensures ValidMatrix(r)
    ensures r[m.x][m.y] == 0
    ensures m.xb != -1 && !(m.xb == m.x2 && m.yb == m.y2) ==> r[m.xb][m.yb] == 0
    ensures forall i, j :: InBoard(i, j) && !Touches(m, i, j) ==> r[i][j] == b[i][j]
    ensures !(m.x2 == m.x && m.y2 == m.y) ==>
      var v, w := Lifted(b, m), r[m.x2][m.y2];
      && (v == 1 && m.x2 == 0 ==> w == 3)
      && (v == 2 && m.x2 == 7 ==> w == 4)
      && (!(v == 1 && m.x2 == 0) && !(v == 2 && m.x2 == 7) ==> w == v)
  {
    var b1 := if m.xb != -1 then SetCell(b, m.xb, m.yb, 0) else b;
    var b2 := SetCell(b1, m.x, m.y, Promoted(b1[m.x][m.y], m.x2));
    var b3 := SetCell(b2, m.x2, m.y2, b2[m.x][m.y]);
    SetCell(b3, m.x, m.y, 0)
  }

  /** A capture in the shape the generators produce: the captured cell holds a
   *  piece, the destination is empty, and the three cells are distinct. */
  predicate CaptureShape(b: Matrix, m: Move)
    requires ValidMatrix(b)
  {
    && WellPlaced(m) && m.xb != -1
    && b[m.xb][m.yb] != 0 && b[m.x2][m.y2] == 0
    && !(m.xb == m.x && m.yb == m.y) && !(m.xb == m.x2 && m.yb == m.y2)
    && !(m.x == m.x2 && m.y == m.y2)
  }

  /** A capture leaves exactly one piece fewer on the board; this is what makes
   *  a chain of captures at a fixed search depth finite. */
  lemma CaptureRemovesOne(b: Matrix, m: Move)
    requires ValidMatrix(b) && CaptureShape(b, m)
    ensures Pieces(MakeTurn(b, m)) == Pieces(b) - 1
  {
    var b1 := SetCell(b, m.xb, m.yb, 0);
    PiecesSetCell(b, m.xb, m.yb, 0);
    var p := Promoted(b1[m.x][m.y], m.x2);
    var b2 := SetCell(b1, m.x, m.y, p);
    PiecesSetCell(b1, m.x, m.y, p);
    var b3 := SetCell(b2, m.x2, m.y2, b2[m.x][m.y]);
    PiecesSetCell(b2, m.x2, m.y2, b2[m.x][m.y]);
    PiecesSetCell(b3, m.x, m.y, 0);
  }

  /** A plain move of a piece onto an empty cell keeps the piece count. */
  lemma PlainMoveKeepsPieces(b: Matrix, m: Move)
    requires ValidMatrix(b) && WellPlaced(m) && m.xb == -1
    requires b[m.x][m.y] != 0 && b[m.x2][m.y2] == 0 && !(m.x == m.x2 && m.y == m.y2)
    ensures Pieces(MakeTurn(b, m)) == Pieces(b)
  {
    var p := Promoted(b[m.x][m.y], m.x2);
    var b2 := SetCell(b, m.x, m.y, p);
    PiecesSetCell(b, m.x, m.y, p);
    var b3 := SetCell(b2, m.x2, m.y2, b2[m.x][m.y]);
    PiecesSetCell(b2, m.x2, m.y2, b2[m.x][m.y]);
    PiecesSetCell(b3, m.x, m.y, 0);
  }

  /** No move, whatever its shape, puts a piece on the board that was not
   *  there: the origin is emptied, the destination receives at most the
   *  lifted piece, and the captured cell is emptied. A capture of the shape
   *  the generators produce removes one piece. */
  lemma MovesNeverAddPieces(b: Matrix, m: Move)
    requires ValidMatrix(b) && WellPlaced(m)
    ensures Pieces(MakeTurn(b, m)) <= Pieces(b)
    ensures CaptureShape(b, m) ==> Pieces(MakeTurn(b, m)) == Pieces(b) - 1
  {
    var b1 := if m.xb != -1 then SetCell(b, m.xb, m.yb, 0) else b;
    if m.xb != -1 {
      PiecesSetCell(b, m.xb, m.yb, 0);
    }
    var p := Promoted(b1[m.x][m.y], m.x2);
    var b2 := SetCell(b1, m.x, m.y, p);
    PiecesSetCell(b1, m.x, m.y, p);
    var b3 := SetCell(b2, m.x2, m.y2, b2[m.x][m.y]);
    PiecesSetCell(b2, m.x2, m.y2, b2[m.x][m.y]);
    PiecesSetCell(b3, m.x, m.y, 0);
    if CaptureShape(b, m) {
      CaptureRemovesOne(b, m);
    }
  }

  /** Every move of the list touches only cells of the board. */
  predicate AllPlaced(ms: seq<Move>)
  {
    forall m :: m in ms ==> WellPlaced(m)
  }

  /** The board after playing the moves of `ms` one after the other. */
  function Replay(b: Matrix, ms: seq<Move>): (r: Matrix)
    requires ValidMatrix(b) && AllPlaced(ms)
    ensures ValidMatrix(r)
  {
    if ms == [] then b else MakeTurn(Replay(b, ms[..|ms| - 1]), ms[|ms| - 1])
  }
}
