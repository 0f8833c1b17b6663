/** The loops of `find_turns(x, y, mtx)` (Game/Logic.h:243-330): the scans
 *  of one cell for captures and for plain moves, each proved to compute the
 *  corresponding generator of MoveGen. */
module CellScan {
  import opened Grid
  import opened MoveGen

  /** The two-by-two loop over the jump targets of a man (Game/Logic.h:251-266):
   *  the outer loop over the target row i. */
  method ManJumps(mtx: Matrix, x: int, y: int) returns (found: seq<Move>)
    requires ValidMatrix(mtx) && InBoard(x, y)
    ensures found == ManCaptures(mtx, x, y, 4)
  {
    found := [];
    var i := x - 2;
    ghost var a := 0;
    while i <= x + 2
      invariant (a == 0 && i == x - 2) || (a == 1 && i == x + 2) || (a == 2 && i == x + 6)
      invariant found == ManCaptures(mtx, x, y, 2 * a)
    {
      found := ManJumpsRow(mtx, x, y, i, a, found);
      i := i + 4;
      a := a + 1;
    }
  }

  /** The inner loop of the man's jumps, over the target column j, appending
   *  to the jumps found so far. */
  method ManJumpsRow(mtx: Matrix, x: int, y: int, i: int, ghost a: int, before: seq<Move>) returns (found: seq<Move>)
    requires ValidMatrix(mtx) && InBoard(x, y) && 0 <= a < 2 && i == x - 2 + 4 * a
    requires before == ManCaptures(mtx, x, y, 2 * a)
    ensures found == ManCaptures(mtx, x, y, 2 * a + 2)
  {
    found := before;
    var j := y - 2;
    ghost var c := 0;
    while j <= y + 2
      invariant (c == 0 && j == y - 2) || (c == 1 && j == y + 2) || (c == 2 && j == y + 6)
      invariant found == ManCaptures(mtx, x, y, 2 * a + c)
    {
      JumpAt(a, c);
      var jump := ManJumpTo(mtx, x, y, i, j, 2 * a - 1, 2 * c - 1);
      found := found + jump;
      j := j + 4;
      c := c + 1;
    }
  }

  /** The body of the man's loops for the target (i, j), two cells away
   *  along (di, dj): the jump there, if the source records one. */
  method ManJumpTo(mtx: Matrix, x: int, y: int, i: int, j: int, ghost di: int, ghost dj: int) returns (jump: seq<Move>)
    requires ValidMatrix(mtx) && InBoard(x, y) && (di == -1 || di == 1) && (dj == -1 || dj == 1)
    requires i == x + 2 * di && j == y + 2 * dj
    ensures jump == ManJump(mtx, x, y, di, dj)
  {
    jump := [];
    if !(i < 0 || i > 7 || j < 0 || j > 7) {
      var xb, yb := (x + i) / 2, (y + j) / 2;
      assert xb == x + di && yb == y + dj;
      if !(mtx[i][j] != 0 || mtx[xb][yb] == 0 || mtx[xb][yb] % 2 == mtx[x][y] % 2) {
        jump := [Move(x, y, i, j, xb, yb)];
      }
    }
  }

  /** The d-th pair of the man's loops is the diagonal (2a - 1, 2c - 1). */
  lemma JumpAt(a: int, c: int)
    requires 0 <= a < 2 && 0 <= c < 2
    ensures DirI(2 * a + c) == 2 * a - 1 && DirJ(2 * a + c) == 2 * c - 1
  {
  }

  /** The state of a capture walk before it visits a cell: the landings
   *  recorded so far and the opposing piece passed (xb == -1: none yet). */
  datatype Walk = Walk(found: seq<Move>, xb: int, yb: int)

  /** The walk stops at cell (i2, j2): a piece of its own side, or a second
   *  opposing piece. */
  predicate Stops(b: Matrix, x: int, y: int, w: Walk, i2: int, j2: int)
    requires ValidMatrix(b) && InBoard(x, y) && InBoard(i2, j2)
  {
    b[i2][j2] != 0 && (b[i2][j2] % 2 == b[x][y] % 2 || w.xb != -1)
  }

  /** Visiting cell (i2, j2) without stopping: an opposing piece becomes the
   *  piece passed, and every cell after it is a landing. */
  function Visit(b: Matrix, x: int, y: int, w: Walk, i2: int, j2: int): Walk
    requires ValidMatrix(b) && InBoard(x, y) && InBoard(i2, j2)
  {
    var xb, yb := if b[i2][j2] != 0 then i2 else w.xb, if b[i2][j2] != 0 then j2 else w.yb;
    Walk(if xb != -1 && xb != i2 then w.found + [Move(x, y, i2, j2, xb, yb)] else w.found, xb, yb)
  }

  /** The walk along (di, dj) before it visits distance s, provided it has
   *  not stopped (see Open). */
  function WalkTo(b: Matrix, x: int, y: int, di: int, dj: int, s: int): Walk
    requires ValidMatrix(b) && InBoard(x, y) && s >= 1
    decreases s
  {
    if s == 1 || !InBoard(Off(x, di, s - 1), Off(y, dj, s - 1)) then Walk([], -1, -1)
    else Visit(b, x, y, WalkTo(b, x, y, di, dj, s - 1), Off(x, di, s - 1), Off(y, dj, s - 1))
  }

  /** The walk reaches distance s: every earlier cell is on the board and
   *  none of them stops it. */
  predicate Open(b: Matrix, x: int, y: int, di: int, dj: int, s: int)
    requires ValidMatrix(b) && InBoard(x, y) && s >= 1
    decreases s
  {
    s == 1 ||
    (Open(b, x, y, di, dj, s - 1) && InBoard(Off(x, di, s - 1), Off(y, dj, s - 1))
     && !Stops(b, x, y, WalkTo(b, x, y, di, dj, s - 1), Off(x, di, s - 1), Off(y, dj, s - 1)))
  }

  /** The walk of a king along diagonal (di, dj) looking for captures
   *  (Game/Logic.h:274-288). */
  method CaptureWalk(mtx: Matrix, x: int, y: int, di: int, dj: int) returns (found: seq<Move>)
    requires ValidMatrix(mtx) && InBoard(x, y) && (di == -1 || di == 1) && (dj == -1 || dj == 1)
    ensures found == CaptureRay(mtx, x, y, di, dj, 1, -1, -1)
  {
    var kind := mtx[x][y];
    found := [];
    var xb, yb := -1, -1;
    var i2, j2 := x + di, y + dj;
    ghost var s := 1;
    while i2 != 8 && j2 != 8 && i2 != -1 && j2 != -1
      invariant 1 <= s && i2 == Off(x, di, s) && j2 == Off(y, dj, s)
      invariant -1 <= i2 <= 8 && -1 <= j2 <= 8
      invariant Open(mtx, x, y, di, dj, s) && WalkTo(mtx, x, y, di, dj, s) == Walk(found, xb, yb)
      decreases 8 - s
    {
      if mtx[i2][j2] != 0 {
        if mtx[i2][j2] % 2 == kind % 2 || (mtx[i2][j2] % 2 != kind % 2 && xb != -1) {
          WalkEnds(mtx, x, y, di, dj, s);
          return;
        }
        xb := i2;
        yb := j2;
      }
      if xb != -1 && xb != i2 {
        found := found + [Move(x, y, i2, j2, xb, yb)];
      }
      WalkAdvance(mtx, x, y, di, dj, s);
      i2 := i2 + di;
      j2 := j2 + dj;
      s := s + 1;
    }
    WalkEnds(mtx, x, y, di, dj, s);
  }

  /** A walk that does not stop at distance s reaches s + 1 in the state
   *  Visit leaves it in. */
  lemma WalkAdvance(b: Matrix, x: int, y: int, di: int, dj: int, s: int)
    requires ValidMatrix(b) && InBoard(x, y) && s >= 1 && Open(b, x, y, di, dj, s)
    requires InBoard(Off(x, di, s), Off(y, dj, s))
    requires !Stops(b, x, y, WalkTo(b, x, y, di, dj, s), Off(x, di, s), Off(y, dj, s))
    ensures Open(b, x, y, di, dj, s + 1)
    ensures WalkTo(b, x, y, di, dj, s + 1) == Visit(b, x, y, WalkTo(b, x, y, di, dj, s), Off(x, di, s), Off(y, dj, s))
  {
  }

  /** A walk that has reached distance s with the opposing piece (xb, yb)
   *  yields, followed by the scan from s on, the whole scan. */
  lemma {:induction false} WalkSplit(b: Matrix, x: int, y: int, di: int, dj: int, s: int, first: int, none: int)
    requires ValidMatrix(b) && InBoard(x, y) && s >= 1 && Open(b, x, y, di, dj, s) && first == 1 && none == -1
    ensures var w := WalkTo(b, x, y, di, dj, s);
      w.found + CaptureRay(b, x, y, di, dj, s, w.xb, w.yb) == CaptureRay(b, x, y, di, dj, first, none, none)
  {
    if s == 1 {
      var whole := CaptureRay(b, x, y, di, dj, first, none, none);
      assert [] + whole == whole;
    } else {
      var p := s - 1;
      WalkBack(b, x, y, di, dj, p, s);
      WalkSplit(b, x, y, di, dj, p, first, none);
      WalkStep(b, x, y, di, dj, p, s, WalkTo(b, x, y, di, dj, p), WalkTo(b, x, y, di, dj, s));
    }
  }

  /** A walk that reaches distance s' = s + 1 has reached s and visited it
   *  without stopping. */
  lemma WalkBack(b: Matrix, x: int, y: int, di: int, dj: int, s: int, s': int)
    requires ValidMatrix(b) && InBoard(x, y) && s >= 1 && s' == s + 1 && Open(b, x, y, di, dj, s')
    ensures Open(b, x, y, di, dj, s) && InBoard(Off(x, di, s), Off(y, dj, s))
    ensures !Stops(b, x, y, WalkTo(b, x, y, di, dj, s), Off(x, di, s), Off(y, dj, s))
    ensures WalkTo(b, x, y, di, dj, s') == Visit(b, x, y, WalkTo(b, x, y, di, dj, s), Off(x, di, s), Off(y, dj, s))
  {
  }

  /** Visiting distance s moves its landing, if any, from the scan still to
   *  come to the walk's list. */
  lemma WalkStep(b: Matrix, x: int, y: int, di: int, dj: int, s: int, s': int, w0: Walk, w: Walk)
    requires ValidMatrix(b) && InBoard(x, y) && s >= 1 && s' == s + 1 && InBoard(Off(x, di, s), Off(y, dj, s))
    requires !Stops(b, x, y, w0, Off(x, di, s), Off(y, dj, s)) && w == Visit(b, x, y, w0, Off(x, di, s), Off(y, dj, s))
    ensures w.found + CaptureRay(b, x, y, di, dj, s', w.xb, w.yb) == w0.found + CaptureRay(b, x, y, di, dj, s, w0.xb, w0.yb)
  {
    var i2, j2 := Off(x, di, s), Off(y, dj, s);
    CaptureRayUnfold(b, x, y, di, dj, s, w0.xb, w0.yb, w.xb, w.yb);
    var rest := CaptureRay(b, x, y, di, dj, s', w.xb, w.yb);
    if w.xb != -1 && w.xb != i2 {
      AppendAssoc(w0.found, [Move(x, y, i2, j2, w.xb, w.yb)], rest);
    } else {
      assert [] + rest == rest;
    }
  }

  /** A walk that reaches distance s and stops there (off the board, or at a
   *  blocking piece) has found the whole scan. */
  lemma WalkEnds(b: Matrix, x: int, y: int, di: int, dj: int, s: int)
    requires ValidMatrix(b) && InBoard(x, y) && s >= 1 && Open(b, x, y, di, dj, s)
    requires !InBoard(Off(x, di, s), Off(y, dj, s)) || Stops(b, x, y, WalkTo(b, x, y, di, dj, s), Off(x, di, s), Off(y, dj, s))
    ensures WalkTo(b, x, y, di, dj, s).found == CaptureRay(b, x, y, di, dj, 1, -1, -1)
  {
    WalkSplit(b, x, y, di, dj, s, 1, -1);
    var w := WalkTo(b, x, y, di, dj, s);
    assert CaptureRay(b, x, y, di, dj, s, w.xb, w.yb) == [];
    assert w.found + [] == w.found;
  }

  /** One cell of a capture walk that does not stop there: the landing
   *  recorded there, if any, then the walk from the next cell with the
   *  opposing piece (xb, yb) as updated by the cell. */
  lemma CaptureRayUnfold(b: Matrix, x: int, y: int, di: int, dj: int, s: int, xb0: int, yb0: int, xb: int, yb: int)
    requires ValidMatrix(b) && InBoard(x, y) && s >= 1 && InBoard(Off(x, di, s), Off(y, dj, s))
    requires var v := b[Off(x, di, s)][Off(y, dj, s)];
      && !(v != 0 && (v % 2 == b[x][y] % 2 || xb0 != -1))
      && xb == (if v != 0 then Off(x, di, s) else xb0) && yb == (if v != 0 then Off(y, dj, s) else yb0)
    ensures CaptureRay(b, x, y, di, dj, s, xb0, yb0) ==
      (if xb != -1 && xb != Off(x, di, s) then [Move(x, y, Off(x, di, s), Off(y, dj, s), xb, yb)] else [])
      + CaptureRay(b, x, y, di, dj, s + 1, xb, yb)
  {
  }

  lemma AppendAssoc<T>(a: seq<T>, b: seq<T>, c: seq<T>)
    ensures (a + b) + c == a + (b + c)
  {
  }

  /** The king's four capture walks (Game/Logic.h:267-292). */
  method KingJumps(mtx: Matrix, x: int, y: int) returns (found: seq<Move>)
    requires ValidMatrix(mtx) && InBoard(x, y)
    ensures found == KingCaptures(mtx, x, y, 4)
  {
    found := [];
    var i := -1;
    ghost var a, d := 0, 0;
    while i <= 1
      invariant (a == 0 && i == -1) || (a == 1 && i == 1) || (a == 2 && i == 3)
      invariant d == 2 * a && found == KingCaptures(mtx, x, y, d)
    {
      var j := -1;
      ghost var c := 0;
      while j <= 1
        invariant (c == 0 && j == -1) || (c == 1 && j == 1) || (c == 2 && j == 3)
        invariant a < 2 && d == 2 * a + c && found == KingCaptures(mtx, x, y, d)
      {
        KingCapturesStep(mtx, x, y, d, a, c, i, j);
        var ray := CaptureWalk(mtx, x, y, i, j);
        found := found + ray;
        j := j + 2;
        c := c + 1;
        d := d + 1;
      }
      i := i + 2;
      a := a + 1;
    }
    KingCapturesAll(mtx, x, y, d, found);
  }

  /** The forward steps of a man (Game/Logic.h:302-313). */
  method ManMoves(mtx: Matrix, x: int, y: int) returns (found: seq<Move>)
    requires ValidMatrix(mtx) && InBoard(x, y)
    ensures found == ManSteps(mtx, x, y, 2)
  {
    var kind := mtx[x][y];
    found := [];
    var i := if kind % 2 != 0 then x - 1 else x + 1;
    var j := y - 1;
    ghost var n := 0;
    while j <= y + 1
      invariant (n == 0 && j == y - 1) || (n == 1 && j == y + 1) || (n == 2 && j == y + 3)
      invariant found == ManSteps(mtx, x, y, n)
    {
      assert ManSteps(mtx, x, y, n + 1) == found + ManStep(mtx, x, y, i, j);
      if !(i < 0 || i > 7 || j < 0 || j > 7 || mtx[i][j] != 0) {
        found := found + [Step(x, y, i, j)];
      } else {
        assert found + [] == found;
      }
      j := j + 2;
      n := n + 1;
    }
  }

  /** The moves of a king along one diagonal so far: every cell from
   *  distance 1 up to s - 1. */
  function StepsBefore(x: int, y: int, di: int, dj: int, s: int): seq<Move>
    requires s >= 1
  {
    if s == 1 then [] else StepsBefore(x, y, di, dj, s - 1) + [Step(x, y, Off(x, di, s - 1), Off(y, dj, s - 1))]
  }

  /** The walk of a king along diagonal (di, dj) over empty cells
   *  (Game/Logic.h:319-326). */
  method StepWalk(mtx: Matrix, x: int, y: int, di: int, dj: int) returns (found: seq<Move>)
    requires ValidMatrix(mtx) && InBoard(x, y) && (di == -1 || di == 1) && (dj == -1 || dj == 1)
    ensures found == StepRay(mtx, x, y, di, dj, 1)
  {
    found := [];
    var i2, j2 := x + di, y + dj;
    ghost var s := 1;
    while i2 != 8 && j2 != 8 && i2 != -1 && j2 != -1
      invariant 1 <= s && i2 == Off(x, di, s) && j2 == Off(y, dj, s)
      invariant -1 <= i2 <= 8 && -1 <= j2 <= 8
      invariant Clear(mtx, x, y, di, dj, 1, s) && found == StepsBefore(x, y, di, dj, s)
      decreases 8 - s
    {
      if mtx[i2][j2] != 0 {
        StepWalkEnds(mtx, x, y, di, dj, s);
        return;
      }
      found := found + [Step(x, y, i2, j2)];
      ClearExtend(mtx, x, y, di, dj, s);
      i2 := i2 + di;
      j2 := j2 + dj;
      s := s + 1;
    }
    StepWalkEnds(mtx, x, y, di, dj, s);
  }

  /** A clear stretch extends by one empty cell. */
  lemma ClearExtend(b: Matrix, x: int, y: int, di: int, dj: int, s: int)
    requires ValidMatrix(b) && Clear(b, x, y, di, dj, 1, s)
    requires InBoard(Off(x, di, s), Off(y, dj, s)) && b[Off(x, di, s)][Off(y, dj, s)] == 0
    ensures Clear(b, x, y, di, dj, 1, s + 1)
  {
  }

  /** The cells passed before distance s, followed by the scan from s on,
   *  make the whole scan. */
  lemma {:induction false} StepSplit(b: Matrix, x: int, y: int, di: int, dj: int, s: int, first: int)
    requires ValidMatrix(b) && InBoard(x, y) && s >= 1 && Clear(b, x, y, di, dj, 1, s) && first == 1
    ensures StepsBefore(x, y, di, dj, s) + StepRay(b, x, y, di, dj, s) == StepRay(b, x, y, di, dj, first)
  {
    if s == 1 {
      var whole := StepRay(b, x, y, di, dj, first);
      assert [] + whole == whole;
    } else {
      assert Clear(b, x, y, di, dj, 1, s - 1);
      StepSplit(b, x, y, di, dj, s - 1, first);
      var m := Step(x, y, Off(x, di, s - 1), Off(y, dj, s - 1));
      var rest := StepRay(b, x, y, di, dj, s);
      assert s - 1 + 1 == s;
      assert StepRay(b, x, y, di, dj, s - 1) == [m] + rest;
      AppendAssoc(StepsBefore(x, y, di, dj, s - 1), [m], rest);
    }
  }

  /** A step walk that reaches distance s and stops there (off the board or
   *  at any piece) has found the whole scan. */
  lemma StepWalkEnds(b: Matrix, x: int, y: int, di: int, dj: int, s: int)
    requires ValidMatrix(b) && InBoard(x, y) && s >= 1 && Clear(b, x, y, di, dj, 1, s)
    requires !InBoard(Off(x, di, s), Off(y, dj, s)) || b[Off(x, di, s)][Off(y, dj, s)] != 0
    ensures StepsBefore(x, y, di, dj, s) == StepRay(b, x, y, di, dj, 1)
  {
    StepSplit(b, x, y, di, dj, s, 1);
    assert StepRay(b, x, y, di, dj, s) == [];
    assert StepsBefore(x, y, di, dj, s) + [] == StepsBefore(x, y, di, dj, s);
  }

  /** The king's four step walks (Game/Logic.h:314-329). */
  method KingMoves(mtx: Matrix, x: int, y: int) returns (found: seq<Move>)
    requires ValidMatrix(mtx) && InBoard(x, y)
    ensures found == KingSteps(mtx, x, y, 4)
  {
    found := [];
    var i := -1;
    ghost var a, d := 0, 0;
    while i <= 1
      invariant (a == 0 && i == -1) || (a == 1 && i == 1) || (a == 2 && i == 3)
      invariant d == 2 * a && found == KingSteps(mtx, x, y, d)
    {
      var j := -1;
      ghost var c := 0;
      while j <= 1
        invariant (c == 0 && j == -1) || (c == 1 && j == 1) || (c == 2 && j == 3)
        invariant a < 2 && d == 2 * a + c && found == KingSteps(mtx, x, y, d)
      {
        KingStepsStep(mtx, x, y, d, a, c, i, j);
        var ray := StepWalk(mtx, x, y, i, j);
        found := found + ray;
        j := j + 2;
        c := c + 1;
        d := d + 1;
      }
      i := i + 2;
      a := a + 1;
    }
    KingStepsAll(mtx, x, y, d, found);
  }

  lemma KingCapturesStep(b: Matrix, x: int, y: int, d: int, a: int, c: int, di: int, dj: int)
    requires ValidMatrix(b) && InBoard(x, y) && 0 <= a < 2 && 0 <= c < 2 && d == 2 * a + c
    requires di == 2 * a - 1 && dj == 2 * c - 1
    ensures KingCaptures(b, x, y, d + 1) == KingCaptures(b, x, y, d) + CaptureRay(b, x, y, di, dj, 1, -1, -1)
  {
    assert DirI(d) == di && DirJ(d) == dj;
  }

  lemma KingStepsStep(b: Matrix, x: int, y: int, d: int, a: int, c: int, di: int, dj: int)
    requires ValidMatrix(b) && InBoard(x, y) && 0 <= a < 2 && 0 <= c < 2 && d == 2 * a + c
    requires di == 2 * a - 1 && dj == 2 * c - 1
    ensures KingSteps(b, x, y, d + 1) == KingSteps(b, x, y, d) + StepRay(b, x, y, di, dj, 1)
  {
    assert DirI(d) == di && DirJ(d) == dj;
  }

  /** The king loops end after all four diagonals. */
  lemma KingCapturesAll(b: Matrix, x: int, y: int, d: int, found: seq<Move>)
    requires ValidMatrix(b) && InBoard(x, y) && d == 4 && found == KingCaptures(b, x, y, d)
    ensures found == KingCaptures(b, x, y, 4)
  {
  }

  lemma KingStepsAll(b: Matrix, x: int, y: int, d: int, found: seq<Move>)
    requires ValidMatrix(b) && InBoard(x, y) && d == 4 && found == KingSteps(b, x, y, d)
    ensures found == KingSteps(b, x, y, 4)
  {
  }
}
