/** The move rules of `find_turns` (Game/Logic.h) as functions on a board
 *  value: the moves of one cell, and the moves of one side under the
 *  mandatory-capture rule. The engine's methods are proved equal to these. */
module MoveGen {
  import opened Grid
  import opened Apply

  /** A generated move list and whether it is made of captures (`turns`, `have_beats`). */
  datatype Turns = Turns(moves: seq<Move>, beats: bool)

  /** Coordinate `s` steps away from `a` in direction `d` (d > 0 increases). */
  function Off(a: int, d: int, s: int): int
  {
    if d > 0 then a + s else a - s
  }

  /** The direction from `a` towards `a2` (-1 when a2 <= a). */
  function Dir(a: int, a2: int): int
  {
    if a2 > a then 1 else -1
  }

  function Dist(a: int, a2: int): int
  {
    if a2 > a then a2 - a else a - a2
  }

  /** Code v is a piece of the other side than a piece of code t. */
  predicate Opposes(v: int, t: int)
  {
    v != 0 && v % 2 != t % 2
  }

  /** The row direction of diagonal d: the source's loops visit (-1, -1),
   *  (-1, 1), (1, -1), (1, 1) as d = 0, 1, 2, 3. */
  function DirI(d: int): int
  {
    if d < 2 then -1 else 1
  }

  function DirJ(d: int): int
  {
    if d % 2 == 0 then -1 else 1
  }

  /** The diagonal index (as for DirI, DirJ) of the direction from (x, y) to m's destination. */
  function DirIndex(x: int, y: int, m: Move): int
  {
    (if Dir(x, m.x2) > 0 then 2 else 0) + (if Dir(y, m.y2) > 0 then 1 else 0)
  }

  predicate IsMan(t: int)
  {
    t == 1 || t == 2
  }

  // ---------------------------------------------------------------------
  // Men (Game/Logic.h:251-266 and 302-313)

  /** The jump of the man on (x, y) over (x + di, y + dj) to (x + 2 di, y + 2 dj),
   *  if it is a capture. */
  function ManJump(b: Matrix, x: int, y: int, di: int, dj: int): seq<Move>
    requires ValidMatrix(b) && InBoard(x, y)
    requires (di == -1 || di == 1) && (dj == -1 || dj == 1)
  {
    var i, j := x + 2 * di, y + 2 * dj;
    if !InBoard(i, j) || b[i][j] != 0 || !Opposes(b[x + di][y + dj], b[x][y]) then []
    else [Move(x, y, i, j, x + di, y + dj)]
  }

  /** The jumps of a man along the first n diagonals, in the order of the
   *  source's two loops. */
  function ManCaptures(b: Matrix, x: int, y: int, n: int): seq<Move>
    requires ValidMatrix(b) && InBoard(x, y) && 0 <= n <= 4
  {
    if n == 0 then []
    else ManCaptures(b, x, y, n - 1) + ManJump(b, x, y, DirI(n - 1), DirJ(n - 1))
  }

  function ManStep(b: Matrix, x: int, y: int, i: int, j: int): seq<Move>
    requires ValidMatrix(b)
  {
    if !InBoard(i, j) || b[i][j] != 0 then [] else [Step(x, y, i, j)]
  }

  /** Row a man steps to: up (x - 1) for odd codes, down (x + 1) for even ones. */
  function Forward(t: int, x: int): int
  {
    if t % 2 == 1 then x - 1 else x + 1
  }

  /** The first n forward steps of a man: to the left column (y - 1) first,
   *  then to the right one (y + 1). */
  function ManSteps(b: Matrix, x: int, y: int, n: int): seq<Move>
    requires ValidMatrix(b) && InBoard(x, y) && 0 <= n <= 2
  {
    if n == 0 then []
    else ManSteps(b, x, y, n - 1) + ManStep(b, x, y, Forward(b[x][y], x), y + 2 * n - 3)
  }

  // ---------------------------------------------------------------------
  // Kings (Game/Logic.h:267-292 and 314-329)

  /** The scan of one diagonal for captures, from distance s on, where (xb, yb)
   *  is the opposing piece already passed (xb == -1: none yet). */
  function CaptureRay(b: Matrix, x: int, y: int, di: int, dj: int, s: int, xb: int, yb: int): seq<Move>
    requires ValidMatrix(b) && InBoard(x, y) && s >= 1
    decreases 8 - s
  {
    var i2, j2 := Off(x, di, s), Off(y, dj, s);
    if !InBoard(i2, j2) then []
    else if b[i2][j2] != 0 && (b[i2][j2] % 2 == b[x][y] % 2 || xb != -1) then []
    else
      var xb', yb' := if b[i2][j2] != 0 then i2 else xb, if b[i2][j2] != 0 then j2 else yb;
      (if xb' != -1 && xb' != i2 then [Move(x, y, i2, j2, xb', yb')] else [])
      + CaptureRay(b, x, y, di, dj, s + 1, xb', yb')
  }

  /** The captures of a king along the first n diagonals. */
  function KingCaptures(b: Matrix, x: int, y: int, n: int): seq<Move>
    requires ValidMatrix(b) && InBoard(x, y) && 0 <= n <= 4
  {
    if n == 0 then []
    else KingCaptures(b, x, y, n - 1) + CaptureRay(b, x, y, DirI(n - 1), DirJ(n - 1), 1, -1, -1)
  }

  /** The empty cells of one diagonal from distance s up to the first occupied one. */
  function StepRay(b: Matrix, x: int, y: int, di: int, dj: int, s: int): seq<Move>
    requires ValidMatrix(b) && InBoard(x, y) && s >= 1
    decreases 8 - s
  {
    var i2, j2 := Off(x, di, s), Off(y, dj, s);
    if !InBoard(i2, j2) || b[i2][j2] != 0 then []
    else [Step(x, y, i2, j2)] + StepRay(b, x, y, di, dj, s + 1)
  }

  /** The plain moves of a king along the first n diagonals. */
  function KingSteps(b: Matrix, x: int, y: int, n: int): seq<Move>
    requires ValidMatrix(b) && InBoard(x, y) && 0 <= n <= 4
  {
    if n == 0 then []
    else KingSteps(b, x, y, n - 1) + StepRay(b, x, y, DirI(n - 1), DirJ(n - 1), 1)
  }

  // ---------------------------------------------------------------------
  // One cell and one side

  /** `find_turns(x, y, mtx)`: captures if there are any, otherwise plain
   *  moves. Codes 1 and 2 move as men; every other code (kings, and the empty
   *  cell) goes through the king branch, as in the source's `switch`. */
  function CellTurns(b: Matrix, x: int, y: int): Turns
    requires ValidMatrix(b) && InBoard(x, y)
  {
    var caps := CellCaptures(b, x, y);
    if caps != [] then Turns(caps, true) else Turns(CellSteps(b, x, y), false)
  }

  /** The captures of the piece on (x, y), by the rules of its code. */
  function CellCaptures(b: Matrix, x: int, y: int): seq<Move>
    requires ValidMatrix(b) && InBoard(x, y)
  {
    if IsMan(b[x][y]) then ManCaptures(b, x, y, 4) else KingCaptures(b, x, y, 4)
  }

  /** The plain moves of the piece on (x, y), by the rules of its code. */
  function CellSteps(b: Matrix, x: int, y: int): seq<Move>
    requires ValidMatrix(b) && InBoard(x, y)
  {
    if IsMan(b[x][y]) then ManSteps(b, x, y, 2) else KingSteps(b, x, y, 4)
  }

  /** Cell (i, j) holds a piece of `color`. */
  predicate Own(b: Matrix, i: int, j: int, color: Side)
    requires ValidMatrix(b) && InBoard(i, j)
  {
    b[i][j] != 0 && b[i][j] % 2 != color
  }

  /** Folding one capturing-or-not cell list into the side's list: the first
   *  capture found discards the plain moves collected so far, and once a
   *  capture has been seen only captures are added. */
  function Merge(acc: Turns, g: Turns): Turns
  {
    var before := acc.beats || g.beats;
    var kept := if g.beats && !acc.beats then [] else acc.moves;
    Turns(if (before && g.beats) || !before then kept + g.moves else kept, before)
  }

  /** The moves of every cell, indexed in row-major order (cell (i, j) is
   *  entry 8 i + j), as `find_turns(i, j, mtx)` computes them. */
  function CellTable(b: Matrix): (t: seq<Turns>)
    requires ValidMatrix(b)
    ensures |t| == 64
  {
    seq(64, c requires 0 <= c < 64 => CellTurns(b, c / 8, c % 8))
  }

  /** The side-level scan over the first k cells in row-major order, given the
   *  table of every cell's moves: the moves collected so far and whether a
   *  capture has been seen. Cells without a piece of the side are skipped. */
  function SideScan(b: Matrix, color: Side, t: seq<Turns>, k: int): Turns
    requires ValidMatrix(b) && |t| == 64 && 0 <= k <= 64
  {
    if k == 0 then Turns([], false)
    else
      var acc := SideScan(b, color, t, k - 1);
      if !Own(b, (k - 1) / 8, (k - 1) % 8, color) then acc else Merge(acc, t[k - 1])
  }

  /** `find_turns(color, mtx)` before its shuffle. */
  function SideTurns(b: Matrix, color: Side): Turns
    requires ValidMatrix(b)
  {
    SideScan(b, color, CellTable(b), Area(b))
  }

  // ---------------------------------------------------------------------
  // The rules stated without the scans

  /** Every cell at distance lo .. hi-1 along the diagonal is on the board and empty. */
  predicate Clear(b: Matrix, x: int, y: int, di: int, dj: int, lo: int, hi: int)
    requires ValidMatrix(b)
  {
    forall s :: lo <= s < hi ==>
      InBoard(Off(x, di, s), Off(y, dj, s)) && b[Off(x, di, s)][Off(y, dj, s)] == 0
  }

  /** A man's capture: a jump of two cells diagonally, in any of the four
   *  directions, over a piece of the other side onto an empty cell. */
  predicate IsManCapture(b: Matrix, x: int, y: int, m: Move)
    requires ValidMatrix(b) && InBoard(x, y)
  {
    && m.x == x && m.y == y
    && Dist(x, m.x2) == 2 && Dist(y, m.y2) == 2
    && InBoard(m.x2, m.y2) && b[m.x2][m.y2] == 0
    && m.xb == (x + m.x2) / 2 && m.yb == (y + m.y2) / 2
    && Opposes(b[m.xb][m.yb], b[x][y])
  }

  /** A man's plain move: one cell diagonally forward onto an empty cell. */
  predicate IsManStep(b: Matrix, x: int, y: int, m: Move)
    requires ValidMatrix(b) && InBoard(x, y)
  {
    && m.x == x && m.y == y && m.xb == -1 && m.yb == -1
    && m.x2 == Forward(b[x][y], x) && Dist(y, m.y2) == 1
    && InBoard(m.x2, m.y2) && b[m.x2][m.y2] == 0
  }

  /** A king's capture along direction (di, dj): empty cells, then exactly one
   *  piece of the other side at distance kb, then empty cells up to and
   *  including the landing cell at distance k. */
  predicate RayCapture(b: Matrix, x: int, y: int, di: int, dj: int, m: Move)
    requires ValidMatrix(b) && InBoard(x, y)
  {
    var k, kb := Dist(x, m.x2), Dist(x, m.xb);
    && m.x == x && m.y == y
    && Dir(x, m.x2) == di && Dir(y, m.y2) == dj && Dist(y, m.y2) == k
    && 1 <= kb < k && m.xb == Off(x, di, kb) && m.yb == Off(y, dj, kb)
    && Clear(b, x, y, di, dj, 1, kb)
    && InBoard(m.xb, m.yb) && Opposes(b[m.xb][m.yb], b[x][y])
    && Clear(b, x, y, di, dj, kb + 1, k + 1)
  }

  predicate IsKingCapture(b: Matrix, x: int, y: int, m: Move)
    requires ValidMatrix(b) && InBoard(x, y)
  {
    RayCapture(b, x, y, Dir(x, m.x2), Dir(y, m.y2), m)
  }

  /** A king's plain move along direction (di, dj): any distance over empty cells. */
  predicate RayStep(b: Matrix, x: int, y: int, di: int, dj: int, m: Move)
    requires ValidMatrix(b) && InBoard(x, y)
  {
    var k := Dist(x, m.x2);
    && m.x == x && m.y == y && m.xb == -1 && m.yb == -1
    && Dir(x, m.x2) == di && Dir(y, m.y2) == dj && Dist(y, m.y2) == k && k >= 1
    && Clear(b, x, y, di, dj, 1, k + 1)
  }

  predicate IsKingStep(b: Matrix, x: int, y: int, m: Move)
    requires ValidMatrix(b) && InBoard(x, y)
  {
    RayStep(b, x, y, Dir(x, m.x2), Dir(y, m.y2), m)
  }

  /** A capture of the piece on (x, y) under the rules for its code. */
  predicate IsCapture(b: Matrix, x: int, y: int, m: Move)
    requires ValidMatrix(b) && InBoard(x, y)
  {
    if IsMan(b[x][y]) then IsManCapture(b, x, y, m) else IsKingCapture(b, x, y, m)
  }

  /** A plain move of the piece on (x, y) under the rules for its code. */
  predicate IsPlain(b: Matrix, x: int, y: int, m: Move)
    requires ValidMatrix(b) && InBoard(x, y)
  {
    if IsMan(b[x][y]) then IsManStep(b, x, y, m) else IsKingStep(b, x, y, m)
  }


  // ---------------------------------------------------------------------
  // The scans produce exactly the moves the rules allow

  lemma OffInverse(a: int, a2: int)
    ensures Off(a, Dir(a, a2), Dist(a, a2)) == a2
  {
  }

  /** A clear stretch is its first cell followed by a shorter clear stretch. */
  lemma ClearSplit(b: Matrix, x: int, y: int, di: int, dj: int, lo: int, hi: int)
    requires ValidMatrix(b) && lo < hi
    ensures Clear(b, x, y, di, dj, lo, hi) <==>
      InBoard(Off(x, di, lo), Off(y, dj, lo)) && b[Off(x, di, lo)][Off(y, dj, lo)] == 0
      && Clear(b, x, y, di, dj, lo + 1, hi)
  {
    if InBoard(Off(x, di, lo), Off(y, dj, lo)) && b[Off(x, di, lo)][Off(y, dj, lo)] == 0
       && Clear(b, x, y, di, dj, lo + 1, hi) {
      forall t | lo <= t < hi
        ensures InBoard(Off(x, di, t), Off(y, dj, t)) && b[Off(x, di, t)][Off(y, dj, t)] == 0
      {
        if t > lo {
          assert lo + 1 <= t < hi;
        }
      }
    }
  }

  /** The moves a step scan from distance s yields. */
  predicate StepFrom(b: Matrix, x: int, y: int, di: int, dj: int, s: int, m: Move)
    requires ValidMatrix(b) && InBoard(x, y)
  {
    var k := Dist(x, m.x2);
    && m.x == x && m.y == y && m.xb == -1 && m.yb == -1
    && Dir(x, m.x2) == di && Dir(y, m.y2) == dj && Dist(y, m.y2) == k && k >= s
    && Clear(b, x, y, di, dj, s, k + 1)
  }

  lemma {:induction false} StepRayMembers(b: Matrix, x: int, y: int, di: int, dj: int, s: int, m: Move)
    requires ValidMatrix(b) && InBoard(x, y) && s >= 1
    requires (di == 1 || di == -1) && (dj == 1 || dj == -1)
    ensures m in StepRay(b, x, y, di, dj, s) <==> StepFrom(b, x, y, di, dj, s, m)
    decreases 8 - s
  {
    var i2, j2 := Off(x, di, s), Off(y, dj, s);
    var k := Dist(x, m.x2);
    OffInverse(x, m.x2);
    OffInverse(y, m.y2);
    if k >= s {
      ClearSplit(b, x, y, di, dj, s, k + 1);
    }
    if InBoard(i2, j2) && b[i2][j2] == 0 {
      StepRayMembers(b, x, y, di, dj, s + 1, m);
    }
  }

  /** The captures a capture scan from distance s yields, given the opposing
   *  piece (xb, yb) already passed (xb == -1: none yet). */
  predicate CaptureFrom(b: Matrix, x: int, y: int, di: int, dj: int, s: int, xb: int, yb: int, m: Move)
    requires ValidMatrix(b) && InBoard(x, y)
  {
    var k, kb := Dist(x, m.x2), Dist(x, m.xb);
    && m.x == x && m.y == y
    && Dir(x, m.x2) == di && Dir(y, m.y2) == dj && Dist(y, m.y2) == k
    && if xb == -1 then
         && s <= kb < k && m.xb == Off(x, di, kb) && m.yb == Off(y, dj, kb)
         && Clear(b, x, y, di, dj, s, kb)
         && InBoard(m.xb, m.yb) && Opposes(b[m.xb][m.yb], b[x][y])
         && Clear(b, x, y, di, dj, kb + 1, k + 1)
       else
         && s <= k && m.xb == xb && m.yb == yb
         && Clear(b, x, y, di, dj, s, k + 1)
  }

  /** A scan that stops at distance s (off the board, own piece, or a second
   *  opposing piece) yields nothing. */
  lemma CaptureBlocked(b: Matrix, x: int, y: int, di: int, dj: int, s: int, xb: int, yb: int, m: Move)
    requires ValidMatrix(b) && InBoard(x, y) && s >= 1
    requires !InBoard(Off(x, di, s), Off(y, dj, s)) ||
      (b[Off(x, di, s)][Off(y, dj, s)] != 0 && (b[Off(x, di, s)][Off(y, dj, s)] % 2 == b[x][y] % 2 || xb != -1))
    ensures !CaptureFrom(b, x, y, di, dj, s, xb, yb, m)
  {
    var k, kb := Dist(x, m.x2), Dist(x, m.xb);
    if CaptureFrom(b, x, y, di, dj, s, xb, yb, m) {
      if xb == -1 {
        if kb > s {
          ClearSplit(b, x, y, di, dj, s, kb);
        }
      } else {
        ClearSplit(b, x, y, di, dj, s, k + 1);
      }
    }
  }

  /** Passing an empty cell before any capture changes nothing. */
  lemma CaptureSkipsEmpty(b: Matrix, x: int, y: int, di: int, dj: int, s: int, yb: int, m: Move)
    requires ValidMatrix(b) && InBoard(x, y) && s >= 1
    requires InBoard(Off(x, di, s), Off(y, dj, s)) && b[Off(x, di, s)][Off(y, dj, s)] == 0
    ensures CaptureFrom(b, x, y, di, dj, s, -1, yb, m) <==> CaptureFrom(b, x, y, di, dj, s + 1, -1, yb, m)
  {
    var kb := Dist(x, m.xb);
    if s < kb {
      ClearSplit(b, x, y, di, dj, s, kb);
    }
  }

  /** Meeting the first opposing piece at distance s records it as the capture. */
  lemma CaptureMeetsPiece(b: Matrix, x: int, y: int, di: int, dj: int, s: int, yb: int, m: Move)
    requires ValidMatrix(b) && InBoard(x, y) && s >= 1 && (di == 1 || di == -1)
    requires InBoard(Off(x, di, s), Off(y, dj, s)) && Opposes(b[Off(x, di, s)][Off(y, dj, s)], b[x][y])
    ensures CaptureFrom(b, x, y, di, dj, s, -1, yb, m) <==>
      CaptureFrom(b, x, y, di, dj, s + 1, Off(x, di, s), Off(y, dj, s), m)
  {
    var kb := Dist(x, m.xb);
    if CaptureFrom(b, x, y, di, dj, s, -1, yb, m) && s < kb {
      ClearSplit(b, x, y, di, dj, s, kb);
      assert false;
    }
  }

  /** After the capture, every empty cell is a landing cell. */
  lemma CaptureLands(b: Matrix, x: int, y: int, di: int, dj: int, s: int, xb: int, yb: int, m: Move)
    requires ValidMatrix(b) && InBoard(x, y) && s >= 1
    requires (di == 1 || di == -1) && (dj == 1 || dj == -1) && xb != -1
    requires InBoard(Off(x, di, s), Off(y, dj, s)) && b[Off(x, di, s)][Off(y, dj, s)] == 0
    ensures CaptureFrom(b, x, y, di, dj, s, xb, yb, m) <==>
      m == Move(x, y, Off(x, di, s), Off(y, dj, s), xb, yb) || CaptureFrom(b, x, y, di, dj, s + 1, xb, yb, m)
  {
    var k := Dist(x, m.x2);
    OffInverse(x, m.x2);
    OffInverse(y, m.y2);
    if k >= s {
      ClearSplit(b, x, y, di, dj, s, k + 1);
    }
  }

  /** The capture scan from distance s yields exactly the captures still
   *  ahead of it, given the opposing piece (xb, yb) passed so far. */
  lemma {:induction false} CaptureRayMembers(b: Matrix, x: int, y: int, di: int, dj: int, s: int, xb: int, yb: int, m: Move)
    requires ValidMatrix(b) && InBoard(x, y) && s >= 1
    requires (di == 1 || di == -1) && (dj == 1 || dj == -1)
    requires xb != -1 ==> InBoard(xb, yb) && Dir(x, xb) == di && 1 <= Dist(x, xb) < s
    ensures m in CaptureRay(b, x, y, di, dj, s, xb, yb) <==> CaptureFrom(b, x, y, di, dj, s, xb, yb, m)
    decreases 8 - s, 1
  {
    var i2, j2 := Off(x, di, s), Off(y, dj, s);
    if !InBoard(i2, j2) || (b[i2][j2] != 0 && (b[i2][j2] % 2 == b[x][y] % 2 || xb != -1)) {
      CaptureBlocked(b, x, y, di, dj, s, xb, yb, m);
    } else {
      CaptureRayVisits(b, x, y, di, dj, s, xb, yb, m);
    }
  }

  /** The inductive step of CaptureRayMembers at a cell the scan does not
   *  stop at. */
  lemma {:induction false} CaptureRayVisits(b: Matrix, x: int, y: int, di: int, dj: int, s: int, xb: int, yb: int, m: Move)
    requires ValidMatrix(b) && InBoard(x, y) && s >= 1
    requires (di == 1 || di == -1) && (dj == 1 || dj == -1)
    requires xb != -1 ==> InBoard(xb, yb) && Dir(x, xb) == di && 1 <= Dist(x, xb) < s
    requires InBoard(Off(x, di, s), Off(y, dj, s))
    requires var v := b[Off(x, di, s)][Off(y, dj, s)]; !(v != 0 && (v % 2 == b[x][y] % 2 || xb != -1))
    ensures m in CaptureRay(b, x, y, di, dj, s, xb, yb) <==> CaptureFrom(b, x, y, di, dj, s, xb, yb, m)
    decreases 8 - s, 0
  {
    var i2, j2 := Off(x, di, s), Off(y, dj, s);
    if xb == -1 && b[i2][j2] == 0 {
      assert CaptureRay(b, x, y, di, dj, s, xb, yb) == [] + CaptureRay(b, x, y, di, dj, s + 1, xb, yb);
      CaptureSkipsEmpty(b, x, y, di, dj, s, yb, m);
      CaptureRayMembers(b, x, y, di, dj, s + 1, xb, yb, m);
    } else if xb == -1 {
      assert CaptureRay(b, x, y, di, dj, s, xb, yb) == [] + CaptureRay(b, x, y, di, dj, s + 1, i2, j2);
      CaptureMeetsPiece(b, x, y, di, dj, s, yb, m);
      CaptureRayMembers(b, x, y, di, dj, s + 1, i2, j2, m);
    } else {
      assert xb != i2;
      assert CaptureRay(b, x, y, di, dj, s, xb, yb) == [Move(x, y, i2, j2, xb, yb)] + CaptureRay(b, x, y, di, dj, s + 1, xb, yb);
      CaptureLands(b, x, y, di, dj, s, xb, yb, m);
      CaptureRayMembers(b, x, y, di, dj, s + 1, xb, yb, m);
    }
  }

  /** Diagonal d is the one from (x, y) towards m's destination. */
  lemma DirIndexOf(x: int, y: int, m: Move, d: int)
    requires 0 <= d < 4
    ensures DirIndex(x, y, m) == d <==> Dir(x, m.x2) == DirI(d) && Dir(y, m.y2) == DirJ(d)
  {
  }

  /** The step scan along diagonal d yields the king's plain moves along it. */
  lemma KingStepRay(b: Matrix, x: int, y: int, d: int, m: Move)
    requires ValidMatrix(b) && InBoard(x, y) && 0 <= d < 4
    ensures m in StepRay(b, x, y, DirI(d), DirJ(d), 1) <==> IsKingStep(b, x, y, m) && DirIndex(x, y, m) == d
  {
    StepRayMembers(b, x, y, DirI(d), DirJ(d), 1, m);
    DirIndexOf(x, y, m, d);
  }

  /** The capture scan along diagonal d yields the king's captures along it. */
  lemma KingCaptureRay(b: Matrix, x: int, y: int, d: int, m: Move)
    requires ValidMatrix(b) && InBoard(x, y) && 0 <= d < 4
    ensures m in CaptureRay(b, x, y, DirI(d), DirJ(d), 1, -1, -1) <==> IsKingCapture(b, x, y, m) && DirIndex(x, y, m) == d
  {
    CaptureRayMembers(b, x, y, DirI(d), DirJ(d), 1, -1, -1, m);
    DirIndexOf(x, y, m, d);
  }

  /** The king's step scans along the first n diagonals yield exactly its
   *  plain moves along those diagonals. */
  lemma {:induction false} KingStepsExact(b: Matrix, x: int, y: int, n: int, m: Move)
    requires ValidMatrix(b) && InBoard(x, y) && 0 <= n <= 4
    ensures m in KingSteps(b, x, y, n) <==> IsKingStep(b, x, y, m) && DirIndex(x, y, m) < n
  {
    if n > 0 {
      KingStepRay(b, x, y, n - 1, m);
      KingStepsExact(b, x, y, n - 1, m);
    }
  }

  /** The king's capture scans along the first n diagonals yield exactly its
   *  captures along those diagonals. */
  lemma {:induction false} KingCapturesExact(b: Matrix, x: int, y: int, n: int, m: Move)
    requires ValidMatrix(b) && InBoard(x, y) && 0 <= n <= 4
    ensures m in KingCaptures(b, x, y, n) <==> IsKingCapture(b, x, y, m) && DirIndex(x, y, m) < n
  {
    if n > 0 {
      KingCaptureRay(b, x, y, n - 1, m);
      KingCapturesExact(b, x, y, n - 1, m);
    }
  }

  /** The jump along diagonal d is the man's capture along it, if any. */
  lemma ManJumpExact(b: Matrix, x: int, y: int, d: int, m: Move)
    requires ValidMatrix(b) && InBoard(x, y) && 0 <= d < 4
    ensures m in ManJump(b, x, y, DirI(d), DirJ(d)) <==> IsManCapture(b, x, y, m) && DirIndex(x, y, m) == d
  {
    var di, dj := DirI(d), DirJ(d);
    assert (x + (x + 2 * di)) / 2 == x + di && (y + (y + 2 * dj)) / 2 == y + dj;
    DirIndexOf(x, y, m, d);
  }

  /** The man's jumps along the first n diagonals are exactly its captures
   *  along those diagonals. */
  lemma {:induction false} ManCapturesExact(b: Matrix, x: int, y: int, n: int, m: Move)
    requires ValidMatrix(b) && InBoard(x, y) && 0 <= n <= 4
    ensures m in ManCaptures(b, x, y, n) <==> IsManCapture(b, x, y, m) && DirIndex(x, y, m) < n
  {
    if n > 0 {
      ManJumpExact(b, x, y, n - 1, m);
      ManCapturesExact(b, x, y, n - 1, m);
    }
  }

  /** The man's first n steps are exactly its plain moves to the first n of
   *  the columns y - 1, y + 1. */
  lemma {:induction false} ManStepsExact(b: Matrix, x: int, y: int, n: int, m: Move)
    requires ValidMatrix(b) && InBoard(x, y) && 0 <= n <= 2
    ensures m in ManSteps(b, x, y, n) <==> IsManStep(b, x, y, m) && (n == 2 || (n == 1 && m.y2 == y - 1))
  {
    if n > 0 {
      ManStepsExact(b, x, y, n - 1, m);
    }
  }

  lemma CellCapturesExact(b: Matrix, x: int, y: int, m: Move)
    requires ValidMatrix(b) && InBoard(x, y)
    ensures m in CellCaptures(b, x, y) <==> IsCapture(b, x, y, m)
  {
    if IsMan(b[x][y]) {
      ManCapturesExact(b, x, y, 4, m);
    } else {
      KingCapturesExact(b, x, y, 4, m);
    }
  }

  lemma CellStepsExact(b: Matrix, x: int, y: int, m: Move)
    requires ValidMatrix(b) && InBoard(x, y)
    ensures m in CellSteps(b, x, y) <==> IsPlain(b, x, y, m)
  {
    if IsMan(b[x][y]) {
      ManStepsExact(b, x, y, 2, m);
    } else {
      KingStepsExact(b, x, y, 4, m);
    }
  }

  /** One cell's generator: it reports captures exactly when the piece has a
   *  capture, and then lists exactly its captures; otherwise it lists exactly
   *  its plain moves. */
  lemma CellTurnsExact(b: Matrix, x: int, y: int)
    requires ValidMatrix(b) && InBoard(x, y)
    ensures CellTurns(b, x, y).beats <==> exists m :: IsCapture(b, x, y, m)
    ensures forall m :: m in CellTurns(b, x, y).moves <==>
      if CellTurns(b, x, y).beats then IsCapture(b, x, y, m) else IsPlain(b, x, y, m)
  {
    var caps, plain := CellCaptures(b, x, y), CellSteps(b, x, y);
    assert CellTurns(b, x, y) == if caps != [] then Turns(caps, true) else Turns(plain, false);
    forall m
      ensures (m in caps <==> IsCapture(b, x, y, m)) && (m in plain <==> IsPlain(b, x, y, m))
    {
      CellCapturesExact(b, x, y, m);
      CellStepsExact(b, x, y, m);
    }
    if caps != [] {
      assert caps[0] in caps;
    }
  }

  /** What every generated move of one cell looks like: it starts on the cell,
   *  stays on the board, is a capture exactly when the list is, and a capture
   *  removes a piece from a third cell onto an empty landing cell. */
  lemma CellMovesShape(b: Matrix, x: int, y: int)
    requires ValidMatrix(b) && InBoard(x, y)
    ensures forall m :: m in CellTurns(b, x, y).moves ==>
      && m.x == x && m.y == y && WellPlaced(m)
      && (m.xb != -1 <==> CellTurns(b, x, y).beats)
      && (CellTurns(b, x, y).beats ==> CaptureShape(b, m))
  {
    CellTurnsExact(b, x, y);
    var g := CellTurns(b, x, y);
    forall m | m in g.moves
      ensures m.x == x && m.y == y && WellPlaced(m) && (m.xb != -1 <==> g.beats)
      ensures g.beats ==> CaptureShape(b, m)
    {
      OffInverse(x, m.x2);
      OffInverse(y, m.y2);
      var k := Dist(x, m.x2);
      if g.beats && !IsMan(b[x][y]) {
        assert Clear(b, x, y, Dir(x, m.x2), Dir(y, m.y2), Dist(x, m.xb) + 1, k + 1);
        assert Dist(x, m.xb) + 1 <= k < k + 1;
      } else if !g.beats && !IsMan(b[x][y]) {
        assert 1 <= k < k + 1;
      }
    }
  }

  /** Row-major cell indices: index c is cell (c / 8, c % 8). */
  lemma CellIndex(i: int, j: int)
    requires InBoard(i, j)
    ensures 0 <= 8 * i + j < 64 && (8 * i + j) / 8 == i && (8 * i + j) % 8 == j
  {
  }

  /** Some cell among the first k holds a piece of the side whose table entry
   *  is a capture list. */
  predicate CanCapture(b: Matrix, color: Side, t: seq<Turns>, k: int)
    requires ValidMatrix(b) && |t| == 64 && 0 <= k <= 64
  {
    exists c :: 0 <= c < k && Own(b, c / 8, c % 8, color) && t[c].beats
  }

  /** The side-level scan after k cells has seen a capture exactly when one of
   *  the first k cells holds a piece of the side with captures. */
  lemma {:induction false} SideScanBeats(b: Matrix, color: Side, t: seq<Turns>, k: int)
    requires ValidMatrix(b) && |t| == 64 && 0 <= k <= 64
    ensures SideScan(b, color, t, k).beats <==> CanCapture(b, color, t, k)
  {
    if k > 0 {
      SideScanBeats(b, color, t, k - 1);
      if CanCapture(b, color, t, k) {
        var c :| 0 <= c < k && Own(b, c / 8, c % 8, color) && t[c].beats;
        if c < k - 1 {
          assert CanCapture(b, color, t, k - 1);
        }
      }
      if CanCapture(b, color, t, k - 1) {
        var c :| 0 <= c < k - 1 && Own(b, c / 8, c % 8, color) && t[c].beats;
        assert 0 <= c < k;
      }
    }
  }

  /** Move m is in the table entry of a piece of the side among the first k
   *  cells, and of a capturing piece when `beats`. */
  predicate Listed(b: Matrix, color: Side, t: seq<Turns>, k: int, beats: bool, m: Move)
    requires ValidMatrix(b) && |t| == 64 && 0 <= k <= 64
  {
    exists c :: 0 <= c < k && Own(b, c / 8, c % 8, color) && m in t[c].moves && (beats ==> t[c].beats)
  }

  /** What a merge keeps: the earlier moves unless a first capture displaces
   *  them, and the new cell's moves unless they are plain after a capture. */
  lemma MergeMembers(acc: Turns, g: Turns, m: Move)
    ensures Merge(acc, g).beats == (acc.beats || g.beats)
    ensures m in Merge(acc, g).moves <==>
      (m in acc.moves && (acc.beats || !g.beats)) || (m in g.moves && (g.beats || !acc.beats))
  {
  }

  /** Listing among k cells is listing among the first k - 1 or in entry k - 1. */
  lemma ListedSplit(b: Matrix, color: Side, t: seq<Turns>, k: int, beats: bool, m: Move)
    requires ValidMatrix(b) && |t| == 64 && 0 < k <= 64
    ensures Listed(b, color, t, k, beats, m) <==>
      Listed(b, color, t, k - 1, beats, m) ||
      (Own(b, (k - 1) / 8, (k - 1) % 8, color) && m in t[k - 1].moves && (beats ==> t[k - 1].beats))
  {
    if Listed(b, color, t, k, beats, m) {
      var c :| 0 <= c < k && Own(b, c / 8, c % 8, color) && m in t[c].moves && (beats ==> t[c].beats);
      if c < k - 1 {
        assert Listed(b, color, t, k - 1, beats, m);
      }
    }
    if Listed(b, color, t, k - 1, beats, m) {
      var c :| 0 <= c < k - 1 && Own(b, c / 8, c % 8, color) && m in t[c].moves && (beats ==> t[c].beats);
      assert 0 <= c < k;
    }
  }

  /** Without a capture among the first k cells, no entry is listed as a capture. */
  lemma NotListedAsCapture(b: Matrix, color: Side, t: seq<Turns>, k: int, m: Move)
    requires ValidMatrix(b) && |t| == 64 && 0 <= k <= 64 && !CanCapture(b, color, t, k)
    ensures !Listed(b, color, t, k, true, m)
  {
  }

  lemma SideScanMovesStep(b: Matrix, color: Side, t: seq<Turns>, k: int, m: Move)
    requires ValidMatrix(b) && |t| == 64 && 0 < k <= 64
    requires m in SideScan(b, color, t, k - 1).moves <==> Listed(b, color, t, k - 1, SideScan(b, color, t, k - 1).beats, m)
    ensures m in SideScan(b, color, t, k).moves <==> Listed(b, color, t, k, SideScan(b, color, t, k).beats, m)
  {
    var acc := SideScan(b, color, t, k - 1);
    var beats := SideScan(b, color, t, k).beats;
    ListedSplit(b, color, t, k, beats, m);
    if Own(b, (k - 1) / 8, (k - 1) % 8, color) {
      var g := t[k - 1];
      assert SideScan(b, color, t, k) == Merge(acc, g);
      MergeMembers(acc, g, m);
      if !acc.beats && g.beats {
        SideScanBeats(b, color, t, k - 1);
        NotListedAsCapture(b, color, t, k - 1, m);
      }
    } else {
      assert SideScan(b, color, t, k) == acc;
    }
  }

  /** The side-level scan after k cells holds exactly the table entries of the
   *  side's pieces among the first k cells, restricted to capturing pieces
   *  once a capture has been seen. */
  lemma {:induction false} SideScanMoves(b: Matrix, color: Side, t: seq<Turns>, k: int)
    requires ValidMatrix(b) && |t| == 64 && 0 <= k <= 64
    ensures forall m :: m in SideScan(b, color, t, k).moves <==> Listed(b, color, t, k, SideScan(b, color, t, k).beats, m)
  {
    if k > 0 {
      SideScanMoves(b, color, t, k - 1);
      forall m: Move
        ensures m in SideScan(b, color, t, k).moves <==> Listed(b, color, t, k, SideScan(b, color, t, k).beats, m)
      {
        SideScanMovesStep(b, color, t, k, m);
      }
    }
  }

  /** `find_turns(color, mtx)` before its shuffle: it reports captures exactly
   *  when some piece of the side can capture, and lists exactly the captures
   *  of the side's pieces in that case and exactly their plain moves otherwise. */
  lemma SideTurnsExact(b: Matrix, color: Side)
    requires ValidMatrix(b)
    ensures SideTurns(b, color).beats <==>
      exists i, j :: InBoard(i, j) && Own(b, i, j, color) && CellTurns(b, i, j).beats
    ensures forall m :: m in SideTurns(b, color).moves <==>
      && InBoard(m.x, m.y) && Own(b, m.x, m.y, color)
      && m in CellTurns(b, m.x, m.y).moves
      && (SideTurns(b, color).beats <==> CellTurns(b, m.x, m.y).beats)
  {
    var t := CellTable(b);
    SideScanBeats(b, color, t, 64);
    SideScanMoves(b, color, t, 64);
    var g := SideTurns(b, color);
    forall m: Move
      ensures m in g.moves <==>
        && InBoard(m.x, m.y) && Own(b, m.x, m.y, color)
        && m in CellTurns(b, m.x, m.y).moves
        && (g.beats <==> CellTurns(b, m.x, m.y).beats)
    {
      SideMemberCell(b, color, m);
    }
    if exists i, j :: InBoard(i, j) && Own(b, i, j, color) && CellTurns(b, i, j).beats {
      var i, j :| InBoard(i, j) && Own(b, i, j, color) && CellTurns(b, i, j).beats;
      CellIndex(i, j);
      assert t[8 * i + j] == CellTurns(b, i, j);
    }
    if g.beats {
      var c :| 0 <= c < 64 && Own(b, c / 8, c % 8, color) && t[c].beats;
      assert InBoard(c / 8, c % 8) && CellTurns(b, c / 8, c % 8).beats;
    }
  }

  /** One move of the side-level list, located at its own cell. */
  lemma SideMemberCell(b: Matrix, color: Side, m: Move)
    requires ValidMatrix(b)
    ensures m in SideTurns(b, color).moves <==>
      && InBoard(m.x, m.y) && Own(b, m.x, m.y, color)
      && m in CellTurns(b, m.x, m.y).moves
      && (SideTurns(b, color).beats <==> CellTurns(b, m.x, m.y).beats)
  {
    var t := CellTable(b);
    var g := SideTurns(b, color);
    assert g == SideScan(b, color, t, 64);
    SideScanBeats(b, color, t, 64);
    SideScanMoves(b, color, t, 64);
    if m in g.moves {
      var c :| 0 <= c < 64 && Own(b, c / 8, c % 8, color) && m in t[c].moves && (g.beats ==> t[c].beats);
      SideMemberAt(b, color, c, g.beats, m);
    }
    if InBoard(m.x, m.y) && Own(b, m.x, m.y, color) && m in CellTurns(b, m.x, m.y).moves
       && (g.beats <==> CellTurns(b, m.x, m.y).beats) {
      CellMemberAt(b, color, g.beats, m);
    }
  }

  /** A move of table entry c belongs to cell c; when the entry is plain, so is
   *  the whole list. */
  lemma SideMemberAt(b: Matrix, color: Side, c: int, beats: bool, m: Move)
    requires ValidMatrix(b) && 0 <= c < 64 && Own(b, c / 8, c % 8, color)
    requires m in CellTable(b)[c].moves && (beats ==> CellTable(b)[c].beats)
    requires beats <==> CanCapture(b, color, CellTable(b), 64)
    ensures InBoard(m.x, m.y) && Own(b, m.x, m.y, color) && m in CellTurns(b, m.x, m.y).moves
    ensures beats <==> CellTurns(b, m.x, m.y).beats
  {
    var i, j := c / 8, c % 8;
    assert CellTable(b)[c] == CellTurns(b, i, j);
    CellMovesShape(b, i, j);
  }

  /** A move of a cell's own list is listed under that cell's table entry. */
  lemma CellMemberAt(b: Matrix, color: Side, beats: bool, m: Move)
    requires ValidMatrix(b) && InBoard(m.x, m.y) && Own(b, m.x, m.y, color)
    requires m in CellTurns(b, m.x, m.y).moves && (beats <==> CellTurns(b, m.x, m.y).beats)
    ensures Listed(b, color, CellTable(b), 64, beats, m)
  {
    CellIndex(m.x, m.y);
    var c := 8 * m.x + m.y;
    assert CellTable(b)[c] == CellTurns(b, m.x, m.y);
  }

  /** What every move of the side-level list looks like (see CellMovesShape). */
  lemma SideMovesShape(b: Matrix, color: Side)
    requires ValidMatrix(b)
    ensures forall m :: m in SideTurns(b, color).moves ==>
      && WellPlaced(m) && Own(b, m.x, m.y, color)
      && (m.xb != -1 <==> SideTurns(b, color).beats)
      && (SideTurns(b, color).beats ==> CaptureShape(b, m))
  {
    SideTurnsExact(b, color);
    forall m | m in SideTurns(b, color).moves
      ensures WellPlaced(m) && Own(b, m.x, m.y, color)
      ensures m.xb != -1 <==> SideTurns(b, color).beats
      ensures SideTurns(b, color).beats ==> CaptureShape(b, m)
    {
      CellMovesShape(b, m.x, m.y);
    }
  }
}
