/** The game board's piece matrix and its undo history (Game/Board.h): moving,
 *  removing and promoting pieces, the starting position, and rolling back. */
module BoardState {
  import opened Grid
  import opened Apply

  /** How an operation that can throw ended: normally, or with the message of
   *  the `runtime_error` it throws. */
  datatype Outcome = Done | Failed(message: string)

  const OccupiedTarget: string := "final position is not empty, can't move"
  const EmptyOrigin: string := "begin position is empty, can't move"
  const NoPromotion: string := "can't turn into queen in this position"

  /** The code on cell (i, j) of the starting position: black men on the dark
   *  cells of rows 0 .. 2, white men on the dark cells of rows 5 .. 7. */
  function StartCode(i: int, j: int): int
  {
    if i < 3 && (i + j) % 2 == 1 then 2
    else if i > 4 && (i + j) % 2 == 1 then 1
    else 0
  }

  /** The starting position `make_start_mtx` lays out. */
  function StartMatrix(): (b: Matrix)
    ensures ValidMatrix(b)
    ensures forall i, j :: InBoard(i, j) ==> b[i][j] == StartCode(i, j)
  {
    seq(8, i => seq(8, j => StartCode(i, j)))
  }

  function IsWhiteMan(v: int): bool { v == 1 }
  function IsBlackMan(v: int): bool { v == 2 }
  function IsKing(v: int): bool { v == 3 || v == 4 }

  /** A row with code v on the columns of parity p and empty cells elsewhere. */
  function Alternating(v: int, p: int): seq<int>
  {
    seq(8, j => if j % 2 == p then v else 0)
  }

  /** Row r of the starting position. */
  lemma StartRow(r: int)
    requires 0 <= r < 8
    ensures StartMatrix()[r] == Alternating(if r < 3 then 2 else if r > 4 then 1 else 0, (r + 1) % 2)
  {
  }

  /** The first k cells of an alternating row hold (k + 1 - p) / 2 pieces of code v. */
  lemma {:induction false} AlternatingCount(v: int, p: int, f: int -> bool, k: int)
    requires (p == 0 || p == 1) && !f(0) && 0 <= k <= 8
    ensures RowCount(Alternating(v, p)[..k], f) == Ind(f(v)) * ((k + 1 - p) / 2)
  {
    if k > 0 {
      var r := Alternating(v, p);
      assert r[..k][..k - 1] == r[..k - 1];
      AlternatingCount(v, p, f, k - 1);
    }
  }

  /** The first k rows of the starting position: four black men in each of
   *  rows 0 .. 2 and four white men in each of rows 5 .. 7. */
  lemma {:induction false} StartCount(f: int -> bool, k: int)
    requires !f(0) && 0 <= k <= 8
    ensures Count(StartMatrix()[..k], f) ==
      4 * (Ind(f(2)) * (if k < 3 then k else 3) + Ind(f(1)) * (if k > 5 then k - 5 else 0))
  {
    if k > 0 {
      var b := StartMatrix();
      assert b[..k][..k - 1] == b[..k - 1];
      StartCount(f, k - 1);
      StartRow(k - 1);
      var v := if k - 1 < 3 then 2 else if k - 1 > 4 then 1 else 0;
      AlternatingCount(v, k % 2, f, 8);
      assert Alternating(v, k % 2)[..8] == Alternating(v, k % 2);
    }
  }

  /** The starting position has twelve men of each side and no king. */
  lemma StartPieces()
    ensures Count(StartMatrix(), IsWhiteMan) == 12
    ensures Count(StartMatrix(), IsBlackMan) == 12
    ensures Count(StartMatrix(), IsKing) == 0
  {
    assert StartMatrix()[..8] == StartMatrix();
    StartCount(IsWhiteMan, 8);
    StartCount(IsBlackMan, 8);
    StartCount(IsKing, 8);
  }

  /** The number of history entries `rollback` removes from a history of n
   *  entries whose last series length is `last`: at least one, all of the
   *  last series, and never the first entry. */
  function RollbackCount(n: int, last: int): int
  {
    var series := if last > 1 then last else 1;
    if series < n - 1 then series else if n > 1 then n - 1 else 0
  }

  /** The history after `rollback`: the entries that remain. */
  function RolledBack<T>(h: seq<T>, last: int): (r: seq<T>)
    requires |h| >= 1
    ensures 1 <= |r| <= |h| && r == h[..|r|]
  {
    h[..|h| - RollbackCount(|h|, last)]
  }

  /** Undoing one move recorded with a series length of 0 or 1 restores the
   *  history as it was before the move, and never removes the first entry. */
  lemma RollbackUndoesOne<T>(h: seq<T>, m: T, last: int)
    requires |h| >= 1 && last <= 1
    ensures RolledBack(h + [m], last) == h
  {
  }

  /** A capture series of k moves recorded as k entries whose last carries
   *  series length k is undone as a whole, back to the entry before it. */
  lemma RollbackUndoesSeries<T>(h: seq<T>, series: seq<T>)
    requires |h| >= 1 && |series| >= 1
    ensures RolledBack(h + series, |series|) == h
  {
    assert (h + series)[..|h|] == h;
  }

  class Board {
    /** The piece matrix `mtx`. */
    var mtx: Matrix
    /** `history_mtx`: the matrix after every recorded move. */
    var historyMtx: seq<Matrix>
    /** `history_beat_series`: for every recorded matrix, the length of the
     *  capture series its move ended (0 for other moves). */
    var historyBeatSeries: seq<int>

    /** The matrix is a board, every history entry is a board, and the two
     *  histories have one entry per recorded move. */
    ghost predicate Valid()
      reads this
    {
      && ValidMatrix(mtx)
      && |historyMtx| == |historyBeatSeries|
      && forall k :: 0 <= k < |historyMtx| ==> ValidMatrix(historyMtx[k])
    }

    /** `Board(W, H)`: an empty matrix and no history (the window size is
     *  not modelled). */
    constructor()
      ensures Valid()
      ensures mtx == EmptyMatrix() && historyMtx == [] && historyBeatSeries == []
    {
      mtx := EmptyMatrix();
      historyMtx := [];
      historyBeatSeries := [];
    }

    /** `get_board`: a copy of the matrix. */
    method GetBoard() returns (b: Matrix)
      requires Valid()
      ensures b == mtx && ValidMatrix(b)
    {
      b := mtx;
    }

    /** `add_history`: records the current matrix with the series length. */
    method AddHistory(beatSeries: int)
      requires Valid()
      modifies this
      ensures Valid()
      ensures mtx == old(mtx)
      ensures historyMtx == old(historyMtx) + [mtx]
      ensures historyBeatSeries == old(historyBeatSeries) + [beatSeries]
    {
      historyMtx := historyMtx + [mtx];
      historyBeatSeries := historyBeatSeries + [beatSeries];
    }

    /** `drop_piece`: empties one cell. */
    method DropPiece(i: int, j: int)
      requires Valid() && InBoard(i, j)
      modifies this
      ensures Valid()
      ensures mtx == SetCell(old(mtx), i, j, 0)
      ensures historyMtx == old(historyMtx) && historyBeatSeries == old(historyBeatSeries)
    {
      mtx := SetCell(mtx, i, j, 0);
    }

    /** `turn_into_queen`: a man becomes the king of its side; an empty cell or
     *  a king is refused and nothing changes. */
    method TurnIntoQueen(i: int, j: int) returns (r: Outcome)
      requires Valid() && InBoard(i, j)
      modifies this
      ensures Valid()
      ensures historyMtx == old(historyMtx) && historyBeatSeries == old(historyBeatSeries)
      ensures old(mtx)[i][j] == 0 || old(mtx)[i][j] > 2 ==> r == Failed(NoPromotion) && mtx == old(mtx)
      ensures old(mtx)[i][j] == 1 || old(mtx)[i][j] == 2 ==>
        r == Done && mtx == SetCell(old(mtx), i, j, old(mtx)[i][j] + 2)
    {
      if mtx[i][j] == 0 || mtx[i][j] > 2 {
        return Failed(NoPromotion);
      }
      mtx := SetCell(mtx, i, j, mtx[i][j] + 2);
      r := Done;
    }

    /** `move_piece(i, j, i2, j2, beat_series)`: refuses an occupied target
     *  first and an empty origin second, leaving everything as it was;
     *  otherwise moves the piece (promoting a man that reaches the far row),
     *  exactly as the search's `make_turn` does for a plain move, and records
     *  the new matrix in the history. */
    method MovePieceAt(i: int, j: int, i2: int, j2: int, beatSeries: int) returns (r: Outcome)
      requires Valid() && InBoard(i, j) && InBoard(i2, j2)
      modifies this
      ensures Valid()
      ensures old(mtx)[i2][j2] != 0 ==>
        r == Failed(OccupiedTarget) && mtx == old(mtx)
        && historyMtx == old(historyMtx) && historyBeatSeries == old(historyBeatSeries)
      ensures old(mtx)[i2][j2] == 0 && old(mtx)[i][j] == 0 ==>
        r == Failed(EmptyOrigin) && mtx == old(mtx)
        && historyMtx == old(historyMtx) && historyBeatSeries == old(historyBeatSeries)
      ensures old(mtx)[i2][j2] == 0 && old(mtx)[i][j] != 0 ==>
        && r == Done && mtx == MakeTurn(old(mtx), Step(i, j, i2, j2))
        && historyMtx == old(historyMtx) + [mtx]
        && historyBeatSeries == old(historyBeatSeries) + [beatSeries]
    {
      if mtx[i2][j2] != 0 {
        return Failed(OccupiedTarget);
      }
      if mtx[i][j] == 0 {
        return Failed(EmptyOrigin);
      }
      if (mtx[i][j] == 1 && i2 == 0) || (mtx[i][j] == 2 && i2 == 7) {
        mtx := SetCell(mtx, i, j, mtx[i][j] + 2);
      } else {
        SetCellSame(mtx, i, j);
      }
      mtx := SetCell(mtx, i2, j2, mtx[i][j]);
      DropPiece(i, j);
      AddHistory(beatSeries);
      r := Done;
    }

    /** `move_piece(turn, beat_series)`: removes the captured piece first,
     *  before the checks of the inner `move_piece`, so a refused capture still
     *  leaves the captured cell empty; when the move goes through, the board
     *  is what `make_turn` computes. */
    method MovePiece(turn: Move, beatSeries: int) returns (r: Outcome)
      requires Valid() && WellPlaced(turn)
      modifies this
      ensures Valid()
      ensures var cleared := if turn.xb != -1 then SetCell(old(mtx), turn.xb, turn.yb, 0) else old(mtx);
        && (cleared[turn.x2][turn.y2] != 0 ==>
             r == Failed(OccupiedTarget) && mtx == cleared
             && historyMtx == old(historyMtx) && historyBeatSeries == old(historyBeatSeries))
        && (cleared[turn.x2][turn.y2] == 0 && cleared[turn.x][turn.y] == 0 ==>
             r == Failed(EmptyOrigin) && mtx == cleared
             && historyMtx == old(historyMtx) && historyBeatSeries == old(historyBeatSeries))
        && (cleared[turn.x2][turn.y2] == 0 && cleared[turn.x][turn.y] != 0 ==>
             && r == Done && mtx == MakeTurn(old(mtx), turn)
             && historyMtx == old(historyMtx) + [mtx]
             && historyBeatSeries == old(historyBeatSeries) + [beatSeries])
    {
      if turn.xb != -1 {
        mtx := SetCell(mtx, turn.xb, turn.yb, 0);
      }
      r := MovePieceAt(turn.x, turn.y, turn.x2, turn.y2, beatSeries);
    }

    /** `rollback`: removes the last capture series (at least one entry) from
     *  both histories, never the first entry, and restores the matrix to the
     *  last entry that remains. */
    method Rollback()
      requires Valid() && |historyMtx| >= 1
      modifies this
      ensures Valid()
      ensures var last := old(historyBeatSeries)[|old(historyBeatSeries)| - 1];
        && historyMtx == RolledBack(old(historyMtx), last)
        && historyBeatSeries == RolledBack(old(historyBeatSeries), last)
        && mtx == historyMtx[|historyMtx| - 1]
    {
      var last := historyBeatSeries[|historyBeatSeries| - 1];
      var beatSeries := if last > 1 then last else 1;
      ghost var n := |historyMtx|;
      ghost var h0, s0 := historyMtx, historyBeatSeries;
      while beatSeries != 0 && |historyMtx| > 1
        invariant Valid()
        invariant 1 <= |historyMtx| <= n && 0 <= beatSeries
        invariant historyMtx == h0[..|historyMtx|] && historyBeatSeries == s0[..|historyMtx|]
        invariant |historyMtx| > 1 ==>
          n - |historyMtx| + beatSeries == (if last > 1 then last else 1)
        invariant |historyMtx| == 1 ==> n - 1 <= (if last > 1 then last else 1)
        invariant beatSeries == 0 ==> n - |historyMtx| == (if last > 1 then last else 1)
        decreases beatSeries
      {
        beatSeries := beatSeries - 1;
        historyMtx := historyMtx[..|historyMtx| - 1];
        historyBeatSeries := historyBeatSeries[..|historyBeatSeries| - 1];
      }
      mtx := historyMtx[|historyMtx| - 1];
    }

    /** `make_start_mtx`: lays out the starting position cell by cell and
     *  records it in the history with series length 0. */
    method MakeStartMtx()
      requires Valid()
      modifies this
      ensures Valid()
      ensures mtx == StartMatrix()
      ensures historyMtx == old(historyMtx) + [StartMatrix()]
      ensures historyBeatSeries == old(historyBeatSeries) + [0]
    {
      var i := 0;
      while i < 8
        invariant 0 <= i <= 8 && Valid()
        invariant historyMtx == old(historyMtx) && historyBeatSeries == old(historyBeatSeries)
        invariant forall r, c :: 0 <= r < i && 0 <= c < 8 ==> mtx[r][c] == StartCode(r, c)
      {
        var j := 0;
        while j < 8
          invariant 0 <= j <= 8 && Valid()
          invariant historyMtx == old(historyMtx) && historyBeatSeries == old(historyBeatSeries)
          invariant forall r, c :: InBoard(r, c) && (r < i || (r == i && c < j)) ==> mtx[r][c] == StartCode(r, c)
        {
          mtx := SetCell(mtx, i, j, 0);
          if i < 3 && (i + j) % 2 == 1 {
            mtx := SetCell(mtx, i, j, 2);
          }
          if i > 4 && (i + j) % 2 == 1 {
            mtx := SetCell(mtx, i, j, 1);
          }
          j := j + 1;
        }
        i := i + 1;
      }
      SameAsStart(mtx);
      AddHistory(0);
    }

    /** The matrix/history part of `redraw`: both histories are cleared and
     *  the starting position is laid out and recorded. */
    method Redraw()
      requires Valid()
      modifies this
      ensures Valid()
      ensures mtx == StartMatrix() && historyMtx == [StartMatrix()] && historyBeatSeries == [0]
    {
      historyMtx := [];
      historyBeatSeries := [];
      MakeStartMtx();
    }
  }

  /** A board that agrees with the starting position on every cell is it. */
  lemma SameAsStart(b: Matrix)
    requires ValidMatrix(b)
    requires forall r, c :: InBoard(r, c) ==> b[r][c] == StartCode(r, c)
    ensures b == StartMatrix()
  {
    var s := StartMatrix();
    forall r | 0 <= r < 8 ensures b[r] == s[r] {
      assert forall c :: 0 <= c < 8 ==> b[r][c] == s[r][c];
    }
  }
}
