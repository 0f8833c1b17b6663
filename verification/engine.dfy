/** The bot's engine, class `Logic` of Game/Logic.h: the generators that
 *  fill the fields `turns` and `have_beats`, the score, the search and the
 *  reconstruction of the chosen turn through the arenas `next_move` and
 *  `next_best_state`. Each method is proved to compute the functions of
 *  MoveGen, Scoring and Search. */
module Engine {
  import opened Grid
  import opened Apply
  import opened MoveGen
  import opened Scoring
  import opened Search
  import opened BoardState
  import opened CellScan

  // ---------------------------------------------------------------------
  // The random engine and std::shuffle

  /** The modulus and multiplier of `std::default_random_engine`
   *  (minstd_rand0, a multiplicative congruential generator). */
  const Modulus: int := 2147483647
  const Multiplier: int := 16807

  /** A state of the random engine. */
  type RandState = r: int | 0 <= r < 2147483647

  /** The state the engine is seeded to: the seed modulo Modulus, with 0
   *  replaced by 1. */
  function Seeded(seed: nat): (r: RandState)
    ensures r != 0
    ensures seed % Modulus != 0 ==> r == seed % Modulus
  {
    if seed % Modulus == 0 then 1 else seed % Modulus
  }

  /** One draw of the engine: the next state, which is also the value drawn. */
  function NextRandom(r: RandState): RandState
  {
    Multiplier * r % Modulus
  }

  /** The multiplier has an inverse modulo Modulus (which is prime), so a
   *  draw from a non-zero state is never 0: once seeded, the engine never
   *  reaches the state it could not leave. */
  lemma NextRandomNonZero(r: RandState)
    requires r != 0
    ensures NextRandom(r) != 0
  {
    var q, m := Multiplier * r / Modulus, Multiplier * r % Modulus;
    var inverse, t := 1407677000, 11017;
    assert inverse * Multiplier == 1 + Modulus * t;
    calc {
      r;
      (inverse * Multiplier - Modulus * t) * r;
      inverse * (Multiplier * r) - Modulus * (t * r);
      inverse * (Modulus * q + m) - Modulus * (t * r);
      Modulus * (inverse * q - t * r) + inverse * m;
    }
  }

  /** Every draw of a shuffle started from a non-zero state leaves the
   *  engine in a non-zero state. */
  lemma {:induction false} ShuffleNonZero(ms: seq<Move>, r: RandState, i: nat)
    requires r != 0
    ensures ShuffleFrom(ms, r, i).1 != 0
    decreases |ms| - i
  {
    if i < |ms| {
      var r' := NextRandom(r);
      NextRandomNonZero(r);
      ShuffleNonZero(Swap(ms, i, r' % (i + 1)), r', i + 1);
    }
  }

  /** Exchanging the entries at i and j. */
  function Swap(ms: seq<Move>, i: int, j: int): (r: seq<Move>)
    requires 0 <= i < |ms| && 0 <= j < |ms|
    ensures |r| == |ms| && r[i] == ms[j] && r[j] == ms[i]
    ensures forall k :: 0 <= k < |ms| && k != i && k != j ==> r[k] == ms[k]
  {
    ms[i := ms[j]][j := ms[i]]
  }

  /** The forward Fisher-Yates shuffle of `std::shuffle` from position i on:
   *  position i is exchanged with a position drawn among 0 .. i. Returns
   *  the shuffled list and the final engine state. */
  function ShuffleFrom(ms: seq<Move>, r: RandState, i: nat): (seq<Move>, RandState)
    decreases |ms| - i
  {
    if i >= |ms| then (ms, r)
    else
      var r' := NextRandom(r);
      ShuffleFrom(Swap(ms, i, r' % (i + 1)), r', i + 1)
  }

  /** An exchange keeps the same moves, each as often. */
  lemma SwapPermutes(ms: seq<Move>, i: int, j: int)
    requires 0 <= i < |ms| && 0 <= j < |ms|
    ensures multiset(Swap(ms, i, j)) == multiset(ms)
  {
    var m := ms[i := ms[j]];
    assert multiset(m) == multiset(ms) - multiset{ms[i]} + multiset{ms[j]};
    assert multiset(m[j := ms[i]]) == multiset(m) - multiset{m[j]} + multiset{ms[i]};
  }

  /** The shuffle only reorders: the result holds the same moves, each as
   *  often as before. */
  lemma {:induction false} ShufflePermutes(ms: seq<Move>, r: RandState, i: nat)
    ensures multiset(ShuffleFrom(ms, r, i).0) == multiset(ms)
    decreases |ms| - i
  {
    if i < |ms| {
      var r' := NextRandom(r);
      SwapPermutes(ms, i, r' % (i + 1));
      ShufflePermutes(Swap(ms, i, r' % (i + 1)), r', i + 1);
    }
  }

  // ---------------------------------------------------------------------
  // The search arenas

  /** The capture `prev` is continued by m: m starts where prev landed and is
   *  one of the captures of that piece on b. */
  predicate Continues(b: Matrix, prev: Move, m: Move)
    requires ValidMatrix(b)
  {
    && InBoard(prev.x2, prev.y2) && m.x == prev.x2 && m.y == prev.y2
    && m in CellTurns(b, prev.x2, prev.y2).moves && CellTurns(b, prev.x2, prev.y2).beats
  }

  /** The arenas `next_move` (nm) and `next_best_state` (nbs), with the
   *  board each state was searched on: one entry per state, and a state
   *  with a successor recorded a capture leading to a later state, whose
   *  own recorded move (if any) continues that capture. */
  ghost predicate Arena(nm: seq<Move>, nbs: seq<int>, boards: seq<Matrix>)
  {
    && |nm| == |nbs| == |boards|
    && (forall s :: 0 <= s < |boards| ==> ValidMatrix(boards[s]))
    && forall s :: 0 <= s < |nbs| && nbs[s] != -1 ==>
      && s < nbs[s] < |nbs|
      && CaptureShape(boards[s], nm[s])
      && boards[nbs[s]] == MakeTurn(boards[s], nm[s])
      && (nm[nbs[s]] == NoMove || Continues(boards[nbs[s]], nm[s], nm[nbs[s]]))
  }

  /** A new state pushed by `find_first_best_turn`: no move and no
   *  successor recorded yet. */
  lemma ArenaGrow(nm: seq<Move>, nbs: seq<int>, boards: seq<Matrix>, b: Matrix)
    requires Arena(nm, nbs, boards) && ValidMatrix(b)
    ensures Arena(nm + [NoMove], nbs + [-1], boards + [b])
  {
  }

  /** Recording at state p the move m and the successor q (-1 for none).
   *  No earlier state points at p or beyond, so their links are kept. */
  lemma ArenaSet(nm: seq<Move>, nbs: seq<int>, boards: seq<Matrix>, p: int, m: Move, q: int)
    requires Arena(nm, nbs, boards) && 0 <= p < |nm|
    requires forall s :: 0 <= s < p ==> nbs[s] < p
    requires q == -1 || (p < q < |nbs| && CaptureShape(boards[p], m) && boards[q] == MakeTurn(boards[p], m)
                         && (nm[q] == NoMove || Continues(boards[q], m, nm[q])))
    ensures Arena(nm[p := m], nbs[p := q], boards)
  {
  }

  /** Arenas whose first entries are those of the arenas before them keep
   *  every entry up to and including `state`. */
  lemma ArenaExtends(nm0: seq<Move>, nbs0: seq<int>, boards0: seq<Matrix>,
                     nm: seq<Move>, nbs: seq<int>, boards: seq<Matrix>, state: int)
    requires 0 <= state < |nm0| == |nbs0| == |boards0| <= |nm|
    requires nm[..|nm0|] == nm0 && |nbs0| <= |nbs| && nbs[..|nbs0|] == nbs0 && |boards0| <= |boards| && boards[..|boards0|] == boards0
    ensures nm[state] == nm0[state] && nbs[state] == nbs0[state] && boards[state] == boards0[state]
    ensures nm[..state] == nm0[..state] && nbs[..state] == nbs0[..state] && boards[..state] == boards0[..state]
    ensures forall s :: 0 <= s < state ==> nbs[s] == nbs0[s]
  {
    assert forall s :: 0 <= s < state ==> nbs[s] == nbs[..|nbs0|][s];
  }

  /** The arenas while the moves of `state` are tried: the entries before
   *  `state` are those of nm0, nbs0 and boards0, none of them points at
   *  `state` or beyond, and `state` was searched on mtx. */
  ghost predicate Pending(nm: seq<Move>, nbs: seq<int>, boards: seq<Matrix>, state: int, mtx: Matrix,
                          nm0: seq<Move>, nbs0: seq<int>, boards0: seq<Matrix>)
  {
    && Arena(nm, nbs, boards) && 0 <= state < |nm| && boards[state] == mtx
    && state <= |nm0| && state <= |nbs0| && state <= |boards0|
    && nm[..state] == nm0[..state] && nbs[..state] == nbs0[..state] && boards[..state] == boards0[..state]
    && forall s :: 0 <= s < state ==> nbs[s] < state
  }

  /** Arenas that extend pending ones (as the search of a capture leaves
   *  them) are pending, with the same entry at `state`. */
  lemma PendingExtends(nm1: seq<Move>, nbs1: seq<int>, boards1: seq<Matrix>,
                       nm: seq<Move>, nbs: seq<int>, boards: seq<Matrix>, state: int, mtx: Matrix,
                       nm0: seq<Move>, nbs0: seq<int>, boards0: seq<Matrix>)
    requires Pending(nm1, nbs1, boards1, state, mtx, nm0, nbs0, boards0) && Arena(nm, nbs, boards)
    requires |nm1| <= |nm| && nm[..|nm1|] == nm1 && nbs[..|nm1|] == nbs1 && boards[..|nm1|] == boards1
    ensures Pending(nm, nbs, boards, state, mtx, nm0, nbs0, boards0) && nm[state] == nm1[state]
  {
    ArenaExtends(nm1, nbs1, boards1, nm, nbs, boards, state);
  }

  /** Recording a move and a successor at `state` keeps the arenas pending. */
  lemma PendingSet(nm: seq<Move>, nbs: seq<int>, boards: seq<Matrix>, state: int, mtx: Matrix,
                   nm0: seq<Move>, nbs0: seq<int>, boards0: seq<Matrix>, m: Move, q: int)
    requires Pending(nm, nbs, boards, state, mtx, nm0, nbs0, boards0)
    requires q == -1 || (state < q < |nbs| && CaptureShape(boards[state], m) && boards[q] == MakeTurn(boards[state], m)
                         && (nm[q] == NoMove || Continues(boards[q], m, nm[q])))
    ensures Pending(nm[state := m], nbs[state := q], boards, state, mtx, nm0, nbs0, boards0)
  {
    ArenaSet(nm, nbs, boards, state, m, q);
    assert nm[state := m][..state] == nm[..state];
    assert nbs[state := q][..state] == nbs[..state];
  }

  /** A non-empty list is its front followed by its last entry. */
  lemma SplitLast(ms: seq<Move>)
    requires ms != []
    ensures ms == ms[..|ms| - 1] + [ms[|ms| - 1]]
  {
  }

  /** The state cur recorded as the successor of prev extends the chain
   *  res, whose last move is the one recorded at prev. */
  lemma ChainLink(mtx: Matrix, res: seq<Move>, nm: seq<Move>, nbs: seq<int>, boards: seq<Matrix>, prev: int, cur: int)
    requires ValidMatrix(mtx) && Arena(nm, nbs, boards)
    requires 0 <= prev < |nm| && cur == nbs[prev] != -1 && nm[cur].x != -1
    requires res != [] && res[|res| - 1] == nm[prev]
    requires AllPlaced(res[..|res| - 1]) && boards[prev] == Replay(mtx, res[..|res| - 1])
    requires CaptureChain(mtx, res)
    ensures prev < cur < |nm| && AllPlaced(res) && boards[cur] == Replay(mtx, res)
    ensures CaptureChain(mtx, res + [nm[cur]]) && (res + [nm[cur]])[..|res|] == res
  {
    var pre := res[..|res| - 1];
    SplitLast(res);
    assert CaptureShape(boards[prev], nm[prev]) && boards[cur] == MakeTurn(boards[prev], nm[prev]);
    assert AllPlaced(res) by {
      forall m | m in res ensures WellPlaced(m) {
        if m != nm[prev] {
          assert m in pre;
        }
      }
    }
    assert Replay(mtx, res) == MakeTurn(Replay(mtx, pre), nm[prev]);
    assert Continues(boards[cur], nm[prev], nm[cur]);
    ChainSnoc(mtx, res, nm[cur]);
  }

  /** Every move of the list is a capture exactly when the list is one of
   *  captures, as the generators produce it. */
  predicate OfKind(ms: seq<Move>, beats: bool)
  {
    forall m :: m in ms ==> (m.xb != -1 <==> beats)
  }

  /** Every successor recorded in `next_best_state` is a later state. */
  predicate LinksForward(nm: seq<Move>, nbs: seq<int>)
  {
    |nm| == |nbs| && forall s :: 0 <= s < |nbs| ==> nbs[s] == -1 || s < nbs[s] < |nbs|
  }

  /** The walk of the do-while of `find_best_turns` from state cur: the move
   *  recorded at cur, then the walk from its successor, which stops at -1
   *  and at a state that recorded no move. */
  function ChainOf(nm: seq<Move>, nbs: seq<int>, cur: int): (r: seq<Move>)
    requires LinksForward(nm, nbs) && 0 <= cur < |nm|
    ensures r != [] && r[0] == nm[cur]
    decreases |nm| - cur, 0
  {
    [nm[cur]] + ChainFrom(nm, nbs, nbs[cur])
  }

  /** The rest of the walk once `cur_state` has become next. */
  function ChainFrom(nm: seq<Move>, nbs: seq<int>, next: int): seq<Move>
    requires LinksForward(nm, nbs) && (next == -1 || 0 <= next < |nm|)
    decreases if next == -1 then 0 else |nm| - next, 1
  {
    if next == -1 || nm[next].x == -1 then [] else ChainOf(nm, nbs, next)
  }

  /** One pass of the do-while: the move at cur joins the moves taken. */
  lemma ChainStep(nm: seq<Move>, nbs: seq<int>, res: seq<Move>, cur: int)
    requires LinksForward(nm, nbs) && 0 <= cur < |nm| && nm[cur].x != -1
    ensures res + ChainFrom(nm, nbs, cur) == (res + [nm[cur]]) + ChainFrom(nm, nbs, nbs[cur])
  {
  }

  /** The links of state q when no cut-off is taken: a recorded capture has
   *  a successor, and the successor records a move whenever the capturing
   *  piece can capture again on the successor's board. */
  ghost predicate LinkedAt(nm: seq<Move>, nbs: seq<int>, boards: seq<Matrix>, q: int)
    requires Arena(nm, nbs, boards) && 0 <= q < |nm|
  {
    && (nm[q] != NoMove && nm[q].xb != -1 ==> nbs[q] != -1)
    && (nbs[q] != -1 && CellTurns(boards[nbs[q]], nm[q].x2, nm[q].y2).beats ==> nm[nbs[q]] != NoMove)
  }

  /** The move recorded at a continuation state q is a capture of best turn
   *  value among the captures of its piece. */
  ghost predicate ValuedAt(s: Setup, color: Side, nm: seq<Move>, nbs: seq<int>, boards: seq<Matrix>, q: int)
    requires Arena(nm, nbs, boards) && 0 <= q < |nm|
  {
    q != 0 && nm[q] != NoMove ==> InBoard(nm[q].x, nm[q].y) && BestCapture(s, boards[q], color, nm[q])
  }

  /** The states from lo on are finished: linked and valued. */
  ghost predicate Settled(s: Setup, color: Side, nm: seq<Move>, nbs: seq<int>, boards: seq<Matrix>, lo: int)
    requires Arena(nm, nbs, boards) && 0 <= lo
  {
    forall q :: lo <= q < |nm| ==> LinkedAt(nm, nbs, boards, q) && ValuedAt(s, color, nm, nbs, boards, q)
  }

  /** While the moves of `state` are tried: the state is linked and the
   *  states after it are finished. */
  ghost predicate Searched(s: Setup, color: Side, nm: seq<Move>, nbs: seq<int>, boards: seq<Matrix>, state: int)
    requires Arena(nm, nbs, boards) && 0 <= state < |nm|
  {
    LinkedAt(nm, nbs, boards, state) && Settled(s, color, nm, nbs, boards, state + 1)
  }

  /** The states the search of a capture appends are finished, and the
   *  entries before them are unchanged. */
  lemma SearchedExtends(s: Setup, color: Side, nm1: seq<Move>, nbs1: seq<int>, boards1: seq<Matrix>,
                    nm: seq<Move>, nbs: seq<int>, boards: seq<Matrix>, state: int)
    requires Arena(nm1, nbs1, boards1) && Arena(nm, nbs, boards) && 0 <= state < |nm1| <= |nm|
    requires nm[..|nm1|] == nm1 && nbs[..|nm1|] == nbs1 && boards[..|nm1|] == boards1
    requires Searched(s, color, nm1, nbs1, boards1, state) && Settled(s, color, nm, nbs, boards, |nm1|)
    ensures Searched(s, color, nm, nbs, boards, state)
  {
    forall q | state <= q < |nm1|
      ensures nm[q] == nm1[q] && nbs[q] == nbs1[q] && boards[q] == boards1[q]
    {
      assert nm[..|nm1|][q] == nm[q] && nbs[..|nm1|][q] == nbs[q] && boards[..|nm1|][q] == boards[q];
    }
    forall q | state <= q < |nm1|
      ensures LinkedAt(nm, nbs, boards, q) && (q > state ==> ValuedAt(s, color, nm, nbs, boards, q))
    {
      assert LinkedAt(nm1, nbs1, boards1, q);
      if nbs1[q] != -1 {
        assert nm[..|nm1|][nbs1[q]] == nm[nbs1[q]] && boards[..|nm1|][nbs1[q]] == boards[nbs1[q]];
      }
      if q > state {
        assert ValuedAt(s, color, nm1, nbs1, boards1, q);
      }
    }
  }

  /** Recording at `state` a move m with successor q keeps the state linked
   *  when m has a successor if it is a capture, and the successor records
   *  a move if the piece can capture again. */
  lemma SearchedSet(s: Setup, color: Side, nm: seq<Move>, nbs: seq<int>, boards: seq<Matrix>, state: int, m: Move, q: int)
    requires Arena(nm, nbs, boards) && 0 <= state < |nm| && Searched(s, color, nm, nbs, boards, state)
    requires forall p :: 0 <= p < state ==> nbs[p] < state
    requires q == -1 || (state < q < |nbs| && CaptureShape(boards[state], m) && boards[q] == MakeTurn(boards[state], m)
                         && (nm[q] == NoMove || Continues(boards[q], m, nm[q])))
    requires m != NoMove && m.xb != -1 ==> q != -1
    requires q != -1 && CellTurns(boards[q], m.x2, m.y2).beats ==> nm[q] != NoMove
    ensures Arena(nm[state := m], nbs[state := q], boards)
    ensures Searched(s, color, nm[state := m], nbs[state := q], boards, state)
  {
    ArenaSet(nm, nbs, boards, state, m, q);
    var nm', nbs' := nm[state := m], nbs[state := q];
    forall p | state < p < |nm|
      ensures LinkedAt(nm', nbs', boards, p) && ValuedAt(s, color, nm', nbs', boards, p)
    {
      assert LinkedAt(nm, nbs, boards, p) && ValuedAt(s, color, nm, nbs, boards, p);
    }
  }

  /** A state just pushed, with no move recorded and no successor, is
   *  finished. */
  lemma SearchedFresh(s: Setup, color: Side, nm: seq<Move>, nbs: seq<int>, boards: seq<Matrix>, state: int)
    requires Arena(nm, nbs, boards) && 0 <= state == |nm| - 1 && nm[state] == NoMove && nbs[state] == -1
    ensures Searched(s, color, nm, nbs, boards, state) && Settled(s, color, nm, nbs, boards, state)
  {
    assert LinkedAt(nm, nbs, boards, state) && ValuedAt(s, color, nm, nbs, boards, state);
  }

  /** A continuation state that is linked, valued and followed by finished
   *  states is finished. */
  lemma SearchedSettles(s: Setup, color: Side, nm: seq<Move>, nbs: seq<int>, boards: seq<Matrix>, state: int)
    requires Arena(nm, nbs, boards) && 0 <= state < |nm|
    requires Searched(s, color, nm, nbs, boards, state) && ValuedAt(s, color, nm, nbs, boards, state)
    ensures Settled(s, color, nm, nbs, boards, state)
  {
  }

  /** Where the do-while stops, the turn is complete: a last capture has a
   *  successor, and the successor recorded no move only when the piece
   *  cannot capture again. */
  lemma ChainEnd(mtx: Matrix, res: seq<Move>, nm: seq<Move>, nbs: seq<int>, boards: seq<Matrix>, prev: int)
    requires ValidMatrix(mtx) && Arena(nm, nbs, boards) && 0 <= prev < |nm| && LinkedAt(nm, nbs, boards, prev)
    requires res != [] && res[|res| - 1] == nm[prev]
    requires AllPlaced(res[..|res| - 1]) && boards[prev] == Replay(mtx, res[..|res| - 1])
    requires nbs[prev] == -1 || nm[nbs[prev]].x == -1
    ensures Complete(mtx, res)
  {
    var last := res[|res| - 1];
    if last.xb != -1 {
      var cur := nbs[prev];
      assert cur != -1;
      assert nm[cur] == NoMove;
      SplitLast(res);
      assert AllPlaced(res) by {
        forall m | m in res ensures WellPlaced(m) {
          if m != last {
            assert m in res[..|res| - 1];
          }
        }
      }
      assert Replay(mtx, res) == MakeTurn(Replay(mtx, res[..|res| - 1]), last);
    }
  }

  /** The do-while of `find_best_turns` after it has taken res, the last
   *  move from state prev: res is the start of the walk from state 0, a
   *  chain of captures played from mtx, and (when best is asked for) every
   *  capture after the first is a best one. */
  ghost predicate Walked(s: Setup, color: Side, mtx: Matrix, nm: seq<Move>, nbs: seq<int>, boards: seq<Matrix>,
                         res: seq<Move>, prev: int, best: bool)
    requires ValidMatrix(mtx) && Arena(nm, nbs, boards)
  {
    && 0 <= prev < |nm| && res != [] && res[|res| - 1] == nm[prev]
    && AllPlaced(res[..|res| - 1]) && boards[prev] == Replay(mtx, res[..|res| - 1])
    && CaptureChain(mtx, res)
    && ChainOf(nm, nbs, 0) == res + ChainFrom(nm, nbs, nbs[prev])
    && (best ==> BestContinuations(s, mtx, color, res))
  }

  /** The first pass of the do-while takes the move of state 0. */
  lemma WalkedStart(s: Setup, color: Side, mtx: Matrix, nm: seq<Move>, nbs: seq<int>, boards: seq<Matrix>, best: bool)
    requires ValidMatrix(mtx) && Arena(nm, nbs, boards) && |nm| > 0 && boards[0] == mtx
    ensures Walked(s, color, mtx, nm, nbs, boards, [nm[0]], 0, best)
  {
    assert [nm[0]][..0] == [];
  }

  /** A further pass takes the move of the successor state cur. */
  lemma WalkedStep(s: Setup, color: Side, mtx: Matrix, nm: seq<Move>, nbs: seq<int>, boards: seq<Matrix>,
                   res: seq<Move>, prev: int, best: bool)
    requires ValidMatrix(mtx) && Arena(nm, nbs, boards) && Walked(s, color, mtx, nm, nbs, boards, res, prev, best)
    requires nbs[prev] != -1 && nm[nbs[prev]].x != -1
    requires best ==> Settled(s, color, nm, nbs, boards, 1)
    ensures Walked(s, color, mtx, nm, nbs, boards, res + [nm[nbs[prev]]], nbs[prev], best)
  {
    var cur := nbs[prev];
    ChainLink(mtx, res, nm, nbs, boards, prev, cur);
    ChainStep(nm, nbs, res, cur);
    if best {
      assert ValuedAt(s, color, nm, nbs, boards, cur);
      BestSnoc(s, mtx, color, res, nm[cur]);
    }
  }

  /** Where the do-while stops, res is the whole walk, and without cut-offs
   *  the turn it makes is complete. */
  lemma WalkedEnd(s: Setup, color: Side, mtx: Matrix, nm: seq<Move>, nbs: seq<int>, boards: seq<Matrix>,
                  res: seq<Move>, prev: int, best: bool)
    requires ValidMatrix(mtx) && Arena(nm, nbs, boards) && Walked(s, color, mtx, nm, nbs, boards, res, prev, best)
    requires nbs[prev] == -1 || nm[nbs[prev]].x == -1
    requires best ==> Searched(s, color, nm, nbs, boards, 0)
    ensures res == ChainOf(nm, nbs, 0)
    ensures best ==> Complete(mtx, res)
  {
    assert ChainFrom(nm, nbs, nbs[prev]) == [];
    assert res + [] == res;
    if best {
      assert LinkedAt(nm, nbs, boards, prev) by {
        if prev != 0 {
          assert Settled(s, color, nm, nbs, boards, 1);
        }
      }
      ChainEnd(mtx, res, nm, nbs, boards, prev);
    }
  }

  class Logic {
    /** The board the bot plays on. */
    const board: Board
    /** The scoring setting `BotScoringType`. */
    const mode: ScoringMode
    /** The optimisation setting is not "O0": cut-offs are taken. */
    const pruning: bool
    /** `Max_depth`, set by the game before each bot turn. */
    var maxDepth: nat
    /** `rand_eng` */
    var rng: RandState
    /** `turns` and `have_beats`: the result of the last `find_turns`. */
    var turns: seq<Move>
    var haveBeats: bool
    /** The arenas `next_move` and `next_best_state`. */
    var nextMove: seq<Move>
    var nextBestState: seq<int>
    /** The board each arena state was searched on. */
    ghost var boards: seq<Matrix>

    /** `Logic(board, config)`: the engine is seeded with the clock, or with
     *  0 when the setting `NoRandom` is on. */
    constructor(board: Board, noRandom: bool, clock: nat, mode: ScoringMode, pruning: bool, maxDepth: nat)
      ensures this.board == board && this.mode == mode && this.pruning == pruning && this.maxDepth == maxDepth
      ensures rng == Seeded(if noRandom then 0 else clock % 0x1_0000_0000)
      ensures turns == [] && !haveBeats && nextMove == [] && nextBestState == [] && boards == []
    {
      this.board := board;
      this.mode := mode;
      this.pruning := pruning;
      this.maxDepth := maxDepth;
      rng := Seeded(if noRandom then 0 else clock % 0x1_0000_0000);
      turns := [];
      haveBeats := false;
      nextMove := [];
      nextBestState := [];
      boards := [];
    }

    /** `shuffle(turns.begin(), turns.end(), rand_eng)` */
    method Shuffle()
      modifies this`turns, this`rng
      ensures (turns, rng) == ShuffleFrom(old(turns), old(rng), 1)
      ensures multiset(turns) == multiset(old(turns))
    {
      ShufflePermutes(turns, rng, 1);
      var i := 1;
      while i < |turns|
        invariant 1 <= i
        invariant ShuffleFrom(turns, rng, i) == ShuffleFrom(old(turns), old(rng), 1)
        decreases |turns| - i
      {
        rng := NextRandom(rng);
        var j := rng % (i + 1);
        turns := turns[i := turns[j]][j := turns[i]];
        i := i + 1;
      }
    }

    /** `find_turns(x, y, mtx)`: the moves of the piece on (x, y), its
     *  captures if it has any, its plain moves otherwise. */
    method FindTurnsCell(x: int, y: int, mtx: Matrix)
      requires ValidMatrix(mtx) && InBoard(x, y)
      modifies this`turns, this`haveBeats
      ensures Turns(turns, haveBeats) == CellTurns(mtx, x, y)
    {
      turns := [];
      haveBeats := false;
      var kind := mtx[x][y];
      if kind == 1 || kind == 2 {
        turns := ManJumps(mtx, x, y);
      } else {
        turns := KingJumps(mtx, x, y);
      }
      if turns != [] {
        haveBeats := true;
        return;
      }
      if kind == 1 || kind == 2 {
        turns := ManMoves(mtx, x, y);
      } else {
        turns := KingMoves(mtx, x, y);
      }
    }

    /** `find_turns(color, mtx)`: the moves of the whole side, captures only
     *  when any piece can capture, in the shuffled order. */
    method FindTurnsSide(color: Side, mtx: Matrix)
      requires ValidMatrix(mtx)
      modifies this`turns, this`haveBeats, this`rng
      ensures haveBeats == SideTurns(mtx, color).beats
      ensures (turns, rng) == ShuffleFrom(SideTurns(mtx, color).moves, old(rng), 1)
      ensures multiset(turns) == multiset(SideTurns(mtx, color).moves)
    {
      var res: seq<Move> := [];
      var before := false;
      var i := 0;
      while i < 8
        invariant 0 <= i <= 8 && rng == old(rng)
        invariant Turns(res, before) == SideScan(mtx, color, CellTable(mtx), 8 * i)
      {
        var j := 0;
        while j < 8
          invariant 0 <= j <= 8 && rng == old(rng)
          invariant Turns(res, before) == SideScan(mtx, color, CellTable(mtx), 8 * i + j)
        {
          ScanStep(mtx, color, i, j);
          if mtx[i][j] != 0 && mtx[i][j] % 2 != color {
            FindTurnsCell(i, j, mtx);
            if haveBeats && !before {
              before := true;
              res := [];
            }
            if (before && haveBeats) || !before {
              res := res + turns;
            }
          }
          j := j + 1;
        }
        i := i + 1;
      }
      turns := res;
      Shuffle();
      haveBeats := before;
    }

    /** `find_turns(color)`: the side's moves on the current board. */
    method FindTurns(color: Side)
      requires board.Valid()
      modifies this`turns, this`haveBeats, this`rng
      ensures haveBeats == SideTurns(board.mtx, color).beats
      ensures (turns, rng) == ShuffleFrom(SideTurns(board.mtx, color).moves, old(rng), 1)
      ensures multiset(turns) == multiset(SideTurns(board.mtx, color).moves)
    {
      var mtx := board.GetBoard();
      FindTurnsSide(color, mtx);
    }

    /** `find_turns(x, y)`: the moves of the piece on (x, y) of the current board. */
    method FindTurnsAt(x: int, y: int)
      requires board.Valid() && InBoard(x, y)
      modifies this`turns, this`haveBeats
      ensures Turns(turns, haveBeats) == CellTurns(board.mtx, x, y)
    {
      var mtx := board.GetBoard();
      FindTurnsCell(x, y, mtx);
    }

    /** `find_best_turns_rec`: the value of the node at `depth` where `color`
     *  is to move (continuing the capture of the piece on (x, y) when x is
     *  not -1), searched with the window [alpha, beta]. Without cut-offs it
     *  is the minimax value of the node. */
    method FindBestTurnsRec(mtx: Matrix, color: Side, depth: nat, alpha: real, beta: real, x: int, y: int) returns (score: real)
      requires ValidMatrix(mtx) && depth <= maxDepth && (x == -1 || InBoard(x, y))
      modifies this`turns, this`haveBeats, this`rng
      ensures !pruning ==> score == Value(Setup(maxDepth, mode), mtx, color, depth, x, y)
      decreases maxDepth - depth, Pieces(mtx), 2
    {
      if depth == maxDepth {
        ValueLeaf(Setup(maxDepth, mode), mtx, color, depth, x, y);
        score := CalcScore(mtx, depth % 2 == color);
        return;
      }
      if x != -1 {
        FindTurnsCell(x, y, mtx);
      } else {
        FindTurnsSide(color, mtx);
      }
      var turnsNow := turns;
      var haveBeatsNow := haveBeats;
      ghost var s, t := Setup(maxDepth, mode), TurnsAt(mtx, color, x, y);
      assert haveBeatsNow == t.beats && multiset(turnsNow) == multiset(t.moves);
      if !haveBeatsNow && x != -1 {
        score := HandOver(mtx, color, depth, alpha, beta, x, y);
        return;
      }
      if turns == [] {
        assert |t.moves| == |multiset(turnsNow)| == 0;
        ValueNoMoves(s, mtx, color, depth, x, y);
        score := if depth % 2 == 1 then 0.0 else INF;
        return;
      }
      ValueNode(s, mtx, color, depth, x, y, turnsNow);
      score := SearchTurns(mtx, color, depth, alpha, beta, x, turnsNow, haveBeatsNow);
    }

    /** The end of a capture chain whose piece has no further capture: the
     *  turn passes to the other side one level deeper. */
    method HandOver(mtx: Matrix, color: Side, depth: nat, alpha: real, beta: real, x: int, y: int) returns (score: real)
      requires ValidMatrix(mtx) && depth < maxDepth && InBoard(x, y) && !CellTurns(mtx, x, y).beats
      modifies this`turns, this`haveBeats, this`rng
      ensures !pruning ==> score == Value(Setup(maxDepth, mode), mtx, color, depth, x, y)
      decreases maxDepth - depth, Pieces(mtx), 1
    {
      ghost var s := Setup(maxDepth, mode);
      ValueHandOver(s, mtx, color, depth, x, y);
      ghost var v := Value(s, mtx, 1 - color, depth + 1, -1, -1);
      score := FindBestTurnsRec(mtx, 1 - color, depth + 1, alpha, beta, -1, -1);
      assert !pruning ==> score == v;
    }

    /** The loop of `find_best_turns_rec` over the moves of the node: the
     *  running minimum and maximum of the child values, the window update
     *  and the cut-off. Without cut-offs it returns the largest child value
     *  at odd depths and the smallest at even ones. */
    method SearchTurns(mtx: Matrix, color: Side, depth: nat, alpha: real, beta: real, x: int,
                       turnsNow: seq<Move>, haveBeatsNow: bool) returns (score: real)
      requires ValidMatrix(mtx) && depth < maxDepth && Playable(mtx, turnsNow, haveBeatsNow)
      requires haveBeatsNow || x == -1
      modifies this`turns, this`haveBeats, this`rng
      ensures !pruning ==> score == Pick(depth, ChildValues(Setup(maxDepth, mode), mtx, color, depth, turnsNow, haveBeatsNow))
      decreases maxDepth - depth, Pieces(mtx), 1
    {
      ghost var s := Setup(maxDepth, mode);
      var minScore, maxScore := INF + 1.0, -1.0;
      var alpha', beta' := alpha, beta;
      var k := 0;
      while k < |turnsNow|
        invariant 0 <= k <= |turnsNow| && Playable(mtx, turnsNow[..k], haveBeatsNow)
        invariant !pruning ==> minScore == Low(ChildValues(s, mtx, color, depth, turnsNow[..k], haveBeatsNow))
        invariant !pruning ==> maxScore == High(ChildValues(s, mtx, color, depth, turnsNow[..k], haveBeatsNow))
      {
        ChildStep(s, mtx, color, depth, turnsNow, k, haveBeatsNow);
        ghost var v := ChildValue(s, mtx, color, depth, turnsNow[k], haveBeatsNow);
        var score' := SearchChild(mtx, color, depth, alpha', beta', x, turnsNow[k], haveBeatsNow);
        assert !pruning ==> score' == v;
        minScore := Min(minScore, score');
        maxScore := Max(maxScore, score');
        assert !pruning ==> minScore == Low(ChildValues(s, mtx, color, depth, turnsNow[..k + 1], haveBeatsNow));
        assert !pruning ==> maxScore == High(ChildValues(s, mtx, color, depth, turnsNow[..k + 1], haveBeatsNow));
        if depth % 2 == 1 {
          alpha' := Max(alpha', maxScore);
        } else {
          beta' := Min(beta', minScore);
        }
        if pruning && alpha' >= beta' {
          score := if depth % 2 == 1 then maxScore + 1.0 else minScore - 1.0;
          return;
        }
        k := k + 1;
      }
      assert turnsNow[..k] == turnsNow;
      score := if depth % 2 == 1 then maxScore else minScore;
    }

    /** The value of the node reached by one move of the loop: a plain move
     *  passes the turn one level deeper, a capture continues from its
     *  landing cell. */
    method SearchChild(mtx: Matrix, color: Side, depth: nat, alpha: real, beta: real, x: int,
                       turn: Move, haveBeatsNow: bool) returns (score: real)
      requires ValidMatrix(mtx) && depth < maxDepth && WellPlaced(turn) && (haveBeatsNow ==> CaptureShape(mtx, turn))
      requires haveBeatsNow || x == -1
      modifies this`turns, this`haveBeats, this`rng
      ensures !pruning ==> score == ChildValue(Setup(maxDepth, mode), mtx, color, depth, turn, haveBeatsNow)
      decreases maxDepth - depth, Pieces(mtx), 0
    {
      if !haveBeatsNow && x == -1 {
        score := FindBestTurnsRec(MakeTurn(mtx, turn), 1 - color, depth + 1, alpha, beta, -1, -1);
      } else {
        CaptureRemovesOne(mtx, turn);
        score := FindBestTurnsRec(MakeTurn(mtx, turn), color, depth, alpha, beta, turn.x2, turn.y2);
      }
    }

    /** `find_first_best_turn`: pushes state `state` onto the arenas and
     *  returns the best value of the turn. At state 0 the moves are those
     *  `turns` holds; at a later state the turn continues the capture of the
     *  piece on (x, y), and ends (the opponent's reply is searched) when
     *  that piece has no further capture. The move recorded at the state
     *  is a move of the node that attains the returned value. */
    method FindFirstBestTurn(mtx: Matrix, color: Side, x: int, y: int, state: int, alpha: real) returns (best: real)
      requires ValidMatrix(mtx) && Arena(nextMove, nextBestState, boards) && state == |nextMove|
      requires state == 0 ==> Playable(mtx, turns, haveBeats) && OfKind(turns, haveBeats)
      requires state != 0 ==> InBoard(x, y)
      modifies this`turns, this`haveBeats, this`rng, this`nextMove, this`nextBestState, this`boards
      ensures Arena(nextMove, nextBestState, boards) && state < |nextMove| && boards[state] == mtx
      ensures nextMove[..state] == old(nextMove) && nextBestState[..state] == old(nextBestState) && boards[..state] == old(boards)
      ensures state == 0 ==> nextMove[state] == NoMove || nextMove[state] in old(turns)
      ensures state != 0 ==> (nextMove[state] == NoMove ||
        (&& nextMove[state].x == x && nextMove[state].y == y && nextMove[state] in CellTurns(mtx, x, y).moves
         && CellTurns(mtx, x, y).beats && CaptureShape(mtx, nextMove[state])))
      ensures !pruning && state == 0 ==> best == BestOf(Setup(maxDepth, mode), mtx, color, old(turns), old(haveBeats))
      ensures !pruning && state == 0 && nextMove[state] != NoMove ==>
        TurnValue(Setup(maxDepth, mode), mtx, color, nextMove[state], old(haveBeats)) == best
      ensures !pruning && state == 0 && old(turns) != [] ==> nextMove[state] != NoMove
      ensures !pruning && state != 0 ==> best == FirstValue(Setup(maxDepth, mode), mtx, color, x, y)
      ensures !pruning && state != 0 && nextMove[state] != NoMove ==>
        TurnValue(Setup(maxDepth, mode), mtx, color, nextMove[state], true) == best
      ensures !pruning && state != 0 && CellTurns(mtx, x, y).beats ==> nextMove[state] != NoMove
      ensures !pruning ==> Searched(Setup(maxDepth, mode), color, nextMove, nextBestState, boards, state)
      ensures !pruning && state != 0 ==> Settled(Setup(maxDepth, mode), color, nextMove, nextBestState, boards, state)
      decreases Pieces(mtx), 4
    {
      ArenaGrow(nextMove, nextBestState, boards, mtx);
      nextBestState := nextBestState + [-1];
      nextMove := nextMove + [NoMove];
      boards := boards + [mtx];
      if state != 0 {
        best := FirstCell(mtx, color, x, y, state, alpha);
      } else {
        best := FirstTurns(mtx, color, state, turns, haveBeats);
      }
    }

    /** `find_first_best_turn` at a later state, once the state is pushed:
     *  the captures of the piece on (x, y) are searched, and when it has
     *  none the opponent's reply is. */
    method FirstCell(mtx: Matrix, color: Side, x: int, y: int, state: int, alpha: real) returns (best: real)
      requires ValidMatrix(mtx) && InBoard(x, y)
      requires Arena(nextMove, nextBestState, boards) && 0 < state == |nextMove| - 1 && boards[state] == mtx
      requires nextMove[state] == NoMove && nextBestState[state] == -1
      requires forall s :: 0 <= s < state ==> nextBestState[s] < state
      modifies this`turns, this`haveBeats, this`rng, this`nextMove, this`nextBestState, this`boards
      ensures Arena(nextMove, nextBestState, boards) && state < |nextMove| && boards[state] == mtx
      ensures nextMove[..state] == old(nextMove)[..state] && nextBestState[..state] == old(nextBestState)[..state]
      ensures boards[..state] == old(boards)[..state]
      ensures nextMove[state] == NoMove ||
        (&& nextMove[state].x == x && nextMove[state].y == y && nextMove[state] in CellTurns(mtx, x, y).moves
         && CellTurns(mtx, x, y).beats && CaptureShape(mtx, nextMove[state]))
      ensures !pruning ==> best == FirstValue(Setup(maxDepth, mode), mtx, color, x, y)
      ensures !pruning && nextMove[state] != NoMove ==> TurnValue(Setup(maxDepth, mode), mtx, color, nextMove[state], true) == best
      ensures !pruning && CellTurns(mtx, x, y).beats ==> nextMove[state] != NoMove
      ensures !pruning ==> Searched(Setup(maxDepth, mode), color, nextMove, nextBestState, boards, state)
      ensures !pruning ==> Settled(Setup(maxDepth, mode), color, nextMove, nextBestState, boards, state)
      decreases Pieces(mtx), 3
    {
      FindTurnsCell(x, y, mtx);
      CellMovesShape(mtx, x, y);
      var turnsNow := turns;
      var haveBeatsNow := haveBeats;
      if !haveBeatsNow {
        best := FirstHandOver(mtx, color, alpha);
        SearchedFresh(Setup(maxDepth, mode), color, nextMove, nextBestState, boards, state);
        return;
      }
      best := FirstTurns(mtx, color, state, turnsNow, haveBeatsNow);
      assert turnsNow == CellCaptures(mtx, x, y) != [];
      if !pruning {
        SearchedSettles(Setup(maxDepth, mode), color, nextMove, nextBestState, boards, state);
      }
    }

    /** The end of the bot's capture chain in `find_first_best_turn`: the
     *  value of the opponent's reply, searched from depth 0. */
    method FirstHandOver(mtx: Matrix, color: Side, alpha: real) returns (best: real)
      requires ValidMatrix(mtx)
      modifies this`turns, this`haveBeats, this`rng
      ensures !pruning ==> best == Value(Setup(maxDepth, mode), mtx, 1 - color, 0, -1, -1)
    {
      ghost var v := Value(Setup(maxDepth, mode), mtx, 1 - color, 0, -1, -1);
      best := FindBestTurnsRec(mtx, 1 - color, 0, alpha, INF + 1.0, -1, -1);
      assert !pruning ==> best == v;
    }

    /** The loop of `find_first_best_turn` over the moves of its state: each
     *  move's turn value is searched, and a move better than all before it
     *  is recorded at the state, with the state its capture continues in. */
    method FirstTurns(mtx: Matrix, color: Side, state: int, turnsNow: seq<Move>, haveBeatsNow: bool) returns (best: real)
      requires ValidMatrix(mtx) && Playable(mtx, turnsNow, haveBeatsNow)
      requires Arena(nextMove, nextBestState, boards) && 0 <= state == |nextMove| - 1 && boards[state] == mtx
      requires nextMove[state] == NoMove && nextBestState[state] == -1 && OfKind(turnsNow, haveBeatsNow)
      requires forall s :: 0 <= s < state ==> nextBestState[s] < state
      modifies this`turns, this`haveBeats, this`rng, this`nextMove, this`nextBestState, this`boards
      ensures Arena(nextMove, nextBestState, boards) && state < |nextMove| && boards[state] == mtx
      ensures nextMove[..state] == old(nextMove)[..state] && nextBestState[..state] == old(nextBestState)[..state]
      ensures boards[..state] == old(boards)[..state]
      ensures nextMove[state] == NoMove || nextMove[state] in turnsNow
      ensures !pruning ==> best == BestOf(Setup(maxDepth, mode), mtx, color, turnsNow, haveBeatsNow)
      ensures !pruning && nextMove[state] != NoMove ==>
        TurnValue(Setup(maxDepth, mode), mtx, color, nextMove[state], haveBeatsNow) == best
      ensures !pruning && turnsNow != [] ==> nextMove[state] != NoMove
      ensures !pruning ==> Searched(Setup(maxDepth, mode), color, nextMove, nextBestState, boards, state)
      decreases Pieces(mtx), 2
    {
      best := -1.0;
      var k := 0;
      while k < |turnsNow|
        invariant 0 <= k <= |turnsNow|
        invariant Pending(nextMove, nextBestState, boards, state, mtx, old(nextMove), old(nextBestState), old(boards))
        invariant Best(mtx, color, state, turnsNow, k, haveBeatsNow, best)
        invariant !pruning ==> Searched(Setup(maxDepth, mode), color, nextMove, nextBestState, boards, state)
      {
        best := FirstStep(mtx, color, state, turnsNow, k, haveBeatsNow, best, old(nextMove), old(nextBestState), old(boards));
        k := k + 1;
      }
      assert turnsNow[..k] == turnsNow;
    }

    /** After the first k moves of `state`: `best` is their best turn value
     *  and the move recorded at `state`, one of them, attains it. */
    ghost predicate Best(mtx: Matrix, color: Side, state: int, turnsNow: seq<Move>, k: int, haveBeatsNow: bool, best: real)
      reads this
    {
      && ValidMatrix(mtx) && Playable(mtx, turnsNow, haveBeatsNow)
      && 0 <= k <= |turnsNow| && Playable(mtx, turnsNow[..k], haveBeatsNow)
      && 0 <= state < |nextMove|
      && (nextMove[state] == NoMove || nextMove[state] in turnsNow)
      && (!pruning ==> best == High(TurnValues(Setup(maxDepth, mode), mtx, color, turnsNow[..k], haveBeatsNow)))
      && (!pruning && nextMove[state] != NoMove ==> TurnValue(Setup(maxDepth, mode), mtx, color, nextMove[state], haveBeatsNow) == best)
      && (!pruning && k > 0 ==> nextMove[state] != NoMove)
    }

    /** One pass of the loop of `find_first_best_turn`: move k is searched
     *  and recorded at `state` if it is better than every move before it. */
    method FirstStep(mtx: Matrix, color: Side, state: int, turnsNow: seq<Move>, k: int, haveBeatsNow: bool, best: real,
                     ghost nm0: seq<Move>, ghost nbs0: seq<int>, ghost boards0: seq<Matrix>) returns (best': real)
      requires ValidMatrix(mtx) && Playable(mtx, turnsNow, haveBeatsNow) && OfKind(turnsNow, haveBeatsNow) && 0 <= k < |turnsNow|
      requires Pending(nextMove, nextBestState, boards, state, mtx, nm0, nbs0, boards0) && Best(mtx, color, state, turnsNow, k, haveBeatsNow, best)
      requires !pruning ==> Searched(Setup(maxDepth, mode), color, nextMove, nextBestState, boards, state)
      modifies this`turns, this`haveBeats, this`rng, this`nextMove, this`nextBestState, this`boards
      ensures Pending(nextMove, nextBestState, boards, state, mtx, nm0, nbs0, boards0) && Best(mtx, color, state, turnsNow, k + 1, haveBeatsNow, best')
      ensures !pruning ==> Searched(Setup(maxDepth, mode), color, nextMove, nextBestState, boards, state)
      decreases Pieces(mtx), 1
    {
      ghost var s := Setup(maxDepth, mode);
      TurnStep(s, mtx, color, turnsNow, k, haveBeatsNow);
      var turn := turnsNow[k];
      var nextState := |nextMove|;
      ghost var v := TurnValue(s, mtx, color, turn, haveBeatsNow);
      ghost var nm1, nbs1, boards1 := nextMove, nextBestState, boards;
      var score := TryTurn(mtx, color, turn, haveBeatsNow, best);
      assert !pruning ==> score == v;
      PendingExtends(nm1, nbs1, boards1, nextMove, nextBestState, boards, state, mtx, nm0, nbs0, boards0);
      if !pruning {
        SearchedExtends(s, color, nm1, nbs1, boards1, nextMove, nextBestState, boards, state);
      }
      best' := best;
      if score > best {
        best' := score;
        var q := if haveBeatsNow then nextState else -1;
        PendingSet(nextMove, nextBestState, boards, state, mtx, nm0, nbs0, boards0, turn, q);
        if !pruning {
          SearchedSet(s, color, nextMove, nextBestState, boards, state, turn, q);
        }
        nextBestState := nextBestState[state := q];
        nextMove := nextMove[state := turn];
      }
    }

    /** The search of one move of `find_first_best_turn`: a capture goes on
     *  with the same piece in a new state pushed at the end of the arenas,
     *  and a plain move ends the turn and searches the opponent's reply. */
    method TryTurn(mtx: Matrix, color: Side, turn: Move, haveBeatsNow: bool, alpha: real) returns (score: real)
      requires ValidMatrix(mtx) && WellPlaced(turn) && (haveBeatsNow ==> CaptureShape(mtx, turn))
      requires Arena(nextMove, nextBestState, boards) && |nextMove| > 0
      modifies this`turns, this`haveBeats, this`rng, this`nextMove, this`nextBestState, this`boards
      ensures Arena(nextMove, nextBestState, boards) && |nextMove| >= old(|nextMove|)
      ensures nextMove[..old(|nextMove|)] == old(nextMove) && nextBestState[..old(|nextMove|)] == old(nextBestState)
      ensures boards[..old(|nextMove|)] == old(boards)
      ensures haveBeatsNow ==> && old(|nextMove|) < |nextMove|
                               && boards[old(|nextMove|)] == MakeTurn(mtx, turn)
                               && (nextMove[old(|nextMove|)] == NoMove || Continues(boards[old(|nextMove|)], turn, nextMove[old(|nextMove|)]))
      ensures !pruning ==> score == TurnValue(Setup(maxDepth, mode), mtx, color, turn, haveBeatsNow)
      ensures !pruning ==> Settled(Setup(maxDepth, mode), color, nextMove, nextBestState, boards, old(|nextMove|))
      ensures !pruning && haveBeatsNow && CellTurns(MakeTurn(mtx, turn), turn.x2, turn.y2).beats ==>
        nextMove[old(|nextMove|)] != NoMove
      decreases Pieces(mtx), 0
    {
      ghost var s := Setup(maxDepth, mode);
      ghost var v := TurnValue(s, mtx, color, turn, haveBeatsNow);
      if haveBeatsNow {
        CaptureRemovesOne(mtx, turn);
        score := FindFirstBestTurn(MakeTurn(mtx, turn), color, turn.x2, turn.y2, |nextMove|, alpha);
      } else {
        score := FindBestTurnsRec(MakeTurn(mtx, turn), 1 - color, 0, alpha, INF + 1.0, -1, -1);
      }
      assert !pruning ==> score == v;
    }

    /** `find_best_turns`: searches the turns held in `turns` from the board
     *  and follows the recorded states from state 0 while they go on with a
     *  capture. The result is that walk: it starts with a best move of
     *  `turns` (NoMove when there is none), is a chain of captures of one
     *  piece, each later capture is a best capture of the piece at its
     *  position, and the chain stops only where the piece cannot capture
     *  again. */
    method FindBestTurns(color: Side) returns (res: seq<Move>)
      requires board.Valid() && Playable(board.mtx, turns, haveBeats) && OfKind(turns, haveBeats)
      modifies this`turns, this`haveBeats, this`rng, this`nextMove, this`nextBestState, this`boards
      ensures Arena(nextMove, nextBestState, boards) && |nextMove| > 0 && res == ChainOf(nextMove, nextBestState, 0)
      ensures res != [] && (res[0] == NoMove || res[0] in old(turns))
      ensures CaptureChain(board.mtx, res)
      ensures !pruning && old(turns) != [] ==> res[0] != NoMove
      ensures !pruning && res[0] != NoMove ==>
        TurnValue(Setup(maxDepth, mode), board.mtx, color, res[0], old(haveBeats)) ==
        BestOf(Setup(maxDepth, mode), board.mtx, color, old(turns), old(haveBeats))
      ensures !pruning && res[0] != NoMove && old(haveBeats) == SideTurns(board.mtx, color).beats
              && multiset(old(turns)) == multiset(SideTurns(board.mtx, color).moves) ==>
        && res[0] in SideTurns(board.mtx, color).moves
        && forall m :: m in SideTurns(board.mtx, color).moves ==>
             SideTurnValue(Setup(maxDepth, mode), board.mtx, color, m) <= SideTurnValue(Setup(maxDepth, mode), board.mtx, color, res[0])
      ensures !pruning ==> Complete(board.mtx, res)
      ensures !pruning ==> BestContinuations(Setup(maxDepth, mode), board.mtx, color, res)
    {
      ghost var turns0, haveBeats0 := turns, haveBeats;
      nextBestState := [];
      nextMove := [];
      boards := [];
      var mtx := board.GetBoard();
      var _ := FindFirstBestTurn(mtx, color, -1, -1, 0, -1.0);
      res := FollowChain(mtx, color);
      if !pruning && res[0] != NoMove && haveBeats0 == SideTurns(mtx, color).beats
         && multiset(turns0) == multiset(SideTurns(mtx, color).moves) {
        SideBestFirst(Setup(maxDepth, mode), mtx, color, turns0, res[0]);
      }
    }

    /** The do-while loop of `find_best_turns`: the walk of the recorded
     *  states from state 0, following each state's successor while there
     *  is one and it recorded a move. The walk is a chain of captures of one
     *  piece played from the board of state 0; when the search took no
     *  cut-off, every capture after the first is a best one of the piece
     *  and the chain ends only where the piece cannot capture again. */
    method FollowChain(mtx: Matrix, color: Side) returns (res: seq<Move>)
      requires ValidMatrix(mtx) && Arena(nextMove, nextBestState, boards) && |nextMove| > 0 && boards[0] == mtx
      requires !pruning ==> Searched(Setup(maxDepth, mode), color, nextMove, nextBestState, boards, 0)
      ensures res == ChainOf(nextMove, nextBestState, 0)
      ensures res != [] && res[0] == nextMove[0]
      ensures CaptureChain(mtx, res)
      ensures !pruning ==> Complete(mtx, res)
      ensures !pruning ==> BestContinuations(Setup(maxDepth, mode), mtx, color, res)
    {
      ghost var s := Setup(maxDepth, mode);
      var cur := 0;
      ghost var prev := 0;
      WalkedStart(s, color, mtx, nextMove, nextBestState, boards, !pruning);
      res := [nextMove[cur]];
      cur := nextBestState[cur];
      while cur != -1 && nextMove[cur].x != -1
        invariant res != [] && res[0] == nextMove[0]
        invariant Walked(s, color, mtx, nextMove, nextBestState, boards, res, prev, !pruning) && cur == nextBestState[prev]
        decreases if cur == -1 then 0 else |nextMove| - cur
      {
        WalkedStep(s, color, mtx, nextMove, nextBestState, boards, res, prev, !pruning);
        res := res + [nextMove[cur]];
        prev := cur;
        cur := nextBestState[cur];
      }
      WalkedEnd(s, color, mtx, nextMove, nextBestState, boards, res, prev, !pruning);
    }

    /** The inner loop of `calc_score` over row i, adding the row's men,
     *  kings and (in potential mode) men's bonuses to the running totals. */
    method CountRow(mtx: Matrix, i: int, w0: real, wq0: real, b0: real, bq0: real) returns (w: real, wq: real, b: real, bq: real)
      requires ValidMatrix(mtx) && 0 <= i < 8
      requires w0 == Tally(mode, mtx, 1, 8 * i) && wq0 == Tally(mode, mtx, 3, 8 * i)
      requires b0 == Tally(mode, mtx, 2, 8 * i) && bq0 == Tally(mode, mtx, 4, 8 * i)
      ensures w == Tally(mode, mtx, 1, 8 * i + 8) && wq == Tally(mode, mtx, 3, 8 * i + 8)
      ensures b == Tally(mode, mtx, 2, 8 * i + 8) && bq == Tally(mode, mtx, 4, 8 * i + 8)
    {
      w, wq, b, bq := w0, wq0, b0, bq0;
      var j := 0;
      while j < 8
        invariant 0 <= j <= 8
        invariant w == Tally(mode, mtx, 1, 8 * i + j) && wq == Tally(mode, mtx, 3, 8 * i + j)
        invariant b == Tally(mode, mtx, 2, 8 * i + j) && bq == Tally(mode, mtx, 4, 8 * i + j)
      {
        TallyStep(mode, mtx, i, j);
        var v := mtx[i][j];
        w := w + if v == 1 then 1.0 else 0.0;
        wq := wq + if v == 3 then 1.0 else 0.0;
        b := b + if v == 2 then 1.0 else 0.0;
        bq := bq + if v == 4 then 1.0 else 0.0;
        if mode == NumberAndPotential {
          w := w + if v == 1 then 0.05 * (7 - i) as real else 0.0;
          b := b + if v == 2 then 0.05 * i as real else 0.0;
        }
        j := j + 1;
      }
    }

    /** `calc_score(mtx, first_bot_color)`: the counting loops, the swap of
     *  the sides when the bot plays black, and the final ratio. */
    method CalcScore(mtx: Matrix, firstBotColor: bool) returns (r: real)
      requires ValidMatrix(mtx)
      ensures r == Score(mode, mtx, firstBotColor)
    {
      var w, wq, b, bq := 0.0, 0.0, 0.0, 0.0;
      var i := 0;
      while i < 8
        invariant 0 <= i <= 8
        invariant w == Tally(mode, mtx, 1, 8 * i) && wq == Tally(mode, mtx, 3, 8 * i)
        invariant b == Tally(mode, mtx, 2, 8 * i) && bq == Tally(mode, mtx, 4, 8 * i)
      {
        w, wq, b, bq := CountRow(mtx, i, w, wq, b, bq);
        i := i + 1;
      }
      BoardTally(mode, mtx, 1);
      BoardTally(mode, mtx, 2);
      BoardTally(mode, mtx, 3);
      BoardTally(mode, mtx, 4);
      if !firstBotColor {
        b, w := w, b;
        bq, wq := wq, bq;
      }
      if w + wq == 0.0 {
        return INF;
      }
      if b + bq == 0.0 {
        return 0.0;
      }
      var q := 4.0;
      if mode == NumberAndPotential {
        q := 5.0;
      }
      assert wq * q >= 0.0;
      r := (b + bq * q) / (w + wq * q);
    }
  }

  /** Cell (i, j) is entry 8 i + j of the side scan. */
  lemma ScanStep(b: Matrix, color: Side, i: int, j: int)
    requires ValidMatrix(b) && 0 <= i < 8 && 0 <= j < 8
    ensures SideScan(b, color, CellTable(b), 8 * i + j + 1) ==
      var acc := SideScan(b, color, CellTable(b), 8 * i + j);
      if !Own(b, i, j, color) then acc else Merge(acc, CellTurns(b, i, j))
  {
    var k := 8 * i + j;
    assert k / 8 == i && k % 8 == j;
  }

  /** Cell (i, j) is the cell the tallies add after the first 8 i + j. */
  lemma TallyStep(mode: ScoringMode, b: Matrix, i: int, j: int)
    requires ValidMatrix(b) && 0 <= i < 8 && 0 <= j < 8
    ensures Tally(mode, b, 1, 8 * i + j + 1) == Tally(mode, b, 1, 8 * i + j) +
      (if b[i][j] == 1 then 1.0 + (if mode == NumberAndPotential then 0.05 * (7 - i) as real else 0.0) else 0.0)
    ensures Tally(mode, b, 2, 8 * i + j + 1) == Tally(mode, b, 2, 8 * i + j) +
      (if b[i][j] == 2 then 1.0 + (if mode == NumberAndPotential then 0.05 * i as real else 0.0) else 0.0)
    ensures Tally(mode, b, 3, 8 * i + j + 1) == Tally(mode, b, 3, 8 * i + j) + (if b[i][j] == 3 then 1.0 else 0.0)
    ensures Tally(mode, b, 4, 8 * i + j + 1) == Tally(mode, b, 4, 8 * i + j) + (if b[i][j] == 4 then 1.0 else 0.0)
  {
    var k := 8 * i + j;
    assert k / 8 == i && k % 8 == j;
  }
}
