/** What the bot's search computes when no cut-off is taken: the minimax
 *  value of `find_best_turns_rec` (Game/Logic.h:144-197) and the value of a
 *  whole turn, capture chain included, of `find_first_best_turn`
 *  (Game/Logic.h:100-141). */
module Search {
  import opened Grid
  import opened Apply
  import opened MoveGen
  import opened Scoring

  /** The bot's settings the search depends on: the depth bound `Max_depth`
   *  and the scoring mode. */
  datatype Setup = Setup(maxDepth: nat, mode: ScoringMode)

  /** `std::min` */
  function Min(a: real, b: real): real
  {
    if b < a then b else a
  }

  /** `std::max` */
  function Max(a: real, b: real): real
  {
    if a < b then b else a
  }

  // ---------------------------------------------------------------------
  // The folds of the search loops

  /** The running minimum of the loop of `find_best_turns_rec`, which starts
   *  from INF + 1. */
  function Low(vs: seq<real>): real
  {
    if vs == [] then INF + 1.0 else Min(Low(vs[..|vs| - 1]), vs[|vs| - 1])
  }

  /** The running maximum of the loops of `find_best_turns_rec` and
   *  `find_first_best_turn`, which start from -1. */
  function High(vs: seq<real>): real
  {
    if vs == [] then -1.0 else Max(High(vs[..|vs| - 1]), vs[|vs| - 1])
  }

  /** Every value lies in the range of scores. */
  predicate InRange(vs: seq<real>)
  {
    forall i :: 0 <= i < |vs| ==> 0.0 <= vs[i] <= INF
  }

  /** On values in the range of scores the folds compute the minimum and the
   *  maximum: each bounds every value, each is one of the values, and an
   *  empty list leaves the initial values. */
  lemma {:induction false} FoldBounds(vs: seq<real>)
    requires InRange(vs)
    ensures vs == [] ==> Low(vs) == INF + 1.0 && High(vs) == -1.0
    ensures forall i :: 0 <= i < |vs| ==> Low(vs) <= vs[i] <= High(vs)
    ensures vs != [] ==> 0.0 <= Low(vs) <= INF && 0.0 <= High(vs) <= INF
    ensures vs != [] ==> exists i :: 0 <= i < |vs| && vs[i] == Low(vs)
    ensures vs != [] ==> exists i :: 0 <= i < |vs| && vs[i] == High(vs)
    decreases |vs|
  {
    if vs != [] {
      var n := |vs|;
      var pre := vs[..n - 1];
      assert InRange(pre) by {
        forall i | 0 <= i < n - 1 ensures 0.0 <= pre[i] <= INF {
          assert pre[i] == vs[i];
        }
      }
      FoldBounds(pre);
      forall i | 0 <= i < n ensures Low(vs) <= vs[i] <= High(vs) {
        if i < n - 1 {
          assert vs[i] == pre[i];
        }
      }
      if pre == [] {
        assert vs[0] == Low(vs) && vs[0] == High(vs);
      } else {
        var a :| 0 <= a < |pre| && pre[a] == Low(pre);
        var c :| 0 <= c < |pre| && pre[c] == High(pre);
        assert vs[a] == pre[a] && vs[c] == pre[c];
      }
    }
  }

  /** The folds depend only on which values occur, not on their order or
   *  repetition. */
  lemma FoldSame(vs: seq<real>, vs': seq<real>)
    requires InRange(vs) && InRange(vs')
    requires forall v :: v in vs <==> v in vs'
    ensures Low(vs) == Low(vs') && High(vs) == High(vs')
  {
    FoldBounds(vs);
    FoldBounds(vs');
    if vs' != [] {
      assert vs'[0] in vs;
    }
    if vs != [] {
      assert vs[0] in vs';
      var a :| 0 <= a < |vs| && vs[a] == Low(vs);
      var a' :| 0 <= a' < |vs'| && vs'[a'] == Low(vs');
      var c :| 0 <= c < |vs| && vs[c] == High(vs);
      var c' :| 0 <= c' < |vs'| && vs'[c'] == High(vs');
      assert vs[a] in vs' && vs[c] in vs' && vs'[a'] in vs && vs'[c'] in vs;
    }
  }

  // ---------------------------------------------------------------------
  // find_best_turns_rec

  /** The moves searched at a node: those of the piece on (x, y) when the
   *  node continues a capture chain, those of the whole side otherwise. */
  function TurnsAt(b: Matrix, color: Side, x: int, y: int): Turns
    requires ValidMatrix(b) && (x == -1 || InBoard(x, y))
  {
    if x != -1 then CellTurns(b, x, y) else SideTurns(b, color)
  }

  /** Every move of the list stays on the board, and when the list is one of
   *  captures, each has the shape of a capture on b. */
  predicate Playable(b: Matrix, ms: seq<Move>, beats: bool)
    requires ValidMatrix(b)
  {
    forall m :: m in ms ==> WellPlaced(m) && (beats ==> CaptureShape(b, m))
  }

  lemma TurnsAtPlayable(b: Matrix, color: Side, x: int, y: int)
    requires ValidMatrix(b) && (x == -1 || InBoard(x, y))
    ensures Playable(b, TurnsAt(b, color, x, y).moves, TurnsAt(b, color, x, y).beats)
  {
    if x != -1 {
      CellMovesShape(b, x, y);
    } else {
      SideMovesShape(b, color);
    }
  }

  /** Odd depths are the bot's own replies and take the largest child value;
   *  even depths take the smallest. */
  function Pick(depth: nat, vs: seq<real>): real
  {
    if depth % 2 == 1 then High(vs) else Low(vs)
  }

  /** The minimax value of a node. At the depth bound the board is scored
   *  (from the point of view given by `depth % 2 == color`). A capture chain
   *  whose piece has no further capture hands the move to the other side one
   *  level deeper. A side with no move scores 0 at odd depths and INF at even
   *  ones. Otherwise the node picks among its child values. */
  function Value(s: Setup, b: Matrix, color: Side, depth: nat, x: int, y: int): real
    requires ValidMatrix(b) && depth <= s.maxDepth && (x == -1 || InBoard(x, y))
    decreases s.maxDepth - depth, Pieces(b), 2, 0
  {
    if depth == s.maxDepth then Score(s.mode, b, depth % 2 == color)
    else
      var t := TurnsAt(b, color, x, y);
      if !t.beats && x != -1 then Deeper(s, b, color, depth)
      else if t.moves == [] then (if depth % 2 == 1 then 0.0 else INF)
      else
        TurnsAtPlayable(b, color, x, y);
        Pick(depth, ChildValues(s, b, color, depth, t.moves, t.beats))
  }

  /** The node of the other side one level deeper, searched over all of
   *  that side's moves: where a plain move or a finished capture chain
   *  passes the turn. */
  function Deeper(s: Setup, b: Matrix, color: Side, depth: nat): real
    requires ValidMatrix(b) && depth < s.maxDepth
    decreases s.maxDepth - depth - 1, Pieces(b), 3, 0
  {
    Value(s, b, 1 - color, depth + 1, -1, -1)
  }

  /** The child values of the moves of ms, in the order of ms. */
  function ChildValues(s: Setup, b: Matrix, color: Side, depth: nat, ms: seq<Move>, beats: bool): seq<real>
    requires ValidMatrix(b) && depth < s.maxDepth && Playable(b, ms, beats)
    decreases s.maxDepth - depth, Pieces(b), 1, 0
  {
    seq(|ms|, i requires 0 <= i < |ms| => ChildValue(s, b, color, depth, ms[i], beats))
  }

  /** The value of the node reached by one move: a capture continues with
   *  the same side at the same depth from the landing cell, and a plain
   *  move passes the turn one level deeper. */
  function ChildValue(s: Setup, b: Matrix, color: Side, depth: nat, m: Move, beats: bool): real
    requires ValidMatrix(b) && depth < s.maxDepth && WellPlaced(m) && (beats ==> CaptureShape(b, m))
    decreases s.maxDepth - depth, Pieces(b), 0, 0
  {
    if !beats then Deeper(s, MakeTurn(b, m), color, depth)
    else
      CaptureRemovesOne(b, m);
      Value(s, MakeTurn(b, m), color, depth, m.x2, m.y2)
  }

  /** A node at the depth bound is worth the score of its board. */
  lemma ValueLeaf(s: Setup, b: Matrix, color: Side, depth: nat, x: int, y: int)
    requires ValidMatrix(b) && depth == s.maxDepth && (x == -1 || InBoard(x, y))
    ensures Value(s, b, color, depth, x, y) == Score(s.mode, b, depth % 2 == color)
  {
  }

  /** A node whose side has no move is worth 0 at odd depths and INF at even
   *  ones. */
  lemma ValueNoMoves(s: Setup, b: Matrix, color: Side, depth: nat, x: int, y: int)
    requires ValidMatrix(b) && depth < s.maxDepth && (x == -1 || (InBoard(x, y) && CellTurns(b, x, y).beats))
    requires TurnsAt(b, color, x, y).moves == []
    ensures Value(s, b, color, depth, x, y) == if depth % 2 == 1 then 0.0 else INF
  {
  }

  /** A node with moves picks among the child values of its moves, tried in
   *  any order. */
  lemma ValueNode(s: Setup, b: Matrix, color: Side, depth: nat, x: int, y: int, ms: seq<Move>)
    requires ValidMatrix(b) && depth < s.maxDepth && (x == -1 || (InBoard(x, y) && CellTurns(b, x, y).beats))
    requires ms != [] && multiset(ms) == multiset(TurnsAt(b, color, x, y).moves)
    ensures Playable(b, ms, TurnsAt(b, color, x, y).beats)
    ensures Value(s, b, color, depth, x, y) == Pick(depth, ChildValues(s, b, color, depth, ms, TurnsAt(b, color, x, y).beats))
  {
    var t := TurnsAt(b, color, x, y);
    TurnsAtPlayable(b, color, x, y);
    ChildValuesPermutation(s, b, color, depth, t.moves, ms, t.beats);
    assert t.moves != [] by {
      assert ms[0] in multiset(t.moves);
    }
  }

  /** A capture chain whose piece has no further capture is worth the other
   *  side's node one level deeper. */
  lemma ValueHandOver(s: Setup, b: Matrix, color: Side, depth: nat, x: int, y: int)
    requires ValidMatrix(b) && depth < s.maxDepth && InBoard(x, y) && !CellTurns(b, x, y).beats
    ensures Value(s, b, color, depth, x, y) == Deeper(s, b, color, depth)
    ensures Value(s, b, color, depth, x, y) == Value(s, b, 1 - color, depth + 1, -1, -1)
  {
  }

  lemma HandOverBound(s: Setup, b: Matrix, color: Side, depth: nat, x: int, y: int)
    requires ValidMatrix(b) && depth < s.maxDepth && InBoard(x, y) && !CellTurns(b, x, y).beats
    requires 0.0 <= Deeper(s, b, color, depth) <= INF
    ensures 0.0 <= Value(s, b, color, depth, x, y) <= INF
  {
    ValueHandOver(s, b, color, depth, x, y);
  }

  lemma LeafBound(s: Setup, b: Matrix, color: Side, depth: nat, x: int, y: int)
    requires ValidMatrix(b) && depth == s.maxDepth && (x == -1 || InBoard(x, y))
    ensures 0.0 <= Value(s, b, color, depth, x, y) <= INF
  {
    ScoreRange(s.mode, b, depth % 2 == color);
  }

  lemma NodeBound(s: Setup, b: Matrix, color: Side, depth: nat, x: int, y: int)
    requires ValidMatrix(b) && depth < s.maxDepth && (x == -1 || (InBoard(x, y) && CellTurns(b, x, y).beats))
    requires Playable(b, TurnsAt(b, color, x, y).moves, TurnsAt(b, color, x, y).beats)
    requires InRange(ChildValues(s, b, color, depth, TurnsAt(b, color, x, y).moves, TurnsAt(b, color, x, y).beats))
    ensures 0.0 <= Value(s, b, color, depth, x, y) <= INF
  {
    var t := TurnsAt(b, color, x, y);
    FoldBounds(ChildValues(s, b, color, depth, t.moves, t.beats));
  }

  /** Every node value lies between 0 and INF. */
  lemma {:induction false} ValueRange(s: Setup, b: Matrix, color: Side, depth: nat, x: int, y: int)
    requires ValidMatrix(b) && depth <= s.maxDepth && (x == -1 || InBoard(x, y))
    ensures 0.0 <= Value(s, b, color, depth, x, y) <= INF
    decreases s.maxDepth - depth, Pieces(b), 3, 0
  {
    if depth == s.maxDepth {
      LeafBound(s, b, color, depth, x, y);
    } else if x != -1 && !CellTurns(b, x, y).beats {
      HandOverRange(s, b, color, depth, x, y);
    } else {
      NodeRange(s, b, color, depth, x, y);
    }
  }

  lemma {:induction false} HandOverRange(s: Setup, b: Matrix, color: Side, depth: nat, x: int, y: int)
    requires ValidMatrix(b) && depth < s.maxDepth && InBoard(x, y) && !CellTurns(b, x, y).beats
    ensures 0.0 <= Value(s, b, color, depth, x, y) <= INF
    decreases s.maxDepth - depth, Pieces(b), 2, 0
  {
    DeeperRange(s, b, color, depth);
    HandOverBound(s, b, color, depth, x, y);
  }

  /** The other side's node one level deeper lies between 0 and INF. */
  lemma {:induction false} DeeperRange(s: Setup, b: Matrix, color: Side, depth: nat)
    requires ValidMatrix(b) && depth < s.maxDepth
    ensures 0.0 <= Deeper(s, b, color, depth) <= INF
    decreases s.maxDepth - depth - 1, Pieces(b), 4, 0
  {
    assert Deeper(s, b, color, depth) == Value(s, b, 1 - color, depth + 1, -1, -1);
    ValueRange(s, b, 1 - color, depth + 1, -1, -1);
  }

  /** A node whose moves are searched here lies between 0 and INF. */
  lemma {:induction false} NodeRange(s: Setup, b: Matrix, color: Side, depth: nat, x: int, y: int)
    requires ValidMatrix(b) && depth < s.maxDepth && (x == -1 || (InBoard(x, y) && CellTurns(b, x, y).beats))
    ensures 0.0 <= Value(s, b, color, depth, x, y) <= INF
    decreases s.maxDepth - depth, Pieces(b), 2, 0
  {
    var t := TurnsAt(b, color, x, y);
    TurnsAtPlayable(b, color, x, y);
    ChildRanges(s, b, color, depth, t.moves, t.beats);
    NodeBound(s, b, color, depth, x, y);
  }

  lemma {:induction false} ChildRanges(s: Setup, b: Matrix, color: Side, depth: nat, ms: seq<Move>, beats: bool)
    requires ValidMatrix(b) && depth < s.maxDepth && Playable(b, ms, beats)
    ensures InRange(ChildValues(s, b, color, depth, ms, beats))
    decreases s.maxDepth - depth, Pieces(b), 1, 0
  {
    var vs := ChildValues(s, b, color, depth, ms, beats);
    forall i | 0 <= i < |ms| ensures 0.0 <= vs[i] <= INF {
      ChildRange(s, b, color, depth, ms[i], beats);
    }
  }

  lemma {:induction false} ChildRange(s: Setup, b: Matrix, color: Side, depth: nat, m: Move, beats: bool)
    requires ValidMatrix(b) && depth < s.maxDepth && WellPlaced(m) && (beats ==> CaptureShape(b, m))
    ensures 0.0 <= ChildValue(s, b, color, depth, m, beats) <= INF
    decreases s.maxDepth - depth, Pieces(b), 0, 0
  {
    if !beats {
      DeeperRange(s, MakeTurn(b, m), color, depth);
    } else {
      CaptureRemovesOne(b, m);
      ValueRange(s, MakeTurn(b, m), color, depth, m.x2, m.y2);
    }
  }

  /** The folds over the child values compute the smallest and the largest
   *  child value: both bound every move's value and, for a non-empty list,
   *  each is attained by some move. */
  lemma ChildBounds(s: Setup, b: Matrix, color: Side, depth: nat, ms: seq<Move>, beats: bool)
    requires ValidMatrix(b) && depth < s.maxDepth && Playable(b, ms, beats)
    ensures forall m :: m in ms ==>
      Low(ChildValues(s, b, color, depth, ms, beats)) <= ChildValue(s, b, color, depth, m, beats) <= High(ChildValues(s, b, color, depth, ms, beats))
    ensures ms != [] ==> exists m :: m in ms && ChildValue(s, b, color, depth, m, beats) == Low(ChildValues(s, b, color, depth, ms, beats))
    ensures ms != [] ==> exists m :: m in ms && ChildValue(s, b, color, depth, m, beats) == High(ChildValues(s, b, color, depth, ms, beats))
  {
    var vs := ChildValues(s, b, color, depth, ms, beats);
    ChildRanges(s, b, color, depth, ms, beats);
    FoldBounds(vs);
    forall m | m in ms
      ensures Low(vs) <= ChildValue(s, b, color, depth, m, beats) <= High(vs)
    {
      var i :| 0 <= i < |ms| && ms[i] == m;
      assert vs[i] == ChildValue(s, b, color, depth, m, beats);
    }
    if ms != [] {
      var a :| 0 <= a < |vs| && vs[a] == Low(vs);
      var c :| 0 <= c < |vs| && vs[c] == High(vs);
      assert ms[a] in ms && ms[c] in ms;
    }
  }

  /** One more move tried by the loop of `find_best_turns_rec`: the folds over
   *  the first k + 1 child values extend those over the first k by the
   *  value of move k. */
  lemma ChildStep(s: Setup, b: Matrix, color: Side, depth: nat, ms: seq<Move>, k: int, beats: bool)
    requires ValidMatrix(b) && depth < s.maxDepth && Playable(b, ms, beats) && 0 <= k < |ms|
    ensures Playable(b, ms[..k], beats) && Playable(b, ms[..k + 1], beats)
    ensures Low(ChildValues(s, b, color, depth, ms[..k + 1], beats)) ==
      Min(Low(ChildValues(s, b, color, depth, ms[..k], beats)), ChildValue(s, b, color, depth, ms[k], beats))
    ensures High(ChildValues(s, b, color, depth, ms[..k + 1], beats)) ==
      Max(High(ChildValues(s, b, color, depth, ms[..k], beats)), ChildValue(s, b, color, depth, ms[k], beats))
  {
    PlayablePrefix(b, ms, k, beats);
    PlayablePrefix(b, ms, k + 1, beats);
    var vs := ChildValues(s, b, color, depth, ms[..k + 1], beats);
    assert vs[..k] == ChildValues(s, b, color, depth, ms[..k], beats);
  }

  /** A prefix of a playable list is playable. */
  lemma PlayablePrefix(b: Matrix, ms: seq<Move>, k: int, beats: bool)
    requires ValidMatrix(b) && Playable(b, ms, beats) && 0 <= k <= |ms|
    ensures Playable(b, ms[..k], beats)
  {
    forall m | m in ms[..k] ensures m in ms {
      var i :| 0 <= i < k && ms[..k][i] == m;
      assert ms[i] == m;
    }
  }

  /** One more move tried by the loop of `find_first_best_turn`: the best
   *  turn value over the first k + 1 moves extends that over the first k
   *  by the value of move k, which is at least 0. */
  lemma TurnStep(s: Setup, b: Matrix, color: Side, ms: seq<Move>, k: int, beats: bool)
    requires ValidMatrix(b) && Playable(b, ms, beats) && 0 <= k < |ms|
    ensures Playable(b, ms[..k], beats) && Playable(b, ms[..k + 1], beats)
    ensures High(TurnValues(s, b, color, ms[..k + 1], beats)) ==
      Max(High(TurnValues(s, b, color, ms[..k], beats)), TurnValue(s, b, color, ms[k], beats))
    ensures 0.0 <= TurnValue(s, b, color, ms[k], beats)
  {
    PlayablePrefix(b, ms, k, beats);
    PlayablePrefix(b, ms, k + 1, beats);
    var vs := TurnValues(s, b, color, ms[..k + 1], beats);
    assert vs[..k] == TurnValues(s, b, color, ms[..k], beats);
    TurnRange(s, b, color, ms[k], beats);
  }

  /** The search does not depend on the order the moves are tried in when no
   *  cut-off is taken: two orderings of the same moves give the same
   *  smallest and largest child values. This is why the shuffle of the
   *  side's moves changes the chosen move but not the value. */
  lemma ChildValuesPermutation(s: Setup, b: Matrix, color: Side, depth: nat, ms: seq<Move>, ms': seq<Move>, beats: bool)
    requires ValidMatrix(b) && depth < s.maxDepth
    requires Playable(b, ms, beats) && multiset(ms) == multiset(ms')
    ensures Playable(b, ms', beats)
    ensures Low(ChildValues(s, b, color, depth, ms, beats)) == Low(ChildValues(s, b, color, depth, ms', beats))
    ensures High(ChildValues(s, b, color, depth, ms, beats)) == High(ChildValues(s, b, color, depth, ms', beats))
  {
    SameElements(ms, ms');
    var vs, vs' := ChildValues(s, b, color, depth, ms, beats), ChildValues(s, b, color, depth, ms', beats);
    ChildRanges(s, b, color, depth, ms, beats);
    ChildRanges(s, b, color, depth, ms', beats);
    forall v | v in vs ensures v in vs' {
      var i :| 0 <= i < |vs| && vs[i] == v;
      assert ms[i] in ms';
      var j :| 0 <= j < |ms'| && ms'[j] == ms[i];
      assert vs'[j] == v;
    }
    forall v | v in vs' ensures v in vs {
      var j :| 0 <= j < |vs'| && vs'[j] == v;
      assert ms'[j] in ms;
      var i :| 0 <= i < |ms| && ms[i] == ms'[j];
      assert vs[i] == v;
    }
    FoldSame(vs, vs');
  }

  /** Sequences with the same multiset have the same elements. */
  lemma SameElements(ms: seq<Move>, ms': seq<Move>)
    requires multiset(ms) == multiset(ms')
    ensures forall m :: m in ms <==> m in ms'
  {
    forall m | m in ms' ensures m in ms {
      assert m in multiset(ms');
    }
    forall m | m in ms ensures m in ms' {
      assert m in multiset(ms);
    }
  }

  // ---------------------------------------------------------------------
  // find_first_best_turn

  /** The value of the turn that continues from the piece on (x, y) after a
   *  capture: if the piece can capture again, the best of its captures; if
   *  not, the turn ends and the opponent's reply is searched from depth 0. */
  function FirstValue(s: Setup, b: Matrix, color: Side, x: int, y: int): real
    requires ValidMatrix(b) && InBoard(x, y)
    decreases Pieces(b), 2, 0
  {
    var t := CellTurns(b, x, y);
    if !t.beats then Value(s, b, 1 - color, 0, -1, -1)
    else
      CellMovesShape(b, x, y);
      High(TurnValues(s, b, color, t.moves, true))
  }

  /** The turn values of the moves of ms, in the order of ms. */
  function TurnValues(s: Setup, b: Matrix, color: Side, ms: seq<Move>, beats: bool): seq<real>
    requires ValidMatrix(b) && Playable(b, ms, beats)
    decreases Pieces(b), 1, 0
  {
    seq(|ms|, i requires 0 <= i < |ms| => TurnValue(s, b, color, ms[i], beats))
  }

  /** The value of a turn that starts with move m: a capture continues the
   *  chain from the landing cell; a plain move ends the turn and the
   *  opponent's reply is searched from depth 0. */
  function TurnValue(s: Setup, b: Matrix, color: Side, m: Move, beats: bool): real
    requires ValidMatrix(b) && WellPlaced(m) && (beats ==> CaptureShape(b, m))
    decreases Pieces(b), 0, 0
  {
    if !beats then Value(s, MakeTurn(b, m), 1 - color, 0, -1, -1)
    else
      CaptureRemovesOne(b, m);
      FirstValue(s, MakeTurn(b, m), color, m.x2, m.y2)
  }

  /** The best turn value over the moves of ms, -1 when there is none. */
  function BestOf(s: Setup, b: Matrix, color: Side, ms: seq<Move>, beats: bool): real
    requires ValidMatrix(b) && Playable(b, ms, beats)
  {
    High(TurnValues(s, b, color, ms, beats))
  }

  lemma {:induction false} FirstRange(s: Setup, b: Matrix, color: Side, x: int, y: int)
    requires ValidMatrix(b) && InBoard(x, y)
    ensures 0.0 <= FirstValue(s, b, color, x, y) <= INF
    decreases Pieces(b), 2, 0
  {
    if !CellTurns(b, x, y).beats {
      FirstHandOverRange(s, b, color, x, y);
    } else {
      FirstCaptureRange(s, b, color, x, y);
    }
  }

  lemma FirstHandOverRange(s: Setup, b: Matrix, color: Side, x: int, y: int)
    requires ValidMatrix(b) && InBoard(x, y) && !CellTurns(b, x, y).beats
    ensures 0.0 <= FirstValue(s, b, color, x, y) <= INF
  {
    assert FirstValue(s, b, color, x, y) == Value(s, b, 1 - color, 0, -1, -1);
    ReplyRange(s, b, color);
  }

  lemma ReplyRange(s: Setup, b: Matrix, color: Side)
    requires ValidMatrix(b)
    ensures 0.0 <= Value(s, b, 1 - color, 0, -1, -1) <= INF
  {
    ValueRange(s, b, 1 - color, 0, -1, -1);
  }

  lemma {:induction false} FirstCaptureRange(s: Setup, b: Matrix, color: Side, x: int, y: int)
    requires ValidMatrix(b) && InBoard(x, y) && CellTurns(b, x, y).beats
    ensures 0.0 <= FirstValue(s, b, color, x, y) <= INF
    decreases Pieces(b), 1, 1
  {
    CellMovesShape(b, x, y);
    TurnRanges(s, b, color, CellTurns(b, x, y).moves, true);
    FirstCaptureBound(s, b, color, x, y);
  }

  lemma FirstCaptureBound(s: Setup, b: Matrix, color: Side, x: int, y: int)
    requires ValidMatrix(b) && InBoard(x, y) && CellTurns(b, x, y).beats
    requires Playable(b, CellTurns(b, x, y).moves, true)
    requires InRange(TurnValues(s, b, color, CellTurns(b, x, y).moves, true))
    ensures 0.0 <= FirstValue(s, b, color, x, y) <= INF
  {
    CellMovesShape(b, x, y);
    assert CellTurns(b, x, y).moves != [];
    FoldBounds(TurnValues(s, b, color, CellTurns(b, x, y).moves, true));
  }

  lemma {:induction false} TurnRanges(s: Setup, b: Matrix, color: Side, ms: seq<Move>, beats: bool)
    requires ValidMatrix(b) && Playable(b, ms, beats)
    ensures InRange(TurnValues(s, b, color, ms, beats))
    decreases Pieces(b), 1, 0
  {
    var vs := TurnValues(s, b, color, ms, beats);
    forall i | 0 <= i < |ms| ensures 0.0 <= vs[i] <= INF {
      TurnRange(s, b, color, ms[i], beats);
    }
  }

  /** Every turn value lies between 0 and INF, so the first move tried always
   *  beats the initial -1 and a turn is chosen whenever a move exists. */
  lemma {:induction false} TurnRange(s: Setup, b: Matrix, color: Side, m: Move, beats: bool)
    requires ValidMatrix(b) && WellPlaced(m) && (beats ==> CaptureShape(b, m))
    ensures 0.0 <= TurnValue(s, b, color, m, beats) <= INF
    decreases Pieces(b), 0, 0
  {
    if !beats {
      ValueRange(s, MakeTurn(b, m), 1 - color, 0, -1, -1);
    } else {
      CaptureRemovesOne(b, m);
      FirstRange(s, MakeTurn(b, m), color, m.x2, m.y2);
    }
  }

  /** The fold picks the best turn: no move scores above it, for a non-empty
   *  list some move attains it, and an empty list leaves -1. */
  lemma BestOfBounds(s: Setup, b: Matrix, color: Side, ms: seq<Move>, beats: bool)
    requires ValidMatrix(b) && Playable(b, ms, beats)
    ensures ms == [] ==> BestOf(s, b, color, ms, beats) == -1.0
    ensures ms != [] ==> 0.0 <= BestOf(s, b, color, ms, beats) <= INF
    ensures forall m :: m in ms ==> TurnValue(s, b, color, m, beats) <= BestOf(s, b, color, ms, beats)
    ensures ms != [] ==> exists m :: m in ms && TurnValue(s, b, color, m, beats) == BestOf(s, b, color, ms, beats)
  {
    var vs := TurnValues(s, b, color, ms, beats);
    TurnRanges(s, b, color, ms, beats);
    FoldBounds(vs);
    forall m | m in ms ensures TurnValue(s, b, color, m, beats) <= High(vs) {
      var i :| 0 <= i < |ms| && ms[i] == m;
      assert vs[i] == TurnValue(s, b, color, m, beats);
    }
    if ms != [] {
      var c :| 0 <= c < |vs| && vs[c] == High(vs);
      assert ms[c] in ms;
    }
  }

  // ---------------------------------------------------------------------
  // The chain find_best_turns returns

  /** ms is one turn played on b: every move after the first continues a
   *  capture with the piece that has just captured, and is one of that
   *  piece's captures on the board reached by the earlier moves. */
  predicate CaptureChain(b: Matrix, ms: seq<Move>)
    requires ValidMatrix(b)
  {
    forall k :: 1 <= k < |ms| ==> Link(b, ms, k)
  }

  /** Move k of ms continues the capture chain of the moves before it. */
  predicate Link(b: Matrix, ms: seq<Move>, k: int)
    requires ValidMatrix(b) && 1 <= k < |ms|
  {
      && ms[k - 1].xb != -1 && ms[k].x == ms[k - 1].x2 && ms[k].y == ms[k - 1].y2
      && AllPlaced(ms[..k]) && InBoard(ms[k].x, ms[k].y)
      && ms[k] in CellTurns(Replay(b, ms[..k]), ms[k].x, ms[k].y).moves
      && CellTurns(Replay(b, ms[..k]), ms[k].x, ms[k].y).beats
  }

  /** A chain stays a capture chain when it is extended by a capture of the
   *  piece that has just captured, on the board the chain reaches. */
  lemma ChainSnoc(b: Matrix, ms: seq<Move>, m: Move)
    requires ValidMatrix(b) && CaptureChain(b, ms) && ms != [] && AllPlaced(ms)
    requires ms[|ms| - 1].xb != -1 && m.x == ms[|ms| - 1].x2 && m.y == ms[|ms| - 1].y2 && InBoard(m.x, m.y)
    requires m in CellTurns(Replay(b, ms), m.x, m.y).moves && CellTurns(Replay(b, ms), m.x, m.y).beats
    ensures CaptureChain(b, ms + [m])
  {
    var ms' := ms + [m];
    forall k | 1 <= k < |ms'|
      ensures Link(b, ms', k)
    {
      if k < |ms| {
        assert ms'[..k] == ms[..k];
        assert Link(b, ms, k);
      } else {
        assert ms'[..k] == ms;
      }
    }
  }

  /** The turn stops where the rules stop it: when its last move is a
   *  capture, the piece that made it has no further capture on the board
   *  the turn reaches. */
  predicate Complete(b: Matrix, ms: seq<Move>)
    requires ValidMatrix(b)
  {
    ms != [] && ms[|ms| - 1].xb != -1 ==>
      && AllPlaced(ms)
      && WellPlaced(ms[|ms| - 1])
      && !CellTurns(Replay(b, ms), ms[|ms| - 1].x2, ms[|ms| - 1].y2).beats
  }

  /** m is a capture on r of best turn value among the captures of its
   *  piece. */
  predicate BestCapture(s: Setup, r: Matrix, color: Side, m: Move)
    requires ValidMatrix(r) && InBoard(m.x, m.y)
  {
    CaptureShape(r, m) && TurnValue(s, r, color, m, true) == FirstValue(s, r, color, m.x, m.y)
  }

  /** Move k of the chain is a best capture of its piece on the board the
   *  moves before it reach. */
  predicate BestAt(s: Setup, b: Matrix, color: Side, ms: seq<Move>, k: int)
    requires ValidMatrix(b) && 1 <= k < |ms| && Link(b, ms, k)
  {
    BestCapture(s, Replay(b, ms[..k]), color, ms[k])
  }

  /** Every continuation of the chain is a best one. */
  predicate BestContinuations(s: Setup, b: Matrix, color: Side, ms: seq<Move>)
    requires ValidMatrix(b) && CaptureChain(b, ms)
  {
    forall k :: 1 <= k < |ms| ==> BestAt(s, b, color, ms, k)
  }

  /** A chain whose continuations are best stays so when it is extended by
   *  a best capture of the piece that has just captured. */
  lemma BestSnoc(s: Setup, b: Matrix, color: Side, ms: seq<Move>, m: Move)
    requires ValidMatrix(b) && CaptureChain(b, ms) && BestContinuations(s, b, color, ms)
    requires ms != [] && CaptureChain(b, ms + [m]) && AllPlaced(ms)
    requires InBoard(m.x, m.y) && BestCapture(s, Replay(b, ms), color, m)
    ensures BestContinuations(s, b, color, ms + [m])
  {
    var ms' := ms + [m];
    forall k | 1 <= k < |ms'|
      ensures BestAt(s, b, color, ms', k)
    {
      if k < |ms| {
        assert ms'[..k] == ms[..k] && ms'[k] == ms[k];
        assert BestAt(s, b, color, ms, k);
      } else {
        assert ms'[..k] == ms;
      }
    }
  }

  /** The value of the turn that starts with m, one of the moves of the
   *  side on b. */
  function SideTurnValue(s: Setup, b: Matrix, color: Side, m: Move): real
    requires ValidMatrix(b) && m in SideTurns(b, color).moves
  {
    SideMovesShape(b, color);
    TurnValue(s, b, color, m, SideTurns(b, color).beats)
  }

  /** A move that attains the best turn value over a list holding the
   *  side's moves in some order is as good as every move of the side. */
  lemma SideBestFirst(s: Setup, b: Matrix, color: Side, ms: seq<Move>, first: Move)
    requires ValidMatrix(b) && multiset(ms) == multiset(SideTurns(b, color).moves)
    requires Playable(b, ms, SideTurns(b, color).beats) && first in ms
    requires TurnValue(s, b, color, first, SideTurns(b, color).beats) == BestOf(s, b, color, ms, SideTurns(b, color).beats)
    ensures first in SideTurns(b, color).moves
    ensures forall m :: m in SideTurns(b, color).moves ==> SideTurnValue(s, b, color, m) <= SideTurnValue(s, b, color, first)
  {
    SameElements(ms, SideTurns(b, color).moves);
    BestOfBounds(s, b, color, ms, SideTurns(b, color).beats);
  }
}
