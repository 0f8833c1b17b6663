/** The position evaluation of `calc_score` (Game/Logic.h:59-97): a ratio of
 *  material, optionally with a bonus for men that have advanced. */
module Scoring {
  import opened Grid

  /** The bot's scoring setting: "NumberAndPotential" selects the potential
   *  bonus and king weight 5; any other setting counts material only, with
   *  king weight 4. */
  datatype ScoringMode = NumberOnly | NumberAndPotential

  /** The score that stands for "infinitely bad / good" (1e9 in the source). */
  const INF: real := 1000000000.0

  /** The weight of a king against a man. */
  function KingWeight(mode: ScoringMode): real
  {
    if mode == NumberAndPotential then 5.0 else 4.0
  }

  /** The cell with row-major index c. */
  function Cell(b: Matrix, c: int): int
    requires ValidMatrix(b) && 0 <= c < 64
  {
    b[c / 8][c % 8]
  }

  /** What a cell holding v on row i adds to the tally of code `code`: one per
   *  piece, plus 1/20 per row advanced for men in potential mode (white men
   *  advance towards row 0, black men towards row 7). */
  function Weight(mode: ScoringMode, code: int, v: int, i: int): real
  {
    if v != code then 0.0
    else if mode == NumberAndPotential && code == 1 then 1.0 + (7 - i) as real / 20.0
    else if mode == NumberAndPotential && code == 2 then 1.0 + i as real / 20.0
    else 1.0
  }

  /** The running total of code `code` over the first k cells in row-major order. */
  function Tally(mode: ScoringMode, b: Matrix, code: int, k: int): real
    requires ValidMatrix(b) && 0 <= k <= 64
  {
    if k == 0 then 0.0
    else Tally(mode, b, code, k - 1) + Weight(mode, code, Cell(b, k - 1), (k - 1) / 8)
  }

  /** `calc_score(mtx, first_bot_color)`: the material of the side other than
   *  the "denominator" side divided by the denominator side's material, with
   *  INF when the denominator side has nothing left (checked first) and 0 when
   *  the other side has nothing left. The denominator side is white when
   *  `firstBotColor` holds and black otherwise (the source swaps the totals). */
  function Score(mode: ScoringMode, b: Matrix, firstBotColor: bool): real
    requires ValidMatrix(b)
  {
    var w, wq := Tally(mode, b, 1, Area(b)), Tally(mode, b, 3, Area(b));
    var bl, bq := Tally(mode, b, 2, Area(b)), Tally(mode, b, 4, Area(b));
    var dm, dk := if firstBotColor then w else bl, if firstBotColor then wq else bq;
    var nm, nk := if firstBotColor then bl else w, if firstBotColor then bq else wq;
    BoardTally(mode, b, 1); BoardTally(mode, b, 2); BoardTally(mode, b, 3); BoardTally(mode, b, 4);
    Ratio(dm, dk, nm, nk, KingWeight(mode))
  }

  /** The final step of `calc_score` on the totals of men and kings of the
   *  denominator side (dm, dk) and of the other side (nm, nk). */
  function Ratio(dm: real, dk: real, nm: real, nk: real, q: real): real
    requires 0.0 <= dm && 0.0 <= dk && q > 0.0
  {
    if dm + dk == 0.0 then INF
    else if nm + nk == 0.0 then 0.0
    else
      assert dk * q >= 0.0;
      (nm + nk * q) / (dm + dk * q)
  }

  /** Some cell holds code `code`. */
  predicate HasCode(b: Matrix, code: int)
    requires ValidMatrix(b)
  {
    exists i, j :: 0 <= i < 8 && 0 <= j < 8 && b[i][j] == code
  }

  /** The side has a man or a king left (white: codes 1 and 3, black: 2 and 4). */
  predicate HasPieces(b: Matrix, white: bool)
    requires ValidMatrix(b)
  {
    if white then HasCode(b, 1) || HasCode(b, 3) else HasCode(b, 2) || HasCode(b, 4)
  }

  /** A tally is never negative, at most 2 per cell, zero exactly when no cell
   *  among the first k holds the code, and at least 1 otherwise. */
  lemma {:induction false} TallyBounds(mode: ScoringMode, b: Matrix, code: int, k: int)
    requires ValidMatrix(b) && 0 <= k <= 64
    ensures 0.0 <= Tally(mode, b, code, k) <= 2.0 * k as real
    ensures Tally(mode, b, code, k) == 0.0 <==> forall c :: 0 <= c < k ==> Cell(b, c) != code
    ensures Tally(mode, b, code, k) != 0.0 ==> Tally(mode, b, code, k) >= 1.0
  {
    if k > 0 {
      TallyBounds(mode, b, code, k - 1);
      var i := (k - 1) / 8;
      assert 0 <= i <= 7;
      var wgt := Weight(mode, code, Cell(b, k - 1), i);
      assert 0.0 <= wgt <= 2.0;
      assert Cell(b, k - 1) == code ==> wgt >= 1.0;
    }
  }

  /** Over the whole board, a tally is zero exactly when the code is absent. */
  lemma BoardTally(mode: ScoringMode, b: Matrix, code: int)
    requires ValidMatrix(b)
    ensures 0.0 <= Tally(mode, b, code, Area(b)) <= 128.0
    ensures Tally(mode, b, code, Area(b)) == 0.0 <==> !HasCode(b, code)
    ensures HasCode(b, code) ==> Tally(mode, b, code, Area(b)) >= 1.0
  {
    TallyBounds(mode, b, code, Area(b));
    if HasCode(b, code) {
      var i, j :| 0 <= i < 8 && 0 <= j < 8 && b[i][j] == code;
      assert Cell(b, 8 * i + j) == code;
    } else {
      forall c | 0 <= c < 64 ensures Cell(b, c) != code {
        assert InBoard(c / 8, c % 8);
      }
    }
  }

  /** A ratio of non-negative totals bounded by 768 over a denominator of at least 1. */
  lemma RatioBounds(n: real, d: real)
    requires 0.0 < n <= 768.0 && d >= 1.0
    ensures 0.0 < n / d <= 768.0
  {
    assert n / d * d == n;
  }

  /** The meaning of a score: it lies in [0, INF]; it is INF exactly when the
   *  denominator side has no piece; it is 0 exactly when the denominator side
   *  has pieces and the other side has none; in between, both sides have
   *  pieces. */
  lemma ScoreRange(mode: ScoringMode, b: Matrix, firstBotColor: bool)
    requires ValidMatrix(b)
    ensures 0.0 <= Score(mode, b, firstBotColor) <= INF
    ensures Score(mode, b, firstBotColor) == INF <==> !HasPieces(b, firstBotColor)
    ensures Score(mode, b, firstBotColor) == 0.0 <==>
      HasPieces(b, firstBotColor) && !HasPieces(b, !firstBotColor)
  {
    BoardTally(mode, b, 1);
    BoardTally(mode, b, 2);
    BoardTally(mode, b, 3);
    BoardTally(mode, b, 4);
    var w, wq := Tally(mode, b, 1, Area(b)), Tally(mode, b, 3, Area(b));
    var bl, bq := Tally(mode, b, 2, Area(b)), Tally(mode, b, 4, Area(b));
    if firstBotColor {
      RatioRange(w, wq, bl, bq, KingWeight(mode));
    } else {
      RatioRange(bl, bq, w, wq, KingWeight(mode));
    }
  }

  /** The cases of Ratio on totals that are each zero or between 1 and 128. */
  lemma RatioRange(dm: real, dk: real, nm: real, nk: real, q: real)
    requires 0.0 <= dm <= 128.0 && 0.0 <= dk <= 128.0 && 0.0 <= nm <= 128.0 && 0.0 <= nk <= 128.0
    requires (dm != 0.0 ==> dm >= 1.0) && (dk != 0.0 ==> dk >= 1.0) && (q == 4.0 || q == 5.0)
    ensures 0.0 <= Ratio(dm, dk, nm, nk, q) <= INF
    ensures Ratio(dm, dk, nm, nk, q) == INF <==> dm == 0.0 && dk == 0.0
    ensures Ratio(dm, dk, nm, nk, q) == 0.0 <==> (dm != 0.0 || dk != 0.0) && nm == 0.0 && nk == 0.0
  {
    if dm + dk != 0.0 && nm + nk != 0.0 {
      RatioBounds(nm + nk * q, dm + dk * q);
    }
  }
}
