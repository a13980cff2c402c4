/** How the computer chooses a cell in script.js: the random pick of
    `computerMove`/`computerEasyMove`, and the exhaustive search of
    `minmax` and `computerHardMove`, written as functions of the board.
    The methods of `Game.Board` that do the same work in place on
    `gameBoard` are proved equal to these functions. */
module Strategy {
  import opened Rules

  /** `Math.floor(roll * n)` for a `roll` that `Math.random()` returned. */
  function RandomIndex(roll: real, n: nat): (k: nat)
    requires 0.0 <= roll < 1.0 && n > 0
    ensures k < n
  {
    ScaledRollBelow(roll, n);
    (roll * n as real).Floor
  }

  lemma ScaledRollBelow(roll: real, n: nat)
    requires 0.0 <= roll < 1.0 && n > 0
    ensures 0.0 <= roll * n as real < n as real
  {
    assert (1.0 - roll) * n as real > 0.0;
  }

  /** A number as the search uses it: an integer score, or one of the
      starting values `-Infinity` and `Infinity`. */
  datatype ExtInt = NegInf | Fin(n: int) | PosInf

  /** `Math.max(score, best)`. */
  function MaxWith(score: int, best: ExtInt): (r: ExtInt)
    ensures r == PosInf <==> best == PosInf
    ensures best == NegInf ==> r == Fin(score)
    ensures best.Fin? ==> r.Fin? && score <= r.n && best.n <= r.n && (r.n == score || r.n == best.n)
  {
    match best
    case NegInf => Fin(score)
    case Fin(y) => Fin(if score > y then score else y)
    case PosInf => PosInf
  }

  /** `Math.min(score, best)`. */
  function MinWith(score: int, best: ExtInt): (r: ExtInt)
    ensures r == NegInf <==> best == NegInf
    ensures best == PosInf ==> r == Fin(score)
    ensures best.Fin? ==> r.Fin? && r.n <= score && r.n <= best.n && (r.n == score || r.n == best.n)
  {
    match best
    case NegInf => NegInf
    case Fin(y) => Fin(if score < y then score else y)
    case PosInf => Fin(score)
  }

  /** `score > best`. */
  predicate Exceeds(score: int, best: ExtInt) {
    match best
    case NegInf => true
    case Fin(y) => score > y
    case PosInf => false
  }

  /** The starting `bestScore` of the maximising or minimising loop. */
  function Start(isMax: bool): ExtInt {
    if isMax then NegInf else PosInf
  }

  /** A running best never holds the other loop's starting value. */
  predicate OnSide(best: ExtInt, isMax: bool) {
    if isMax then !best.PosInf? else !best.NegInf?
  }

  /** The stone `minmax` tries: player 2 (the computer) when maximising,
      player 1 otherwise. */
  function Mover(isMax: bool, p1: Symbol, p2: Symbol): Symbol {
    if isMax then p2 else p1
  }

  /** `minmax(board, depth, isMaximizing)` with `player1Symbol == p1`
      and `player2Symbol == p2`. */
  function Minimax(b: seq<Cell>, depth: int, isMax: bool, p1: Symbol, p2: Symbol): int
    requires |b| == 9
    decreases |AvailablePositions(b)|, 1, 0
  {
    if CheckWin(b, p1) then -10 + depth
    else if CheckWin(b, p2) then 10 - depth
    else if IsBoardFull(b) then 0
    else BestChild(b, depth, isMax, p1, p2, 0, Start(isMax)).n
  }

  /** The score of the board reached by playing the mover's stone on the
      empty cell `j`, with the other side to move one level deeper. */
  function ChildValue(b: seq<Cell>, depth: int, isMax: bool, p1: Symbol, p2: Symbol, j: nat): int
    requires |b| == 9 && j < 9 && b[j] == Empty
    decreases |AvailablePositions(b)|, 0, 0
  {
    PlaceShrinksAvailable(b, j, Mover(isMax, p1, p2));
    Minimax(b[j := Stone(Mover(isMax, p1, p2))], depth + 1, !isMax, p1, p2)
  }

  /** The loop of `minmax` from cell `i` on, with running best `best`. */
  function BestChild(b: seq<Cell>, depth: int, isMax: bool, p1: Symbol, p2: Symbol,
                     i: nat, best: ExtInt): (r: ExtInt)
    requires |b| == 9 && i <= 9 && OnSide(best, isMax)
    decreases |AvailablePositions(b)|, 0, 9 - i
    ensures (best.Fin? || exists j :: i <= j < 9 && b[j] == Empty) ==> r.Fin?
  {
    if i == 9 then best
    else if b[i] == Empty then
      var score := ChildValue(b, depth, isMax, p1, p2, i);
      BestChild(b, depth, isMax, p1, p2, i + 1,
                if isMax then MaxWith(score, best) else MinWith(score, best))
    else BestChild(b, depth, isMax, p1, p2, i + 1, best)
  }

  /** The board is won by either player or has no empty cell. */
  predicate Terminal(b: seq<Cell>, p1: Symbol, p2: Symbol) {
    CheckWin(b, p1) || CheckWin(b, p2) || IsBoardFull(b)
  }

  /** The values `minmax` gives a finished board; a win by player 1 is
      checked before a win by player 2. */
  lemma MinimaxAtTerminal(b: seq<Cell>, depth: int, isMax: bool, p1: Symbol, p2: Symbol)
    requires |b| == 9 && Terminal(b, p1, p2)
    ensures var v := Minimax(b, depth, isMax, p1, p2);
      (CheckWin(b, p1) ==> v == -10 + depth) &&
      (!CheckWin(b, p1) && CheckWin(b, p2) ==> v == 10 - depth) &&
      (!CheckWin(b, p1) && !CheckWin(b, p2) ==> v == 0)
  {
  }

  /** `v` is at least as good as `x` for the side to move. */
  predicate Dominates(isMax: bool, v: ExtInt, x: int) {
    v.Fin? && if isMax then x <= v.n else v.n <= x
  }

  lemma {:induction false} BestChildIsBest(b: seq<Cell>, depth: int, isMax: bool, p1: Symbol, p2: Symbol,
                                           i: nat, best: ExtInt)
    requires |b| == 9 && i <= 9 && OnSide(best, isMax)
    decreases 9 - i
    ensures var r := BestChild(b, depth, isMax, p1, p2, i, best);
      (best.Fin? ==> Dominates(isMax, r, best.n)) &&
      (forall j :: i <= j < 9 && b[j] == Empty ==> Dominates(isMax, r, ChildValue(b, depth, isMax, p1, p2, j))) &&
      (r == best || exists j :: i <= j < 9 && b[j] == Empty && r == Fin(ChildValue(b, depth, isMax, p1, p2, j)))
  {
    if i < 9 {
      if b[i] == Empty {
        var score := ChildValue(b, depth, isMax, p1, p2, i);
        var next := if isMax then MaxWith(score, best) else MinWith(score, best);
        BestChildIsBest(b, depth, isMax, p1, p2, i + 1, next);
      } else {
        BestChildIsBest(b, depth, isMax, p1, p2, i + 1, best);
      }
    }
  }

  /** Away from a finished board, `minmax` is the best child value for
      the side to move: the largest when maximising, the smallest
      otherwise, and some empty cell attains it. */
  lemma MinimaxIsBestChild(b: seq<Cell>, depth: int, isMax: bool, p1: Symbol, p2: Symbol)
    requires |b| == 9 && !Terminal(b, p1, p2)
    ensures var v := Minimax(b, depth, isMax, p1, p2);
      (exists j :: 0 <= j < 9 && b[j] == Empty && ChildValue(b, depth, isMax, p1, p2, j) == v) &&
      (forall j :: 0 <= j < 9 && b[j] == Empty ==>
         if isMax then ChildValue(b, depth, isMax, p1, p2, j) <= v
         else v <= ChildValue(b, depth, isMax, p1, p2, j))
  {
    BestChildIsBest(b, depth, isMax, p1, p2, 0, Start(isMax));
  }

  /** While every finished position lies within depth 10, the score at
      `depth` lies in [-(10 - depth), 10 - depth]. */
  lemma {:induction false} MinimaxBounds(b: seq<Cell>, depth: int, isMax: bool, p1: Symbol, p2: Symbol)
    requires |b| == 9 && depth + |AvailablePositions(b)| <= 10
    decreases |AvailablePositions(b)|, 1
    ensures -(10 - depth) <= Minimax(b, depth, isMax, p1, p2) <= 10 - depth
  {
    if !Terminal(b, p1, p2) {
      BestChildBounds(b, depth, isMax, p1, p2, 0, Start(isMax));
    }
  }

  /** Without the hypothesis on the empty cells, `depth <= 10` alone
      does not bound the score: at depth 10 with one empty cell left,
      player 2 completing a row scores 10 - 11 = -1, outside [0, 0]. */
  lemma DepthAloneDoesNotBound()
    ensures var b := [Stone(X), Stone(X), Empty,
                      Stone(O), Stone(O), Stone(X),
                      Stone(O), Stone(X), Stone(O)];
      Minimax(b, 10, true, O, X) == -1
  {
    var b := [Stone(X), Stone(X), Empty,
              Stone(O), Stone(O), Stone(X),
              Stone(O), Stone(X), Stone(O)];
    var full := b[2 := Stone(X)];
    assert Owns(full, WinCombos[0], X);
    assert !CheckWin(full, O) by {
      forall m | 0 <= m < |WinCombos| ensures !Owns(full, WinCombos[m], O) {
        OwnsCombo(full, O, m);
      }
    }
    assert !CheckWin(b, O) && !CheckWin(b, X) by {
      forall m | 0 <= m < |WinCombos|
        ensures !Owns(b, WinCombos[m], O) && !Owns(b, WinCombos[m], X)
      {
        OwnsCombo(b, O, m);
        OwnsCombo(b, X, m);
      }
    }
    assert b[2] == Empty;
    assert ChildValue(b, 10, true, O, X, 2) == -1;
    assert BestChild(b, 10, true, O, X, 3, Fin(-1)) == Fin(-1);
  }

  lemma {:induction false} BestChildBounds(b: seq<Cell>, depth: int, isMax: bool, p1: Symbol, p2: Symbol,
                                           i: nat, best: ExtInt)
    requires |b| == 9 && i <= 9 && OnSide(best, isMax) && depth + |AvailablePositions(b)| <= 10
    requires !IsBoardFull(b)
    requires best.Fin? ==> -(10 - depth) <= best.n <= 10 - depth
    decreases |AvailablePositions(b)|, 0, 9 - i
    ensures var r := BestChild(b, depth, isMax, p1, p2, i, best);
      r.Fin? ==> -(10 - depth) <= r.n <= 10 - depth
  {
    if i < 9 {
      var next := best;
      if b[i] == Empty {
        var m := Mover(isMax, p1, p2);
        PlaceShrinksAvailable(b, i, m);
        MinimaxBounds(b[i := Stone(m)], depth + 1, !isMax, p1, p2);
        var score := ChildValue(b, depth, isMax, p1, p2, i);
        next := if isMax then MaxWith(score, best) else MinWith(score, best);
      }
      BestChildBounds(b, depth, isMax, p1, p2, i + 1, next);
    }
  }

  /** `bestMove` before any cell was chosen (`undefined`); `gameBoard`
      has no entry there, so `makeMove` ignores it. */
  const NoMove: int := -1

  /** The score `computerHardMove` gives the empty cell `i`: player 2
      plays there, then `minmax(board, 0, false)`. */
  function MoveScore(b: seq<Cell>, p1: Symbol, p2: Symbol, i: nat): int
    requires |b| == 9 && i < 9 && b[i] == Empty
  {
    Minimax(b[i := Stone(p2)], 0, false, p1, p2)
  }

  lemma {:induction false} AvailableFromAtMost(b: seq<Cell>, k: nat)
    requires k <= |b|
    decreases |b| - k
    ensures |AvailableFrom(b, k)| <= |b| - k
  {
    if k < |b| {
      AvailableFromAtMost(b, k + 1);
    }
  }

  /** The calls `computerHardMove` makes meet the hypothesis of
      `MinimaxBounds`: at depth 0 at most eight cells are empty, so every
      score lies in [-10, 10]. */
  lemma MoveScoreBounded(b: seq<Cell>, p1: Symbol, p2: Symbol, i: nat)
    requires |b| == 9 && i < 9 && b[i] == Empty
    ensures -10 <= MoveScore(b, p1, p2, i) <= 10
  {
    AvailableFromAtMost(b, 0);
    PlaceShrinksAvailable(b, i, p2);
    MinimaxBounds(b[i := Stone(p2)], 0, false, p1, p2);
  }

  /** The score of every cell as `computerHardMove` computes it; an
      occupied cell gets no score and reads 0 here.  Its contract only
      reads the comprehension back: it is the bridge that lets the scan
      below take the scores as one sequence, and says nothing more. */
  function MoveScores(b: seq<Cell>, p1: Symbol, p2: Symbol): (r: seq<int>)
    requires |b| == 9
    ensures |r| == 9
    ensures forall j :: 0 <= j < 9 && b[j] == Empty ==> r[j] == MoveScore(b, p1, p2, j)
  {
    seq(9, j requires 0 <= j < 9 => if b[j] == Empty then MoveScore(b, p1, p2, j) else 0)
  }

  /** The loop of `computerHardMove` from cell `i` on, given the score of
      each cell; the result is the final `bestMove`. */
  function HardScan(b: seq<Cell>, scores: seq<int>, i: nat, bestScore: ExtInt, bestMove: int): (r: int)
    requires |b| == 9 && |scores| == 9 && i <= 9
    decreases 9 - i
    ensures r == bestMove || (i <= r < 9 && b[r] == Empty)
  {
    if i == 9 then bestMove
    else if b[i] == Empty && Exceeds(scores[i], bestScore) then
      HardScan(b, scores, i + 1, Fin(scores[i]), i)
    else HardScan(b, scores, i + 1, bestScore, bestMove)
  }

  /** The cell `computerHardMove` passes to `makeMove`. */
  function HardChoice(b: seq<Cell>, p1: Symbol, p2: Symbol): (r: int)
    requires |b| == 9
    ensures r == NoMove || (0 <= r < 9 && b[r] == Empty)
  {
    HardScan(b, MoveScores(b, p1, p2), 0, NegInf, NoMove)
  }

  /** What the loop of `computerHardMove` knows after cells 0 .. i-1. */
  ghost predicate ScanSoFar(b: seq<Cell>, scores: seq<int>, i: nat, bestScore: ExtInt, bestMove: int)
    requires |b| == 9 && |scores| == 9 && i <= 9
  {
    if bestMove == NoMove then
      bestScore == NegInf && forall j :: 0 <= j < i ==> b[j] != Empty
    else
      0 <= bestMove < i && b[bestMove] == Empty && bestScore == Fin(scores[bestMove]) &&
      (forall j :: 0 <= j < i && b[j] == Empty ==> scores[j] <= scores[bestMove]) &&
      (forall j :: 0 <= j < bestMove && b[j] == Empty ==> scores[j] < scores[bestMove])
  }

  /** Cell `m` is empty, no empty cell scores more, and every empty cell
      before it scores strictly less. */
  ghost predicate FirstBest(b: seq<Cell>, scores: seq<int>, m: int)
    requires |b| == 9 && |scores| == 9
  {
    0 <= m < 9 && b[m] == Empty &&
    (forall j :: 0 <= j < 9 && b[j] == Empty ==> scores[j] <= scores[m]) &&
    (forall j :: 0 <= j < m && b[j] == Empty ==> scores[j] < scores[m])
  }

  lemma {:induction false} HardScanFindsFirstBest(b: seq<Cell>, scores: seq<int>, i: nat,
                                                  bestScore: ExtInt, bestMove: int)
    requires |b| == 9 && |scores| == 9 && i <= 9 && ScanSoFar(b, scores, i, bestScore, bestMove)
    decreases 9 - i
    ensures var m := HardScan(b, scores, i, bestScore, bestMove);
      (IsBoardFull(b) ==> m == NoMove) &&
      (!IsBoardFull(b) ==> FirstBest(b, scores, m))
  {
    if i == 9 {
      if !IsBoardFull(b) {
        var k :| 0 <= k < 9 && b[k] == Empty;
        assert bestMove != NoMove;
      }
    } else if b[i] == Empty && Exceeds(scores[i], bestScore) {
      HardScanFindsFirstBest(b, scores, i + 1, Fin(scores[i]), i);
    } else {
      HardScanFindsFirstBest(b, scores, i + 1, bestScore, bestMove);
    }
  }

  /** `computerHardMove` picks the lowest-indexed empty cell of maximal
      score (the `>` keeps the first of equal scores), and leaves
      `bestMove` undefined on a full board. */
  lemma HardChoiceIsFirstBest(b: seq<Cell>, p1: Symbol, p2: Symbol)
    requires |b| == 9
    ensures IsBoardFull(b) ==> HardChoice(b, p1, p2) == NoMove
    ensures !IsBoardFull(b) ==> FirstBest(b, MoveScores(b, p1, p2), HardChoice(b, p1, p2))
  {
    var scores := MoveScores(b, p1, p2);
    HardScanFindsFirstBest(b, scores, 0, NegInf, NoMove);
  }

  // ---------------------------------------------------------------------
  // Blocking a threat.

  /** The other side's threat, seen from `computerHardMove`: player 1 has
      not won, wins by playing `c`, and by no other empty cell; player 2
      wins by no empty cell. */
  ghost predicate LoneThreat(b: seq<Cell>, p1: Symbol, p2: Symbol, c: nat)
    requires |b| == 9
  {
    p1 != p2 && c < 9 && b[c] == Empty &&
    !CheckWin(b, p1) && CheckWin(b[c := Stone(p1)], p1) &&
    (forall j :: 0 <= j < 9 && b[j] == Empty && j != c ==> !CheckWin(b[j := Stone(p1)], p1)) &&
    (forall j :: 0 <= j < 9 && b[j] == Empty ==> !CheckWin(b[j := Stone(p2)], p2))
  }

  /** Leaving the threat open lets player 1 win at depth 1. */
  lemma OpenThreatLoses(b: seq<Cell>, p1: Symbol, p2: Symbol, c: nat, i: nat)
    requires |b| == 9 && LoneThreat(b, p1, p2, c)
    requires i < 9 && b[i] == Empty && i != c
    ensures MoveScore(b, p1, p2, i) <= -9
  {
    var bi := b[i := Stone(p2)];
    OtherStoneMakesNoWin(b, i, p2, p1);
    assert bi[c] == Empty;
    MinimaxIsBestChild(bi, 0, false, p1, p2);
    assert bi[c := Stone(p1)] == b[c := Stone(p1)][i := Stone(p2)];
    PlacingKeepsWin(b[c := Stone(p1)], i, p2, p1);
    assert ChildValue(bi, 0, false, p1, p2, c) == -9;
  }

  /** After the block at `c` and any reply `j` of player 1, the position
      at depth 1 is worth at least -8 to player 2. */
  lemma ReplyToBlockBounded(b: seq<Cell>, p1: Symbol, p2: Symbol, c: nat, j: nat)
    requires |b| == 9 && LoneThreat(b, p1, p2, c)
    requires j < 9 && b[c := Stone(p2)][j] == Empty
    ensures Minimax(b[c := Stone(p2)][j := Stone(p1)], 1, true, p1, p2) >= -8
  {
    var bc := b[c := Stone(p2)];
    var bj := bc[j := Stone(p1)];
    assert j != c && b[j] == Empty;
    assert bj == b[j := Stone(p1)][c := Stone(p2)];
    OtherStoneMakesNoWin(b[j := Stone(p1)], c, p2, p1);
    OtherStoneMakesNoWin(bc, j, p1, p2);
    if !IsBoardFull(bj) {
      var k :| 0 <= k < 9 && bj[k] == Empty;
      MinimaxIsBestChild(bj, 1, true, p1, p2);
      AvailableFromAtMost(b, 0);
      PlaceShrinksAvailable(b, c, p2);
      PlaceShrinksAvailable(bc, j, p1);
      PlaceShrinksAvailable(bj, k, p2);
      MinimaxBounds(bj[k := Stone(p2)], 2, false, p1, p2);
      assert ChildValue(bj, 1, true, p1, p2, k) >= -8;
    }
  }

  /** Blocking at `c` scores at least -8. */
  lemma BlockScoresAtLeast(b: seq<Cell>, p1: Symbol, p2: Symbol, c: nat)
    requires |b| == 9 && LoneThreat(b, p1, p2, c)
    ensures MoveScore(b, p1, p2, c) >= -8
  {
    var bc := b[c := Stone(p2)];
    OtherStoneMakesNoWin(b, c, p2, p1);
    if !IsBoardFull(bc) {
      MinimaxIsBestChild(bc, 0, false, p1, p2);
      var j :| 0 <= j < 9 && bc[j] == Empty && ChildValue(bc, 0, false, p1, p2, j) == Minimax(bc, 0, false, p1, p2);
      ReplyToBlockBounded(b, p1, p2, c, j);
    }
  }

  /** When player 1 threatens to complete a line at exactly one cell and
      player 2 cannot win at once, `computerHardMove` blocks that cell. */
  lemma HardBlocks(b: seq<Cell>, p1: Symbol, p2: Symbol, c: nat)
    requires |b| == 9 && LoneThreat(b, p1, p2, c)
    ensures HardChoice(b, p1, p2) == c
  {
    forall i | 0 <= i < 9 && b[i] == Empty && i != c
      ensures MoveScore(b, p1, p2, i) <= -9
    {
      OpenThreatLoses(b, p1, p2, c, i);
    }
    BlockScoresAtLeast(b, p1, p2, c);
    HardChoiceIsFirstBest(b, p1, p2);
    var m := HardChoice(b, p1, p2);
    var scores := MoveScores(b, p1, p2);
    assert scores[c] <= scores[m];
  }

  /** The board X X _ / O _ _ / _ _ _: X threatens cell 2 alone. */
  const OneThreat: seq<Cell> :=
    [Stone(X), Stone(X), Empty, Stone(O), Empty, Empty, Empty, Empty, Empty]

  /** No stone of X on a free cell other than 2 completes a line. */
  lemma OneThreatOnlyAtTwo(j: nat)
    requires j < 9 && OneThreat[j] == Empty && j != 2
    ensures !CheckWin(OneThreat[j := Stone(X)], X)
  {
    var bj := OneThreat[j := Stone(X)];
    forall m | 0 <= m < |WinCombos| ensures !Owns(bj, WinCombos[m], X) {
      OwnsCombo(bj, X, m);
    }
  }

  /** No stone of O on a free cell completes a line. */
  lemma OneThreatNoReply(j: nat)
    requires j < 9 && OneThreat[j] == Empty
    ensures !CheckWin(OneThreat[j := Stone(O)], O)
  {
    var bj := OneThreat[j := Stone(O)];
    forall m | 0 <= m < |WinCombos| ensures !Owns(bj, WinCombos[m], O) {
      OwnsCombo(bj, O, m);
    }
  }

  /** The hypothesis of `HardBlocks` can be met: X X _ / O _ _ / _ _ _ is a
      lone threat of X at 2. */
  lemma OneThreatIsLone()
    ensures LoneThreat(OneThreat, X, O, 2)
  {
    var b := OneThreat;
    forall m | 0 <= m < |WinCombos| ensures !Owns(b, WinCombos[m], X) {
      OwnsCombo(b, X, m);
    }
    assert Owns(b[2 := Stone(X)], WinCombos[0], X);
    forall j | 0 <= j < 9 && b[j] == Empty && j != 2
      ensures !CheckWin(b[j := Stone(X)], X)
    {
      OneThreatOnlyAtTwo(j);
    }
    forall j | 0 <= j < 9 && b[j] == Empty
      ensures !CheckWin(b[j := Stone(O)], O)
    {
      OneThreatNoReply(j);
    }
  }

  /** On X X _ / O _ _ / _ _ _ with X as player 1, `computerHardMove`
      blocks at 2. */
  lemma HardBlocksOneThreat()
    ensures HardChoice(OneThreat, X, O) == 2
  {
    OneThreatIsLone();
    HardBlocks(OneThreat, X, O, 2);
  }

  /** The board X X _ / O O _ / _ _ _ used below. */
  const TwoThreats: seq<Cell> :=
    [Stone(X), Stone(X), Empty, Stone(O), Stone(O), Empty, Empty, Empty, Empty]

  lemma TwoThreatsUnfinished()
    ensures !CheckWin(TwoThreats, X) && !CheckWin(TwoThreats, O)
    ensures !CheckWin(TwoThreats[2 := Stone(O)], O)
  {
    var b := TwoThreats;
    forall m | 0 <= m < |WinCombos|
      ensures !Owns(b, WinCombos[m], X) && !Owns(b, WinCombos[m], O)
    {
      OwnsCombo(b, X, m);
      OwnsCombo(b, O, m);
    }
    var b2 := b[2 := Stone(O)];
    forall m | 0 <= m < |WinCombos| ensures !Owns(b2, WinCombos[m], O) {
      OwnsCombo(b2, O, m);
    }
  }

  /** Completing the row at 5 scores 10. */
  lemma TwoThreatsWinScore()
    ensures MoveScore(TwoThreats, X, O, 5) == 10
  {
    TwoThreatsUnfinished();
    OtherStoneMakesNoWin(TwoThreats, 5, O, X);
    assert Owns(TwoThreats[5 := Stone(O)], WinCombos[1], O);
  }

  /** Blocking at 2 does not win at once, so it scores at most 9. */
  lemma TwoThreatsBlockScore()
    ensures MoveScore(TwoThreats, X, O, 2) <= 9
  {
    var b2 := TwoThreats[2 := Stone(O)];
    TwoThreatsUnfinished();
    OtherStoneMakesNoWin(TwoThreats, 2, O, X);
    assert b2[5] == Empty;
    MinimaxIsBestChild(b2, 0, false, X, O);
    var j :| 0 <= j < 9 && b2[j] == Empty && ChildValue(b2, 0, false, X, O, j) == Minimax(b2, 0, false, X, O);
    AvailableFromAtMost(b2[j := Stone(X)], 0);
    MinimaxBounds(b2[j := Stone(X)], 1, true, X, O);
  }

  /** Blocking is not a rule of its own: on X X _ / O O _ / _ _ _ with
      X as player 1, `computerHardMove` completes its own row at 5 rather
      than block X at 2. */
  lemma HardPrefersWinToBlock()
    ensures HardChoice(TwoThreats, X, O) == 5
  {
    var b := TwoThreats;
    TwoThreatsWinScore();
    TwoThreatsBlockScore();
    MoveScoreBounded(b, X, O, 5);
    HardChoiceIsFirstBest(b, X, O);
    var m := HardChoice(b, X, O);
    var scores := MoveScores(b, X, O);
    assert scores[5] <= scores[m];
    if m != 5 {
      MoveScoreBounded(b, X, O, m);
    }
  }
}
