/** The board of the `Board` class in script.js and its read-only scans:
    the win test over the eight fixed lines, the winning line itself, the
    full-board test and the list of empty cells.  A board is the
    nine-element `gameBoard` array, read here as a sequence; index `i`
    is row `i / 3`, column `i % 3`. */
module Rules {

  /** The two stones, "X" and "O". */
  datatype Symbol = X | O

  /** One entry of `gameBoard`: "" or a symbol. */
  datatype Cell = Empty | Stone(sym: Symbol)

  datatype Option<T> = None | Some(value: T)

  /** The symbol that is not `p` (`p === "X" ? "O" : "X"`). */
  function Other(p: Symbol): (q: Symbol)
    ensures q != p
  {
    if p == X then O else X
  }

  /** The eight triples listed in `checkWin` and `getWinningCombo`, in
      their order: three rows, three columns, two diagonals. */
  const WinCombos: seq<seq<nat>> :=
    [[0, 1, 2], [3, 4, 5], [6, 7, 8],
     [0, 3, 6], [1, 4, 7], [2, 5, 8],
     [0, 4, 8], [2, 4, 6]]

  /** `combo.every(index => gameBoard[index] === player)`; an index past
      the end reads `undefined`, which is no player. */
  predicate Owns(b: seq<Cell>, combo: seq<nat>, p: Symbol) {
    forall j :: 0 <= j < |combo| ==> combo[j] < |b| && b[combo[j]] == Stone(p)
  }

  /** The loop of `checkWin`, from the `k`-th triple on. */
  function WinsFrom(b: seq<Cell>, p: Symbol, k: nat): (r: bool)
    requires k <= |WinCombos|
    decreases |WinCombos| - k
    ensures r <==> exists m :: k <= m < |WinCombos| && Owns(b, WinCombos[m], p)
  {
    if k == |WinCombos| then false
    else if Owns(b, WinCombos[k], p) then true
    else WinsFrom(b, p, k + 1)
  }

  /** `checkWin(player)`. */
  predicate CheckWin(b: seq<Cell>, p: Symbol) {
    WinsFrom(b, p, 0)
  }

  /** Triple `m` is owned by `p` and no earlier triple is. */
  ghost predicate FirstOwned(b: seq<Cell>, p: Symbol, m: nat) {
    m < |WinCombos| && Owns(b, WinCombos[m], p) &&
    forall m' :: 0 <= m' < m ==> !Owns(b, WinCombos[m'], p)
  }

  /** The loop of `getWinningCombo`, from the `k`-th triple on. */
  function WinningComboFrom(b: seq<Cell>, p: Symbol, k: nat): (r: Option<seq<nat>>)
    requires k <= |WinCombos|
    decreases |WinCombos| - k
    ensures r.None? <==> forall m :: k <= m < |WinCombos| ==> !Owns(b, WinCombos[m], p)
    ensures r.Some? ==>
      exists m :: k <= m < |WinCombos| && r.value == WinCombos[m] &&
        Owns(b, WinCombos[m], p) &&
        forall m' :: k <= m' < m ==> !Owns(b, WinCombos[m'], p)
  {
    if k == |WinCombos| then None
    else if Owns(b, WinCombos[k], p) then Some(WinCombos[k])
    else WinningComboFrom(b, p, k + 1)
  }

  /** `getWinningCombo(player)`: null exactly when `checkWin(player)` is
      false; otherwise the first listed triple that `player` fills. */
  function WinningCombo(b: seq<Cell>, p: Symbol): (r: Option<seq<nat>>)
    ensures r.Some? <==> CheckWin(b, p)
    ensures r.Some? ==> exists m: nat :: FirstOwned(b, p, m) && r.value == WinCombos[m]
  {
    WinningComboFrom(b, p, 0)
  }

  /** `isBoardFull()`: no cell is "". */
  predicate IsBoardFull(b: seq<Cell>) {
    forall i :: 0 <= i < |b| ==> b[i] != Empty
  }

  /** The indices of the empty cells from `i` on, in increasing order. */
  function AvailableFrom(b: seq<Cell>, i: nat): (r: seq<nat>)
    requires i <= |b|
    decreases |b| - i
    ensures forall j :: 0 <= j < |r| ==> i <= r[j] < |b| && b[r[j]] == Empty
    ensures forall k :: i <= k < |b| && b[k] == Empty ==> k in r
    ensures forall j, j' :: 0 <= j < j' < |r| ==> r[j] < r[j']
  {
    if i == |b| then []
    else if b[i] == Empty then [i] + AvailableFrom(b, i + 1)
    else AvailableFrom(b, i + 1)
  }

  /** `getAvailablePositions()`: the map to index-or-null followed by the
      filter that drops the nulls. */
  function AvailablePositions(b: seq<Cell>): (r: seq<nat>)
    ensures forall j :: 0 <= j < |r| ==> r[j] < |b| && b[r[j]] == Empty
    ensures forall k :: 0 <= k < |b| && b[k] == Empty ==> k in r
    ensures forall j, j' :: 0 <= j < j' < |r| ==> r[j] < r[j']
    ensures |r| == 0 <==> IsBoardFull(b)
  {
    var r := AvailableFrom(b, 0);
    assert !IsBoardFull(b) ==> |r| > 0 by {
      if !IsBoardFull(b) {
        var k :| 0 <= k < |b| && b[k] == Empty;
        assert k in r;
      }
    }
    assert |r| > 0 ==> !IsBoardFull(b) by {
      if |r| > 0 {
        assert b[r[0]] == Empty;
      }
    }
    r
  }

  lemma {:induction false} AvailableFromAfterPlace(b: seq<Cell>, i: nat, p: Symbol, k: nat)
    requires i < |b| && b[i] == Empty && k <= |b|
    decreases |b| - k
    ensures |AvailableFrom(b[i := Stone(p)], k)| == |AvailableFrom(b, k)| - (if k <= i then 1 else 0)
  {
    if k < |b| {
      AvailableFromAfterPlace(b, i, p, k + 1);
    }
  }

  /** Placing a stone on an empty cell removes exactly one available
      position; this is the measure that makes the minimax search end. */
  lemma PlaceShrinksAvailable(b: seq<Cell>, i: nat, p: Symbol)
    requires i < |b| && b[i] == Empty
    ensures |AvailablePositions(b[i := Stone(p)])| == |AvailablePositions(b)| - 1
  {
    AvailableFromAfterPlace(b, i, p, 0);
  }

  /** Putting a stone on an empty cell never breaks a line already won. */
  lemma PlacingKeepsWin(b: seq<Cell>, i: nat, q: Symbol, p: Symbol)
    requires i < |b| && b[i] == Empty && CheckWin(b, p)
    ensures CheckWin(b[i := Stone(q)], p)
  {
    var m :| 0 <= m < |WinCombos| && Owns(b, WinCombos[m], p);
    assert Owns(b[i := Stone(q)], WinCombos[m], p);
  }

  /** A stone of the other symbol never creates a win: a line `p` owns
      afterwards was owned before. */
  lemma OtherStoneMakesNoWin(b: seq<Cell>, i: nat, q: Symbol, p: Symbol)
    requires i < |b| && q != p
    ensures CheckWin(b[i := Stone(q)], p) ==> CheckWin(b, p)
  {
    if CheckWin(b[i := Stone(q)], p) {
      var m :| 0 <= m < |WinCombos| && Owns(b[i := Stone(q)], WinCombos[m], p);
      assert Owns(b, WinCombos[m], p);
    }
  }

  // The same eight lines described on the 3 x 3 grid.

  function At(b: seq<Cell>, row: nat, col: nat): Cell
    requires |b| == 9 && row < 3 && col < 3
  {
    b[3 * row + col]
  }

  ghost predicate RowFilled(b: seq<Cell>, p: Symbol, row: nat)
    requires |b| == 9 && row < 3
  {
    forall col: nat :: col < 3 ==> At(b, row, col) == Stone(p)
  }

  ghost predicate ColumnFilled(b: seq<Cell>, p: Symbol, col: nat)
    requires |b| == 9 && col < 3
  {
    forall row: nat :: row < 3 ==> At(b, row, col) == Stone(p)
  }

  ghost predicate DiagonalFilled(b: seq<Cell>, p: Symbol)
    requires |b| == 9
  {
    forall k: nat :: k < 3 ==> At(b, k, k) == Stone(p)
  }

  ghost predicate AntiDiagonalFilled(b: seq<Cell>, p: Symbol)
    requires |b| == 9
  {
    forall row: nat, col: nat :: row < 3 && col < 3 && row + col == 2 ==> At(b, row, col) == Stone(p)
  }

  /** `p` fills a whole row, a whole column or one of the two diagonals. */
  ghost predicate ThreeInARow(b: seq<Cell>, p: Symbol)
    requires |b| == 9
  {
    (exists row: nat :: row < 3 && RowFilled(b, p, row)) ||
    (exists col: nat :: col < 3 && ColumnFilled(b, p, col)) ||
    DiagonalFilled(b, p) || AntiDiagonalFilled(b, p)
  }

  /** Owning a listed triple is owning its three cells. */
  lemma OwnsCombo(b: seq<Cell>, p: Symbol, m: nat)
    requires |b| == 9 && m < |WinCombos|
    ensures var c := WinCombos[m];
      |c| == 3 && c[0] < 9 && c[1] < 9 && c[2] < 9 &&
      (Owns(b, c, p) <==> b[c[0]] == Stone(p) && b[c[1]] == Stone(p) && b[c[2]] == Stone(p))
  {
    var c := WinCombos[m];
    assert |c| == 3 && c[0] < 9 && c[1] < 9 && c[2] < 9;
    if b[c[0]] == Stone(p) && b[c[1]] == Stone(p) && b[c[2]] == Stone(p) {
      forall j | 0 <= j < |c| ensures c[j] < |b| && b[c[j]] == Stone(p) {
        assert j == 0 || j == 1 || j == 2;
      }
    }
  }

  lemma ComboIsLine(b: seq<Cell>, p: Symbol, m: nat)
    requires |b| == 9 && m < |WinCombos| && Owns(b, WinCombos[m], p)
    ensures ThreeInARow(b, p)
  {
    OwnsCombo(b, p, m);
    if m < 3 {
      assert RowFilled(b, p, m);
    } else if m < 6 {
      assert ColumnFilled(b, p, m - 3);
    } else if m == 6 {
      assert DiagonalFilled(b, p);
    } else {
      assert AntiDiagonalFilled(b, p);
    }
  }

  lemma LineIsCombo(b: seq<Cell>, p: Symbol)
    requires |b| == 9 && ThreeInARow(b, p)
    ensures exists m :: 0 <= m < |WinCombos| && Owns(b, WinCombos[m], p)
  {
    var m: nat;
    if row: nat :| row < 3 && RowFilled(b, p, row) {
      assert At(b, row, 0) == Stone(p) && At(b, row, 1) == Stone(p) && At(b, row, 2) == Stone(p);
      m := row;
    } else if col: nat :| col < 3 && ColumnFilled(b, p, col) {
      assert At(b, 0, col) == Stone(p) && At(b, 1, col) == Stone(p) && At(b, 2, col) == Stone(p);
      m := 3 + col;
    } else if DiagonalFilled(b, p) {
      assert At(b, 0, 0) == Stone(p) && At(b, 1, 1) == Stone(p) && At(b, 2, 2) == Stone(p);
      m := 6;
    } else {
      assert At(b, 0, 2) == Stone(p) && At(b, 1, 1) == Stone(p) && At(b, 2, 0) == Stone(p);
      m := 7;
    }
    OwnsCombo(b, p, m);
  }

  /** The eight listed triples are exactly the rows, columns and
      diagonals of the grid. */
  lemma CheckWinIsThreeInARow(b: seq<Cell>, p: Symbol)
    requires |b| == 9
    ensures CheckWin(b, p) <==> ThreeInARow(b, p)
  {
    if CheckWin(b, p) {
      var m :| 0 <= m < |WinCombos| && Owns(b, WinCombos[m], p);
      ComboIsLine(b, p, m);
    }
    if ThreeInARow(b, p) {
      LineIsCombo(b, p);
    }
  }
}
