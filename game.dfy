/** The state machine of the `Board` class in script.js: placing a stone,
    deciding win, draw or turn switch, the scores, the random assignment
    of symbols, and the computer's turns.

    `Snapshot` holds the fields of `Board` that the game logic reads or
    writes, plus one for the click listener and one for the pending timer
    callbacks, and each operation is first a function from one snapshot
    to the next.  The class `Board` at the end holds the same fields,
    updates them in place as the source does, and each of its methods is
    proved to move its snapshot exactly as the matching function says.

    Two things of the browser become fields: `listening` stands for the
    click listener that `attachEventListeners` adds and `disableBoard`
    removes, and `pending` for the computer moves that `makeAIMove` has
    handed to `setTimeout` and that have not run yet.  Every
    `Math.random()` is a `real` roll in [0, 1) given by the caller. */
module Game {
  import opened Rules
  import opened Strategy

  /** `selectedPlayMode`: null until a computer game starts, then the
      value of the play-mode selector. */
  datatype PlayMode = Unselected | Easy | Medium | Hard | Unrecognised

  /** Every field of a `Board` that the game logic reads or writes. */
  datatype Snapshot = Snapshot(
    board: seq<Cell>,    // gameBoard
    current: Symbol,     // currentPlayer
    p1: Symbol,          // player1Symbol
    p2: Symbol,          // player2Symbol
    score1: nat,         // player1Score
    score2: nat,         // player2Score
    human: bool,         // isHumanGame
    mode: PlayMode,      // selectedPlayMode
    listening: bool,     // the click listener is attached
    pending: nat)        // computer moves scheduled and not yet run

  /** The symbol invariant: the two players hold different symbols and
      the player to move is one of them. */
  predicate Consistent(s: Snapshot) {
    |s.board| == 9 && s.p1 != s.p2 && (s.current == s.p1 || s.current == s.p2)
  }

  /** The players' symbols, the kind of game and the play mode, which no
      move changes. */
  predicate SameSetup(s: Snapshot, t: Snapshot) {
    t.p1 == s.p1 && t.p2 == s.p2 && t.human == s.human && t.mode == s.mode
  }

  const EmptyBoard: seq<Cell> := [Empty, Empty, Empty, Empty, Empty, Empty, Empty, Empty, Empty]

  /** `updateScores(winner)`. */
  function Scored(s: Snapshot, winner: Symbol): (t: Snapshot)
    requires Consistent(s)
    ensures Consistent(t) && SameSetup(s, t)
    ensures winner == s.p1 ==> t == s.(score1 := s.score1 + 1)
    ensures winner == s.p2 ==> t == s.(score2 := s.score2 + 1)
  {
    if winner == s.p1 then s.(score1 := s.score1 + 1)
    else if winner == s.p2 then s.(score2 := s.score2 + 1)
    else s
  }

  /** `switchPlayer()`. */
  function Switched(s: Snapshot): (t: Snapshot)
    requires Consistent(s)
    ensures Consistent(t) && t.current != s.current
    ensures t == s.(current := t.current)
  {
    s.(current := if s.current == s.p1 then s.p2 else s.p1)
  }

  /** `makeMove(position)`: a stone only on an empty cell, then the
      outcome. */
  function Placed(s: Snapshot, position: int): (t: Snapshot)
    requires Consistent(s)
    ensures Consistent(t) && SameSetup(s, t)
  {
    if 0 <= position < |s.board| && s.board[position] == Empty then
      Settled(s.(board := s.board[position := Stone(s.current)]))
    else s
  }

  /** What `makeMove` does once the stone is down: a win (score and
      listener removed), a draw (listener removed), or the other player's
      turn. */
  function Settled(s: Snapshot): (t: Snapshot)
    requires Consistent(s)
    ensures Consistent(t) && SameSetup(s, t)
  {
    if CheckWin(s.board, s.current) then Scored(s, s.current).(listening := false)
    else if IsBoardFull(s.board) then s.(listening := false)
    else HandedOver(Switched(s))
  }

  /** After `switchPlayer`, a computer game schedules the computer's move
      when player 2 is to move. */
  function HandedOver(s: Snapshot): (t: Snapshot)
    requires Consistent(s)
    ensures Consistent(t) && SameSetup(s, t)
  {
    if !s.human && s.current == s.p2 then s.(pending := s.pending + 1) else s
  }

  /** `handleSquareClick` on square `index`: only while the listener is
      attached. */
  function Clicked(s: Snapshot, index: int): (t: Snapshot)
    requires Consistent(s)
    ensures Consistent(t) && SameSetup(s, t)
  {
    if s.listening then Placed(s, index) else s
  }

  /** `reset()`: player 1 to move on an empty board. */
  function Cleared(s: Snapshot): (t: Snapshot)
    requires Consistent(s)
    ensures Consistent(t) && SameSetup(s, t)
  {
    s.(board := EmptyBoard, current := s.p1)
  }

  /** After `reset()` all nine cells are available and player 1 moves;
      scores, symbols and the listener are as before. */
  lemma ClearedFreesEveryCell(s: Snapshot)
    requires Consistent(s)
    ensures var t := Cleared(s);
      |AvailablePositions(t.board)| == 9 &&
      (forall j :: 0 <= j < 9 ==> AvailablePositions(t.board)[j] == j) &&
      t.current == s.p1 && t == s.(board := t.board, current := t.current)
  {
    var t := Cleared(s);
    assert t.board == EmptyBoard;
    EmptyBoardAvailable();
  }

  /** Every cell of the empty board is available, in order. */
  lemma EmptyBoardAvailable()
    ensures |AvailablePositions(EmptyBoard)| == 9
    ensures forall j :: 0 <= j < 9 ==> AvailablePositions(EmptyBoard)[j] == j
  {
    assert forall i :: 0 <= i < |EmptyBoard| ==> EmptyBoard[i] == Empty;
    EmptyBoardAvailableFrom(EmptyBoard, 0);
    assert AvailablePositions(EmptyBoard) == AvailableFrom(EmptyBoard, 0);
  }

  lemma {:induction false} EmptyBoardAvailableFrom(b: seq<Cell>, k: nat)
    requires k <= |b| && forall i :: 0 <= i < |b| ==> b[i] == Empty
    decreases |b| - k
    ensures |AvailableFrom(b, k)| == |b| - k
    ensures forall j :: 0 <= j < |b| - k ==> AvailableFrom(b, k)[j] == k + j
  {
    if k < |b| {
      EmptyBoardAvailableFrom(b, k + 1);
      var r := AvailableFrom(b, k);
      assert r == [k] + AvailableFrom(b, k + 1);
      forall j | 0 <= j < |b| - k ensures r[j] == k + j {
        if j > 0 {
          assert r[j] == AvailableFrom(b, k + 1)[j - 1];
        }
      }
    }
  }

  /** `computerEasyMove()` and `computerMove(playMode)`: the available
      position at `Math.floor(roll * n)`, nothing when there is none. */
  function RandomMove(s: Snapshot, roll: real): (t: Snapshot)
    requires Consistent(s) && 0.0 <= roll < 1.0
    ensures Consistent(t) && SameSetup(s, t)
  {
    var free := AvailablePositions(s.board);
    if |free| > 0 then Placed(s, free[RandomIndex(roll, |free|)]) else s
  }

  /** `computerHardMove()`. */
  function HardMove(s: Snapshot): (t: Snapshot)
    requires Consistent(s)
    ensures Consistent(t) && SameSetup(s, t)
  {
    Placed(s, HardChoice(s.board, s.p1, s.p2))
  }

  /** `computerMediumMove()`: a coin `Math.random() < 0.5` between the
      easy and the hard move. */
  function MediumMove(s: Snapshot, coin: real, roll: real): (t: Snapshot)
    requires Consistent(s) && 0.0 <= roll < 1.0
    ensures Consistent(t) && SameSetup(s, t)
  {
    if coin < 0.5 then RandomMove(s, roll) else HardMove(s)
  }

  /** `makeComputerMove()`: for a known play mode, `computerMove`, which
      plays at random whatever the mode; otherwise nothing. */
  function ComputerOpening(s: Snapshot, roll: real): (t: Snapshot)
    requires Consistent(s) && 0.0 <= roll < 1.0
    ensures Consistent(t) && SameSetup(s, t)
  {
    if s.mode == Easy || s.mode == Medium || s.mode == Hard then RandomMove(s, roll) else s
  }

  /** The callback `makeAIMove()` handed to `setTimeout`, when it runs. */
  function ScheduledMoveRun(s: Snapshot, coin: real, roll: real): (t: Snapshot)
    requires Consistent(s) && s.pending > 0 && 0.0 <= roll < 1.0
    ensures Consistent(t) && SameSetup(s, t)
  {
    var s1 := s.(pending := s.pending - 1);
    match s.mode
    case Easy => RandomMove(s1, roll)
    case Medium => MediumMove(s1, coin, roll)
    case Hard => HardMove(s1)
    case _ => s1
  }

  /** `assignSymbols()`: `symbols[Math.floor(symbolRoll * 2)]` for
      player 1, the other symbol for player 2, a coin for who starts,
      and the computer's opening move when it starts a computer game. */
  function SymbolsAssigned(s: Snapshot, symbolRoll: real, startRoll: real, moveRoll: real): (t: Snapshot)
    requires |s.board| == 9
    requires 0.0 <= symbolRoll < 1.0 && 0.0 <= moveRoll < 1.0
    ensures Consistent(t)
  {
    var p1 := [X, O][RandomIndex(symbolRoll, 2)];
    Opened(s.(p1 := p1, p2 := Other(p1), current := if startRoll < 0.5 then p1 else Other(p1)), moveRoll)
  }

  /** The end of `assignSymbols()`: the computer opens a computer game
      when its symbol starts. */
  function Opened(s: Snapshot, moveRoll: real): (t: Snapshot)
    requires Consistent(s) && 0.0 <= moveRoll < 1.0
    ensures Consistent(t) && SameSetup(s, t)
  {
    if !s.human && s.current == s.p2 then ComputerOpening(s, moveRoll) else s
  }

  /** `beginGame()` without its display work: symbols, then the listener. */
  function Begun(s: Snapshot, symbolRoll: real, startRoll: real, moveRoll: real): (t: Snapshot)
    requires |s.board| == 9
    requires 0.0 <= symbolRoll < 1.0 && 0.0 <= moveRoll < 1.0
    ensures Consistent(t) && t.listening
  {
    SymbolsAssigned(s, symbolRoll, startRoll, moveRoll).(listening := true)
  }

  // ---------------------------------------------------------------------
  // Properties of the transitions.

  /** `makeMove` ignores an occupied or out-of-range cell entirely;
      otherwise it fills exactly that cell with the mover's stone, keeps
      every other cell, and leaves one empty cell fewer. */
  lemma PlacedFillsOneCell(s: Snapshot, position: int)
    requires Consistent(s)
    ensures var t := Placed(s, position);
      if 0 <= position < 9 && s.board[position] == Empty then
        t.board[position] == Stone(s.current) &&
        (forall i :: 0 <= i < 9 && i != position ==> t.board[i] == s.board[i]) &&
        |AvailablePositions(t.board)| == |AvailablePositions(s.board)| - 1 &&
        t.p1 == s.p1 && t.p2 == s.p2 && t.human == s.human && t.mode == s.mode
      else t == s
  {
    if 0 <= position < 9 && s.board[position] == Empty {
      PlaceShrinksAvailable(s.board, position, s.current);
    }
  }

  /** A stone once on the board stays there. */
  lemma PlacedNeverOverwrites(s: Snapshot, position: int, i: int)
    requires Consistent(s) && 0 <= i < 9 && s.board[i] != Empty
    ensures Placed(s, position).board[i] == s.board[i]
  {
  }

  /** The outcome of an accepted move: a win gives the mover exactly one
      point and keeps the turn, a draw changes neither scores nor turn,
      and otherwise the turn passes to the other symbol with the scores
      unchanged. */
  lemma PlacedOutcome(s: Snapshot, position: int)
    requires Consistent(s) && 0 <= position < 9 && s.board[position] == Empty
    ensures var t := Placed(s, position);
      var mover := s.current;
      if CheckWin(t.board, mover) then
        t.current == mover && !t.listening && t.pending == s.pending &&
        (mover == s.p1 ==> t.score1 == s.score1 + 1 && t.score2 == s.score2) &&
        (mover == s.p2 ==> t.score2 == s.score2 + 1 && t.score1 == s.score1)
      else if IsBoardFull(t.board) then
        t.current == mover && !t.listening && t.pending == s.pending &&
        t.score1 == s.score1 && t.score2 == s.score2
      else
        t.current == Other(mover) && t.listening == s.listening &&
        t.score1 == s.score1 && t.score2 == s.score2
  {
    var t := Placed(s, position);
    assert t.board == s.board[position := Stone(s.current)];
  }

  /** In a computer game, a move by player 1 that does not end the round
      schedules exactly one computer move; a move by player 2 (the
      computer's symbol) never schedules one, and in a game between two
      people nothing is ever scheduled. */
  lemma PlacedSchedulesComputer(s: Snapshot, position: int)
    requires Consistent(s)
    ensures var t := Placed(s, position);
      (s.human || s.current == s.p2 ==> t.pending == s.pending) &&
      (!s.human && s.current == s.p1 && t.board != s.board &&
       !CheckWin(t.board, s.p1) && !IsBoardFull(t.board) ==>
         t.pending == s.pending + 1 && t.current == s.p2)
  {
  }

  /** Once a move ends the round, the listener is gone and every later
      click leaves the whole state unchanged. */
  lemma FinishedRoundIgnoresClicks(s: Snapshot, position: int, index: int)
    requires Consistent(s) && 0 <= position < 9 && s.board[position] == Empty
    requires var t := Placed(s, position); CheckWin(t.board, s.current) || IsBoardFull(t.board)
    ensures Clicked(Placed(s, position), index) == Placed(s, position)
  {
    PlacedOutcome(s, position);
  }

  /** Filling the last empty cell of a listed triple the mover already
      holds two cells of wins the round and scores one point. */
  lemma CompletingALineWins(s: Snapshot, k: nat, position: int)
    requires Consistent(s) && k < |WinCombos| && position in WinCombos[k]
    requires s.board[position] == Empty
    requires forall j :: j in WinCombos[k] && j != position ==> s.board[j] == Stone(s.current)
    ensures var t := Placed(s, position);
      CheckWin(t.board, s.current) && t.current == s.current && !t.listening &&
      t.score1 + t.score2 == s.score1 + s.score2 + 1
  {
    var b := s.board[position := Stone(s.current)];
    OwnsCombo(b, s.current, k);
    var c := WinCombos[k];
    assert c[0] in c && c[1] in c && c[2] in c;
    assert Owns(b, c, s.current);
  }

  /** The easy move fills one empty cell when there is one, and changes
      nothing on a full board. */
  lemma RandomMoveTakesFreeCell(s: Snapshot, roll: real)
    requires Consistent(s) && 0.0 <= roll < 1.0
    ensures IsBoardFull(s.board) ==> RandomMove(s, roll) == s
    ensures !IsBoardFull(s.board) ==>
      exists i :: 0 <= i < 9 && s.board[i] == Empty && RandomMove(s, roll) == Placed(s, i)
  {
    var free := AvailablePositions(s.board);
    if |free| > 0 {
      var i := free[RandomIndex(roll, |free|)];
      assert 0 <= i < 9 && s.board[i] == Empty;
    }
  }

  /** The hard move plays the first best-scoring empty cell, and on a
      full board leaves everything as it was. */
  lemma HardMovePlaysFirstBest(s: Snapshot)
    requires Consistent(s)
    ensures IsBoardFull(s.board) ==> HardMove(s) == s
    ensures !IsBoardFull(s.board) ==>
      exists m :: FirstBest(s.board, MoveScores(s.board, s.p1, s.p2), m) && HardMove(s) == Placed(s, m)
  {
    HardChoiceIsFirstBest(s.board, s.p1, s.p2);
  }

  // ---------------------------------------------------------------------
  // A computer move scheduled before the round ended.

  /** As written, the callback of `makeAIMove` does not look at the
      listener: when the round has been won while a computer move was
      pending (a click during the delay, with the computer's symbol to
      move), the easy move still plays a stone on the finished board and
      scores the winner a second point. */
  lemma ScheduledMovePlaysAfterRoundEnds(s: Snapshot, position: int, roll: real)
    requires Consistent(s) && s.mode == Easy && s.pending > 0 && 0.0 <= roll < 1.0
    requires 0 <= position < 9 && s.board[position] == Empty
    requires var b := s.board[position := Stone(s.current)];
      CheckWin(b, s.current) && !IsBoardFull(b)
    ensures var t := Placed(s, position);
      t.pending == s.pending && !t.listening &&
      var u := ScheduledMoveRun(t, 0.0, roll);
      u.board != t.board && u.score1 + u.score2 == t.score1 + t.score2 + 1
  {
    var t := Placed(s, position);
    PlacedOutcome(s, position);
    var t1 := t.(pending := t.pending - 1);
    var free := AvailablePositions(t1.board);
    var i := free[RandomIndex(roll, |free|)];
    assert 0 <= i < 9 && t.board[i] == Empty;
    PlacingKeepsWin(t.board, i, t.current, s.current);
    assert ScheduledMoveRun(t, 0.0, roll) == Placed(t1, i);
    var u := Placed(t1, i);
    assert u.board[i] != t.board[i];
  }

  /** The same in a concrete game: X is the person, O the computer on
      Easy.  After X's move the computer's turn is pending and O is to
      move; a click on cell 2 during the delay completes O's top row and
      scores a point, and the pending move then still puts a stone on the
      board and scores a second point for the same round. */
  lemma LateComputerMoveExample(s: Snapshot)
    requires s == Snapshot([Stone(O), Stone(O), Empty, Stone(X), Stone(X), Empty,
                            Stone(X), Empty, Empty], O, X, O, 0, 0, false, Easy, true, 1)
    ensures var t := Clicked(s, 2);
      t.pending == 1 && t.score1 + t.score2 == 1 && !t.listening &&
      var u := ScheduledMoveRun(t, 0.0, 0.0);
      u.board != t.board && u.score1 + u.score2 == 2
  {
    var b := s.board[2 := Stone(O)];
    assert Owns(b, WinCombos[0], O);
    assert b[5] == Empty;
    ScheduledMovePlaysAfterRoundEnds(s, 2, 0.0);
    PlacedOutcome(s, 2);
  }

  // The corrected behaviour has three parts: the callback drops a move
  // that comes due after the round ended, `reset` cancels the moves still
  // pending, and a click waits while a computer move is pending.

  /** The callback with the guard the end of a round evidently calls for:
      once the listener is removed, a pending computer move is dropped. */
  function GuardedMoveRun(s: Snapshot, coin: real, roll: real): (t: Snapshot)
    requires Consistent(s) && s.pending > 0 && 0.0 <= roll < 1.0
    ensures Consistent(t) && SameSetup(s, t)
  {
    if s.listening then ScheduledMoveRun(s, coin, roll) else s.(pending := s.pending - 1)
  }

  /** With the guard, a round that a move has won or drawn stays as it
      ended: a pending computer move changes neither board nor scores nor
      turn, whichever level plays. */
  lemma GuardedMoveRunKeepsFinishedRound(s: Snapshot, position: int, coin: real, roll: real)
    requires Consistent(s) && s.pending > 0 && 0.0 <= roll < 1.0
    requires 0 <= position < 9 && s.board[position] == Empty
    requires var b := s.board[position := Stone(s.current)];
      CheckWin(b, s.current) || IsBoardFull(b)
    ensures var t := Placed(s, position);
      t.pending == s.pending &&
      var u := GuardedMoveRun(t, coin, roll);
      u.board == t.board && u.current == t.current &&
      u.score1 == t.score1 && u.score2 == t.score2
  {
    PlacedOutcome(s, position);
  }

  /** `reset` with the corrected effect on the timer queue: the computer
      moves still pending from the last round are cancelled. */
  function CancellingReset(s: Snapshot): (t: Snapshot)
    requires Consistent(s)
    ensures Consistent(t) && SameSetup(s, t) && t.pending == 0
  {
    Cleared(s).(pending := 0)
  }

  /** One stone on an otherwise empty board wins nothing and does not
      fill it. */
  lemma OneStoneWinsNothing(i: nat, q: Symbol, p: Symbol)
    requires i < 9
    ensures !CheckWin(EmptyBoard[i := Stone(q)], p)
    ensures !IsBoardFull(EmptyBoard[i := Stone(q)])
  {
    var b := EmptyBoard[i := Stone(q)];
    forall m | 0 <= m < |WinCombos| ensures !Owns(b, WinCombos[m], p) {
      OwnsCombo(b, p, m);
      var c := WinCombos[m];
      assert c[0] != c[1];
    }
    assert b[if i == 0 then 1 else 0] == Empty;
  }

  /** After the cancelling reset and `beginGame`, nothing of the earlier
      round is pending, so no stale computer move can reach the new
      board; the computer's opening move, if any, schedules nothing
      either, and clicks are listened to. */
  lemma NewRoundHasNoStaleMove(s: Snapshot, symbolRoll: real, startRoll: real, moveRoll: real)
    requires Consistent(s) && 0.0 <= symbolRoll < 1.0 && 0.0 <= moveRoll < 1.0
    ensures var n := Begun(CancellingReset(s), symbolRoll, startRoll, moveRoll);
      n.pending == 0 && n.listening
  {
    var r := CancellingReset(s);
    var p1 := [X, O][RandomIndex(symbolRoll, 2)];
    var a := r.(p1 := p1, p2 := Other(p1), current := if startRoll < 0.5 then p1 else Other(p1));
    assert SymbolsAssigned(r, symbolRoll, startRoll, moveRoll) == Opened(a, moveRoll);
    if !a.human && a.current == a.p2 && (a.mode == Easy || a.mode == Medium || a.mode == Hard) {
      assert a.board == EmptyBoard && a.board[0] == Empty;
      RandomMoveTakesFreeCell(a, moveRoll);
      var i :| 0 <= i < 9 && a.board[i] == Empty && RandomMove(a, moveRoll) == Placed(a, i);
      OneStoneWinsNothing(i, a.current, a.current);
    }
  }

  /** The click handler with the corrected guard: a click waits while a
      computer move is pending, so the person never plays the computer's
      stone. */
  function GuardedClick(s: Snapshot, index: int): (t: Snapshot)
    requires Consistent(s)
    ensures Consistent(t) && SameSetup(s, t)
  {
    if s.listening && s.pending == 0 then Placed(s, index) else s
  }

  /** With the guarded click, once player 1's move in a computer game
      hands the turn to the computer, no click changes anything until the
      computer has moved. */
  lemma GuardedClickWaitsForComputer(s: Snapshot, position: int, index: int)
    requires Consistent(s) && !s.human && s.current == s.p1
    requires 0 <= position < 9 && s.board[position] == Empty
    requires var b := s.board[position := Stone(s.current)];
      !CheckWin(b, s.current) && !IsBoardFull(b)
    ensures var t := Placed(s, position);
      t.current == s.p2 && t.pending > 0 && GuardedClick(t, index) == t
  {
    PlacedOutcome(s, position);
    PlacedSchedulesComputer(s, position);
  }

  /** Whatever it was before, the symbol invariant holds after
      `assignSymbols`: the players hold X and O in some order and one of
      them is to move. */
  lemma AssignedSymbolsAreXAndO(s: Snapshot, symbolRoll: real, startRoll: real, moveRoll: real)
    requires |s.board| == 9 && 0.0 <= symbolRoll < 1.0 && 0.0 <= moveRoll < 1.0
    ensures var t := SymbolsAssigned(s, symbolRoll, startRoll, moveRoll);
      {t.p1, t.p2} == {X, O} && (t.p1 == X <==> symbolRoll < 0.5)
    ensures var t := SymbolsAssigned(s, symbolRoll, startRoll, moveRoll);
      s.human || startRoll < 0.5 ==>
        t.board == s.board && t.current == (if startRoll < 0.5 then t.p1 else t.p2)
  {
    var k := RandomIndex(symbolRoll, 2);
    assert k == 0 <==> symbolRoll < 0.5;
  }

  // ---------------------------------------------------------------------
  // The object.

  class Board {
    const gameBoard: array<Cell>
    var currentPlayer: Symbol
    var player1Score: nat
    var player2Score: nat
    var isHumanGame: bool
    var player1Symbol: Symbol
    var player2Symbol: Symbol
    var selectedPlayMode: PlayMode
    var listening: bool
    var scheduledAIMoves: nat

    ghost function State(): Snapshot
      reads this, gameBoard
    {
      Snapshot(gameBoard[..], currentPlayer, player1Symbol, player2Symbol,
               player1Score, player2Score, isHumanGame, selectedPlayMode,
               listening, scheduledAIMoves)
    }

    ghost predicate Valid()
      reads this, gameBoard
    {
      gameBoard.Length == 9 && Consistent(State())
    }

    constructor ()
      ensures Valid() && fresh(gameBoard)
      ensures State() == Snapshot(EmptyBoard, X, X, O, 0, 0, true, Unselected, false, 0)
    {
      gameBoard := new Cell[9](_ => Empty);
      currentPlayer := X;
      player1Score, player2Score := 0, 0;
      isHumanGame := true;
      player1Symbol, player2Symbol := X, O;
      selectedPlayMode := Unselected;
      listening := false;
      scheduledAIMoves := 0;
      new;
      assert gameBoard[..] == EmptyBoard;
    }

    method Reset()
      requires Valid()
      modifies this, gameBoard
      ensures Valid() && State() == Cleared(old(State()))
    {
      currentPlayer := player1Symbol;
      forall i | 0 <= i < gameBoard.Length {
        gameBoard[i] := Empty;
      }
      assert gameBoard[..] == EmptyBoard;
    }

    method AssignSymbols(symbolRoll: real, startRoll: real, moveRoll: real)
      requires gameBoard.Length == 9
      requires 0.0 <= symbolRoll < 1.0 && 0.0 <= startRoll < 1.0 && 0.0 <= moveRoll < 1.0
      modifies this, gameBoard
      ensures Valid() && State() == SymbolsAssigned(old(State()), symbolRoll, startRoll, moveRoll)
    {
      var symbols := [X, O];
      player1Symbol := symbols[RandomIndex(symbolRoll, |symbols|)];
      player2Symbol := if player1Symbol == X then O else X;
      currentPlayer := if startRoll < 0.5 then player1Symbol else player2Symbol;
      if !isHumanGame && currentPlayer == player2Symbol {
        MakeComputerMove(moveRoll);
      }
    }

    method UpdateScores(winner: Symbol)
      requires Valid()
      modifies this
      ensures Valid() && State() == Scored(old(State()), winner)
    {
      if winner == player1Symbol {
        player1Score := player1Score + 1;
      } else if winner == player2Symbol {
        player2Score := player2Score + 1;
      }
    }

    method MakeComputerMove(roll: real)
      requires Valid() && 0.0 <= roll < 1.0
      modifies this, gameBoard
      ensures Valid() && State() == ComputerOpening(old(State()), roll)
    {
      if selectedPlayMode == Easy || selectedPlayMode == Medium || selectedPlayMode == Hard {
        ComputerMove(selectedPlayMode, roll);
      }
    }

    /** Plays at random whatever `playMode` says. */
    method ComputerMove(playMode: PlayMode, roll: real)
      requires Valid() && 0.0 <= roll < 1.0
      modifies this, gameBoard
      ensures Valid() && State() == RandomMove(old(State()), roll)
    {
      var availablePositions := AvailablePositions(gameBoard[..]);
      if |availablePositions| > 0 {
        var randomIndex := RandomIndex(roll, |availablePositions|);
        MakeMove(availablePositions[randomIndex]);
      }
    }

    method ComputerEasyMove(roll: real)
      requires Valid() && 0.0 <= roll < 1.0
      modifies this, gameBoard
      ensures Valid() && State() == RandomMove(old(State()), roll)
    {
      var availablePositions := AvailablePositions(gameBoard[..]);
      if |availablePositions| > 0 {
        var randomIndex := RandomIndex(roll, |availablePositions|);
        MakeMove(availablePositions[randomIndex]);
      }
    }

    method MakeMove(position: int)
      requires Valid()
      modifies this, gameBoard
      ensures Valid() && State() == Placed(old(State()), position)
    {
      if 0 <= position < gameBoard.Length && gameBoard[position] == Empty {
        gameBoard[position] := Stone(currentPlayer);
        if CheckWin(gameBoard[..], currentPlayer) {
          UpdateScores(currentPlayer);
          DisableBoard();
        } else if IsBoardFull(gameBoard[..]) {
          DisableBoard();
        } else {
          SwitchPlayer();
          if !isHumanGame && currentPlayer == player2Symbol {
            MakeAIMove();
          }
        }
      }
    }

    /** Hands the computer's move to `setTimeout`; `RunScheduledAIMove`
        is the callback. */
    method MakeAIMove()
      modifies this
      ensures scheduledAIMoves == old(scheduledAIMoves) + 1
      ensures State() == old(State()).(pending := old(scheduledAIMoves) + 1)
    {
      scheduledAIMoves := scheduledAIMoves + 1;
    }

    method RunScheduledAIMove(coin: real, roll: real)
      requires Valid() && scheduledAIMoves > 0
      requires 0.0 <= coin < 1.0 && 0.0 <= roll < 1.0
      modifies this, gameBoard
      ensures Valid() && State() == ScheduledMoveRun(old(State()), coin, roll)
    {
      scheduledAIMoves := scheduledAIMoves - 1;
      assert State() == old(State()).(pending := old(scheduledAIMoves) - 1);
      if selectedPlayMode == Easy {
        ComputerEasyMove(roll);
      } else if selectedPlayMode == Medium {
        ComputerMediumMove(coin, roll);
      } else if selectedPlayMode == Hard {
        ComputerHardMove();
      }
    }

    method ComputerMediumMove(coin: real, roll: real)
      requires Valid() && 0.0 <= coin < 1.0 && 0.0 <= roll < 1.0
      modifies this, gameBoard
      ensures Valid() && State() == MediumMove(old(State()), coin, roll)
    {
      if coin < 0.5 {
        ComputerEasyMove(roll);
      } else {
        ComputerHardMove();
      }
    }

    /** Scores every empty cell for player 2 with `Minmax`, undoing each
        trial stone, and plays the first cell with the best score. */
    method ComputerHardMove()
      requires Valid()
      modifies this, gameBoard
      ensures Valid() && State() == HardMove(old(State()))
    {
      ghost var b := gameBoard[..];
      ghost var scores := MoveScores(b, player1Symbol, player2Symbol);
      var bestScore := NegInf;
      var bestMove := NoMove;
      var i := 0;
      while i < gameBoard.Length
        modifies gameBoard
        invariant 0 <= i <= 9 && gameBoard[..] == b
        invariant HardScan(b, scores, i, bestScore, bestMove)
               == HardChoice(b, player1Symbol, player2Symbol)
      {
        if gameBoard[i] == Empty {
          gameBoard[i] := Stone(player2Symbol);
          var score := Minmax(gameBoard, 0, false);
          gameBoard[i] := Empty;
          assert gameBoard[..] == b;
          if Exceeds(score, bestScore) {
            bestScore := Fin(score);
            bestMove := i;
          }
        }
        i := i + 1;
      }
      MakeMove(bestMove);
    }

    /** `minmax(board, depth, isMaximizing)`.  Its win and full-board
        tests read `gameBoard` while its loop walks `board`; every call
        passes `gameBoard` itself, so the two are one array here.  The
        maximising and minimising loops of the source differ only in the
        stone they try and in max against min, so they share one loop. */
    method Minmax(board: array<Cell>, depth: int, isMaximizing: bool) returns (score: int)
      requires Valid() && board == gameBoard
      modifies board
      decreases |AvailablePositions(board[..])|
      ensures board[..] == old(board[..])
      ensures score == Minimax(old(board[..]), depth, isMaximizing, player1Symbol, player2Symbol)
    {
      if CheckWin(gameBoard[..], player1Symbol) {
        return -10 + depth;
      } else if CheckWin(gameBoard[..], player2Symbol) {
        return 10 - depth;
      } else if IsBoardFull(gameBoard[..]) {
        return 0;
      }
      ghost var b := board[..];
      var stone := Mover(isMaximizing, player1Symbol, player2Symbol);
      var bestScore := Start(isMaximizing);
      var i := 0;
      while i < board.Length
        invariant 0 <= i <= 9 && board[..] == b
        invariant OnSide(bestScore, isMaximizing)
        invariant BestChild(b, depth, isMaximizing, player1Symbol, player2Symbol, i, bestScore)
               == BestChild(b, depth, isMaximizing, player1Symbol, player2Symbol, 0, Start(isMaximizing))
      {
        if board[i] == Empty {
          board[i] := Stone(stone);
          PlaceShrinksAvailable(b, i, stone);
          var childScore := Minmax(board, depth + 1, !isMaximizing);
          board[i] := Empty;
          assert board[..] == b;
          bestScore := if isMaximizing then MaxWith(childScore, bestScore) else MinWith(childScore, bestScore);
        }
        i := i + 1;
      }
      score := bestScore.n;
    }

    method SwitchPlayer()
      requires Valid()
      modifies this
      ensures Valid() && State() == Switched(old(State()))
    {
      currentPlayer := if currentPlayer == player1Symbol then player2Symbol else player1Symbol;
    }

    method AttachEventListeners()
      modifies this
      ensures State() == old(State()).(listening := true)
    {
      listening := true;
    }

    method DisableBoard()
      modifies this
      ensures State() == old(State()).(listening := false)
    {
      listening := false;
    }

    /** The click handler, given the index of the clicked square. */
    method HandleSquareClick(squareIndex: int)
      requires Valid()
      modifies this, gameBoard
      ensures Valid() && State() == Clicked(old(State()), squareIndex)
    {
      if listening {
        MakeMove(squareIndex);
      }
    }

    /** `beginGame()` without its display work. */
    method BeginGame(symbolRoll: real, startRoll: real, moveRoll: real)
      requires gameBoard.Length == 9
      requires 0.0 <= symbolRoll < 1.0 && 0.0 <= startRoll < 1.0 && 0.0 <= moveRoll < 1.0
      modifies this, gameBoard
      ensures Valid() && State() == Begun(old(State()), symbolRoll, startRoll, moveRoll)
    {
      AssignSymbols(symbolRoll, startRoll, moveRoll);
      AttachEventListeners();
    }
  }
}
