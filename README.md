# Tic-tac-toe `Board` in Dafny

This project models the game logic of the `Board` class of a browser
tic-tac-toe game (script.js). Three files split it up:

- `rules.dfy` (module `Rules`) holds the board and its read-only scans:
  - the nine-cell `gameBoard`;
  - the win test over the eight listed triples (`checkWin`) and the
    winning triple itself (`getWinningCombo`);
  - the full-board test (`isBoardFull`) and the list of empty cells
    (`getAvailablePositions`).

  These are pure functions over `seq<Cell>`. The key lemma says the
  eight triples are exactly the rows, columns and diagonals of the
  3 × 3 grid.
- `strategy.dfy` (module `Strategy`) holds how the computer picks a cell,
  as functions of the board:
  - the random index `Math.floor(Math.random() * n)`;
  - the exhaustive `minmax` search;
  - the scan of `computerHardMove`, which picks the first cell of
    maximal score.

  The `-Infinity`/`Infinity` starting values are the `NegInf`/`PosInf`
  cases of a small datatype.
- `game.dfy` (module `Game`) holds the state machine: `makeMove` with its
  win/draw/switch outcome, `updateScores`, `switchPlayer`, `reset`,
  `assignSymbols`, the three computer levels and the deferred computer
  turn.
  - Every transition is first a function from one `Snapshot` of the
    fields to the next.
  - The class `Game.Board` then holds the fields the game logic reads
    or writes. It adds one field for the click listener and one for the
    pending timer callbacks. It updates `gameBoard` (an `array<Cell>`)
    in place.
  - Each method is proved to move `State()` exactly as its function
    says.
  - `Minmax` and the scoring loop of `ComputerHardMove` are the
    source's place-and-undo loops on the shared array.
  - `Minmax` is proved to leave the array as it found it and to return
    the pure `Minimax`.
  - The loop of `ComputerHardMove` is proved to restore the array and
    to end on the cell `HardChoice` names. The method then plays that
    cell with `MakeMove`, so its final state is `HardMove` of the old.

Inputs from outside the program are parameters:

- Each `Math.random()` is a `real` roll in [0, 1) given by the caller.
- The clicked square's index is an argument of `HandleSquareClick`.
- The click listener is a boolean field `listening`.
- The callbacks handed to `setTimeout` are a counter `scheduledAIMoves`
  (`pending` in a snapshot). The callback itself is the method
  `RunScheduledAIMove`.

The model keeps three behaviours of the code as written:

- `computerMove(playMode)` ignores its argument. So the computer's
  opening move, made from `assignSymbols`, is random at every level
  (`ComputerOpening`).
- `makeMove` has no game-over guard. A finished round removes the click
  listener, so later clicks are ignored. A computer move that was
  already scheduled still plays (see "## Findings").
- `makeMove(undefined)` from `computerHardMove` on a full board does
  nothing. Here `undefined` is `NoMove = -1`, an index the board does
  not have.

## Model

| member | source | states |
|---|---|---|
| Rules.Other | script.js:90 | the other symbol differs from the given one |
| Rules.CheckWin | script.js:298-311 | definition: `checkWin(p)` is the loop over the eight triples from the first |
| Rules.IsBoardFull | script.js:36-38 | definition: no cell of the board is "" |
| Rules.WinsFrom | script.js:305-310 | the loop over the triples from the k-th on is true iff one of those triples is owned by the player |
| Rules.CheckWinIsThreeInARow | script.js:298-311 | `checkWin(p)` holds iff `p` fills a whole row, column or diagonal of the grid |
| Rules.OwnsCombo | script.js:306 | each listed triple has three in-range cells; owning it means holding all three |
| Rules.ComboIsLine | script.js:299-303 | every listed triple is a row, a column or a diagonal |
| Rules.LineIsCombo | script.js:299-303 | every row, column and diagonal is one of the listed triples |
| Rules.WinningComboFrom | script.js:208-214 | null iff no triple from the k-th on is owned; otherwise the first owned triple from there |
| Rules.WinningCombo | script.js:201-215 | non-null iff `checkWin(p)`; when non-null, the first triple in listed order that `p` owns |
| Rules.AvailableFrom | script.js:124 | the indices from `i` on that hold "", all of them, strictly increasing |
| Rules.AvailablePositions | script.js:123-125 | exactly the empty indices, each in range, strictly increasing; empty iff the board is full |
| Rules.AvailableFromAfterPlace | script.js:166-167 | from `k` on, a stone on an empty cell removes one available index if the cell is at or after `k`, and none otherwise |
| Rules.PlaceShrinksAvailable | script.js:166-167 | a stone on an empty cell removes exactly one available position; this is the measure on which `minmax` terminates |
| Rules.PlacingKeepsWin | script.js:166-171 | a stone on an empty cell never undoes a line already won |
| Rules.OtherStoneMakesNoWin | script.js:166-171 | a stone of another symbol never creates a win for a symbol that had none |
| Strategy.RandomIndex | script.js:138 | `Math.floor(roll * n)` is a valid index below `n` for every roll in [0, 1) |
| Strategy.ScaledRollBelow | script.js:138 | a roll in [0, 1) scaled by `n` lies in [0, n) |
| Strategy.MaxWith | script.js:257 | `Math.max(score, best)`: `Infinity` stays `Infinity`, `-Infinity` gives `score`, and a finite result is the larger of the two |
| Strategy.MinWith | script.js:268 | `Math.min(score, best)`: `-Infinity` stays `-Infinity`, `Infinity` gives `score`, and a finite result is the smaller of the two |
| Strategy.Exceeds | script.js:232 | definition: `score > bestScore`, always true against `-Infinity` |
| Strategy.Minimax | script.js:241-273 | definition: the recursive `minmax` that `Game.Board.Minmax` is proved equal to; it terminates on the number of empty cells |
| Strategy.BestChild | script.js:250-272 | the running best of the `minmax` loop ends as a finite score once one child was scored |
| Strategy.MinimaxAtTerminal | script.js:242-248 | at a finished board: a player-1 win (tested first) gives -10+depth, else a player-2 win gives 10-depth, else a full board gives 0 |
| Strategy.BestChildIsBest | script.js:250-272 | the loop's result is at least as good for the mover as the start value and as every child from `i` on, and is attained by the start value or by one of those children |
| Strategy.MinimaxIsBestChild | script.js:250-272 | on an unfinished board the score is the maximum (maximising) or minimum (minimising) over the empty cells of the child scores, and some child attains it |
| Strategy.MinimaxBounds | script.js:241-273 | when depth plus the number of empty cells is at most 10, the score lies in [-(10-depth), 10-depth] |
| Strategy.BestChildBounds | script.js:250-272 | the loop keeps the running best within [-(10-depth), 10-depth] under the same hypothesis |
| Strategy.DepthAloneDoesNotBound | script.js:241-273 | a concrete board at depth 10 with one empty cell whose score is -1, so `depth <= 10` alone does not give the bound |
| Strategy.MoveScore | script.js:229-230 | definition: the score of an empty cell is `minmax` after player 2 plays there, at depth 0, minimising |
| Strategy.MoveScoreBounded | script.js:229-230 | every score `computerHardMove` computes lies in [-10, 10]: its calls meet the hypothesis of `MinimaxBounds` |
| Strategy.HardScan | script.js:227-237 | definition of the scan from cell `i` on: the result is the `bestMove` passed in or an empty cell at or after `i` |
| Strategy.HardChoice | script.js:224-239 | definition: the cell `computerHardMove` passes to `makeMove`, which is `undefined` (`NoMove`) or an empty cell |
| Strategy.HardScanFindsFirstBest | script.js:227-237 | the scan from any consistent partial state ends on `undefined` for a full board, and otherwise on the lowest-indexed empty cell of maximal score |
| Strategy.HardChoiceIsFirstBest | script.js:224-239 | `computerHardMove` picks `undefined` on a full board; otherwise it picks an empty cell that no empty cell outscores and that every earlier empty cell scores strictly below (the first-index tie-break of `>`), with the `MoveScore` of each empty cell as its score |
| Strategy.OpenThreatLoses | script.js:241-273 | when player 1 has a winning cell and the computer plays anywhere else, the score `minmax` gives is at most -9: player 1 then wins at depth 1 |
| Strategy.ReplyToBlockBounded | script.js:241-273 | after the computer blocks a lone threat and player 1 replies on any empty cell, the maximising score is at least -8: no reply wins at depth 1 |
| Strategy.BlockScoresAtLeast | script.js:229-230 | the score `computerHardMove` gives the blocking cell of a lone threat is at least -8 |
| Strategy.HardBlocks | script.js:224-239 | when player 1 threatens to win on exactly one cell, neither player has won, and the computer cannot win at once, `computerHardMove` plays that cell |
| Strategy.OneThreatIsLone | script.js:166-171 | the hypothesis of `HardBlocks` can be met: on X X _ / O _ _ / _ _ _, X threatens cell 2 and no other cell; O wins on no free cell |
| Strategy.HardBlocksOneThreat | script.js:224-239 | on that board, with X as player 1 and O as the computer, `computerHardMove` blocks at cell 2 |
| Strategy.TwoThreatsUnfinished | script.js:241-247 | on the board X X _ / O O _ / _ _ _ nobody has won and O on cell 2 wins nothing |
| Strategy.TwoThreatsWinScore | script.js:241-245 | on that board, O on cell 5 scores 10 |
| Strategy.TwoThreatsBlockScore | script.js:241-273 | on that board, O on cell 2 (the block) scores at most 9 |
| Strategy.HardPrefersWinToBlock | script.js:224-239 | on that board, with X as player 1 and O as the computer, `computerHardMove` plays cell 5 and wins rather than block X on cell 2 |
| Game.Scored | script.js:102-109 | the winner's score goes up by one, nothing else changes, and the symbols and the mode are kept |
| Game.Switched | script.js:290-291 | the turn passes to the other symbol and nothing else changes |
| Game.Placed | script.js:165-187 | `makeMove` keeps the symbol invariant and the game setup |
| Game.Settled | script.js:171-185 | the outcome step keeps the symbol invariant and the game setup |
| Game.HandedOver | script.js:182-184 | scheduling the computer's move keeps the symbol invariant and the game setup |
| Game.Clicked | script.js:332-338 | `handleSquareClick` keeps the symbol invariant and the game setup |
| Game.Cleared | script.js:62-64 | `reset` keeps the symbol invariant and the game setup |
| Game.ClearedFreesEveryCell | script.js:62-64 | after `reset` the available positions are 0..8 in order and player 1 moves; scores, symbols and listener are unchanged |
| Game.RandomMove | script.js:145-151 | the random move keeps the symbol invariant and the game setup |
| Game.HardMove | script.js:224-239 | the hard move keeps the symbol invariant and the game setup |
| Game.MediumMove | script.js:217-223 | the medium move keeps the symbol invariant and the game setup |
| Game.ComputerOpening | script.js:127-141 | the opening move keeps the symbol invariant and the game setup |
| Game.ScheduledMoveRun | script.js:189-199 | the deferred computer turn keeps the symbol invariant and the game setup |
| Game.SymbolsAssigned | script.js:87-99 | after `assignSymbols` the symbol invariant holds whatever the state was before |
| Game.Opened | script.js:95-98 | the computer's opening keeps the symbol invariant and the game setup |
| Game.Begun | script.js:24-34 | after `beginGame` the symbol invariant holds and clicks are listened to |
| Game.EmptyBoardAvailableFrom | script.js:124 | on an all-empty board, the available positions from `k` on are k, k+1, … in order |
| Game.PlacedFillsOneCell | script.js:165-167 | on an occupied or out-of-range cell nothing changes; otherwise only that cell changes, to the mover's stone, and one available position fewer remains |
| Game.PlacedNeverOverwrites | script.js:166 | a stone already on the board is never replaced |
| Game.PlacedOutcome | script.js:171-185 | a win gives the mover exactly one point, keeps the turn and removes the click listener; a draw keeps scores and turn and removes the click listener; otherwise the turn passes to the other symbol and scores are unchanged |
| Game.PlacedSchedulesComputer | script.js:180-184 | in a computer game a non-final move by player 1 schedules exactly one computer move; a move by player 2, or any move in a game between people, schedules none |
| Game.FinishedRoundIgnoresClicks | script.js:171-179 | after a winning or drawing move, every click leaves the whole state unchanged |
| Game.CompletingALineWins | script.js:166-176 | filling the last cell of a listed triple whose other two cells the mover holds wins, keeps the turn, removes the click listener and adds one point in total |
| Game.RandomMoveTakesFreeCell | script.js:145-151 | the random move is a `makeMove` on some empty cell, and does nothing on a full board |
| Game.HardMovePlaysFirstBest | script.js:224-239 | the hard move does nothing on a full board; otherwise it is `makeMove` on the first best-scoring empty cell |
| Game.ScheduledMovePlaysAfterRoundEnds | script.js:189-198 | as written, a pending easy computer move still plays on a board the last move has won: it changes the board and adds a second point |
| Game.LateComputerMoveExample | script.js:182-198 | the concrete game of the finding below: after the click the round is won and one move is pending, and the pending move then adds a stone and a second point |
| Game.GuardedMoveRun | script.js:189-199 | the corrected callback: it keeps the symbol invariant and the game setup |
| Game.GuardedMoveRunKeepsFinishedRound | script.js:189-199 | with the guard, a pending computer move at any level leaves the board, the turn and the scores of a won or drawn round unchanged |
| Game.CancellingReset | script.js:62-64 | the corrected `reset`: the symbol invariant and the game setup are kept, and no computer move is left pending |
| Game.OneStoneWinsNothing | script.js:298-311 | one stone on an otherwise empty board wins nothing for either symbol and does not fill the board |
| Game.NewRoundHasNoStaleMove | script.js:24-34 | after the cancelling reset and `beginGame`, no move is pending, including after the computer's opening move, and clicks are listened to; so no move of the earlier round can reach the new board |
| Game.GuardedClick | script.js:332-338 | the corrected click handler: it keeps the symbol invariant and the game setup |
| Game.GuardedClickWaitsForComputer | script.js:180-184 | with the guarded click, after player 1's non-final move in a computer game the computer is to move, a move is pending, and every click leaves the state unchanged |
| Game.AssignedSymbolsAreXAndO | script.js:87-95 | the players hold X and O in some order, player 1 holds X iff the roll is below 0.5, and without a computer opening the board is untouched and the chosen starter is to move |
| Game.Board.constructor | script.js:3-16 | an empty board, X to move, player 1 X and player 2 O, zero scores, a game between people, no play mode |
| Game.Board.Reset | script.js:62-67 | the new state is `Cleared` of the old |
| Game.Board.AssignSymbols | script.js:87-99 | the new state is `SymbolsAssigned` of the old |
| Game.Board.UpdateScores | script.js:102-109 | the new state is `Scored` of the old |
| Game.Board.MakeComputerMove | script.js:127-133 | the new state is `ComputerOpening` of the old |
| Game.Board.ComputerMove | script.js:135-141 | the new state is `RandomMove` of the old, whatever the play mode passed |
| Game.Board.ComputerEasyMove | script.js:145-151 | the new state is `RandomMove` of the old |
| Game.Board.MakeMove | script.js:165-187 | the new state is `Placed` of the old |
| Game.Board.MakeAIMove | script.js:189-190 | one more computer move is pending and nothing else changes |
| Game.Board.RunScheduledAIMove | script.js:190-198 | the new state is `ScheduledMoveRun` of the old |
| Game.Board.ComputerMediumMove | script.js:217-223 | the new state is `MediumMove` of the old |
| Game.Board.ComputerHardMove | script.js:224-239 | the trial stones are undone and the new state is `HardMove` of the old |
| Game.Board.Minmax | script.js:241-273 | the array is restored exactly, and the result is `Minimax` of the board as passed in |
| Game.Board.SwitchPlayer | script.js:290-295 | the new state is `Switched` of the old |
| Game.Board.AttachEventListeners | script.js:83-85 | clicks are listened to and nothing else changes |
| Game.Board.DisableBoard | script.js:328-330 | clicks are no longer listened to and nothing else changes |
| Game.Board.HandleSquareClick | script.js:332-338 | the new state is `Clicked` of the old: a `makeMove` on the square while listening, otherwise nothing |
| Game.Board.BeginGame | script.js:24-34 | the new state is `Begun` of the old |

## Left out

- Strategy.MinimaxBounds: the bound is proved under the hypothesis that depth plus the number of empty cells is at most 10, not for every `depth <= 10`. `DepthAloneDoesNotBound` gives a board where `depth <= 10` alone fails. The calls `computerHardMove` makes meet the hypothesis, and `MoveScoreBounded` proves it.
- Game.Board.Minmax: its win and full-board tests read `gameBoard`, but its loop walks its `board` argument. Only the case where `board` is `gameBoard` is modelled, because that is the only way the program calls it.
- Display work has no logic to verify and is left out: `createBoardUI`, `clearBoardUI`, `updateBoardUI`, `displayBoard`, `updateScoreDisplay`, `displayMessage`, `highlightWinningLine`, `showHeader`, `hideNonGameElements` and the style changes in `beginGame`.
- `setPlayers` and the player names are left out, because they only feed the display.
- Which square was clicked (the event-target lookup in `handleSquareClick`) is left out. The index is an argument, so an arbitrary integer covers both a square index and -1.
- The page wiring and button handlers after the class (script.js:343 on) are not part of this model. This includes how `isHumanGame` and `selectedPlayMode` get their values.
- Console logging is left out. This includes the `console.error` that `makeComputerMove` writes for an unknown play mode (script.js:131). `ComputerOpening` models only that nothing else happens then.
- The 500 ms delay of `setTimeout` is left out. A pending computer move is a counter, and its callback is a separate method that runs when the caller decides.
- `Math.random` is left out: no probability distribution is modelled. Each roll is a parameter in [0, 1), with exact real arithmetic instead of floating point.
- There is no "hard mode never loses" theorem. The code does not claim it, and proving it needs the whole game tree.
- Strategy.HardBlocks: blocking is proved only for a lone threat, where the computer has no winning cell and player 1 has exactly one. An unrestricted "the hard computer always blocks an open two-in-a-row" is false of the code: `HardPrefersWinToBlock` gives a board where it wins instead, and with two open threats only one can be blocked.
- Strategy.MoveScores gives an occupied cell the score 0. The source computes no score there, and no lemma reads that entry.

## Findings

| source | as written | input that shows it | evidently intended | confidence | as-written member | corrected member |
|---|---|---|---|---|---|---|
| script.js:189-198 | the `setTimeout` callback of `makeAIMove` plays the computer's move without checking that the round is still going; after player 1's move the listener stays on, so a click during the delay plays for the computer and can end the round | X the person, O the computer on Easy; board O O _ / X X _ / X _ _ with O to move and one move pending; a click on cell 2 wins for O, and the pending move then plays O on cell 5 and gives O a second point | no move outlives its round: a computer move that comes due after the round ended is dropped, `reset` cancels the moves still pending, and clicks wait while a computer move is pending | medium, not executed | Game.ScheduledMovePlaysAfterRoundEnds | Game.GuardedMoveRunKeepsFinishedRound |

The class `Game.Board` keeps the code as written: `RunScheduledAIMove` is proved to equal `ScheduledMoveRun`. The correction has three parts, and each comes with its own lemma:

- `GuardedMoveRun` is the corrected callback. `GuardedMoveRunKeepsFinishedRound` proves that a won or drawn round stays as it ended.
- `CancellingReset` is the corrected `reset`. `NewRoundHasNoStaleMove` proves that after it and `beginGame` no move of the earlier round is pending.
- `GuardedClick` is the corrected click handler. `GuardedClickWaitsForComputer` proves that a click cannot play for the computer while its move is pending.

These are what guarded versions of the class methods would be proved against.
