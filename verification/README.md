# Bingo boards of Advent of Code 2021, day 4

This project models the bingo engine of `day_4/main.rs`. A board holds a
grid of numbers and a grid of "chosen" flags. Choosing a number marks
every cell that holds it. A board wins once some row or some column is
fully marked. Its score is the drawn number times the sum of its unmarked
numbers. `task1` plays the draws in order against every board and returns
the score of the first board to win. `task2` plays the same game but stops
marking a board once it has won, and returns the score of the last board
to win.

The model has six modules:

- `Options` (options.dfy): the `Option` result of the drivers.
- `Grid` (grid.dfy): `transpose`, plus the row tests that `is_winning` is
  built from.
- `Boards` (board.dfy): the `Board` record and its methods, and the board
  construction done in `parse_boards`.
- `Events` (events.dfy): the bookkeeping of `task2`, stated over an
  abstract win table. Here `w(d, j)` means board `j` wins at draw `d`.
- `Game` (game.dfy): the two drivers.
- `Example` (example.dfy): the example game of the unit tests, on which
  the drivers are proved to score 4512 and 1924.

Each driver is written as the source iterates, draw by draw and board by
board. It is proved equal to a description of the game that does not
iterate, in which board `j` at draw `d` is the initial board with the
draws `draws[..d+1]` chosen (`Game.ChooseAll`). A driver that finds no
winner returns `None` where the source panics.

The source builds the flag grid of a board with the dimensions swapped,
as `number_of_columns` rows of `number_of_rows` flags. This only works
for square boards. The model keeps that construction as written
(`Boards.NewBoardAsWritten`) and proves when it breaks. The rest of the
model uses the intended rows×columns construction (`Boards.NewBoard`),
which agrees with the written one on square boards. The drivers accept
any list of boards in which every board, taken on its own, is rectangular
with at least one row and has a flag grid of its own shape
(`Boards.AllWellFormed`). The boards need not share one shape.

## Model

| member | source | states |
|---|---|---|
| Grid.Transpose | day_4/main.rs:73-81 | on a non-empty grid whose rows all reach the first row's length, the result has one row per column of the input, and cell (i, j) of the result is cell (j, i) of the input |
| Grid.TransposeTwice | day_4/main.rs:73-81 | transposing a rectangular grid with at least one column twice gives back the same grid |
| Grid.AllTrue | day_4/main.rs:60 | a row passes exactly when every one of its flags is set, and the empty row passes |
| Grid.HasFullRow | day_4/main.rs:58-62 | true exactly when some row has all its flags set |
| Boards.Choose | day_4/main.rs:50-56 | accepts any board in which every number row holding a number has a flag row at least as long, since flags are indexed only inside the loop over a row's cells. The numbers are unchanged and the flag grid keeps its shape. A flag is set afterwards exactly when it was set before or its cell holds the chosen number. A well-formed board stays well-formed |
| Boards.ChooseIdempotent | day_4/main.rs:50-56 | choosing the same number twice has the same effect as choosing it once |
| Boards.ChooseCommutes | day_4/main.rs:50-56 | the order in which two numbers are chosen does not matter |
| Boards.ChooseKeepsMarks | day_4/main.rs:53 | the flag update is an or-assignment, so choosing never clears a mark |
| Boards.IsWinning | day_4/main.rs:57-64 | true exactly when some row is fully chosen or some column is fully chosen. The column test goes through `transpose` and runs only when no row is full |
| Boards.WinningMonotone | day_4/main.rs:57-64 | for any board `is_winning` can test (a full row, or flags `transpose` accepts), a board with at least its marks, in the same flag shape, can be tested too, and is winning if the first one is |
| Boards.ChooseKeepsWinning | day_4/main.rs:50-64 | for any board `choose` can mark and `is_winning` can test, the chosen board can still be tested, and a winning board stays winning after any further number is chosen. A well-formed board stays well-formed |
| Boards.SumOfNotChosen | day_4/main.rs:65-69 | the sum of the unchosen numbers, paired cell by cell, never exceeds the sum of all numbers |
| Boards.SumSplitsTotal | day_4/main.rs:65-69 | on a well-formed board, the unchosen sum plus the sum of the chosen cells is the total of the grid |
| Boards.ChooseDropsSum | day_4/main.rs:50-69 | on any board `choose` can mark, choosing `n` lowers the unchosen sum by exactly `n` times the number of unchosen cells that hold `n` |
| Boards.ChooseLowersSum | day_4/main.rs:50-69 | on any board `choose` can mark, choosing `n` lowers the unchosen sum by exactly `n` times the number of unchosen cells that hold `n`, so the sum never rises. A well-formed board stays well-formed |
| Boards.NewBoardAsWritten | day_4/main.rs:101-106 | the construction as written keeps the numbers and allocates as many flag rows as the first row has numbers, each as long as the number of rows, with every flag unset |
| Boards.AsWrittenCoversIffSquare | day_4/main.rs:101-106 | on a rectangular grid, the flag grid built as written covers every number cell (so `choose` cannot index out of range) exactly when the grid is square or has no numbers, and is well-formed exactly when the grid is square |
| Boards.AsWrittenRaggedPlays | day_4/main.rs:50-64 | the ragged grid `[[1], []]` (a block whose second line holds only spaces) built as written can be marked, and drawing 1 makes it win by its first column |
| Boards.AsWrittenBlankPanics | day_4/main.rs:63-74 | the grid `[[]]` built as written can be marked, but has neither a full flag row nor a flag grid `transpose` accepts, so `is_winning` falls outside `Boards.IsWinning`'s precondition |
| Boards.AsWrittenFailsOnOneByTwo | day_4/main.rs:105-106 | for the 1×2 grid `[[1, 2]]` the flags built as written do not cover the numbers |
| Boards.NewBoard | day_4/main.rs:101-106 | the intended construction gives a well-formed board with the given numbers and no flag set |
| Boards.AsWrittenAgreesOnSquare | day_4/main.rs:101-106 | on a square grid the two constructions give the same board |
| Boards.FreshBoard | day_4/main.rs:101-106 | a fresh board with at least one column is not winning, and its unchosen sum is the total of its numbers |
| Boards.NewBoards | day_4/main.rs:109-110 | one board per parsed grid, in order, all of them well-formed |
| Game.ChooseAll | day_4/main.rs:153-155 | after a sequence of draws, a flag is set exactly when it was set at the start or its number is among the draws. Well-formedness is kept |
| Game.WinsAtMonotone | day_4/main.rs:154-156 | without skipping, a board that wins at some draw also wins at every later draw |
| Game.LastWinUnique | day_4/main.rs:168-178 | at most one (draw, board) pair is the last win event |
| Game.FirstRound | day_4/main.rs:154-159 | when the inner loop of `task1` runs to the end without a winner, it returns as many boards as it got, all well-formed |
| Game.FirstRoundCorrect | day_4/main.rs:154-159 | if every earlier pair lost, the inner loop either reports the score of the first winning pair of this draw, at some board from the one it starts at, or returns each board with the draws so far chosen and no board winning at this draw |
| Game.FirstFromCorrect | day_4/main.rs:153-161 | the outer loop of `task1` from draw `k` on returns `None` exactly when no board ever wins. Otherwise it returns the score of the first winning pair in draw-then-board order |
| Game.FirstWinnerScore | day_4/main.rs:152-162 | `task1` gives `None` (the source panics) exactly when no board wins at any draw. Otherwise it gives the drawn number times the unchosen sum of the first board to win, at the first draw at which any board wins |
| Game.LastStep | day_4/main.rs:170-177 | a board already in the won set is left alone. Otherwise only board `i` changes, the won set grows by at most `i`, and the last score changes only when `i` has just won |
| Game.LastRound | day_4/main.rs:169-178 | during a draw the won set only grows, and boards that had already won stay exactly as they were |
| Game.LastStepCorrect | day_4/main.rs:170-177 | one step of the inner loop of `task2` keeps the bookkeeping invariant: unwon boards have not won yet, won boards had their win event earlier, and the last score is that of the latest win event visited |
| Game.LastRoundCorrect | day_4/main.rs:169-178 | the inner loop for draw `k` takes the invariant at the board it starts from to the invariant at the first board of draw `k + 1` |
| Game.LastFromCorrect | day_4/main.rs:168-180 | the outer loop of `task2` returns `None` exactly when no board ever wins. Otherwise it returns the score of the last win event |
| Game.LastFromNext | day_4/main.rs:168-179 | one draw of the outer loop of `task2` takes the bookkeeping invariant at the first board of a draw to the first board of the next draw |
| Game.LastFromEnd | day_4/main.rs:180 | once every draw is played, the last score is `None` exactly when no board ever won, and otherwise the score of the last win event |
| Game.LastWinnerScore | day_4/main.rs:164-181 | `task2` gives `None` (the failed `expect`) exactly when no board ever wins. Otherwise it gives the score of the board whose first win comes last, where a win counts at the earliest draw at which the board's marks complete a line and a tie at one draw goes to the higher index |
| Game.FirstWinFrom | day_4/main.rs:153-158 | a pair at which a board wins is the first win when every board before it at that draw, and every board from it on at the previous draw, loses |
| Game.FirstWinnerIs | day_4/main.rs:152-162 | if a pair is the first win, `task1` reports exactly its score |
| Game.LastWinFrom | day_4/main.rs:168-176 | a pair at which a board wins, but did not at the previous draw, is the last win event when every other board had already won at an earlier pair |
| Game.LastWinnerIs | day_4/main.rs:164-181 | if a pair is the last win event, `task2` reports exactly its score |
| Game.FirstWinPrecedesLastWin | day_4/main.rs:152-181 | the pair `task1` reports is a win event, and it comes no later than the pair `task2` reports |
| Events.SkipWon | day_4/main.rs:170 | skipping a board that has already won keeps the bookkeeping invariant |
| Events.MarkNoWin | day_4/main.rs:171-172 | marking a board that does not win keeps the invariant |
| Events.MarkWin | day_4/main.rs:172-176 | a board that wins for the first time becomes the latest win event, and its score the last score |
| Events.NextDraw | day_4/main.rs:168-169 | after the last board of a draw, the invariant holds at the first board of the next draw |
| Events.Finish | day_4/main.rs:180 | once all draws are visited, no last score means no board ever won. Otherwise the last score belongs to the last win event of the game |
| Example.Prefixes | day_4/main.rs:16 | the first 11, 12, 14 and 15 draws of the example draw line hold exactly the numbers drawn by then |
| Example.MarkedAt | day_4/main.rs:50-56 | a board built from a grid, after some draws, has a cell marked exactly when its number was drawn |
| Example.MarkedSum | day_4/main.rs:65-69 | the unchosen sum of such a board is the sum of the grid's numbers that were not drawn |
| Example.NoLine | day_4/main.rs:57-64 | a 5×5 board with an unmarked cell in every row and every column is not winning |
| Example.ExampleBoardsAsWritten | day_4/main.rs:18-34 | the three example boards, built with the corrected construction, are the boards the source builds as written, since the grids are square |
| Example.FirstWinnerOnExample | day_4/main.rs:36-40 | on the example game, `task1` reports 4512 |
| Example.LastWinnerOnExample | day_4/main.rs:42-46 | on the example game, `task2` reports 1924 |

## Left out

- `main` (day_4/main.rs:114-135) is left out. It reads the command line and a file, and prints the results.
- Parsing is left out: `parse_input`, `parse_number` and the row splitting in `parse_boards` (day_4/main.rs:85-99, 137-150). These are regular-expression and text handling. The model starts from parsed draws and parsed number grids.
- Numbers are `nat`, not `u32`. The `u32` overflow of the score product and of the sums is not modelled.
- The `HashSet` of won board indices is a `set<nat>`.
- Both panics (day_4/main.rs:161, 180) become `None`.
- The other aborts of the source are preconditions, not modelled outcomes. `Boards.Choose` requires `Boards.Covers` where `choose` would index out of range (day_4/main.rs:53). `Boards.IsWinning` requires a full row or flags that `Grid.Transpose` accepts, where `transpose` would fail its `assert!` or index out of range (day_4/main.rs:74, 78). An example is a block whose only line holds spaces: it parses to `[[]]`, gets no flag rows, and is marked, then `transpose` panics (`Boards.AsWrittenBlankPanics`). `Boards.NewBoardAsWritten` and `Boards.NewBoard` require at least one row, where `parse_boards` would `unwrap` an empty board (day_4/main.rs:102).
- Game.FirstWinnerScore: requires every board to be rectangular, with at least one row and a flag grid of its own shape. The source also runs some ragged boards: any board that has, for every number row, a flag row at least as long plays. For example, `[[1, 2], [3]]` built as written gets a 2×2 flag grid and plays, and so does `[[1], []]` with its single flag row of two flags (`Boards.AsWrittenRaggedPlays`). Those boards are not modelled.
- Game.LastWinnerScore: requires the same well-formed boards as Game.FirstWinnerScore, for the same reason.

## Findings

| source | as written | input that shows it | evidently intended | confidence | as-written member | corrected member |
|---|---|---|---|---|---|---|
| day_4/main.rs:106 | the flag grid has `number_of_columns` rows of `number_of_rows` flags | the board with the single row `1 2` (a 1×2 grid): `choose` reaches cell (0, 1), but flag row 0 holds only one flag | a flag grid with the same shape as the number grid | not executed | Boards.AsWrittenFailsOnOneByTwo | Boards.NewBoard |
