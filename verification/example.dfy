/** The example game of the unit tests in day_4/main.rs: 27 draws over three
    5×5 boards, on which `task1` scores 4512 and `task2` scores 1924.

    Board 2 completes its first row with the twelfth draw (24) while boards 0
    and 1 have no line yet, and board 2 had none a draw earlier: the first
    win, worth 24 * 188. Board 0 completes its third row with the fourteenth
    draw (16), and board 1 completes its third column with the fifteenth
    draw (13), having had no line a draw earlier: the last win event, worth
    13 * 148. */
module Example {
  import opened Grid
  import opened Boards
  import opened Options
  import opened Events
  import opened Game

  // ------------------------------------------------------------------ the data

  /** The draw line, cut after the draws at which the game is decided. */
  function Draws11(): seq<nat> { [7, 4, 9, 5, 11, 17, 23, 2, 0, 14, 21] }
  function Draws12(): seq<nat> { Draws11() + [24] }
  function Draws14(): seq<nat> { Draws12() + [10, 16] }
  function Draws15(): seq<nat> { Draws14() + [13] }
  function Draws(): seq<nat> { Draws15() + [6, 15, 25, 12, 22, 18, 20, 8, 19, 3, 26, 1] }

  /** The numbers of the first 11, 12, 14 and 15 draws, as sets. */
  function Drawn11(): set<nat> { {7, 4, 9, 5, 11, 17, 23, 2, 0, 14, 21} }
  function Drawn12(): set<nat> { Drawn11() + {24} }
  function Drawn14(): set<nat> { Drawn12() + {10, 16} }
  function Drawn15(): set<nat> { Drawn14() + {13} }

  function Grid0(): seq<seq<nat>>
  {
    [[22, 13, 17, 11,  0],
     [ 8,  2, 23,  4, 24],
     [21,  9, 14, 16,  7],
     [ 6, 10,  3, 18,  5],
     [ 1, 12, 20, 15, 19]]
  }

  function Grid1(): seq<seq<nat>>
  {
    [[ 3, 15,  0,  2, 22],
     [ 9, 18, 13, 17,  5],
     [19,  8,  7, 25, 23],
     [20, 11, 10, 24,  4],
     [14, 21, 16, 12,  6]]
  }

  function Grid2(): seq<seq<nat>>
  {
    [[14, 21, 17, 24,  4],
     [10, 16, 15,  9, 19],
     [18,  8, 23, 26, 20],
     [22, 11, 13,  6,  5],
     [ 2,  0, 12,  3,  7]]
  }

  /** The three parsed grids, every one of them 5×5. */
  function Grids(): (gs: seq<seq<seq<nat>>>)
    ensures |gs| == 3
    ensures forall k :: 0 <= k < |gs| ==> |gs[k]| == 5 && Rectangular(gs[k]) && |gs[k][0]| == 5
  {
    [Grid0(), Grid1(), Grid2()]
  }

  /** The boards built from the three grids. */
  function ExampleBoards(): (bs: seq<Board>)
    ensures |bs| == 3 && AllWellFormed(bs)
    ensures bs[0] == NewBoard(Grid0()) && bs[1] == NewBoard(Grid1()) && bs[2] == NewBoard(Grid2())
  {
    NewBoards(Grids())
  }

  /** The grids are square, so the example boards are also the boards
      `parse_boards` builds as written. */
  lemma ExampleBoardsAsWritten()
    ensures ExampleBoards() == [NewBoardAsWritten(Grid0()), NewBoardAsWritten(Grid1()), NewBoardAsWritten(Grid2())]
  {
    AsWrittenAgreesOnSquare(Grid0());
    AsWrittenAgreesOnSquare(Grid1());
    AsWrittenAgreesOnSquare(Grid2());
  }

  /** The first `n` draws, for the cuts above, hold exactly the numbers of
      the matching set. */
  lemma Prefixes()
    ensures Draws()[..11] == Draws11() && Draws()[..12] == Draws12()
    ensures Draws()[..14] == Draws14() && Draws()[..15] == Draws15()
    ensures forall x :: x in Draws11() <==> x in Drawn11()
    ensures forall x :: x in Draws12() <==> x in Drawn12()
    ensures forall x :: x in Draws14() <==> x in Drawn14()
    ensures forall x :: x in Draws15() <==> x in Drawn15()
  {
    assert Draws()[..15] == Draws15();
    assert Draws15()[..14] == Draws14();
    assert Draws14()[..12] == Draws12();
    assert Draws12()[..11] == Draws11();
  }

  // ------------------------------------------------- a board after some draws

  /** `b` is the board built from `g` with exactly the numbers of `s` chosen. */
  predicate Marked(b: Board, g: seq<seq<nat>>, s: set<nat>)
  {
    && WellFormed(b) && b.numbers == g
    && forall i, c :: 0 <= i < |g| && 0 <= c < |g[i]| ==> b.chosen[i][c] == (g[i][c] in s)
  }

  /** Board `j` at draw `d` is its grid with the numbers drawn so far chosen. */
  lemma MarkedAt(boards: seq<Board>, draws: seq<nat>, d: nat, j: nat, g: seq<seq<nat>>, s: set<nat>)
    requires AllWellFormed(boards) && d < |draws| && j < |boards|
    requires |g| > 0 && Rectangular(g) && boards[j] == NewBoard(g)
    requires forall x :: x in draws[..d + 1] <==> x in s
    ensures Marked(ChooseAll(boards[j], draws[..d + 1]), g, s)
  {
  }

  /** The numbers of a row that are not in `s`, added up. */
  function RowUndrawn(nums: seq<nat>, s: set<nat>): nat
  {
    if |nums| == 0 then 0 else (if nums[0] in s then 0 else nums[0]) + RowUndrawn(nums[1..], s)
  }

  /** The numbers of a grid that are not in `s`, added up. */
  function GridUndrawn(g: seq<seq<nat>>, s: set<nat>): nat
  {
    if |g| == 0 then 0 else RowUndrawn(g[0], s) + GridUndrawn(g[1..], s)
  }

  lemma {:induction false} RowUndrawnSum(nums: seq<nat>, flags: seq<bool>, s: set<nat>)
    requires |nums| == |flags|
    requires forall c :: 0 <= c < |nums| ==> flags[c] == (nums[c] in s)
    ensures RowSum(nums, flags) == RowUndrawn(nums, s)
  {
    if |nums| > 0 {
      RowUndrawnSum(nums[1..], flags[1..], s);
    }
  }

  lemma {:induction false} GridUndrawnSum(g: seq<seq<nat>>, chosen: seq<seq<bool>>, s: set<nat>)
    requires |g| == |chosen|
    requires forall i :: 0 <= i < |g| ==> |g[i]| == |chosen[i]|
    requires forall i, c :: 0 <= i < |g| && 0 <= c < |g[i]| ==> chosen[i][c] == (g[i][c] in s)
    ensures GridSum(g, chosen) == GridUndrawn(g, s)
  {
    if |g| > 0 {
      RowUndrawnSum(g[0], chosen[0], s);
      GridUndrawnSum(g[1..], chosen[1..], s);
    }
  }

  /** The unchosen sum of a board marked with exactly the numbers of `s` is
      the sum of its numbers outside `s`. */
  lemma MarkedSum(b: Board, g: seq<seq<nat>>, s: set<nat>)
    requires Marked(b, g, s)
    ensures SumOfNotChosen(b) == GridUndrawn(g, s)
  {
    GridUndrawnSum(g, b.chosen, s);
  }

  /** A 5×5 board with an unchosen cell in every row and every column has no
      line; `rows[i]` is the column of the gap in row `i`, and `cols[k]` the
      row of the gap in column `k`. */
  lemma NoLine(b: Board, rows: seq<nat>, cols: seq<nat>)
    requires WellFormed(b) && |b.numbers| == 5 && |b.numbers[0]| == 5
    requires |rows| == 5 && |cols| == 5
    requires forall i :: 0 <= i < 5 ==> rows[i] < 5 && !b.chosen[i][rows[i]]
    requires forall k :: 0 <= k < 5 ==> cols[k] < 5 && !b.chosen[cols[k]][k]
    ensures !IsWinning(b)
  {
    WellFormedCovers(b);
    forall i | 0 <= i < 5
      ensures !AllTrue(b.chosen[i])
    {
      assert !b.chosen[i][rows[i]];
    }
    forall k: nat | k < 5
      ensures !ColumnFull(b.chosen, k)
    {
      assert !b.chosen[cols[k]][k];
    }
  }

  // ------------------------------------------------------- the decisive boards

  /** Board 2 after twelve draws: its first row is full, and 188 is left. */
  lemma Board2After12(b: Board)
    requires Marked(b, Grid2(), Drawn12())
    ensures WellFormed(b) && IsWinning(b)
    ensures SumOfNotChosen(b) == 188
  {
    WellFormedCovers(b);
    assert b.chosen[0][0] && b.chosen[0][1] && b.chosen[0][2] && b.chosen[0][3] && b.chosen[0][4];
    assert AllTrue(b.chosen[0]);
    MarkedSum(b, Grid2(), Drawn12());
    Undrawn2After12();
  }

  /** The unchosen numbers of board 2 after twelve draws, row by row. */
  lemma Undrawn2After12()
    ensures GridUndrawn(Grid2(), Drawn12()) == 188
  {
    Grid2Row0After12();
    Grid2Row1After12();
    Grid2Row2After12();
    Grid2Row3After12();
    Grid2Row4After12();
  }

  lemma Grid2Row0After12() ensures RowUndrawn(Grid2()[0], Drawn12()) == 0 {}
  lemma Grid2Row1After12() ensures RowUndrawn(Grid2()[1], Drawn12()) == 60 {}
  lemma Grid2Row2After12() ensures RowUndrawn(Grid2()[2], Drawn12()) == 72 {}
  lemma Grid2Row3After12() ensures RowUndrawn(Grid2()[3], Drawn12()) == 41 {}
  lemma Grid2Row4After12() ensures RowUndrawn(Grid2()[4], Drawn12()) == 15 {}

  /** Board 0 after twelve draws has no line. */
  lemma Board0After12(b: Board)
    requires Marked(b, Grid0(), Drawn12())
    ensures WellFormed(b) && !IsWinning(b)
  {
    var rows: seq<nat>, cols: seq<nat> := [0, 0, 3, 0, 0], [0, 0, 3, 2, 4];
    forall i | 0 <= i < 5
      ensures rows[i] < 5 && !b.chosen[i][rows[i]]
    {
      assert i == 0 || i == 1 || i == 2 || i == 3 || i == 4;
    }
    forall k | 0 <= k < 5
      ensures cols[k] < 5 && !b.chosen[cols[k]][k]
    {
      assert k == 0 || k == 1 || k == 2 || k == 3 || k == 4;
    }
    NoLine(b, rows, cols);
  }

  /** Board 1 after twelve draws has no line. */
  lemma Board1After12(b: Board)
    requires Marked(b, Grid1(), Drawn12())
    ensures WellFormed(b) && !IsWinning(b)
  {
    var rows: seq<nat>, cols: seq<nat> := [0, 1, 0, 0, 2], [0, 0, 1, 2, 0];
    forall i | 0 <= i < 5
      ensures rows[i] < 5 && !b.chosen[i][rows[i]]
    {
      assert i == 0 || i == 1 || i == 2 || i == 3 || i == 4;
    }
    forall k | 0 <= k < 5
      ensures cols[k] < 5 && !b.chosen[cols[k]][k]
    {
      assert k == 0 || k == 1 || k == 2 || k == 3 || k == 4;
    }
    NoLine(b, rows, cols);
  }

  /** Board 2 after eleven draws has no line: 24 is still missing from its first row. */
  lemma Board2After11(b: Board)
    requires Marked(b, Grid2(), Drawn11())
    ensures WellFormed(b) && !IsWinning(b)
  {
    var rows: seq<nat>, cols: seq<nat> := [3, 0, 0, 0, 2], [1, 1, 1, 0, 1];
    forall i | 0 <= i < 5
      ensures rows[i] < 5 && !b.chosen[i][rows[i]]
    {
      assert i == 0 || i == 1 || i == 2 || i == 3 || i == 4;
    }
    forall k | 0 <= k < 5
      ensures cols[k] < 5 && !b.chosen[cols[k]][k]
    {
      assert k == 0 || k == 1 || k == 2 || k == 3 || k == 4;
    }
    NoLine(b, rows, cols);
  }

  /** Board 1 after fourteen draws has no line: 13 is still missing from its third column. */
  lemma Board1After14(b: Board)
    requires Marked(b, Grid1(), Drawn14())
    ensures WellFormed(b) && !IsWinning(b)
  {
    var rows: seq<nat>, cols: seq<nat> := [0, 1, 0, 0, 3], [0, 0, 1, 2, 0];
    forall i | 0 <= i < 5
      ensures rows[i] < 5 && !b.chosen[i][rows[i]]
    {
      assert i == 0 || i == 1 || i == 2 || i == 3 || i == 4;
    }
    forall k | 0 <= k < 5
      ensures cols[k] < 5 && !b.chosen[cols[k]][k]
    {
      assert k == 0 || k == 1 || k == 2 || k == 3 || k == 4;
    }
    NoLine(b, rows, cols);
  }

  /** Board 0 after fourteen draws: its third row is full. */
  lemma Board0After14(b: Board)
    requires Marked(b, Grid0(), Drawn14())
    ensures WellFormed(b) && IsWinning(b)
  {
    WellFormedCovers(b);
    assert b.chosen[2][0] && b.chosen[2][1] && b.chosen[2][2] && b.chosen[2][3] && b.chosen[2][4];
    assert AllTrue(b.chosen[2]);
  }

  /** Board 1 after fifteen draws: its third column is full, and 148 is left. */
  lemma Board1After15(b: Board)
    requires Marked(b, Grid1(), Drawn15())
    ensures WellFormed(b) && IsWinning(b)
    ensures SumOfNotChosen(b) == 148
  {
    WellFormedCovers(b);
    assert b.chosen[0][2] && b.chosen[1][2] && b.chosen[2][2] && b.chosen[3][2] && b.chosen[4][2];
    assert ColumnFull(b.chosen, 2);
    MarkedSum(b, Grid1(), Drawn15());
    Undrawn1After15();
  }

  /** The unchosen numbers of board 1 after fifteen draws, row by row. */
  lemma Undrawn1After15()
    ensures GridUndrawn(Grid1(), Drawn15()) == 148
  {
    Grid1Row0After15();
    Grid1Row1After15();
    Grid1Row2After15();
    Grid1Row3After15();
    Grid1Row4After15();
  }

  lemma Grid1Row0After15() ensures RowUndrawn(Grid1()[0], Drawn15()) == 40 {}
  lemma Grid1Row1After15() ensures RowUndrawn(Grid1()[1], Drawn15()) == 18 {}
  lemma Grid1Row2After15() ensures RowUndrawn(Grid1()[2], Drawn15()) == 52 {}
  lemma Grid1Row3After15() ensures RowUndrawn(Grid1()[3], Drawn15()) == 20 {}
  lemma Grid1Row4After15() ensures RowUndrawn(Grid1()[4], Drawn15()) == 18 {}

  // ---------------------------------------------------------------- the game

  lemma Board2WinsAt11(ds: seq<nat>, bs: seq<Board>)
    requires ds == Draws() && bs == ExampleBoards()
    ensures AllWellFormed(bs) && |ds| == 27 && |bs| == 3
    ensures WinsAt(bs, ds, 11, 2) && Score(bs, ds, 11, 2) == 4512
  {
    Prefixes();
    MarkedAt(bs, ds, 11, 2, Grid2(), Drawn12());
    Board2After12(ChooseAll(bs[2], ds[..12]));
  }

  lemma NoWinsAt11(ds: seq<nat>, bs: seq<Board>)
    requires ds == Draws() && bs == ExampleBoards()
    ensures AllWellFormed(bs) && |ds| == 27 && |bs| == 3
    ensures !WinsAt(bs, ds, 11, 0) && !WinsAt(bs, ds, 11, 1) && !WinsAt(bs, ds, 10, 2)
  {
    Prefixes();
    MarkedAt(bs, ds, 11, 0, Grid0(), Drawn12());
    Board0After12(ChooseAll(bs[0], ds[..12]));
    MarkedAt(bs, ds, 11, 1, Grid1(), Drawn12());
    Board1After12(ChooseAll(bs[1], ds[..12]));
    MarkedAt(bs, ds, 10, 2, Grid2(), Drawn11());
    Board2After11(ChooseAll(bs[2], ds[..11]));
  }

  lemma Board0WinsAt13(ds: seq<nat>, bs: seq<Board>)
    requires ds == Draws() && bs == ExampleBoards()
    ensures AllWellFormed(bs) && |ds| == 27 && |bs| == 3
    ensures WinsAt(bs, ds, 13, 0)
  {
    Prefixes();
    MarkedAt(bs, ds, 13, 0, Grid0(), Drawn14());
    Board0After14(ChooseAll(bs[0], ds[..14]));
  }

  lemma NoWinAt13(ds: seq<nat>, bs: seq<Board>)
    requires ds == Draws() && bs == ExampleBoards()
    ensures AllWellFormed(bs) && |ds| == 27 && |bs| == 3
    ensures !WinsAt(bs, ds, 13, 1)
  {
    Prefixes();
    MarkedAt(bs, ds, 13, 1, Grid1(), Drawn14());
    Board1After14(ChooseAll(bs[1], ds[..14]));
  }

  lemma Board1WinsAt14(ds: seq<nat>, bs: seq<Board>)
    requires ds == Draws() && bs == ExampleBoards()
    ensures AllWellFormed(bs) && |ds| == 27 && |bs| == 3
    ensures WinsAt(bs, ds, 14, 1) && Score(bs, ds, 14, 1) == 1924
  {
    Prefixes();
    MarkedAt(bs, ds, 14, 1, Grid1(), Drawn15());
    Board1After15(ChooseAll(bs[1], ds[..15]));
  }

  /** From the decisive facts of the example, board 2 at draw 11 is the
      first winning pair. */
  lemma FirstWinOfExample(ds: seq<nat>, bs: seq<Board>)
    requires AllWellFormed(bs) && |ds| == 27 && |bs| == 3
    requires WinsAt(bs, ds, 11, 2)
    requires !WinsAt(bs, ds, 11, 0) && !WinsAt(bs, ds, 11, 1) && !WinsAt(bs, ds, 10, 2)
    ensures IsFirstWin(bs, ds, 11, 2)
  {
    forall j': nat | j' < 2
      ensures !WinsAt(bs, ds, 11, j')
    {
      assert j' == 0 || j' == 1;
    }
    forall d': nat, j': nat | d' + 1 == 11 && 2 <= j' < |bs|
      ensures !WinsAt(bs, ds, d', j')
    {
      assert d' == 10 && j' == 2;
    }
    FirstWinFrom(bs, ds, 11, 2);
  }

  /** From the decisive facts of the example, board 1 at draw 14 is the
      last win event. */
  lemma LastWinOfExample(ds: seq<nat>, bs: seq<Board>)
    requires AllWellFormed(bs) && |ds| == 27 && |bs| == 3
    requires WinsAt(bs, ds, 11, 2) && WinsAt(bs, ds, 13, 0)
    requires WinsAt(bs, ds, 14, 1) && !WinsAt(bs, ds, 13, 1)
    ensures IsLastWin(bs, ds, 14, 1)
  {
    forall d': nat | d' + 1 == 14
      ensures !WinsAt(bs, ds, d', 1)
    {
      assert d' == 13;
    }
    forall k: nat | k < 3 && k != 1
      ensures WonBefore(bs, ds, 14, 1, k)
    {
      if k == 0 {
        assert Before(13, 0, 14, 1) && WinsAt(bs, ds, 13, 0);
      } else {
        assert Before(11, 2, 14, 1) && WinsAt(bs, ds, 11, 2);
      }
    }
    LastWinFrom(bs, ds, 14, 1);
  }

  /** The test at day_4/main.rs:39: `task1` scores 4512 on the example. */
  lemma FirstWinnerOnExample(ds: seq<nat>, bs: seq<Board>)
    requires ds == Draws() && bs == ExampleBoards()
    ensures AllWellFormed(bs) && FirstWinnerScore(ds, bs) == Some(4512)
  {
    Board2WinsAt11(ds, bs);
    NoWinsAt11(ds, bs);
    FirstWinOfExample(ds, bs);
    FirstWinnerIs(ds, bs, 11, 2);
  }

  /** The test at day_4/main.rs:45: `task2` scores 1924 on the example. */
  lemma LastWinnerOnExample(ds: seq<nat>, bs: seq<Board>)
    requires ds == Draws() && bs == ExampleBoards()
    ensures AllWellFormed(bs) && LastWinnerScore(ds, bs) == Some(1924)
  {
    Board2WinsAt11(ds, bs);
    Board0WinsAt13(ds, bs);
    NoWinAt13(ds, bs);
    Board1WinsAt14(ds, bs);
    LastWinOfExample(ds, bs);
    LastWinnerIs(ds, bs, 14, 1);
  }
}
