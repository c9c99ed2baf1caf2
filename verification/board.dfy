/** The `Board` of day_4/main.rs: a grid of numbers with a parallel grid of
    "chosen" flags, its three operations (`choose`, `is_winning`,
    `sum_of_not_chosen_numbers`) and the construction of a fresh board from a
    parsed grid. */
module Boards {
  import opened Grid

  datatype Board = Board(numbers: seq<seq<nat>>, chosen: seq<seq<bool>>)

  /** Every number row that holds a number has a flag row at least as long.
      `choose` indexes a flag only inside the loop over a row's cells, so an
      empty number row needs no flag row. */
  predicate Reaches(numbers: seq<seq<nat>>, chosen: seq<seq<bool>>)
  {
    forall i :: 0 <= i < |numbers| && |numbers[i]| > 0 ==> i < |chosen| && |numbers[i]| <= |chosen[i]|
  }

  /** The flag grid reaches every cell of the number grid, so that marking
      never indexes out of range. */
  predicate Covers(b: Board)
  {
    Reaches(b.numbers, b.chosen)
  }

  /** The shape every board of a game has: at least one row, all rows of one
      length, and a flag grid of exactly the same shape. */
  predicate WellFormed(b: Board)
  {
    && |b.numbers| > 0
    && Rectangular(b.numbers)
    && |b.chosen| == |b.numbers|
    && forall i :: 0 <= i < |b.numbers| ==> |b.chosen[i]| == |b.numbers[i]|
  }

  predicate AllWellFormed(boards: seq<Board>)
  {
    forall j :: 0 <= j < |boards| ==> WellFormed(boards[j])
  }

  lemma WellFormedCovers(b: Board)
    requires WellFormed(b)
    ensures Covers(b) && CanTranspose(b.chosen)
  {
  }

  // ---------------------------------------------------------------- choose

  /** The inner loop of `choose`: one row of numbers against one row of flags. */
  function ChooseRow(nums: seq<nat>, flags: seq<bool>, n: nat): (r: seq<bool>)
    requires |nums| <= |flags|
    ensures |r| == |flags|
    ensures forall j :: 0 <= j < |flags| ==>
              r[j] == (flags[j] || (j < |nums| && nums[j] == n))
  {
    if |nums| == 0 then flags
    else [flags[0] || nums[0] == n] + ChooseRow(nums[1..], flags[1..], n)
  }

  /** The outer loop of `choose`, row by row. */
  function ChooseRows(numbers: seq<seq<nat>>, chosen: seq<seq<bool>>, n: nat): (r: seq<seq<bool>>)
    requires Reaches(numbers, chosen)
    ensures |r| == |chosen|
    ensures forall i :: 0 <= i < |chosen| ==> |r[i]| == |chosen[i]|
    ensures forall i, j :: 0 <= i < |chosen| && 0 <= j < |chosen[i]| ==>
              r[i][j] == (chosen[i][j] || (i < |numbers| && j < |numbers[i]| && numbers[i][j] == n))
  {
    if |numbers| == 0 || |chosen| == 0 then chosen
    else [ChooseRow(numbers[0], chosen[0], n)] + ChooseRows(numbers[1..], chosen[1..], n)
  }

  /** `Board::choose`: every cell holding `n` becomes chosen; every other flag
      and the numbers stay as they were. */
  function Choose(b: Board, n: nat): (r: Board)
    requires Covers(b)
    ensures r.numbers == b.numbers
    ensures |r.chosen| == |b.chosen|
    ensures forall i :: 0 <= i < |b.chosen| ==> |r.chosen[i]| == |b.chosen[i]|
    ensures forall i, j :: 0 <= i < |b.chosen| && 0 <= j < |b.chosen[i]| ==>
              r.chosen[i][j] == (b.chosen[i][j] || (i < |b.numbers| && j < |b.numbers[i]| && b.numbers[i][j] == n))
    ensures WellFormed(b) ==> WellFormed(r)
  {
    Board(b.numbers, ChooseRows(b.numbers, b.chosen, n))
  }

  /** Choosing the same number twice is the same as choosing it once. */
  lemma ChooseIdempotent(b: Board, n: nat)
    requires Covers(b)
    ensures Covers(Choose(b, n))
    ensures Choose(Choose(b, n), n) == Choose(b, n)
  {
    var once := Choose(b, n);
    var twice := Choose(once, n);
    forall i | 0 <= i < |b.chosen|
      ensures twice.chosen[i] == once.chosen[i]
    {
    }
  }

  /** The order in which two numbers are chosen does not matter. */
  lemma ChooseCommutes(b: Board, m: nat, n: nat)
    requires Covers(b)
    ensures Covers(Choose(b, m)) && Covers(Choose(b, n))
    ensures Choose(Choose(b, m), n) == Choose(Choose(b, n), m)
  {
    var mn := Choose(Choose(b, m), n);
    var nm := Choose(Choose(b, n), m);
    forall i | 0 <= i < |b.chosen|
      ensures mn.chosen[i] == nm.chosen[i]
    {
    }
  }

  /** `c` has a flag grid of the same shape as `b` and every flag set in `b`
      is set in `c`. */
  predicate MarkedAtLeast(b: Board, c: Board)
  {
    && |c.chosen| == |b.chosen|
    && (forall i :: 0 <= i < |b.chosen| ==> |c.chosen[i]| == |b.chosen[i]|)
    && forall i, j :: 0 <= i < |b.chosen| && 0 <= j < |b.chosen[i]| && b.chosen[i][j] ==> c.chosen[i][j]
  }

  /** Marks are never cleared. */
  lemma ChooseKeepsMarks(b: Board, n: nat)
    requires Covers(b)
    ensures MarkedAtLeast(b, Choose(b, n))
  {
  }

  // ------------------------------------------------------------ is_winning

  /** Every row has a cell in column `k` and all of them are chosen. */
  predicate ColumnFull(c: seq<seq<bool>>, k: nat)
  {
    forall i :: 0 <= i < |c| ==> k < |c[i]| && c[i][k]
  }

  /** A full row or a full column of flags (columns counted by the first row). */
  predicate HasLine(c: seq<seq<bool>>)
  {
    || (exists i :: 0 <= i < |c| && AllTrue(c[i]))
    || (|c| > 0 && exists k: nat :: k < |c[0]| && ColumnFull(c, k))
  }

  /** `Board::is_winning`: a full row of flags, or else a full row of the
      transposed flags. The transpose only runs when no row is full, hence
      the precondition. */
  function IsWinning(b: Board): (r: bool)
    requires HasFullRow(b.chosen) || CanTranspose(b.chosen)
    ensures r <==> HasLine(b.chosen)
  {
    HasFullRow(b.chosen) || (
      var t := Transpose(b.chosen);
      assert HasFullRow(t) <==> exists k: nat :: k < |b.chosen[0]| && ColumnFull(b.chosen, k) by {
        forall k: nat | k < |t|
          ensures AllTrue(t[k]) <==> ColumnFull(b.chosen, k)
        {
          assert forall i :: 0 <= i < |b.chosen| ==> t[k][i] == b.chosen[i][k];
        }
      }
      HasFullRow(t))
  }

  /** A winning board stays winning whatever is marked afterwards. A board
      with at least the marks of one that `is_winning` can test can be
      tested too. */
  lemma WinningMonotone(b: Board, c: Board)
    requires (HasFullRow(b.chosen) || CanTranspose(b.chosen)) && MarkedAtLeast(b, c)
    ensures HasFullRow(c.chosen) || CanTranspose(c.chosen)
    ensures IsWinning(b) ==> IsWinning(c)
  {
    if HasFullRow(b.chosen) {
      var i :| 0 <= i < |b.chosen| && AllTrue(b.chosen[i]);
      assert AllTrue(c.chosen[i]);
    }
    if IsWinning(b) {
      if i :| 0 <= i < |b.chosen| && AllTrue(b.chosen[i]) {
        assert AllTrue(c.chosen[i]);
      } else {
        var k: nat :| k < |b.chosen[0]| && ColumnFull(b.chosen, k);
        assert ColumnFull(c.chosen, k);
      }
    }
  }

  /** A winning board is still winning after any further `choose`. */
  lemma ChooseKeepsWinning(b: Board, n: nat)
    requires Covers(b) && (HasFullRow(b.chosen) || CanTranspose(b.chosen))
    ensures HasFullRow(Choose(b, n).chosen) || CanTranspose(Choose(b, n).chosen)
    ensures WellFormed(b) ==> WellFormed(Choose(b, n))
    ensures IsWinning(b) ==> IsWinning(Choose(b, n))
  {
    ChooseKeepsMarks(b, n);
    WinningMonotone(b, Choose(b, n));
  }

  // ------------------------------------------------- sum_of_not_chosen_numbers

  function RowTotal(nums: seq<nat>): nat
  {
    if |nums| == 0 then 0 else nums[0] + RowTotal(nums[1..])
  }

  /** The sum of every number on the grid. */
  function GridTotal(numbers: seq<seq<nat>>): nat
  {
    if |numbers| == 0 then 0 else RowTotal(numbers[0]) + GridTotal(numbers[1..])
  }

  /** The inner `zip`/`map`/`sum` of `sum_of_not_chosen_numbers`: a chosen cell
      contributes 0; `zip` stops at the shorter row. */
  function RowSum(nums: seq<nat>, flags: seq<bool>): (r: nat)
    ensures r <= RowTotal(nums)
  {
    if |nums| == 0 || |flags| == 0 then 0
    else (if flags[0] then 0 else nums[0]) + RowSum(nums[1..], flags[1..])
  }

  /** The outer `zip`/`map`/`sum`, row by row. */
  function GridSum(numbers: seq<seq<nat>>, chosen: seq<seq<bool>>): (r: nat)
    ensures r <= GridTotal(numbers)
  {
    if |numbers| == 0 || |chosen| == 0 then 0
    else RowSum(numbers[0], chosen[0]) + GridSum(numbers[1..], chosen[1..])
  }

  /** `Board::sum_of_not_chosen_numbers`; never more than the sum of all numbers. */
  function SumOfNotChosen(b: Board): (r: nat)
    ensures r <= GridTotal(b.numbers)
  {
    GridSum(b.numbers, b.chosen)
  }

  /** The sum of the chosen cells of a row. */
  function RowChosenSum(nums: seq<nat>, flags: seq<bool>): nat
  {
    if |nums| == 0 || |flags| == 0 then 0
    else (if flags[0] then nums[0] else 0) + RowChosenSum(nums[1..], flags[1..])
  }

  /** The sum of the chosen cells of a grid. */
  function GridChosenSum(numbers: seq<seq<nat>>, chosen: seq<seq<bool>>): nat
  {
    if |numbers| == 0 || |chosen| == 0 then 0
    else RowChosenSum(numbers[0], chosen[0]) + GridChosenSum(numbers[1..], chosen[1..])
  }

  lemma {:induction false} RowSplit(nums: seq<nat>, flags: seq<bool>)
    requires |nums| == |flags|
    ensures RowSum(nums, flags) + RowChosenSum(nums, flags) == RowTotal(nums)
  {
    if |nums| > 0 {
      RowSplit(nums[1..], flags[1..]);
    }
  }

  lemma {:induction false} GridSplit(numbers: seq<seq<nat>>, chosen: seq<seq<bool>>)
    requires |numbers| == |chosen|
    requires forall i :: 0 <= i < |numbers| ==> |numbers[i]| == |chosen[i]|
    ensures GridSum(numbers, chosen) + GridChosenSum(numbers, chosen) == GridTotal(numbers)
  {
    if |numbers| > 0 {
      RowSplit(numbers[0], chosen[0]);
      GridSplit(numbers[1..], chosen[1..]);
    }
  }

  /** On a well-formed board every number is counted exactly once: either in
      the unchosen sum or among the chosen cells. */
  lemma SumSplitsTotal(b: Board)
    requires WellFormed(b)
    ensures SumOfNotChosen(b) + GridChosenSum(b.numbers, b.chosen) == GridTotal(b.numbers)
  {
    GridSplit(b.numbers, b.chosen);
  }

  /** How many cells of a row hold `n` and are not chosen yet. */
  function RowFresh(nums: seq<nat>, flags: seq<bool>, n: nat): nat
  {
    if |nums| == 0 || |flags| == 0 then 0
    else (if !flags[0] && nums[0] == n then 1 else 0) + RowFresh(nums[1..], flags[1..], n)
  }

  /** How many cells of the board hold `n` and are not chosen yet. */
  function Fresh(numbers: seq<seq<nat>>, chosen: seq<seq<bool>>, n: nat): nat
  {
    if |numbers| == 0 || |chosen| == 0 then 0
    else RowFresh(numbers[0], chosen[0], n) + Fresh(numbers[1..], chosen[1..], n)
  }

  lemma Distribute(n: nat, a: nat, b: nat)
    ensures n * (a + b) == n * a + n * b
  {
  }

  lemma {:induction false} RowChooseSum(nums: seq<nat>, flags: seq<bool>, n: nat)
    requires |nums| <= |flags|
    ensures RowSum(nums, ChooseRow(nums, flags, n)) + n * RowFresh(nums, flags, n) == RowSum(nums, flags)
  {
    if |nums| > 0 {
      var r := ChooseRow(nums, flags, n);
      assert r[1..] == ChooseRow(nums[1..], flags[1..], n);
      RowChooseSum(nums[1..], flags[1..], n);
      var h := if !flags[0] && nums[0] == n then 1 else 0;
      var rest := RowFresh(nums[1..], flags[1..], n);
      assert RowFresh(nums, flags, n) == h + rest;
      Distribute(n, h, rest);
      assert n * h == (if h == 1 then n else 0);
      assert RowSum(nums, r) == (if r[0] then 0 else nums[0]) + RowSum(nums[1..], r[1..]);
    }
  }

  /** `ChooseRows` on a non-empty grid: the first row, then the rest. */
  lemma ChooseRowsSplit(numbers: seq<seq<nat>>, chosen: seq<seq<bool>>, n: nat)
    requires 0 < |numbers| && 0 < |chosen| && Reaches(numbers, chosen)
    ensures ChooseRows(numbers, chosen, n)[0] == ChooseRow(numbers[0], chosen[0], n)
    ensures ChooseRows(numbers, chosen, n)[1..] == ChooseRows(numbers[1..], chosen[1..], n)
  {
    var r := ChooseRows(numbers, chosen, n);
    assert r == [ChooseRow(numbers[0], chosen[0], n)] + ChooseRows(numbers[1..], chosen[1..], n);
  }

  lemma {:induction false} GridChooseSum(numbers: seq<seq<nat>>, chosen: seq<seq<bool>>, n: nat)
    requires Reaches(numbers, chosen)
    ensures GridSum(numbers, ChooseRows(numbers, chosen, n)) + n * Fresh(numbers, chosen, n)
            == GridSum(numbers, chosen)
  {
    if |numbers| > 0 && |chosen| > 0 {
      assert Reaches(numbers[1..], chosen[1..]) by {
        forall i | 0 <= i < |numbers[1..]| && |numbers[1..][i]| > 0
          ensures i < |chosen[1..]| && |numbers[1..][i]| <= |chosen[1..][i]|
        {
          assert numbers[1..][i] == numbers[i + 1];
        }
      }
      var r := ChooseRows(numbers, chosen, n);
      ChooseRowsSplit(numbers, chosen, n);
      RowChooseSum(numbers[0], chosen[0], n);
      GridChooseSum(numbers[1..], chosen[1..], n);
      var f0 := RowFresh(numbers[0], chosen[0], n);
      var fs := Fresh(numbers[1..], chosen[1..], n);
      assert Fresh(numbers, chosen, n) == f0 + fs;
      Distribute(n, f0, fs);
      assert GridSum(numbers, r) == RowSum(numbers[0], r[0]) + GridSum(numbers[1..], r[1..]);
    }
  }

  /** Choosing `n` lowers the unchosen sum by exactly `n` for every cell that
      held `n` and was not chosen before. */
  lemma ChooseDropsSum(b: Board, n: nat)
    requires Covers(b)
    ensures SumOfNotChosen(Choose(b, n)) + n * Fresh(b.numbers, b.chosen, n) == SumOfNotChosen(b)
  {
    GridChooseSum(b.numbers, b.chosen, n);
  }

  /** Choosing `n` lowers the unchosen sum by `n` for every cell that held `n`
      and was not chosen before; in particular it never raises it. */
  lemma ChooseLowersSum(b: Board, n: nat)
    requires Covers(b)
    ensures WellFormed(b) ==> WellFormed(Choose(b, n))
    ensures SumOfNotChosen(Choose(b, n)) + n * Fresh(b.numbers, b.chosen, n) == SumOfNotChosen(b)
    ensures SumOfNotChosen(Choose(b, n)) <= SumOfNotChosen(b)
  {
    ChooseDropsSum(b, n);
  }

  // ---------------------------------------------------------- construction

  /** A grid of `rows` rows of `cols` false flags. */
  function Unmarked(rows: nat, cols: nat): (c: seq<seq<bool>>)
    ensures |c| == rows
    ensures forall i :: 0 <= i < rows ==> |c[i]| == cols
    ensures forall i, j :: 0 <= i < rows && 0 <= j < cols ==> !c[i][j]
  {
    seq(rows, _ => seq(cols, _ => false))
  }

  /** The construction in `parse_boards` as the source writes it: the flag
      grid is `number_of_columns` rows of `number_of_rows` flags. */
  function NewBoardAsWritten(g: seq<seq<nat>>): (b: Board)
    requires |g| > 0
    ensures b.numbers == g
    ensures |b.chosen| == |g[0]|
    ensures forall i :: 0 <= i < |b.chosen| ==> |b.chosen[i]| == |g|
    ensures forall i, j :: 0 <= i < |b.chosen| && 0 <= j < |b.chosen[i]| ==> !b.chosen[i][j]
  {
    Board(g, Unmarked(|g[0]|, |g|))
  }

  /** On a rectangular grid, the as-written construction gives a board that
      `choose` can mark without indexing out of range exactly when the grid is
      square or has no numbers at all, and a well-formed board exactly when it
      is square. */
  lemma AsWrittenCoversIffSquare(g: seq<seq<nat>>)
    requires |g| > 0 && Rectangular(g)
    ensures Covers(NewBoardAsWritten(g)) <==> |g| == |g[0]| || |g[0]| == 0
    ensures WellFormed(NewBoardAsWritten(g)) <==> |g| == |g[0]|
  {
    var b := NewBoardAsWritten(g);
    if |g| != |g[0]| && |g[0]| > 0 {
      if |g| > |g[0]| {
        assert |b.numbers[|g| - 1]| > 0;
      } else {
        assert |b.numbers[0]| > |b.chosen[0]|;
      }
    }
  }

  /** One row of two numbers: marking would index flag column 1 of a flag
      grid whose rows hold a single flag. */
  lemma AsWrittenFailsOnOneByTwo()
    ensures !Covers(NewBoardAsWritten([[1, 2]]))
  {
    var b := NewBoardAsWritten([[1, 2]]);
    assert |b.chosen[0]| == 1;
  }

  /** A board block whose second line holds only spaces parses to
      `[[1], []]`. Built as written it gets a single flag row of two flags,
      which `choose` can mark, and drawing 1 completes its first column. */
  lemma AsWrittenRaggedPlays()
    ensures Covers(NewBoardAsWritten([[1], []]))
    ensures CanTranspose(Choose(NewBoardAsWritten([[1], []]), 1).chosen)
    ensures IsWinning(Choose(NewBoardAsWritten([[1], []]), 1))
  {
    var a := NewBoardAsWritten([[1], []]);
    assert |a.chosen| == 1 && |a.chosen[0]| == 2;
    var b := Choose(a, 1);
    assert b.chosen[0][0];
    assert ColumnFull(b.chosen, 0);
  }

  /** A board block whose only line holds spaces parses to `[[]]`. Built as
      written it has no flag rows: `choose` marks it, but `is_winning` finds
      no full row and `transpose` rejects the empty flag grid. */
  lemma AsWrittenBlankPanics()
    ensures Covers(NewBoardAsWritten([[]]))
    ensures !HasFullRow(NewBoardAsWritten([[]]).chosen) && !CanTranspose(NewBoardAsWritten([[]]).chosen)
  {
  }

  /** The construction with the flag grid shaped like the number grid. */
  function NewBoard(g: seq<seq<nat>>): (b: Board)
    requires |g| > 0 && Rectangular(g)
    ensures WellFormed(b)
    ensures b.numbers == g
    ensures forall i, j :: 0 <= i < |g| && 0 <= j < |g[i]| ==> !b.chosen[i][j]
  {
    Board(g, Unmarked(|g|, |g[0]|))
  }

  /** On square grids the source's construction is the corrected one. */
  lemma AsWrittenAgreesOnSquare(g: seq<seq<nat>>)
    requires |g| > 0 && Rectangular(g) && |g| == |g[0]|
    ensures NewBoardAsWritten(g) == NewBoard(g)
  {
  }

  lemma {:induction false} UnchosenRowSum(nums: seq<nat>, flags: seq<bool>)
    requires |nums| == |flags|
    requires forall j :: 0 <= j < |flags| ==> !flags[j]
    ensures RowSum(nums, flags) == RowTotal(nums)
  {
    if |nums| > 0 {
      UnchosenRowSum(nums[1..], flags[1..]);
    }
  }

  lemma {:induction false} UnchosenGridSum(numbers: seq<seq<nat>>, chosen: seq<seq<bool>>)
    requires |numbers| == |chosen|
    requires forall i :: 0 <= i < |numbers| ==> |numbers[i]| == |chosen[i]|
    requires forall i, j :: 0 <= i < |chosen| && 0 <= j < |chosen[i]| ==> !chosen[i][j]
    ensures GridSum(numbers, chosen) == GridTotal(numbers)
  {
    if |numbers| > 0 {
      UnchosenRowSum(numbers[0], chosen[0]);
      UnchosenGridSum(numbers[1..], chosen[1..]);
    }
  }

  /** A fresh board with at least one column is not winning, and its unchosen
      sum is the sum of all its numbers. */
  lemma FreshBoard(g: seq<seq<nat>>)
    requires |g| > 0 && Rectangular(g) && |g[0]| > 0
    ensures !IsWinning(NewBoard(g))
    ensures SumOfNotChosen(NewBoard(g)) == GridTotal(g)
  {
    var b := NewBoard(g);
    UnchosenGridSum(b.numbers, b.chosen);
    assert !b.chosen[0][0];
    forall i | 0 <= i < |b.chosen|
      ensures !AllTrue(b.chosen[i])
    {
      assert !b.chosen[i][0];
    }
    assert !ColumnFull(b.chosen, 0);
  }

  /** `parse_boards` maps the construction over the parsed grids. */
  function NewBoards(grids: seq<seq<seq<nat>>>): (boards: seq<Board>)
    requires forall k :: 0 <= k < |grids| ==> |grids[k]| > 0 && Rectangular(grids[k])
    ensures |boards| == |grids|
    ensures AllWellFormed(boards)
    ensures forall k :: 0 <= k < |grids| ==> boards[k] == NewBoard(grids[k])
  {
    seq(|grids|, k requires 0 <= k < |grids| => NewBoard(grids[k]))
  }
}
