/** The two game drivers of day_4/main.rs: `task1` (score of the first board
    to win) and `task2` (score of the last board to win, boards that have won
    being left alone). Each is modelled as it iterates, draw by draw and board
    by board, and proved equal to a description of the game that does not
    iterate: the state of board `j` when draw `d` is checked is the board with
    the draws `draws[..d+1]` chosen. A run that finds no winner yields `None`
    where the source panics. */
module Game {
  import opened Grid
  import opened Boards
  import opened Events
  import opened Options

  // ------------------------------------------------------- the game, declaratively

  /** `b` with every draw of `ds` chosen, in order. */
  function ChooseAll(b: Board, ds: seq<nat>): (r: Board)
    requires WellFormed(b)
    ensures WellFormed(r)
    ensures r.numbers == b.numbers
    ensures forall i, j :: 0 <= i < |b.chosen| && 0 <= j < |b.chosen[i]| ==>
              r.chosen[i][j] == (b.chosen[i][j] || b.numbers[i][j] in ds)
    decreases |ds|
  {
    if |ds| == 0 then b
    else
      var front := ds[..|ds| - 1];
      assert ds == front + [ds[|ds| - 1]];
      WellFormedCovers(ChooseAll(b, front));
      Choose(ChooseAll(b, front), ds[|ds| - 1])
  }

  lemma ChooseAllNone(b: Board, draws: seq<nat>)
    requires WellFormed(b)
    ensures ChooseAll(b, draws[..0]) == b
  {
    assert draws[..0] == [];
  }

  lemma ChooseAllStep(b: Board, draws: seq<nat>, d: nat)
    requires WellFormed(b) && d < |draws|
    ensures Covers(ChooseAll(b, draws[..d]))
    ensures ChooseAll(b, draws[..d + 1]) == Choose(ChooseAll(b, draws[..d]), draws[d])
  {
    WellFormedCovers(ChooseAll(b, draws[..d]));
    assert draws[..d + 1][..d] == draws[..d];
  }

  /** Board `j` is winning once draw `d` (and every draw before it) is chosen. */
  predicate WinsAt(boards: seq<Board>, draws: seq<nat>, d: nat, j: nat)
    requires AllWellFormed(boards) && d < |draws| && j < |boards|
  {
    var b := ChooseAll(boards[j], draws[..d + 1]);
    WellFormedCovers(b);
    IsWinning(b)
  }

  /** The score board `j` would report at draw `d`. */
  function Score(boards: seq<Board>, draws: seq<nat>, d: nat, j: nat): nat
    requires AllWellFormed(boards) && d < |draws| && j < |boards|
  {
    draws[d] * SumOfNotChosen(ChooseAll(boards[j], draws[..d + 1]))
  }

  /** No board wins at any draw. */
  predicate NoWin(boards: seq<Board>, draws: seq<nat>)
    requires AllWellFormed(boards)
  {
    forall d: nat, j: nat :: d < |draws| && j < |boards| ==> !WinsAt(boards, draws, d, j)
  }

  /** (d, j) is the first pair, in draw-then-board order, at which a board wins. */
  predicate IsFirstWin(boards: seq<Board>, draws: seq<nat>, d: nat, j: nat)
    requires AllWellFormed(boards)
  {
    && d < |draws| && j < |boards|
    && WinsAt(boards, draws, d, j)
    && forall d': nat, j': nat :: d' < |draws| && j' < |boards| && Before(d', j', d, j) ==>
         !WinsAt(boards, draws, d', j')
  }

  /** Board `j` first wins at draw `d`. */
  predicate WinEvent(boards: seq<Board>, draws: seq<nat>, d: nat, j: nat)
    requires AllWellFormed(boards)
  {
    && d < |draws| && j < |boards|
    && WinsAt(boards, draws, d, j)
    && forall d': nat :: d' < d ==> !WinsAt(boards, draws, d', j)
  }

  /** (d, j) is the last win event: every other board wins earlier, or at the
      same draw with a lower index. */
  predicate IsLastWin(boards: seq<Board>, draws: seq<nat>, d: nat, j: nat)
    requires AllWellFormed(boards)
  {
    && WinEvent(boards, draws, d, j)
    && forall d': nat, j': nat :: d' < |draws| && j' < |boards| && WinEvent(boards, draws, d', j') ==>
         d' < d || (d' == d && j' <= j)
  }

  /** Once a board wins it keeps winning at every later draw: a longer prefix
      of the draws only adds marks. */
  lemma WinsAtMonotone(boards: seq<Board>, draws: seq<nat>, d: nat, d': nat, j: nat)
    requires AllWellFormed(boards) && d <= d' < |draws| && j < |boards|
    ensures WinsAt(boards, draws, d, j) ==> WinsAt(boards, draws, d', j)
  {
    var b1 := ChooseAll(boards[j], draws[..d + 1]);
    var b2 := ChooseAll(boards[j], draws[..d' + 1]);
    forall i, c | 0 <= i < |b1.chosen| && 0 <= c < |b1.chosen[i]| && b1.chosen[i][c]
      ensures b2.chosen[i][c]
    {
      if boards[j].numbers[i][c] in draws[..d + 1] {
        var k :| 0 <= k < d + 1 && draws[..d + 1][k] == boards[j].numbers[i][c];
        assert draws[..d' + 1][k] == draws[k];
      }
    }
    WellFormedCovers(b1);
    WinningMonotone(b1, b2);
  }

  /** There is at most one last win event. */
  lemma LastWinUnique(boards: seq<Board>, draws: seq<nat>, d: nat, j: nat, d': nat, j': nat)
    requires AllWellFormed(boards)
    requires IsLastWin(boards, draws, d, j) && IsLastWin(boards, draws, d', j')
    ensures d == d' && j == j'
  {
    assert d' < d || (d' == d && j' <= j);
    assert d < d' || (d == d' && j <= j');
  }

  // ------------------------------------------------------------------ task1

  datatype Round = Won(score: nat) | Continue(boards: seq<Board>)

  /** The inner loop of `task1` for one drawn number, from board `i` on. */
  function FirstRound(n: nat, state: seq<Board>, i: nat): (r: Round)
    requires i <= |state| && AllWellFormed(state)
    ensures r.Continue? ==> |r.boards| == |state| && AllWellFormed(r.boards)
    decreases |state| - i
  {
    if i == |state| then Continue(state)
    else
      WellFormedCovers(state[i]);
      var b := Choose(state[i], n);
      WellFormedCovers(b);
      if IsWinning(b) then Won(n * SumOfNotChosen(b))
      else FirstRound(n, state[i := b], i + 1)
  }

  /** The outer loop of `task1`, from draw `k` on. */
  function FirstFrom(draws: seq<nat>, k: nat, state: seq<Board>): Option<nat>
    requires k <= |draws| && AllWellFormed(state)
    decreases |draws| - k
  {
    if k == |draws| then None
    else match FirstRound(draws[k], state, 0)
      case Won(s) => Some(s)
      case Continue(next) => FirstFrom(draws, k + 1, next)
  }

  /** Before board `i` takes draw `k`: the boards before it have the draws up
      to `k` chosen, and the rest the draws before `k`. */
  predicate Played(boards: seq<Board>, draws: seq<nat>, k: nat, state: seq<Board>, i: nat)
    requires AllWellFormed(boards) && k < |draws| && |state| == |boards|
  {
    && (forall j :: 0 <= j < i && j < |state| ==> state[j] == ChooseAll(boards[j], draws[..k + 1]))
    && (forall j :: i <= j < |state| ==> state[j] == ChooseAll(boards[j], draws[..k]))
  }

  /** Every pair before (k, i) in draw-then-board order loses. */
  ghost predicate LostBefore(boards: seq<Board>, draws: seq<nat>, k: nat, i: nat)
    requires AllWellFormed(boards) && k < |draws|
  {
    forall d: nat, j: nat :: j < |boards| && Before(d, j, k, i) ==> !WinsAt(boards, draws, d, j)
  }

  /** Board `i` taking draw `k` moves `Played` on to board `i + 1`. */
  lemma PlayedNext(boards: seq<Board>, draws: seq<nat>, k: nat, state: seq<Board>, i: nat, b: Board)
    requires AllWellFormed(boards) && k < |draws| && |state| == |boards| && i < |state|
    requires Played(boards, draws, k, state, i) && b == ChooseAll(boards[i], draws[..k + 1])
    ensures Played(boards, draws, k, state[i := b], i + 1)
  {
  }

  /** A losing pair (k, i) moves `LostBefore` on to (k, i + 1). */
  lemma LostBeforeNext(boards: seq<Board>, draws: seq<nat>, k: nat, i: nat)
    requires AllWellFormed(boards) && k < |draws| && i < |boards|
    requires LostBefore(boards, draws, k, i) && !WinsAt(boards, draws, k, i)
    ensures LostBefore(boards, draws, k, i + 1)
  {
    forall d: nat, j: nat | j < |boards| && Before(d, j, k, i + 1)
      ensures !WinsAt(boards, draws, d, j)
    {
      if d != k || j != i {
        assert Before(d, j, k, i);
      }
    }
  }

  /** What the inner loop of `task1` for draw `k` reports when it starts at
      board `i`: a win is the score of the first winning pair, at some board
      from `i` on, and running to the end hands on every board with the draws
      up to `k` chosen, none of them winning at `k`. */
  ghost predicate RoundOutcome(boards: seq<Board>, draws: seq<nat>, k: nat, i: nat, r: Round)
    requires AllWellFormed(boards) && k < |draws|
  {
    match r
    case Won(score) =>
      exists j: nat :: i <= j < |boards| && IsFirstWin(boards, draws, k, j) && score == Score(boards, draws, k, j)
    case Continue(next) =>
      && |next| == |boards|
      && (forall j :: 0 <= j < |boards| ==> next[j] == ChooseAll(boards[j], draws[..k + 1]))
      && forall j: nat :: j < |boards| ==> !WinsAt(boards, draws, k, j)
  }

  /** An outcome found from board `i + 1` on is one from board `i` on. */
  lemma OutcomeEarlier(boards: seq<Board>, draws: seq<nat>, k: nat, i: nat, r: Round)
    requires AllWellFormed(boards) && k < |draws|
    requires RoundOutcome(boards, draws, k, i + 1, r)
    ensures RoundOutcome(boards, draws, k, i, r)
  {
    if r.Won? {
      var j: nat :| i + 1 <= j < |boards| && IsFirstWin(boards, draws, k, j) && r.score == Score(boards, draws, k, j);
    }
  }

  /** The inner loop of `task1` from board `i` on, entered with every earlier
      pair losing, reports the outcome of draw `k`. The induction runs through
      `FirstRoundRest`. */
  lemma {:induction false} FirstRoundCorrect(boards: seq<Board>, draws: seq<nat>, k: nat, state: seq<Board>, i: nat)
    requires AllWellFormed(boards) && AllWellFormed(state)
    requires k < |draws| && |state| == |boards| && i <= |state|
    requires Played(boards, draws, k, state, i) && LostBefore(boards, draws, k, i)
    ensures RoundOutcome(boards, draws, k, i, FirstRound(draws[k], state, i))
    decreases |state| - i, 1
  {
    if i < |state| {
      FirstRoundRest(boards, draws, k, state, i);
    } else {
      forall j: nat | j < |boards| ensures !WinsAt(boards, draws, k, j) {
        assert Before(k, j, k, i);
      }
    }
  }

  /** Board `i` takes draw `k`: it is the first winning pair if it wins, and
      otherwise the rest of the inner loop runs on. */
  lemma {:induction false} FirstRoundRest(boards: seq<Board>, draws: seq<nat>, k: nat, state: seq<Board>, i: nat)
    requires AllWellFormed(boards) && AllWellFormed(state)
    requires k < |draws| && |state| == |boards| && i < |state|
    requires Played(boards, draws, k, state, i) && LostBefore(boards, draws, k, i)
    ensures RoundOutcome(boards, draws, k, i, FirstRound(draws[k], state, i))
    decreases |state| - i, 0
  {
    ChooseAllStep(boards[i], draws, k);
    var b := Choose(state[i], draws[k]);
    assert b == ChooseAll(boards[i], draws[..k + 1]);
    if IsWinning(b) {
      assert IsFirstWin(boards, draws, k, i);
    } else {
      PlayedNext(boards, draws, k, state, i, b);
      LostBeforeNext(boards, draws, k, i);
      var r := FirstRound(draws[k], state[i := b], i + 1);
      assert FirstRound(draws[k], state, i) == r;
      FirstRoundCorrect(boards, draws, k, state[i := b], i + 1);
      OutcomeEarlier(boards, draws, k, i, r);
    }
  }

  lemma {:induction false} FirstFromCorrect(boards: seq<Board>, draws: seq<nat>, k: nat, state: seq<Board>)
    requires AllWellFormed(boards) && AllWellFormed(state)
    requires k <= |draws| && |state| == |boards|
    requires forall j :: 0 <= j < |state| ==> state[j] == ChooseAll(boards[j], draws[..k])
    requires forall d: nat, j: nat :: d < k && j < |boards| ==> !WinsAt(boards, draws, d, j)
    ensures FirstFrom(draws, k, state).None? <==> NoWin(boards, draws)
    ensures FirstFrom(draws, k, state).Some? ==>
              exists d: nat, j: nat :: IsFirstWin(boards, draws, d, j)
                                       && FirstFrom(draws, k, state).value == Score(boards, draws, d, j)
    decreases |draws| - k
  {
    if k < |draws| {
      FirstRoundCorrect(boards, draws, k, state, 0);
      match FirstRound(draws[k], state, 0)
      case Won(s) => {}
      case Continue(next) => {
        FirstFromCorrect(boards, draws, k + 1, next);
      }
    }
  }

  /** `task1`: the score of the first board to win, or `None` (the source's
      panic) when no board wins before the draws run out. */
  function FirstWinnerScore(draws: seq<nat>, boards: seq<Board>): (r: Option<nat>)
    requires AllWellFormed(boards)
    ensures r.None? <==> NoWin(boards, draws)
    ensures r.Some? ==>
              exists d: nat, j: nat :: IsFirstWin(boards, draws, d, j) && r.value == Score(boards, draws, d, j)
  {
    forall j | 0 <= j < |boards|
      ensures boards[j] == ChooseAll(boards[j], draws[..0])
    {
      ChooseAllNone(boards[j], draws);
    }
    FirstFromCorrect(boards, draws, 0, boards);
    FirstFrom(draws, 0, boards)
  }

  // ------------------------------------------------------------------ task2

  /** The mutable state of `task2`: the boards, the indices of the boards that
      have won, and the last score seen. */
  datatype Tally = Tally(boards: seq<Board>, won: set<nat>, last: Option<nat>)

  /** The body of the inner loop of `task2` for board `i`: a board whose
      index is in `won` is skipped; otherwise the number is chosen on it and,
      if it now wins, its index joins `won` and its score becomes the last
      score. */
  function LastStep(n: nat, t: Tally, i: nat): (r: Tally)
    requires i < |t.boards| && AllWellFormed(t.boards)
    ensures |r.boards| == |t.boards| && AllWellFormed(r.boards)
    ensures forall j :: 0 <= j < |t.boards| && j != i ==> r.boards[j] == t.boards[j]
    ensures i in t.won ==> r == t
    ensures r.won == t.won || r.won == t.won + {i}
    ensures r.last != t.last ==> i in r.won - t.won
  {
    if i in t.won then t
    else
      WellFormedCovers(t.boards[i]);
      var b := Choose(t.boards[i], n);
      WellFormedCovers(b);
      if IsWinning(b) then Tally(t.boards[i := b], t.won + {i}, Some(n * SumOfNotChosen(b)))
      else t.(boards := t.boards[i := b])
  }

  /** The inner loop of `task2` for one drawn number, from board `i` on. Boards
      that had won before the loop are left exactly as they were. */
  function LastRound(n: nat, t: Tally, i: nat): (r: Tally)
    requires i <= |t.boards| && AllWellFormed(t.boards)
    ensures |r.boards| == |t.boards| && AllWellFormed(r.boards)
    ensures t.won <= r.won
    ensures forall j :: 0 <= j < |t.boards| && j in t.won ==> r.boards[j] == t.boards[j]
    decreases |t.boards| - i
  {
    if i == |t.boards| then t
    else LastRound(n, LastStep(n, t, i), i + 1)
  }

  /** The outer loop of `task2`, from draw `k` on. */
  function LastFrom(draws: seq<nat>, k: nat, t: Tally): Option<nat>
    requires k <= |draws| && AllWellFormed(t.boards)
    decreases |draws| - k
  {
    if k == |draws| then t.last
    else LastFrom(draws, k + 1, LastRound(draws[k], t, 0))
  }

  /** The win table of the game, as the bookkeeping lemmas see it. */
  function Wins(boards: seq<Board>, draws: seq<nat>): (nat, nat) -> bool
    requires AllWellFormed(boards)
  {
    (d: nat, j: nat) => d < |draws| && j < |boards| && WinsAt(boards, draws, d, j)
  }

  /** The score table of the game. */
  function Scores(boards: seq<Board>, draws: seq<nat>): (nat, nat) -> nat
    requires AllWellFormed(boards)
  {
    (d: nat, j: nat) => if d < |draws| && j < |boards| then Score(boards, draws, d, j) else 0
  }

  predicate Shape(boards: seq<Board>, draws: seq<nat>, k: nat, i: nat, t: Tally)
  {
    && k <= |draws| && i <= |boards| && (k < |draws| || i == 0)
    && |t.boards| == |boards| && AllWellFormed(t.boards)
  }

  /** A board that has not won has had every visited draw chosen on it. */
  predicate Tracked(boards: seq<Board>, draws: seq<nat>, k: nat, i: nat, t: Tally)
    requires AllWellFormed(boards) && Shape(boards, draws, k, i, t)
  {
    forall j :: 0 <= j < |boards| && j !in t.won ==>
      t.boards[j] == ChooseAll(boards[j], draws[..if j < i then k + 1 else k])
  }

  /** `w` and `sc` are the win and score tables of the game. */
  ghost predicate Agrees(boards: seq<Board>, draws: seq<nat>, w: (nat, nat) -> bool, sc: (nat, nat) -> nat)
    requires AllWellFormed(boards)
  {
    forall d: nat, j: nat :: d < |draws| && j < |boards| ==>
      w(d, j) == WinsAt(boards, draws, d, j) && sc(d, j) == Score(boards, draws, d, j)
  }

  /** The invariant of `task2` once every pair before (k, i) is visited. */
  ghost predicate TallyInv(boards: seq<Board>, draws: seq<nat>, w: (nat, nat) -> bool, sc: (nat, nat) -> nat,
                           k: nat, i: nat, t: Tally)
    requires AllWellFormed(boards)
  {
    && Shape(boards, draws, k, i, t)
    && Tracked(boards, draws, k, i, t)
    && Inv(w, sc, |draws|, |boards|, k, i, t.won, t.last)
  }

  /** One step of the inner loop keeps the boards tracked, and adds board `i`
      to `won` with its score exactly when it was not there and now wins. */
  lemma LastStepTracked(boards: seq<Board>, draws: seq<nat>, k: nat, t: Tally, i: nat)
    requires AllWellFormed(boards) && k < |draws| && i < |boards|
    requires Shape(boards, draws, k, i, t) && Tracked(boards, draws, k, i, t)
    ensures Shape(boards, draws, k, i + 1, LastStep(draws[k], t, i))
    ensures Tracked(boards, draws, k, i + 1, LastStep(draws[k], t, i))
    ensures i !in t.won && WinsAt(boards, draws, k, i) ==>
              LastStep(draws[k], t, i) == Tally(LastStep(draws[k], t, i).boards, t.won + {i},
                                                Some(Score(boards, draws, k, i)))
    ensures i !in t.won && !WinsAt(boards, draws, k, i) ==>
              LastStep(draws[k], t, i).won == t.won && LastStep(draws[k], t, i).last == t.last
  {
    var r := LastStep(draws[k], t, i);
    if i !in t.won {
      ChooseAllStep(boards[i], draws, k);
      var b := Choose(t.boards[i], draws[k]);
      assert b == ChooseAll(boards[i], draws[..k + 1]);
      assert r.boards[i] == b;
    }
    forall j | 0 <= j < |boards| && j !in r.won
      ensures r.boards[j] == ChooseAll(boards[j], draws[..if j < i + 1 then k + 1 else k])
    {
      if j != i {
        assert r.boards[j] == t.boards[j];
      }
    }
  }

  /** One step of the inner loop of `task2` keeps the invariant. */
  lemma LastStepCorrect(boards: seq<Board>, draws: seq<nat>, w: (nat, nat) -> bool, sc: (nat, nat) -> nat,
                        k: nat, t: Tally, i: nat)
    requires AllWellFormed(boards) && Agrees(boards, draws, w, sc)
    requires k < |draws| && i < |boards| && TallyInv(boards, draws, w, sc, k, i, t)
    ensures TallyInv(boards, draws, w, sc, k, i + 1, LastStep(draws[k], t, i))
  {
    LastStepTracked(boards, draws, k, t, i);
    if i in t.won {
      SkipWon(w, sc, |draws|, |boards|, k, i, t.won, t.last);
    } else if WinsAt(boards, draws, k, i) {
      assert w(k, i) && sc(k, i) == Score(boards, draws, k, i);
      MarkWin(w, sc, |draws|, |boards|, k, i, t.won, t.last);
    } else {
      assert !w(k, i);
      MarkNoWin(w, sc, |draws|, |boards|, k, i, t.won, t.last);
    }
  }

  /** After the last board of draw `k`, the invariant holds at the first
      board of draw `k + 1`. */
  lemma LastRoundEnd(boards: seq<Board>, draws: seq<nat>, w: (nat, nat) -> bool, sc: (nat, nat) -> nat,
                     k: nat, t: Tally)
    requires AllWellFormed(boards) && k < |draws| && TallyInv(boards, draws, w, sc, k, |boards|, t)
    ensures TallyInv(boards, draws, w, sc, k + 1, 0, t)
  {
    NextDraw(w, sc, |draws|, |boards|, k, t.won, t.last);
    forall j | 0 <= j < |boards| && j !in t.won
      ensures t.boards[j] == ChooseAll(boards[j], draws[..if j < 0 then k + 2 else k + 1])
    {
    }
  }

  /** The inner loop of `task2`, from board `i` on, takes the invariant at
      (k, i) to the invariant at the first board of the next draw. The
      induction runs through `LastRoundRest` and `LastRoundNext`. */
  lemma {:induction false} LastRoundCorrect(boards: seq<Board>, draws: seq<nat>, w: (nat, nat) -> bool,
                                            sc: (nat, nat) -> nat, k: nat, t: Tally, i: nat)
    requires AllWellFormed(boards) && Agrees(boards, draws, w, sc) && k < |draws|
    requires TallyInv(boards, draws, w, sc, k, i, t)
    ensures TallyInv(boards, draws, w, sc, k + 1, 0, LastRound(draws[k], t, i))
    decreases |boards| - i, 2
  {
    if i == |boards| {
      LastRoundEnd(boards, draws, w, sc, k, t);
    } else {
      LastRoundRest(boards, draws, w, sc, k, t, i);
    }
  }

  /** One step of the inner loop, then the rest of it. */
  lemma {:induction false} LastRoundRest(boards: seq<Board>, draws: seq<nat>, w: (nat, nat) -> bool,
                                            sc: (nat, nat) -> nat, k: nat, t: Tally, i: nat)
    requires AllWellFormed(boards) && Agrees(boards, draws, w, sc) && k < |draws| && i < |boards|
    requires TallyInv(boards, draws, w, sc, k, i, t)
    ensures TallyInv(boards, draws, w, sc, k + 1, 0, LastRound(draws[k], LastStep(draws[k], t, i), i + 1))
    decreases |boards| - i, 1
  {
    LastStepCorrect(boards, draws, w, sc, k, t, i);
    LastRoundNext(boards, draws, w, sc, k, LastStep(draws[k], t, i), i);
  }

  /** The rest of the inner loop after board `i`. */
  lemma {:induction false} LastRoundNext(boards: seq<Board>, draws: seq<nat>, w: (nat, nat) -> bool,
                                            sc: (nat, nat) -> nat, k: nat, t: Tally, i: nat)
    requires AllWellFormed(boards) && Agrees(boards, draws, w, sc) && k < |draws| && i < |boards|
    requires TallyInv(boards, draws, w, sc, k, i + 1, t)
    ensures TallyInv(boards, draws, w, sc, k + 1, 0, LastRound(draws[k], t, i + 1))
    decreases |boards| - i, 0
  {
    LastRoundCorrect(boards, draws, w, sc, k, t, i + 1);
  }

  /** What `task2` may report: `None` exactly when no board ever wins, and
      otherwise the score of the last win event. */
  ghost predicate LastOutcome(boards: seq<Board>, draws: seq<nat>, r: Option<nat>)
    requires AllWellFormed(boards)
  {
    && (r.None? <==> NoWin(boards, draws))
    && (r.Some? ==> exists d: nat, j: nat :: IsLastWin(boards, draws, d, j) && r.value == Score(boards, draws, d, j))
  }

  /** The outer loop of `task2` from draw `k` on, started in the invariant,
      reports the score of the last win event, or `None` exactly when no board
      ever wins. */
  lemma {:induction false} LastFromCorrect(boards: seq<Board>, draws: seq<nat>, k: nat, t: Tally)
    requires AllWellFormed(boards)
    requires TallyInv(boards, draws, Wins(boards, draws), Scores(boards, draws), k, 0, t)
    ensures LastOutcome(boards, draws, LastFrom(draws, k, t))
    decreases |draws| - k
  {
    if k < |draws| {
      LastFromNext(boards, draws, k, t);
      var next := LastRound(draws[k], t, 0);
      assert LastFrom(draws, k, t) == LastFrom(draws, k + 1, next);
      LastFromCorrect(boards, draws, k + 1, next);
    } else {
      LastFromEnd(boards, draws, t);
    }
  }

  /** One draw of the outer loop keeps the invariant, over the game's own
      win table. */
  lemma LastFromNext(boards: seq<Board>, draws: seq<nat>, k: nat, t: Tally)
    requires AllWellFormed(boards) && k < |draws|
    requires TallyInv(boards, draws, Wins(boards, draws), Scores(boards, draws), k, 0, t)
    ensures TallyInv(boards, draws, Wins(boards, draws), Scores(boards, draws), k + 1, 0, LastRound(draws[k], t, 0))
  {
    WinTables(boards, draws);
    LastRoundCorrect(boards, draws, Wins(boards, draws), Scores(boards, draws), k, t, 0);
  }

  /** Once every draw is played, the tally's last score is the answer. */
  lemma LastFromEnd(boards: seq<Board>, draws: seq<nat>, t: Tally)
    requires AllWellFormed(boards)
    requires TallyInv(boards, draws, Wins(boards, draws), Scores(boards, draws), |draws|, 0, t)
    ensures LastOutcome(boards, draws, t.last)
  {
    var w := Wins(boards, draws);
    var sc := Scores(boards, draws);
    Finish(w, sc, |draws|, |boards|, t.won, t.last);
    NoWinBridge(boards, draws);
    if t.last.Some? {
      var d: nat, j: nat :| IsLast(w, |draws|, |boards|, d, j) && t.last.value == sc(d, j);
      LastWinBridge(boards, draws, d, j);
    }
  }

  /** `Wins` and `Scores` are the tables of the game. */
  lemma WinTables(boards: seq<Board>, draws: seq<nat>)
    requires AllWellFormed(boards)
    ensures Agrees(boards, draws, Wins(boards, draws), Scores(boards, draws))
  {
  }

  /** The table has no win exactly when no board wins at any draw. */
  lemma NoWinBridge(boards: seq<Board>, draws: seq<nat>)
    requires AllWellFormed(boards)
    ensures (forall d: nat, j: nat :: d < |draws| && j < |boards| ==> !Wins(boards, draws)(d, j))
            <==> NoWin(boards, draws)
  {
    var w := Wins(boards, draws);
    if forall d: nat, j: nat :: d < |draws| && j < |boards| ==> !w(d, j) {
      forall d: nat, j: nat | d < |draws| && j < |boards|
        ensures !WinsAt(boards, draws, d, j)
      {
        assert !w(d, j);
      }
    }
    if NoWin(boards, draws) {
      forall d: nat, j: nat | d < |draws| && j < |boards|
        ensures !w(d, j)
      {
        assert !WinsAt(boards, draws, d, j);
      }
    }
  }

  /** A win event in the table is a win event over `WinsAt`. */
  lemma EventBridge(boards: seq<Board>, draws: seq<nat>, d: nat, j: nat)
    requires AllWellFormed(boards) && d < |draws| && j < |boards|
    ensures Event(Wins(boards, draws), d, j) <==> WinEvent(boards, draws, d, j)
  {
    var w := Wins(boards, draws);
    if Event(w, d, j) {
      forall d': nat | d' < d
        ensures !WinsAt(boards, draws, d', j)
      {
        assert !w(d', j);
      }
    }
    if WinEvent(boards, draws, d, j) {
      forall d': nat | d' < d
        ensures !w(d', j)
      {
        assert !WinsAt(boards, draws, d', j);
      }
    }
  }

  /** The table form of "last win event" is the one stated over `WinsAt`. */
  lemma LastWinBridge(boards: seq<Board>, draws: seq<nat>, d: nat, j: nat)
    requires AllWellFormed(boards)
    requires IsLast(Wins(boards, draws), |draws|, |boards|, d, j)
    ensures IsLastWin(boards, draws, d, j)
    ensures Scores(boards, draws)(d, j) == Score(boards, draws, d, j)
  {
    EventBridge(boards, draws, d, j);
    forall d': nat, j': nat | d' < |draws| && j' < |boards| && WinEvent(boards, draws, d', j')
      ensures d' < d || (d' == d && j' <= j)
    {
      EventBridge(boards, draws, d', j');
    }
  }

  /** `task2`: the score of the last board to win, boards that have won being
      no longer marked, or `None` (the source's failed `expect`) when no board
      ever wins. */
  function LastWinnerScore(draws: seq<nat>, boards: seq<Board>): (r: Option<nat>)
    requires AllWellFormed(boards)
    ensures r.None? <==> NoWin(boards, draws)
    ensures r.Some? ==>
              exists d: nat, j: nat :: IsLastWin(boards, draws, d, j) && r.value == Score(boards, draws, d, j)
  {
    var t := Tally(boards, {}, None);
    forall j | 0 <= j < |boards|
      ensures boards[j] == ChooseAll(boards[j], draws[..0])
    {
      ChooseAllNone(boards[j], draws);
    }
    InvStart(Wins(boards, draws), Scores(boards, draws), |draws|, |boards|);
    assert TallyInv(boards, draws, Wins(boards, draws), Scores(boards, draws), 0, 0, t);
    LastFromCorrect(boards, draws, 0, t);
    LastFrom(draws, 0, t)
  }

  // ---------------------------------------------------- the drivers' results

  /** A pair at which some board wins, with every board before it in
      draw-then-board order losing there, is the first winning pair. Losing
      at the previous draw is enough for the boards after `j`, since a board
      keeps winning once it has won. */
  lemma FirstWinFrom(boards: seq<Board>, draws: seq<nat>, d: nat, j: nat)
    requires AllWellFormed(boards) && d < |draws| && j < |boards|
    requires WinsAt(boards, draws, d, j)
    requires forall j': nat :: j' < j ==> !WinsAt(boards, draws, d, j')
    requires forall d': nat, j': nat :: d' + 1 == d && j <= j' < |boards| ==> !WinsAt(boards, draws, d', j')
    ensures IsFirstWin(boards, draws, d, j)
  {
    forall d': nat, j': nat | d' < |draws| && j' < |boards| && Before(d', j', d, j)
      ensures !WinsAt(boards, draws, d', j')
    {
      if j' < j {
        WinsAtMonotone(boards, draws, d', d, j');
      } else {
        WinsAtMonotone(boards, draws, d', d - 1, j');
      }
    }
  }

  /** `task1` reports the score of the first winning pair. */
  lemma FirstWinnerIs(draws: seq<nat>, boards: seq<Board>, d: nat, j: nat)
    requires AllWellFormed(boards) && IsFirstWin(boards, draws, d, j)
    ensures FirstWinnerScore(draws, boards) == Some(Score(boards, draws, d, j))
  {
    var r := FirstWinnerScore(draws, boards);
    assert !NoWin(boards, draws);
    var d', j' :| IsFirstWin(boards, draws, d', j') && r.value == Score(boards, draws, d', j');
    assert !Before(d', j', d, j);
    assert !Before(d, j, d', j');
  }

  /** Board `k` wins at some pair before (d, j). */
  predicate WonBefore(boards: seq<Board>, draws: seq<nat>, d: nat, j: nat, k: nat)
    requires AllWellFormed(boards) && k < |boards|
  {
    exists e: nat :: e < |draws| && Before(e, k, d, j) && WinsAt(boards, draws, e, k)
  }

  /** A board's win event comes no later than any draw at which it wins. */
  lemma EventNoLater(boards: seq<Board>, draws: seq<nat>, d: nat, j: nat, e: nat)
    requires AllWellFormed(boards) && WinEvent(boards, draws, d, j)
    requires e < |draws| && WinsAt(boards, draws, e, j)
    ensures d <= e
  {
  }

  /** A board that wins at draw `d` and not at the draw before, while every
      other board wins at an earlier pair, has the last win event. */
  lemma LastWinFrom(boards: seq<Board>, draws: seq<nat>, d: nat, j: nat)
    requires AllWellFormed(boards) && d < |draws| && j < |boards|
    requires WinsAt(boards, draws, d, j)
    requires forall d': nat :: d' + 1 == d ==> !WinsAt(boards, draws, d', j)
    requires forall k: nat :: k < |boards| && k != j ==> WonBefore(boards, draws, d, j, k)
    ensures IsLastWin(boards, draws, d, j)
  {
    forall d': nat | d' < d
      ensures !WinsAt(boards, draws, d', j)
    {
      WinsAtMonotone(boards, draws, d', d - 1, j);
    }
    assert WinEvent(boards, draws, d, j);
    forall d': nat, k: nat | d' < |draws| && k < |boards| && WinEvent(boards, draws, d', k)
      ensures d' < d || (d' == d && k <= j)
    {
      if k == j {
        EventNoLater(boards, draws, d', k, d);
      } else {
        OtherEventBefore(boards, draws, d, j, d', k);
      }
    }
  }

  /** The win event of a board that won before (d, j) comes before it too. */
  lemma OtherEventBefore(boards: seq<Board>, draws: seq<nat>, d: nat, j: nat, d': nat, k: nat)
    requires AllWellFormed(boards) && k < |boards| && k != j
    requires WonBefore(boards, draws, d, j, k) && WinEvent(boards, draws, d', k)
    ensures d' < d || (d' == d && k <= j)
  {
    var e: nat :| e < |draws| && Before(e, k, d, j) && WinsAt(boards, draws, e, k);
    EventNoLater(boards, draws, d', k, e);
  }

  /** `task2` reports the score of the last win event. */
  lemma LastWinnerIs(draws: seq<nat>, boards: seq<Board>, d: nat, j: nat)
    requires AllWellFormed(boards) && IsLastWin(boards, draws, d, j)
    ensures LastWinnerScore(draws, boards) == Some(Score(boards, draws, d, j))
  {
    var r := LastWinnerScore(draws, boards);
    assert !NoWin(boards, draws);
    var d', j' :| IsLastWin(boards, draws, d', j') && r.value == Score(boards, draws, d', j');
    LastWinUnique(boards, draws, d, j, d', j');
  }

  // ---------------------------------------------------------- the two together

  /** The first winning pair is itself a win event, and it is no later than
      the last win event. */
  lemma FirstWinPrecedesLastWin(boards: seq<Board>, draws: seq<nat>, d1: nat, j1: nat, d2: nat, j2: nat)
    requires AllWellFormed(boards)
    requires IsFirstWin(boards, draws, d1, j1) && IsLastWin(boards, draws, d2, j2)
    ensures WinEvent(boards, draws, d1, j1)
    ensures d1 < d2 || (d1 == d2 && j1 <= j2)
  {
    forall d': nat | d' < d1
      ensures !WinsAt(boards, draws, d', j1)
    {
      assert Before(d', j1, d1, j1);
    }
  }
}
