/** The bookkeeping of `task2` in day_4/main.rs, stated over an abstract win
    table: `w(d, j)` says board `j` is winning once draw `d` is chosen, and
    `sc(d, j)` is the score it would then report. Draws are numbered
    `0 .. nd - 1` and boards `0 .. nb - 1`; the driver visits the pairs
    (draw, board) in draw-then-board order. */
module Events {
  import opened Options

  /** Pair (d', j') is visited before pair (d, j). */
  predicate Before(d': nat, j': nat, d: nat, j: nat)
  {
    d' < d || (d' == d && j' < j)
  }

  /** Board `j` first wins at draw `d`. */
  ghost predicate Event(w: (nat, nat) -> bool, d: nat, j: nat)
  {
    w(d, j) && forall d': nat :: d' < d ==> !w(d', j)
  }

  /** (d, j) is a win event visited before (k, i), and no other such event
      comes after it. */
  ghost predicate LastBefore(w: (nat, nat) -> bool, nd: nat, nb: nat, k: nat, i: nat, d: nat, j: nat)
  {
    && d < nd && j < nb && Before(d, j, k, i) && Event(w, d, j)
    && forall d': nat, j': nat :: d' < nd && j' < nb && Before(d', j', k, i) && Event(w, d', j') ==>
         d' < d || (d' == d && j' <= j)
  }

  /** (d, j) is the last win event of the whole game. */
  ghost predicate IsLast(w: (nat, nat) -> bool, nd: nat, nb: nat, d: nat, j: nat)
  {
    && d < nd && j < nb && Event(w, d, j)
    && forall d': nat, j': nat :: d' < nd && j' < nb && Event(w, d', j') ==>
         d' < d || (d' == d && j' <= j)
  }

  /** The bookkeeping once every pair before (k, i) has been visited: a board
      outside `won` has not won at a visited pair, a board in `won` had its win
      event at a visited pair, and `last` is the score of the last visited win
      event, or `None` when no board has won. */
  ghost predicate Inv(w: (nat, nat) -> bool, sc: (nat, nat) -> nat, nd: nat, nb: nat,
                      k: nat, i: nat, won: set<nat>, last: Option<nat>)
  {
    && (forall d: nat, j: nat :: d < nd && j < nb && j !in won && Before(d, j, k, i) ==> !w(d, j))
    && (forall j: nat :: j < nb && j in won ==>
          exists d: nat :: d < nd && Before(d, j, k, i) && Event(w, d, j))
    && (last.None? ==> forall j: nat :: j < nb ==> j !in won)
    && (last.Some? ==>
          exists d: nat, j: nat :: LastBefore(w, nd, nb, k, i, d, j) && last.value == sc(d, j))
  }

  lemma InvStart(w: (nat, nat) -> bool, sc: (nat, nat) -> nat, nd: nat, nb: nat)
    ensures Inv(w, sc, nd, nb, 0, 0, {}, None)
  {
  }

  /** When (k, i) is not a win event, the last event before it is still the
      last event before the next pair. */
  lemma LastBeforeExtends(w: (nat, nat) -> bool, nd: nat, nb: nat, k: nat, i: nat, d: nat, j: nat)
    requires LastBefore(w, nd, nb, k, i, d, j) && !Event(w, k, i)
    ensures LastBefore(w, nd, nb, k, i + 1, d, j)
  {
    forall d': nat, j': nat | d' < nd && j' < nb && Before(d', j', k, i + 1) && Event(w, d', j')
      ensures d' < d || (d' == d && j' <= j)
    {
      assert Before(d', j', k, i);
    }
  }

  /** Skipping a board that has already won. */
  lemma SkipWon(w: (nat, nat) -> bool, sc: (nat, nat) -> nat, nd: nat, nb: nat,
                k: nat, i: nat, won: set<nat>, last: Option<nat>)
    requires k < nd && i < nb && Inv(w, sc, nd, nb, k, i, won, last) && i in won
    ensures Inv(w, sc, nd, nb, k, i + 1, won, last)
  {
    var d0: nat :| d0 < nd && Before(d0, i, k, i) && Event(w, d0, i);
    assert !Event(w, k, i);
    if last.Some? {
      var d, j :| LastBefore(w, nd, nb, k, i, d, j) && last.value == sc(d, j);
      LastBeforeExtends(w, nd, nb, k, i, d, j);
    }
    forall d: nat, j: nat | d < nd && j < nb && j !in won && Before(d, j, k, i + 1)
      ensures !w(d, j)
    {
      assert j != i;
    }
  }

  /** Marking a board that has not won and does not win now. */
  lemma MarkNoWin(w: (nat, nat) -> bool, sc: (nat, nat) -> nat, nd: nat, nb: nat,
                  k: nat, i: nat, won: set<nat>, last: Option<nat>)
    requires k < nd && i < nb && Inv(w, sc, nd, nb, k, i, won, last) && i !in won && !w(k, i)
    ensures Inv(w, sc, nd, nb, k, i + 1, won, last)
  {
    assert !Event(w, k, i);
    if last.Some? {
      var d, j :| LastBefore(w, nd, nb, k, i, d, j) && last.value == sc(d, j);
      LastBeforeExtends(w, nd, nb, k, i, d, j);
    }
  }

  /** Marking a board that has not won and wins now: this is its win event,
      and it is the last one so far. */
  lemma MarkWin(w: (nat, nat) -> bool, sc: (nat, nat) -> nat, nd: nat, nb: nat,
                k: nat, i: nat, won: set<nat>, last: Option<nat>)
    requires k < nd && i < nb && Inv(w, sc, nd, nb, k, i, won, last) && i !in won && w(k, i)
    ensures Inv(w, sc, nd, nb, k, i + 1, won + {i}, Some(sc(k, i)))
  {
    assert Event(w, k, i);
    assert LastBefore(w, nd, nb, k, i + 1, k, i);
    forall j: nat | j < nb && j in won + {i}
      ensures exists d: nat :: d < nd && Before(d, j, k, i + 1) && Event(w, d, j)
    {
      if j == i {
        assert Before(k, i, k, i + 1);
      } else {
        var d: nat :| d < nd && Before(d, j, k, i) && Event(w, d, j);
        assert Before(d, j, k, i + 1);
      }
    }
  }

  /** After the last board of draw `k` comes the first board of draw `k + 1`. */
  lemma NextDraw(w: (nat, nat) -> bool, sc: (nat, nat) -> nat, nd: nat, nb: nat,
                 k: nat, won: set<nat>, last: Option<nat>)
    requires Inv(w, sc, nd, nb, k, nb, won, last)
    ensures Inv(w, sc, nd, nb, k + 1, 0, won, last)
  {
    assert forall d: nat, j: nat :: j < nb ==> (Before(d, j, k, nb) <==> Before(d, j, k + 1, 0));
    forall j: nat | j < nb && j in won
      ensures exists d: nat :: d < nd && Before(d, j, k + 1, 0) && Event(w, d, j)
    {
      var d: nat :| d < nd && Before(d, j, k, nb) && Event(w, d, j);
      assert Before(d, j, k + 1, 0);
    }
    if last.Some? {
      var d, j :| LastBefore(w, nd, nb, k, nb, d, j) && last.value == sc(d, j);
      assert LastBefore(w, nd, nb, k + 1, 0, d, j);
    }
  }

  /** Once every draw is visited: no score means no board ever won, and a
      score is that of the last win event of the game. */
  lemma Finish(w: (nat, nat) -> bool, sc: (nat, nat) -> nat, nd: nat, nb: nat,
               won: set<nat>, last: Option<nat>)
    requires Inv(w, sc, nd, nb, nd, 0, won, last)
    ensures last.None? <==> forall d: nat, j: nat :: d < nd && j < nb ==> !w(d, j)
    ensures last.Some? ==> exists d: nat, j: nat :: IsLast(w, nd, nb, d, j) && last.value == sc(d, j)
  {
    if last.Some? {
      var d, j :| LastBefore(w, nd, nb, nd, 0, d, j) && last.value == sc(d, j);
      assert IsLast(w, nd, nb, d, j);
    } else {
      forall d: nat, j: nat | d < nd && j < nb
        ensures !w(d, j)
      {
        assert Before(d, j, nd, 0);
      }
    }
  }
}
