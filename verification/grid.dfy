/** Generic helpers over grids stored as sequences of rows: the `transpose`
    helper of day_4/main.rs and the two iterator combinators (`any` over rows,
    `all` over the cells of a row) that the win test is built from. */
module Grid {

  /** Every row has the length of the first row. */
  predicate Rectangular<T>(v: seq<seq<T>>)
  {
    forall i :: 0 <= i < |v| ==> |v[i]| == |v[0]|
  }

  /** What `transpose` needs in order not to panic: a non-empty grid in which
      every row is at least as long as the first one (the first row fixes the
      number of columns, and every row is indexed at each of them). */
  predicate CanTranspose<T>(v: seq<seq<T>>)
  {
    |v| > 0 && forall j :: 0 <= j < |v| ==> |v[0]| <= |v[j]|
  }

  /** Row `i` of the result is column `i` of the argument. */
  function Transpose<T>(v: seq<seq<T>>): (t: seq<seq<T>>)
    requires CanTranspose(v)
    ensures |t| == |v[0]|
    ensures forall i :: 0 <= i < |t| ==> |t[i]| == |v|
    ensures forall i, j :: 0 <= i < |t| && 0 <= j < |v| ==> t[i][j] == v[j][i]
  {
    seq(|v[0]|, i requires 0 <= i < |v[0]| =>
      seq(|v|, j requires 0 <= j < |v| => v[j][i]))
  }

  /** Transposing a rectangular grid with at least one column twice gives the
      grid back. */
  lemma TransposeTwice<T>(v: seq<seq<T>>)
    requires |v| > 0 && |v[0]| > 0 && Rectangular(v)
    ensures CanTranspose(Transpose(v))
    ensures Transpose(Transpose(v)) == v
  {
    var t := Transpose(v);
    var tt := Transpose(t);
    assert |tt| == |v|;
    forall j | 0 <= j < |v|
      ensures tt[j] == v[j]
    {
      assert |tt[j]| == |v[j]|;
      forall i | 0 <= i < |v[j]|
        ensures tt[j][i] == v[j][i]
      {
        assert tt[j][i] == t[i][j];
      }
    }
  }

  /** Every flag of the row is set; the row is consumed from the front. */
  function AllTrue(row: seq<bool>): (r: bool)
    ensures r <==> forall j :: 0 <= j < |row| ==> row[j]
  {
    if |row| == 0 then true else row[0] && AllTrue(row[1..])
  }

  /** `has_full_row`: some row has every one of its flags set. */
  function HasFullRow(rows: seq<seq<bool>>): (r: bool)
    ensures r <==> exists i :: 0 <= i < |rows| && AllTrue(rows[i])
  {
    if |rows| == 0 then false
    else AllTrue(rows[0]) || HasFullRow(rows[1..])
  }
}
