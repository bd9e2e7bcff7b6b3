/**
 * The line-clear pipeline on the board: finding the full rows from the bottom
 * up, and the deferred compaction that splices them out (largest index first)
 * and pushes as many empty rows onto the top.
 */
module LineClear {
  import opened Board

  /** A row is full when none of its cells is empty. */
  predicate IsFullRow(row: Row) {
    forall c :: 0 <= c < |row| ==> row[c] != 0
  }

  predicate Descending(s: seq<int>) {
    forall i, j :: 0 <= i < j < |s| ==> s[i] > s[j]
  }

  /** Indices of the full rows among b[..n], listed from n - 1 down to 0. */
  function FullRowsBelow(b: Grid, n: int): seq<int>
    requires 0 <= n <= |b|
  {
    if n == 0 then [] else (if IsFullRow(b[n - 1]) then [n - 1] else []) + FullRowsBelow(b, n - 1)
  }

  lemma {:induction false} FullRowsBelowSpec(b: Grid, n: int)
    requires 0 <= n <= |b|
    ensures Descending(FullRowsBelow(b, n))
    ensures forall k :: k in FullRowsBelow(b, n) <==> 0 <= k < n && IsFullRow(b[k])
    ensures forall i :: 0 <= i < |FullRowsBelow(b, n)| ==> 0 <= FullRowsBelow(b, n)[i] < n
  {
    if n > 0 {
      FullRowsBelowSpec(b, n - 1);
      var rest := FullRowsBelow(b, n - 1);
      assert forall j :: 0 <= j < |rest| ==> rest[j] < n - 1 by {
        forall j | 0 <= j < |rest| ensures rest[j] < n - 1 {
          assert rest[j] in rest;
        }
      }
    }
  }

  /**
   * The rows clearLines records: an index is listed exactly when that row is
   * full, and the list runs from the bottom row up.
   */
  function FullRows(b: Grid): seq<int> {
    FullRowsBelow(b, |b|)
  }

  lemma FullRowsSpec(b: Grid)
    ensures var rows := FullRows(b);
      && Descending(rows)
      && (forall k :: k in rows <==> 0 <= k < |b| && IsFullRow(b[k]))
      && forall i :: 0 <= i < |rows| ==> 0 <= rows[i] < |b|
  {
    FullRowsBelowSpec(b, |b|);
  }

  /** The detection loop of clearLines, scanning from the bottom row to the top. */
  method FindFullRows(b: Grid) returns (rows: seq<int>)
    ensures rows == FullRows(b)
  {
    rows := [];
    var y := |b| - 1;
    while y >= 0
      invariant -1 <= y < |b|
      invariant rows + FullRowsBelow(b, y + 1) == FullRows(b)
    {
      if IsFullRow(b[y]) {
        rows := rows + [y];
      }
      y := y - 1;
    }
  }

  /** The rows b[0..n) whose index is not in gone, in their original order. */
  function KeepBelow(b: Grid, gone: set<int>, n: int): Grid
    requires 0 <= n <= |b|
  {
    if n == 0 then [] else KeepBelow(b, gone, n - 1) + (if n - 1 in gone then [] else [b[n - 1]])
  }

  lemma {:induction false} KeepAll(b: Grid, gone: set<int>, n: int)
    requires 0 <= n <= |b|
    requires forall k :: k in gone ==> k >= n
    ensures KeepBelow(b, gone, n) == b[..n]
  {
    if n > 0 {
      KeepAll(b, gone, n - 1);
      assert b[..n] == b[..n - 1] + [b[n - 1]];
    }
  }

  /**
   * Splicing out position m of the kept rows is the same as adding m to the
   * removed indices, when m is below every index removed so far.
   */
  lemma {:induction false} RemoveOne(b: Grid, gone: set<int>, m: int, n: int)
    requires 0 <= m < n <= |b|
    requires forall k :: k in gone ==> k > m
    ensures m < |KeepBelow(b, gone, n)|
    ensures KeepBelow(b, gone + {m}, n) == KeepBelow(b, gone, n)[..m] + KeepBelow(b, gone, n)[m + 1..]
  {
    if n == m + 1 {
      KeepAll(b, gone, m);
      KeepAll(b, gone + {m}, m);
    } else {
      RemoveOne(b, gone, m, n - 1);
      var k := KeepBelow(b, gone, n - 1);
      var e := if n - 1 in gone then [] else [b[n - 1]];
      assert KeepBelow(b, gone, n) == k + e;
      assert KeepBelow(b, gone + {m}, n) == KeepBelow(b, gone + {m}, n - 1) + e;
      assert (k + e)[..m] == k[..m];
      assert (k + e)[m + 1..] == k[m + 1..] + e;
    }
  }

  lemma {:induction false} KeepBelowRows(b: Grid, gone: set<int>, n: int)
    requires 0 <= n <= |b|
    ensures forall r :: r in KeepBelow(b, gone, n) ==> r in b
  {
    if n > 0 {
      KeepBelowRows(b, gone, n - 1);
    }
  }

  /** The row indices a recorded list names. */
  function Indices(rows: seq<int>): set<int> {
    set k | k in rows
  }

  lemma Elements(s: seq<int>, m: int)
    ensures Indices(s + [m]) == Indices(s) + {m}
  {
  }

  function EmptyRows(n: nat): (rows: Grid)
    ensures |rows| == n && forall i :: 0 <= i < n ==> rows[i] == EmptyRow()
  {
    seq(n, _ => EmptyRow())
  }

  /**
   * The deferred step of clearLines: splice out the recorded rows, largest
   * index first, then push one empty row onto the top per removed row.
   */
  method CompactRows(b: Grid, rows: seq<int>) returns (nb: Grid)
    requires Descending(rows)
    requires forall i :: 0 <= i < |rows| ==> 0 <= rows[i] < |b|
    ensures |nb| == |b|
    ensures nb == EmptyRows(|rows|) + KeepBelow(b, Indices(rows), |b|)
  {
    nb := b;
    KeepAll(b, {}, |b|);
    assert Indices(rows[..0]) == {};
    var i := 0;
    while i < |rows|
      invariant 0 <= i <= |rows|
      invariant |nb| == |b| - i
      invariant nb == KeepBelow(b, Indices(rows[..i]), |b|)
    {
      var m := rows[i];
      ghost var gone := Indices(rows[..i]);
      RemoveOne(b, gone, m, |b|);
      nb := nb[..m] + nb[m + 1..];
      assert rows[..i + 1] == rows[..i] + [m];
      Elements(rows[..i], m);
      i := i + 1;
    }
    assert rows[..i] == rows;
    ghost var kept := nb;
    var j := 0;
    while j < |rows|
      invariant 0 <= j <= |rows|
      invariant nb == EmptyRows(j) + kept
    {
      nb := [EmptyRow()] + nb;
      assert [EmptyRow()] + EmptyRows(j) == EmptyRows(j + 1);
      j := j + 1;
    }
  }

  /** The rows of b that are not full, in their original order. */
  function NonFull(b: Grid): Grid
  {
    if b == [] then [] else NonFull(b[..|b| - 1]) + (if IsFullRow(b[|b| - 1]) then [] else [b[|b| - 1]])
  }

  lemma {:induction false} NonFullRows(b: Grid)
    ensures forall r :: r in NonFull(b) ==> r in b && !IsFullRow(r)
  {
    if b != [] {
      NonFullRows(b[..|b| - 1]);
    }
  }

  /** Removing exactly the full rows by index leaves the non-full rows in order. */
  lemma {:induction false} KeepIsNonFull(b: Grid, gone: set<int>, n: int)
    requires 0 <= n <= |b|
    requires forall k :: 0 <= k < n ==> (k in gone <==> IsFullRow(b[k]))
    ensures KeepBelow(b, gone, n) == NonFull(b[..n])
  {
    if n > 0 {
      KeepIsNonFull(b, gone, n - 1);
      assert b[..n][..n - 1] == b[..n - 1];
    }
  }

  /** Every row of b[..n] is either counted as full or kept as non-full. */
  lemma {:induction false} RowsAccountedFor(b: Grid, n: int)
    requires 0 <= n <= |b|
    ensures |NonFull(b[..n])| + |FullRowsBelow(b, n)| == n
  {
    if n > 0 {
      RowsAccountedFor(b, n - 1);
      assert b[..n][..n - 1] == b[..n - 1];
    }
  }

  /**
   * Clearing the full rows of a well-formed board: the result is again ROWS
   * rows of COLS cells, its top n rows are empty (n the number of full rows),
   * the rest are the non-full rows in their original order, and no row is full.
   */
  lemma ClearFullRows(b: Grid)
    requires WellFormed(b)
    ensures var rows := FullRows(b);
      var nb := EmptyRows(|rows|) + KeepBelow(b, Indices(rows), |b|);
      && WellFormed(nb)
      && nb[..|rows|] == EmptyRows(|rows|)
      && nb[|rows|..] == NonFull(b)
      && forall r :: 0 <= r < |nb| ==> !IsFullRow(nb[r])
  {
    var rows := FullRows(b);
    FullRowsSpec(b);
    var gone := Indices(rows);
    KeepIsNonFull(b, gone, |b|);
    assert b[..|b|] == b;
    RowsAccountedFor(b, |b|);
    NonFullRows(b);
    var nb := EmptyRows(|rows|) + NonFull(b);
    forall r | 0 <= r < |nb|
      ensures RowOk(nb[r]) && !IsFullRow(nb[r])
    {
      if r < |rows| {
        assert nb[r] == EmptyRow();
        assert EmptyRow()[0] == 0;
      } else {
        assert nb[r] in NonFull(b);
      }
    }
  }

  /** Compacting any recorded rows keeps a well-formed board well-formed. */
  lemma CompactWellFormed(b: Grid, rows: seq<int>, nb: Grid)
    requires WellFormed(b)
    requires |nb| == |b|
    requires nb == EmptyRows(|rows|) + KeepBelow(b, Indices(rows), |b|)
    ensures WellFormed(nb)
  {
    KeepBelowRows(b, Indices(rows), |b|);
    forall r | 0 <= r < |nb|
      ensures RowOk(nb[r])
    {
      if r >= |rows| {
        assert nb[r] in KeepBelow(b, Indices(rows), |b|);
      }
    }
  }
}
