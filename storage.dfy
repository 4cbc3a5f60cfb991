/**
  The rows the weight store receives from SaveWeightsAsync and gives back to
  LoadWeightsFromDatabaseAsync: one (row index, column index, weight) triple
  per weight. The SQL text, the table and column names and the connection
  are not modelled; the store is the sequence of triples itself.
 */
module Storage {
  import opened Matrices

  datatype WeightRow = WeightRow(row: nat, col: nat, weight: real)

  /** NaN is written as 0. The reals have no NaN, so the test is a parameter. */
  function Sanitize(w: real, isNaN: real -> bool): (r: real)
    ensures isNaN(w) ==> r == 0.0
    ensures !isNaN(w) ==> r == w
  {
    if isNaN(w) then 0.0 else w
  }

  function SanitizeMatrix(m: Matrix, isNaN: real -> bool): (r: Matrix)
    ensures |r| == |m| && forall i :: 0 <= i < |m| ==> |r[i]| == |m[i]|
    ensures forall i, j :: 0 <= i < |m| && 0 <= j < |m[i]| ==> r[i][j] == Sanitize(m[i][j], isNaN)
  {
    seq(|m|, i requires 0 <= i < |m| =>
      seq(|m[i]|, j requires 0 <= j < |m[i]| => Sanitize(m[i][j], isNaN)))
  }

  /** Row-major order: (i, j) comes before (i', j') when i < i', or i == i' and j < j'. */
  predicate Before(a: WeightRow, b: WeightRow) {
    a.row < b.row || (a.row == b.row && a.col < b.col)
  }

  /** The triples of the first n columns of row i, as the inner loop emits them. */
  function RowTriples(m: Matrix, i: nat, n: nat, isNaN: real -> bool): (t: seq<WeightRow>)
    requires i < |m| && n <= |m[i]|
    ensures |t| == n
  {
    if n == 0 then []
    else RowTriples(m, i, n - 1, isNaN) + [WeightRow(i, n - 1, Sanitize(m[i][n - 1], isNaN))]
  }

  /** The triples SaveWeightsAsync inserts for the first `rows` rows and `cols` columns. */
  function SaveTriples(m: Matrix, rows: nat, cols: nat, isNaN: real -> bool): (t: seq<WeightRow>)
    requires rows <= |m| && forall i :: 0 <= i < rows ==> cols <= |m[i]|
  {
    if rows == 0 then []
    else SaveTriples(m, rows - 1, cols, isNaN) + RowTriples(m, rows - 1, cols, isNaN)
  }

  lemma {:induction false} RowTriplesFacts(m: Matrix, i: nat, n: nat, isNaN: real -> bool)
    requires i < |m| && n <= |m[i]|
    ensures |RowTriples(m, i, n, isNaN)| == n
    ensures forall k :: 0 <= k < n ==>
      RowTriples(m, i, n, isNaN)[k] == WeightRow(i, k, Sanitize(m[i][k], isNaN))
  {
    if n > 0 {
      RowTriplesFacts(m, i, n - 1, isNaN);
    }
  }

  /** Every triple carries in-range indices and the sanitized weight stored at them. */
  ghost predicate EntriesFrom(m: Matrix, t: seq<WeightRow>, rows: nat, cols: nat, isNaN: real -> bool)
    requires rows <= |m| && forall i :: 0 <= i < rows ==> cols <= |m[i]|
  {
    forall k :: 0 <= k < |t| ==>
      t[k].row < rows && t[k].col < cols && t[k].weight == Sanitize(m[t[k].row][t[k].col], isNaN)
  }

  /** Every pair of triples is in strictly increasing row-major order. */
  ghost predicate Ordered(t: seq<WeightRow>) {
    forall k1, k2 :: 0 <= k1 < k2 < |t| ==> Before(t[k1], t[k2])
  }

  lemma {:induction false} SaveTriplesEntries(m: Matrix, rows: nat, cols: nat, isNaN: real -> bool)
    requires rows <= |m| && forall i :: 0 <= i < rows ==> cols <= |m[i]|
    ensures EntriesFrom(m, SaveTriples(m, rows, cols, isNaN), rows, cols, isNaN)
  {
    if rows > 0 {
      SaveTriplesEntries(m, rows - 1, cols, isNaN);
      RowTriplesFacts(m, rows - 1, cols, isNaN);
      var prefix := SaveTriples(m, rows - 1, cols, isNaN);
      var row := RowTriples(m, rows - 1, cols, isNaN);
      var t := prefix + row;
      assert t == SaveTriples(m, rows, cols, isNaN);
      forall k | 0 <= k < |t|
        ensures t[k].row < rows && t[k].col < cols && t[k].weight == Sanitize(m[t[k].row][t[k].col], isNaN)
      {
        if k < |prefix| {
          assert t[k] == prefix[k];
        } else {
          assert t[k] == row[k - |prefix|];
        }
      }
    }
  }

  lemma {:induction false} SaveTriplesOrdered(m: Matrix, rows: nat, cols: nat, isNaN: real -> bool)
    requires rows <= |m| && forall i :: 0 <= i < rows ==> cols <= |m[i]|
    ensures Ordered(SaveTriples(m, rows, cols, isNaN))
  {
    if rows > 0 {
      SaveTriplesOrdered(m, rows - 1, cols, isNaN);
      SaveTriplesEntries(m, rows - 1, cols, isNaN);
      RowTriplesFacts(m, rows - 1, cols, isNaN);
      var prefix := SaveTriples(m, rows - 1, cols, isNaN);
      var row := RowTriples(m, rows - 1, cols, isNaN);
      var t := prefix + row;
      assert t == SaveTriples(m, rows, cols, isNaN);
      forall k1, k2 | 0 <= k1 < k2 < |t|
        ensures Before(t[k1], t[k2])
      {
        if k1 >= |prefix| {
          assert t[k1] == row[k1 - |prefix|] && t[k2] == row[k2 - |prefix|];
        } else if k2 >= |prefix| {
          assert t[k1] == prefix[k1] && t[k2] == row[k2 - |prefix|];
          assert prefix[k1].row < rows - 1;
        } else {
          assert t[k1] == prefix[k1] && t[k2] == prefix[k2];
        }
      }
    }
  }

  /**
    Saving emits rows * cols triples, in strictly increasing row-major order (so
    no index pair twice); each one carries in-range indices and the sanitized
    weight stored at them.
   */
  lemma SaveTriplesFacts(m: Matrix, rows: nat, cols: nat, isNaN: real -> bool)
    requires rows <= |m| && forall i :: 0 <= i < rows ==> cols <= |m[i]|
    ensures var t := SaveTriples(m, rows, cols, isNaN);
      && |t| == rows * cols
      && (forall k :: 0 <= k < |t| ==>
            t[k].row < rows && t[k].col < cols && t[k].weight == Sanitize(m[t[k].row][t[k].col], isNaN))
      && (forall k1, k2 :: 0 <= k1 < k2 < |t| ==> Before(t[k1], t[k2]))
  {
    SaveTriplesLength(m, rows, cols, isNaN);
    SaveTriplesEntries(m, rows, cols, isNaN);
    SaveTriplesOrdered(m, rows, cols, isNaN);
  }

  lemma {:induction false} SaveTriplesLength(m: Matrix, rows: nat, cols: nat, isNaN: real -> bool)
    requires rows <= |m| && forall i :: 0 <= i < rows ==> cols <= |m[i]|
    ensures |SaveTriples(m, rows, cols, isNaN)| == rows * cols
  {
    if rows > 0 {
      SaveTriplesLength(m, rows - 1, cols, isNaN);
      MulSucc(rows - 1, cols);
    }
  }

  lemma MulSucc(a: nat, c: nat)
    ensures (a + 1) * c == a * c + c
  {
  }

  lemma MulMonotone(a: nat, b: nat, c: nat)
    requires a <= b
    ensures a * c <= b * c
  {
  }

  /** The weight at (i, j) is the (i * cols + j)-th triple: the visit order is row-major. */
  lemma {:induction false} SaveTriplesAt(m: Matrix, rows: nat, cols: nat, isNaN: real -> bool, i: nat, j: nat)
    requires rows <= |m| && forall r :: 0 <= r < rows ==> cols <= |m[r]|
    requires i < rows && j < cols
    ensures i * cols + j < |SaveTriples(m, rows, cols, isNaN)|
    ensures SaveTriples(m, rows, cols, isNaN)[i * cols + j] == WeightRow(i, j, Sanitize(m[i][j], isNaN))
  {
    SaveTriplesLength(m, rows - 1, cols, isNaN);
    RowTriplesFacts(m, rows - 1, cols, isNaN);
    var prefix := SaveTriples(m, rows - 1, cols, isNaN);
    var row := RowTriples(m, rows - 1, cols, isNaN);
    var t := SaveTriples(m, rows, cols, isNaN);
    assert t == prefix + row;
    var idx := i * cols + j;
    if i == rows - 1 {
      assert idx == |prefix| + j;
      assert t[idx] == row[j];
    } else {
      SaveTriplesAt(m, rows - 1, cols, isNaN, i, j);
      MulMonotone(i + 1, rows - 1, cols);
      MulSucc(i, cols);
      assert idx < |prefix|;
      assert t[idx] == prefix[idx];
    }
  }

  predicate InBounds(m: Matrix, rows: seq<WeightRow>) {
    forall k :: 0 <= k < |rows| ==> rows[k].row < |m| && rows[k].col < |m[rows[k].row]|
  }

  /** One row read back from the store: weights[i, j] = weight. */
  function Store(m: Matrix, r: WeightRow): (m': Matrix)
    requires r.row < |m| && r.col < |m[r.row]|
    ensures |m'| == |m| && forall i :: 0 <= i < |m| ==> |m'[i]| == |m[i]|
  {
    m[r.row := m[r.row][r.col := r.weight]]
  }

  /** Loading: every triple, in the order read, overwrites its entry. */
  function Load(m: Matrix, rows: seq<WeightRow>): (m': Matrix)
    requires InBounds(m, rows)
    ensures |m'| == |m| && forall i :: 0 <= i < |m| ==> |m'[i]| == |m[i]|
  {
    if rows == [] then m
    else Store(Load(m, rows[..|rows| - 1]), rows[|rows| - 1])
  }

  lemma {:induction false} LoadAppend(m: Matrix, a: seq<WeightRow>, b: seq<WeightRow>)
    requires InBounds(m, a + b)
    ensures InBounds(m, a) && InBounds(Load(m, a), b)
    ensures Load(m, a + b) == Load(Load(m, a), b)
  {
    assert forall k :: 0 <= k < |a| ==> (a + b)[k] == a[k];
    assert forall k :: 0 <= k < |b| ==> (a + b)[|a| + k] == b[k];
    if b == [] {
      assert a + b == a;
    } else {
      assert (a + b)[..|a + b| - 1] == a + b[..|b| - 1];
      LoadAppend(m, a, b[..|b| - 1]);
    }
  }

  /** Store changes exactly the entry the triple names. */
  lemma StoreEntries(m: Matrix, r: WeightRow)
    requires r.row < |m| && r.col < |m[r.row]|
    ensures forall i, j :: 0 <= i < |m| && 0 <= j < |m[i]| ==>
      Store(m, r)[i][j] == if i == r.row && j == r.col then r.weight else m[i][j]
  {
  }

  /** Loading one more triple stores it over what the others loaded. */
  lemma LoadSnoc(m: Matrix, rows: seq<WeightRow>, r: WeightRow)
    requires InBounds(m, rows) && r.row < |m| && r.col < |m[r.row]|
    ensures InBounds(m, rows + [r])
    ensures Load(m, rows + [r]) == Store(Load(m, rows), r)
  {
    assert (rows + [r])[..|rows|] == rows;
  }

  /** loaded is m0 with the first n entries of row i replaced by the sanitized entries of m. */
  ghost predicate RowLoaded(m0: Matrix, m: Matrix, loaded: Matrix, i: nat, n: nat, isNaN: real -> bool) {
    && i < |m| && n <= |m[i]|
    && |loaded| == |m0| && (forall r :: 0 <= r < |m0| ==> |loaded[r]| == |m0[r]|)
    && forall r, j :: 0 <= r < |m0| && 0 <= j < |m0[r]| ==>
      loaded[r][j] == if r == i && j < n then Sanitize(m[r][j], isNaN) else m0[r][j]
  }

  /** Storing entry (i, n - 1) over the first n - 1 entries of row i gives the first n. */
  lemma RowLoadedStep(m0: Matrix, m: Matrix, prev: Matrix, i: nat, n: nat, isNaN: real -> bool)
    requires 0 < n && RowLoaded(m0, m, prev, i, n - 1, isNaN) && n <= |m[i]| && i < |m0| && n <= |m0[i]|
    ensures RowLoaded(m0, m, Store(prev, WeightRow(i, n - 1, Sanitize(m[i][n - 1], isNaN))), i, n, isNaN)
  {
    var last := WeightRow(i, n - 1, Sanitize(m[i][n - 1], isNaN));
    StoreEntries(prev, last);
  }

  /** Loading the first n triples of row i sets exactly those n entries. */
  lemma {:induction false} LoadRow(m0: Matrix, m: Matrix, i: nat, n: nat, isNaN: real -> bool)
    requires i < |m| && n <= |m[i]| && i < |m0| && n <= |m0[i]|
    ensures InBounds(m0, RowTriples(m, i, n, isNaN))
    ensures RowLoaded(m0, m, Load(m0, RowTriples(m, i, n, isNaN)), i, n, isNaN)
  {
    if n > 0 {
      var prefix := RowTriples(m, i, n - 1, isNaN);
      var last := WeightRow(i, n - 1, Sanitize(m[i][n - 1], isNaN));
      LoadRow(m0, m, i, n - 1, isNaN);
      LoadSnoc(m0, prefix, last);
      assert RowTriples(m, i, n, isNaN) == prefix + [last];
      RowLoadedStep(m0, m, Load(m0, prefix), i, n, isNaN);
    }
  }

  lemma SaveInBounds(m0: Matrix, m: Matrix, rows: nat, cols: nat, isNaN: real -> bool)
    requires IsShape(m0, |m|, cols) && IsShape(m, |m|, cols) && rows <= |m|
    ensures InBounds(m0, SaveTriples(m, rows, cols, isNaN))
  {
    SaveTriplesFacts(m, rows, cols, isNaN);
  }

  /** loaded is m0 with its first `rows` rows replaced by the sanitized rows of m. */
  ghost predicate RowsLoaded(m0: Matrix, m: Matrix, loaded: Matrix, rows: nat, cols: nat, isNaN: real -> bool) {
    && IsShape(m0, |m|, cols) && IsShape(m, |m|, cols) && IsShape(loaded, |m|, cols)
    && forall i, j :: 0 <= i < |m| && 0 <= j < cols ==>
      loaded[i][j] == if i < rows then Sanitize(m[i][j], isNaN) else m0[i][j]
  }

  /** Loading row rows - 1 over the first rows - 1 rows loaded gives the first `rows` rows. */
  lemma RowsLoadedStep(m0: Matrix, m: Matrix, mid: Matrix, loaded: Matrix, rows: nat, cols: nat, isNaN: real -> bool)
    requires 0 < rows <= |m|
    requires RowsLoaded(m0, m, mid, rows - 1, cols, isNaN)
    requires RowLoaded(mid, m, loaded, rows - 1, cols, isNaN)
    ensures RowsLoaded(m0, m, loaded, rows, cols, isNaN)
  {
  }

  /** Loading the first `rows` rows of a save into m0 replaces those rows by their sanitized values. */
  lemma {:induction false} LoadSaved(m0: Matrix, m: Matrix, rows: nat, cols: nat, isNaN: real -> bool)
    requires IsShape(m0, |m|, cols) && IsShape(m, |m|, cols) && rows <= |m|
    ensures InBounds(m0, SaveTriples(m, rows, cols, isNaN))
    ensures RowsLoaded(m0, m, Load(m0, SaveTriples(m, rows, cols, isNaN)), rows, cols, isNaN)
  {
    SaveInBounds(m0, m, rows, cols, isNaN);
    if rows > 0 {
      var prefix := SaveTriples(m, rows - 1, cols, isNaN);
      var row := RowTriples(m, rows - 1, cols, isNaN);
      LoadSaved(m0, m, rows - 1, cols, isNaN);
      LoadAppend(m0, prefix, row);
      LoadRow(Load(m0, prefix), m, rows - 1, cols, isNaN);
      RowsLoadedStep(m0, m, Load(m0, prefix), Load(Load(m0, prefix), row), rows, cols, isNaN);
    }
  }

  /** Saving a whole matrix and loading it back over any matrix of its shape gives the matrix with NaN replaced by 0. */
  lemma SaveLoadRoundTrip(m0: Matrix, m: Matrix, rows: nat, cols: nat, isNaN: real -> bool)
    requires IsShape(m0, rows, cols) && IsShape(m, rows, cols)
    ensures InBounds(m0, SaveTriples(m, rows, cols, isNaN))
    ensures Load(m0, SaveTriples(m, rows, cols, isNaN)) == SanitizeMatrix(m, isNaN)
  {
    LoadSaved(m0, m, rows, cols, isNaN);
    MatrixEquality(Load(m0, SaveTriples(m, rows, cols, isNaN)), SanitizeMatrix(m, isNaN), rows, cols);
  }

  /** Without NaN entries the round trip is the identity. */
  lemma SaveLoadIdentity(m0: Matrix, m: Matrix, rows: nat, cols: nat, isNaN: real -> bool)
    requires IsShape(m0, rows, cols) && IsShape(m, rows, cols)
    requires forall i, j :: 0 <= i < rows && 0 <= j < cols ==> !isNaN(m[i][j])
    ensures InBounds(m0, SaveTriples(m, rows, cols, isNaN))
    ensures Load(m0, SaveTriples(m, rows, cols, isNaN)) == m
  {
    SaveLoadRoundTrip(m0, m, rows, cols, isNaN);
    MatrixEquality(SanitizeMatrix(m, isNaN), m, rows, cols);
  }

  /** Given that 0 is not NaN, no triple a save emits carries a NaN weight. */
  lemma SaveNeverWritesNaN(m: Matrix, rows: nat, cols: nat, isNaN: real -> bool)
    requires rows <= |m| && forall i :: 0 <= i < rows ==> cols <= |m[i]|
    requires !isNaN(0.0)
    ensures forall k :: 0 <= k < |SaveTriples(m, rows, cols, isNaN)| ==>
      !isNaN(SaveTriples(m, rows, cols, isNaN)[k].weight)
  {
    SaveTriplesEntries(m, rows, cols, isNaN);
  }

  /** No two triples name the same entry. */
  ghost predicate DistinctPairs(t: seq<WeightRow>) {
    forall a, b :: 0 <= a < b < |t| ==> t[a].row != t[b].row || t[a].col != t[b].col
  }

  /** Some triple names entry (i, j). */
  ghost predicate Written(t: seq<WeightRow>, i: nat, j: nat) {
    exists k :: 0 <= k < |t| && t[k].row == i && t[k].col == j
  }

  /**
    When no two triples name the same entry, loading them puts each triple's
    weight at its entry and leaves every entry no triple names as it was.
   */
  lemma {:induction false} LoadEntries(m: Matrix, t: seq<WeightRow>)
    requires InBounds(m, t) && DistinctPairs(t)
    ensures forall k :: 0 <= k < |t| ==> Load(m, t)[t[k].row][t[k].col] == t[k].weight
    ensures forall i, j :: 0 <= i < |m| && 0 <= j < |m[i]| && !Written(t, i, j) ==> Load(m, t)[i][j] == m[i][j]
  {
    if t != [] {
      var pre := t[..|t| - 1];
      var last := t[|t| - 1];
      assert forall k :: 0 <= k < |pre| ==> pre[k] == t[k];
      LoadEntries(m, pre);
      var before := Load(m, pre);
      assert Load(m, t) == Store(before, last);
      StoreEntries(before, last);
      forall i, j | 0 <= i < |m| && 0 <= j < |m[i]| && !Written(t, i, j)
        ensures Load(m, t)[i][j] == m[i][j]
      {
        forall k | 0 <= k < |pre|
          ensures pre[k].row != i || pre[k].col != j
        {
          assert pre[k] == t[k];
        }
        assert t[|t| - 1] == last;
      }
    }
  }

  /** A sequence holding x at two positions counts x at least twice. */
  lemma TwoCopies(t: seq<WeightRow>, a: nat, b: nat)
    requires a < b < |t| && t[a] == t[b]
    ensures multiset(t)[t[a]] >= 2
  {
    assert t == t[..b] + [t[b]] + t[b + 1..];
    assert t[a] in multiset(t[..b]) by {
      assert t[..b][a] == t[a];
    }
  }

  /** Without two triples naming one entry, no triple occurs twice. */
  lemma {:induction false} DistinctPairsCount(t: seq<WeightRow>, x: WeightRow)
    requires DistinctPairs(t)
    ensures multiset(t)[x] <= 1
  {
    if t != [] {
      var pre := t[..|t| - 1];
      assert t == pre + [t[|t| - 1]];
      assert forall k :: 0 <= k < |pre| ==> pre[k] == t[k];
      DistinctPairsCount(pre, x);
      forall k | 0 <= k < |pre|
        ensures pre[k] != t[|t| - 1]
      {
        assert pre[k] == t[k];
      }
      assert t[|t| - 1] !in multiset(pre);
    }
  }

  /** A reordering of triples that name distinct entries names distinct entries too. */
  lemma PermutationDistinct(a: seq<WeightRow>, b: seq<WeightRow>)
    requires multiset(a) == multiset(b) && DistinctPairs(b)
    ensures DistinctPairs(a)
  {
    forall p, q | 0 <= p < q < |a|
      ensures a[p].row != a[q].row || a[p].col != a[q].col
    {
      assert a[p] in multiset(b) && a[q] in multiset(b);
      var p' :| 0 <= p' < |b| && b[p'] == a[p];
      var q' :| 0 <= q' < |b| && b[q'] == a[q];
      if p' == q' {
        TwoCopies(a, p, q);
        DistinctPairsCount(b, a[p]);
        assert false;
      } else if p' < q' {
        assert b[p'].row != b[q'].row || b[p'].col != b[q'].col;
      } else {
        assert b[q'].row != b[p'].row || b[q'].col != b[p'].col;
      }
    }
  }

  /**
    Loading does not depend on the order the triples come back in, as long as
    no two of them name the same entry.
   */
  lemma LoadOrderIrrelevant(m: Matrix, a: seq<WeightRow>, b: seq<WeightRow>)
    requires InBounds(m, a) && InBounds(m, b) && DistinctPairs(a) && DistinctPairs(b)
    requires multiset(a) == multiset(b)
    ensures Load(m, a) == Load(m, b)
  {
    LoadEntries(m, a);
    LoadEntries(m, b);
    forall i | 0 <= i < |m|
      ensures Load(m, a)[i] == Load(m, b)[i]
    {
      forall j | 0 <= j < |m[i]|
        ensures Load(m, a)[i][j] == Load(m, b)[i][j]
      {
        if Written(a, i, j) {
          var k :| 0 <= k < |a| && a[k].row == i && a[k].col == j;
          assert a[k] in multiset(b);
          var k' :| 0 <= k' < |b| && b[k'] == a[k];
        } else {
          forall k | 0 <= k < |b|
            ensures b[k].row != i || b[k].col != j
          {
            assert b[k] in multiset(a);
            var k' :| 0 <= k' < |a| && a[k'] == b[k];
          }
        }
      }
    }
  }

  /**
    The rows of a save, read back in any order (a SELECT without ORDER BY),
    still load as the saved matrix with NaN replaced by 0.
   */
  lemma LoadSavedAnyOrder(m0: Matrix, m: Matrix, rows: nat, cols: nat, isNaN: real -> bool, stored: seq<WeightRow>)
    requires IsShape(m0, rows, cols) && IsShape(m, rows, cols)
    requires multiset(stored) == multiset(SaveTriples(m, rows, cols, isNaN))
    ensures InBounds(m0, stored)
    ensures Load(m0, stored) == SanitizeMatrix(m, isNaN)
  {
    var saved := SaveTriples(m, rows, cols, isNaN);
    SaveTriplesFacts(m, rows, cols, isNaN);
    assert DistinctPairs(saved) by {
      forall p, q | 0 <= p < q < |saved|
        ensures saved[p].row != saved[q].row || saved[p].col != saved[q].col
      {
        assert Before(saved[p], saved[q]);
      }
    }
    PermutationDistinct(stored, saved);
    forall k | 0 <= k < |stored|
      ensures stored[k].row < |m0| && stored[k].col < |m0[stored[k].row]|
    {
      assert stored[k] in multiset(saved);
      var k' :| 0 <= k' < |saved| && saved[k'] == stored[k];
    }
    SaveLoadRoundTrip(m0, m, rows, cols, isNaN);
    LoadOrderIrrelevant(m0, stored, saved);
  }
}
