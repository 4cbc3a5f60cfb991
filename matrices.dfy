/** Dense real matrices as values, and the value held by a two-dimensional array. */
module Matrices {

  type Matrix = seq<seq<real>>

  predicate IsShape(m: Matrix, rows: nat, cols: nat) {
    |m| == rows && forall i :: 0 <= i < rows ==> |m[i]| == cols
  }

  /** The contents of a two-dimensional array, row by row. */
  ghost function Snapshot(a: array2<real>): (m: Matrix)
    reads a
    ensures IsShape(m, a.Length0, a.Length1)
    ensures forall i, j :: 0 <= i < a.Length0 && 0 <= j < a.Length1 ==> m[i][j] == a[i, j]
  {
    seq(a.Length0, i requires 0 <= i < a.Length0 reads a =>
      seq(a.Length1, j requires 0 <= j < a.Length1 reads a => a[i, j]))
  }

  /** Two matrices of one shape that agree entry by entry are equal. */
  lemma MatrixEquality(m1: Matrix, m2: Matrix, rows: nat, cols: nat)
    requires IsShape(m1, rows, cols) && IsShape(m2, rows, cols)
    requires forall i, j :: 0 <= i < rows && 0 <= j < cols ==> m1[i][j] == m2[i][j]
    ensures m1 == m2
  {
    forall i | 0 <= i < rows
      ensures m1[i] == m2[i]
    {
      assert forall j :: 0 <= j < cols ==> m1[i][j] == m2[i][j];
    }
  }

  /** Two one-column matrices with the same number of rows that agree in column 0 are equal. */
  lemma ColumnEquality(m1: Matrix, m2: Matrix, rows: nat)
    requires IsShape(m1, rows, 1) && IsShape(m2, rows, 1)
    requires forall i :: 0 <= i < rows ==> m1[i][0] == m2[i][0]
    ensures m1 == m2
  {
    forall i | 0 <= i < rows
      ensures m1[i] == m2[i]
    {
      assert m1[i] == [m1[i][0]] && m2[i] == [m2[i][0]];
    }
  }
}
