/** Two-dimensional numpy arrays as Dafny `array2`s, and their contents as
    rectangular sequences of rows for use in specifications. */
module Grids {
  /** The contents of an array, row by row. */
  ghost function Snapshot<T>(a: array2<T>): (g: seq<seq<T>>)
    reads a
    ensures |g| == a.Length0
    ensures forall i :: 0 <= i < a.Length0 ==> |g[i]| == a.Length1
    ensures forall i, j :: 0 <= i < a.Length0 && 0 <= j < a.Length1 ==> g[i][j] == a[i, j]
  {
    seq(a.Length0, i requires 0 <= i < a.Length0 reads a => seq(a.Length1, j requires 0 <= j < a.Length1 reads a => a[i, j]))
  }

  /** Every row has `cols` entries. */
  ghost predicate Rect<T>(g: seq<seq<T>>, cols: nat) {
    forall i :: 0 <= i < |g| ==> |g[i]| == cols
  }

  /** Two arrays of the same shape. */
  predicate SameShape<S, T>(a: array2<S>, b: array2<T>) {
    a.Length0 == b.Length0 && a.Length1 == b.Length1
  }

  /** Rectangular grids with the same entries are equal. */
  lemma SameGrid<T>(a: seq<seq<T>>, b: seq<seq<T>>, cols: nat)
    requires |a| == |b| && Rect(a, cols) && Rect(b, cols)
    requires forall i, j :: 0 <= i < |a| && 0 <= j < cols ==> a[i][j] == b[i][j]
    ensures a == b
  {
    forall i | 0 <= i < |a| ensures a[i] == b[i] {
      assert forall j :: 0 <= j < cols ==> a[i][j] == b[i][j];
    }
  }
}
