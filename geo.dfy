/** Model of `GeoFile` in scripts/VIIRS_threshold_reflCor_Bulk.py: the
    latitude, longitude and solar zenith grids of one granule, and the three
    operations that relate them to a mask of confirmed pixels. Masks are
    integer grids in which 1 marks a confirmed pixel. */
module Geo {
  import opened Wrappers
  import opened Grids

  /** The geographic window of a run: inclusive latitude and longitude bounds. */
  datatype Window = Window(north: real, south: real, west: real, east: real)

  /** A point strictly beyond one of the four edges of the window. */
  predicate Outside(w: Window, lat: real, lon: real) {
    lat > w.north || lat < w.south || lon < w.west || lon > w.east
  }

  /** The cell coordinates of row `r` of a mask, from column `j` on, whose
      entry is 1, left to right. */
  function RowOnes(row: seq<int>, r: nat, j: nat): (s: seq<(nat, nat)>)
    decreases |row| - j
    ensures forall k :: 0 <= k < |s| ==> s[k].0 == r && j <= s[k].1 < |row| && row[s[k].1] == 1
  {
    if j >= |row| then []
    else (if row[j] == 1 then [(r, j)] else []) + RowOnes(row, r, j + 1)
  }

  /** The coordinates of the cells of a mask, from row `i` on, whose entry is
      1, in row-major order: what `np.where(confirmed == 1)` selects. */
  function Ones(g: seq<seq<int>>, i: nat): (s: seq<(nat, nat)>)
    decreases |g| - i
    ensures forall k :: 0 <= k < |s| ==> i <= s[k].0 < |g| && s[k].1 < |g[s[k].0]| && g[s[k].0][s[k].1] == 1
  {
    if i >= |g| then [] else RowOnes(g[i], i, 0) + Ones(g, i + 1)
  }

  lemma OnesUnfold(g: seq<seq<int>>, i: nat)
    requires i < |g|
    ensures Ones(g, i) == RowOnes(g[i], i, 0) + Ones(g, i + 1)
  {
  }

  /** One pass of `make_list`'s row loop: the cells collected so far followed
      by the 1-cells from row i on are those cells and row i's 1-cells,
      followed by the 1-cells after row i. */
  lemma OnesStep(g: seq<seq<int>>, i: nat, cells: seq<(nat, nat)>)
    requires i < |g|
    ensures cells + Ones(g, i) == (cells + RowOnes(g[i], i, 0)) + Ones(g, i + 1)
  {
    OnesUnfold(g, i);
  }

  /** The set of cells of a mask whose entry is 1. */
  ghost function OneCells(g: seq<seq<int>>): set<(nat, nat)> {
    set r: nat, c: nat | r < |g| && c < |g[r]| && g[r][c] == 1 :: (r, c)
  }

  /** Strict row-major order of cell coordinates. */
  predicate Before(p: (nat, nat), q: (nat, nat)) {
    p.0 < q.0 || (p.0 == q.0 && p.1 < q.1)
  }

  predicate RowMajor(s: seq<(nat, nat)>) {
    forall a, b :: 0 <= a < b < |s| ==> Before(s[a], s[b])
  }

  /** Every 1 of a row from column `j` on is listed. */
  lemma {:induction false} RowOnesComplete(row: seq<int>, r: nat, j: nat, c: nat)
    requires j <= c < |row| && row[c] == 1
    ensures (r, c) in RowOnes(row, r, j)
    decreases |row| - j
  {
    if j < c {
      RowOnesComplete(row, r, j + 1, c);
    }
  }

  lemma {:induction false} RowOnesSorted(row: seq<int>, r: nat, j: nat)
    ensures RowMajor(RowOnes(row, r, j))
    decreases |row| - j
  {
    if j < |row| {
      RowOnesSorted(row, r, j + 1);
    }
  }

  /** `np.where(confirmed == 1)` misses no cell whose entry is 1. */
  lemma {:induction false} OnesComplete(g: seq<seq<int>>, i: nat, r: nat, c: nat)
    requires i <= r < |g| && c < |g[r]| && g[r][c] == 1
    ensures (r, c) in Ones(g, i)
    decreases |g| - i
  {
    OnesUnfold(g, i);
    var a, b := RowOnes(g[i], i, 0), Ones(g, i + 1);
    if i < r {
      OnesComplete(g, i + 1, r, c);
      var k :| 0 <= k < |b| && b[k] == (r, c);
      assert (a + b)[|a| + k] == (r, c);
    } else {
      RowOnesComplete(g[r], r, 0, c);
      var k :| 0 <= k < |a| && a[k] == (r, c);
      assert (a + b)[k] == (r, c);
    }
  }

  /** The selected cells come in strict row-major order. */
  lemma {:induction false} OnesSorted(g: seq<seq<int>>, i: nat)
    ensures RowMajor(Ones(g, i))
    decreases |g| - i
  {
    if i < |g| {
      RowOnesSorted(g[i], i, 0);
      OnesSorted(g, i + 1);
      var a, b := RowOnes(g[i], i, 0), Ones(g, i + 1);
      forall x, y | 0 <= x < y < |a + b| ensures Before((a + b)[x], (a + b)[y]) {
        if y < |a| {
        } else if x >= |a| {
          assert (a + b)[x] == b[x - |a|] && (a + b)[y] == b[y - |a|];
        } else {
          assert (a + b)[x] == a[x] && (a + b)[y] == b[y - |a|];
        }
      }
    }
  }

  /** A sequence in strict order lists each of its elements once. */
  lemma {:induction false} SortedCard(s: seq<(nat, nat)>)
    requires RowMajor(s)
    ensures |set k | 0 <= k < |s| :: s[k]| == |s|
  {
    if s != [] {
      var t := s[1..];
      assert RowMajor(t) by {
        forall a, b | 0 <= a < b < |t| ensures Before(t[a], t[b]) {
          assert t[a] == s[a + 1] && t[b] == s[b + 1];
        }
      }
      SortedCard(t);
      var st := set k | 0 <= k < |t| :: t[k];
      var ss := set k | 0 <= k < |s| :: s[k];
      assert ss == {s[0]} + st by {
        forall p | p in ss ensures p in {s[0]} + st {
          var k :| 0 <= k < |s| && s[k] == p;
          if k > 0 { assert t[k - 1] == p; }
        }
        forall p | p in st ensures p in ss {
          var k :| 0 <= k < |t| && t[k] == p;
          assert s[k + 1] == p;
        }
      }
      assert s[0] !in st by {
        forall k | 0 <= k < |t| ensures t[k] != s[0] {
          assert Before(s[0], s[k + 1]);
        }
      }
    }
  }

  /** `make_list` returns exactly one coordinate pair per confirmed pixel. */
  lemma OnesCount(g: seq<seq<int>>)
    ensures |Ones(g, 0)| == |OneCells(g)|
  {
    var s := Ones(g, 0);
    OnesSorted(g, 0);
    SortedCard(s);
    var listed := set k | 0 <= k < |s| :: s[k];
    assert listed == OneCells(g) by {
      forall p | p in OneCells(g) ensures p in listed {
        OnesComplete(g, 0, p.0, p.1);
        var k :| 0 <= k < |s| && s[k] == p;
      }
    }
  }

  class GeoFile {
    /** `LatArray` and `LonArray`. */
    var latArray: array2<real>
    var lonArray: array2<real>
    /** `SolZen`: read for the 750 m geolocation only. */
    var solZen: array2?<real>

    /** `GeoFile750.load` once the three datasets have been read. */
    constructor Load750(lat: array2<real>, lon: array2<real>, zen: array2<real>)
      ensures latArray == lat && lonArray == lon && solZen == zen
    {
      latArray, lonArray, solZen := lat, lon, zen;
    }

    /** `GeoFile375.load` once the two datasets have been read. */
    constructor Load375(lat: array2<real>, lon: array2<real>)
      ensures latArray == lat && lonArray == lon && solZen == null
    {
      latArray, lonArray, solZen := lat, lon, null;
    }

    /** `apply_window`: with a window configured, every pixel outside it is
        cleared; every other pixel, and every pixel when no window is
        configured, keeps its value. */
    method ApplyWindow(window: Option<Window>, confirmed: array2<int>)
      requires SameShape(confirmed, latArray) && SameShape(confirmed, lonArray)
      modifies confirmed
      ensures forall i, j :: 0 <= i < confirmed.Length0 && 0 <= j < confirmed.Length1 ==>
        confirmed[i, j] == if window.Some? && Outside(window.value, latArray[i, j], lonArray[i, j]) then 0 else old(confirmed[i, j])
    {
      if window.Some? {
        var w := window.value;
        for i := 0 to confirmed.Length0
          invariant forall r, c :: 0 <= r < confirmed.Length0 && 0 <= c < confirmed.Length1 ==>
            confirmed[r, c] == if r < i && Outside(w, latArray[r, c], lonArray[r, c]) then 0 else old(confirmed[r, c])
        {
          for j := 0 to confirmed.Length1
            invariant forall r, c :: 0 <= r < confirmed.Length0 && 0 <= c < confirmed.Length1 ==>
              confirmed[r, c] == if (r < i || (r == i && c < j)) && Outside(w, latArray[r, c], lonArray[r, c]) then 0 else old(confirmed[r, c])
          {
            if Outside(w, latArray[i, j], lonArray[i, j]) {
              confirmed[i, j] := 0;
            }
          }
        }
      }
    }

    /** `list` holds the (latitude, longitude) of the cells `cells`, one by one. */
    ghost predicate Lists(list: seq<(real, real)>, cells: seq<(nat, nat)>)
      reads this, latArray, lonArray
    {
      |list| == |cells| &&
      forall k :: 0 <= k < |cells| ==>
        (cells[k].0 < latArray.Length0 && cells[k].1 < latArray.Length1 &&
         cells[k].0 < lonArray.Length0 && cells[k].1 < lonArray.Length1 &&
         list[k] == (latArray[cells[k].0, cells[k].1], lonArray[cells[k].0, cells[k].1]))
    }

    lemma ListsAppend(a: seq<(real, real)>, x: seq<(nat, nat)>, b: seq<(real, real)>, y: seq<(nat, nat)>)
      requires Lists(a, x) && Lists(b, y)
      ensures Lists(a + b, x + y)
    {
      forall k | |x| <= k < |x + y| ensures (x + y)[k] == y[k - |x|] && (a + b)[k] == b[k - |x|] { }
    }

    /** `make_list`: the (latitude, longitude) of every pixel marked 1, in
        row-major order. */
    method MakeList(confirmed: array2<int>) returns (list: seq<(real, real)>)
      requires SameShape(confirmed, latArray) && SameShape(confirmed, lonArray)
      ensures Lists(list, Ones(Snapshot(confirmed), 0))
    {
      ghost var g := Snapshot(confirmed);
      ghost var cells: seq<(nat, nat)> := [];
      list := [];
      for i := 0 to confirmed.Length0
        invariant cells + Ones(g, i) == Ones(g, 0)
        invariant Lists(list, cells)
      {
        var row := RowList(confirmed, i, g);
        ghost var here := RowOnes(g[i], i, 0);
        ListsAppend(list, cells, row, here);
        OnesStep(g, i, cells);
        list := list + row;
        cells := cells + here;
      }
    }

    /** One row of `make_list`. */
    method RowList(confirmed: array2<int>, i: nat, ghost g: seq<seq<int>>) returns (row: seq<(real, real)>)
      requires SameShape(confirmed, latArray) && SameShape(confirmed, lonArray)
      requires i < confirmed.Length0 && g == Snapshot(confirmed)
      ensures Lists(row, RowOnes(g[i], i, 0))
    {
      ghost var cells: seq<(nat, nat)> := [];
      row := [];
      for j := 0 to confirmed.Length1
        invariant cells + RowOnes(g[i], i, j) == RowOnes(g[i], i, 0)
        invariant Lists(row, cells)
      {
        ghost var here: seq<(nat, nat)> := if g[i][j] == 1 then [(i, j)] else [];
        assert cells + RowOnes(g[i], i, j) == (cells + here) + RowOnes(g[i], i, j + 1);
        if confirmed[i, j] == 1 {
          ListsAppend(row, cells, [(latArray[i, j], lonArray[i, j])], [(i, j)]);
          row := row + [(latArray[i, j], lonArray[i, j])];
        }
        cells := cells + here;
      }
    }

    /** `day_pixels`: true exactly where the sun is higher than the given
        zenith angle. */
    method DayPixels(zenith: real) returns (day: array2<bool>)
      requires solZen != null
      ensures fresh(day) && SameShape(day, solZen)
      ensures forall i, j :: 0 <= i < day.Length0 && 0 <= j < day.Length1 ==> (day[i, j] <==> solZen[i, j] < zenith)
    {
      var zen := solZen;
      day := new bool[zen.Length0, zen.Length1]((i, j) reads zen =>
        if 0 <= i < zen.Length0 && 0 <= j < zen.Length1 then zen[i, j] < zenith else false);
    }
  }
}
